/** Split allocations of apps/web/src/lib/bid-comparison.ts: validation, plans, costs and clearing. */
module BidAllocation {
  import opened Options
  import opened BidQuotes

  /** For each RFQ item id, the quantity given to each quote id. */
  type Allocations = map<string, map<string, real>>

  function PerQuote(a: Allocations, rfqItemId: string): map<string, real> {
    if rfqItemId in a then a[rfqItemId] else map[]
  }

  function Qty(a: Allocations, rfqItemId: string, quoteId: string): real {
    var row := PerQuote(a, rfqItemId);
    if quoteId in row then row[quoteId] else 0.0
  }

  ghost predicate NonNegative(a: Allocations) {
    forall i, q :: i in a && q in a[i] ==> a[i][q] >= 0.0
  }

  // ----- the total of one row, whatever order its entries are visited in

  ghost function Total(row: map<string, real>): real
    decreases |row|
  {
    if row == map[] then 0.0
    else
      var k :| k in row;
      row[k] + Total(row - {k})
  }

  lemma {:induction false} TotalWithout(row: map<string, real>, k: string)
    requires k in row
    ensures Total(row) == row[k] + Total(row - {k})
    decreases |row|
  {
    var c :| c in row && Total(row) == row[c] + Total(row - {c});
    if c != k {
      TotalWithout(row - {c}, k);
      TotalWithout(row - {k}, c);
      assert row - {c} - {k} == row - {k} - {c};
    }
  }

  method TotalAllocated(row: map<string, real>) returns (sum: real)
    ensures sum == Total(row)
  {
    sum := 0.0;
    var left := row;
    while left != map[]
      invariant left.Keys <= row.Keys && sum + Total(left) == Total(row)
      decreases |left|
    {
      var k :| k in left;
      TotalWithout(left, k);
      sum := sum + left[k];
      left := left - {k};
    }
  }

  // ----- line lookup

  predicate IsLinked(it: QuoteItem, rfqItemId: string) {
    it.linkedId == Some(rfqItemId) || it.nestedId == Some(rfqItemId)
  }

  function FirstLinked(items: seq<QuoteItem>, rfqItemId: string): Option<QuoteItem> {
    if items == [] then None
    else if IsLinked(items[0], rfqItemId) then Some(items[0])
    else FirstLinked(items[1..], rfqItemId)
  }

  /** The line linked to the RFQ item, else the line at the same position. */
  function QuoteLine(q: Quote, rfqItemId: string, index: nat): Option<QuoteItem> {
    var linked := FirstLinked(q.items, rfqItemId);
    if linked.Some? then linked
    else if index < |q.items| then Some(q.items[index]) else None
  }

  /** A linked line wins over the position, and the first linked line over later ones. */
  lemma {:induction false} LinkedLineWins(q: Quote, rfqItemId: string, index: nat, k: nat)
    requires k < |q.items| && IsLinked(q.items[k], rfqItemId)
    requires forall j :: 0 <= j < k ==> !IsLinked(q.items[j], rfqItemId)
    ensures QuoteLine(q, rfqItemId, index) == Some(q.items[k])
  {
    FirstLinkedAt(q.items, rfqItemId, k);
  }

  lemma {:induction false} FirstLinkedAt(items: seq<QuoteItem>, rfqItemId: string, k: nat)
    requires k < |items| && IsLinked(items[k], rfqItemId)
    requires forall j :: 0 <= j < k ==> !IsLinked(items[j], rfqItemId)
    ensures FirstLinked(items, rfqItemId) == Some(items[k])
  {
    if k > 0 {
      FirstLinkedAt(items[1..], rfqItemId, k - 1);
    }
  }

  lemma {:induction false} NoneLinked(items: seq<QuoteItem>, rfqItemId: string)
    requires forall j :: 0 <= j < |items| ==> !IsLinked(items[j], rfqItemId)
    ensures FirstLinked(items, rfqItemId) == None
  {
    if items != [] {
      NoneLinked(items[1..], rfqItemId);
    }
  }

  /** Without a linked line the position decides, and beyond the quote's lines there is none. */
  lemma PositionDecidesUnlinked(q: Quote, rfqItemId: string, index: nat)
    requires forall j :: 0 <= j < |q.items| ==> !IsLinked(q.items[j], rfqItemId)
    ensures QuoteLine(q, rfqItemId, index) == if index < |q.items| then Some(q.items[index]) else None
  {
    NoneLinked(q.items, rfqItemId);
  }

  lemma {:induction false} LineIsQuoted(q: Quote, rfqItemId: string, index: nat)
    ensures QuoteLine(q, rfqItemId, index).Some? ==> QuoteLine(q, rfqItemId, index).value in q.items
  {
    LinkedIsAmong(q.items, rfqItemId);
  }

  lemma {:induction false} LinkedIsAmong(items: seq<QuoteItem>, rfqItemId: string)
    ensures FirstLinked(items, rfqItemId).Some? ==> FirstLinked(items, rfqItemId).value in items
  {
    if items != [] && !IsLinked(items[0], rfqItemId) {
      LinkedIsAmong(items[1..], rfqItemId);
    }
  }

  function UnitPrice(line: Option<QuoteItem>): real {
    if line.Some? then line.value.unitPrice else 0.0
  }

  function QuotedQty(line: Option<QuoteItem>): real {
    if line.Some? then line.value.quantity else 0.0
  }

  // ----- validation

  datatype AllocationError =
    | ExceedsRequired(item: RfqItem, given: real)
    | NoQuotationLine(quoteId: string, item: RfqItem)
    | ExceedsQuoted(quoteId: string, item: RfqItem, given: real, quoted: real)

  ghost function ItemErrors(items: seq<RfqItem>, a: Allocations): seq<AllocationError> {
    if items == [] then []
    else
      var n := |items| - 1;
      var given := Total(PerQuote(a, items[n].id));
      ItemErrors(items[..n], a)
      + if given > items[n].quantity then [ExceedsRequired(items[n], given)] else []
  }

  function LineErrors(items: seq<RfqItem>, q: Quote, a: Allocations): seq<AllocationError> {
    if items == [] then []
    else
      var n := |items| - 1;
      var qty := Qty(a, items[n].id, q.id);
      var line := QuoteLine(q, items[n].id, n);
      LineErrors(items[..n], q, a)
      + if qty <= 0.0 then []
        else if line.None? then [NoQuotationLine(q.id, items[n])]
        else if qty > line.value.quantity then [ExceedsQuoted(q.id, items[n], qty, line.value.quantity)]
        else []
  }

  function QuoteErrors(items: seq<RfqItem>, quotes: seq<Quote>, a: Allocations): seq<AllocationError> {
    if quotes == [] then []
    else QuoteErrors(items, quotes[..|quotes| - 1], a) + LineErrors(items, quotes[|quotes| - 1], a)
  }

  method CheckItems(items: seq<RfqItem>, a: Allocations) returns (errors: seq<AllocationError>)
    ensures errors == ItemErrors(items, a)
  {
    errors := [];
    for i := 0 to |items|
      invariant errors == ItemErrors(items[..i], a)
    {
      assert items[..i + 1][..i] == items[..i];
      var given := TotalAllocated(PerQuote(a, items[i].id));
      if given > items[i].quantity {
        errors := errors + [ExceedsRequired(items[i], given)];
      }
    }
    assert items[..|items|] == items;
  }

  method CheckQuote(items: seq<RfqItem>, q: Quote, a: Allocations) returns (errors: seq<AllocationError>)
    ensures errors == LineErrors(items, q, a)
  {
    errors := [];
    for i := 0 to |items|
      invariant errors == LineErrors(items[..i], q, a)
    {
      assert items[..i + 1][..i] == items[..i];
      var allocatedQty := Qty(a, items[i].id, q.id);
      if allocatedQty > 0.0 {
        var line := QuoteLine(q, items[i].id, i);
        if line.None? {
          errors := errors + [NoQuotationLine(q.id, items[i])];
        } else if allocatedQty > line.value.quantity {
          errors := errors + [ExceedsQuoted(q.id, items[i], allocatedQty, line.value.quantity)];
        }
      }
    }
    assert items[..|items|] == items;
  }

  method CheckQuotes(items: seq<RfqItem>, quotes: seq<Quote>, a: Allocations) returns (errors: seq<AllocationError>)
    ensures errors == QuoteErrors(items, quotes, a)
  {
    errors := [];
    for j := 0 to |quotes|
      invariant errors == QuoteErrors(items, quotes[..j], a)
    {
      assert quotes[..j + 1][..j] == quotes[..j];
      var more := CheckQuote(items, quotes[j], a);
      errors := errors + more;
    }
    assert quotes[..|quotes|] == quotes;
  }

  method ValidateAllocations(items: seq<RfqItem>, quotations: seq<Quote>, a: Allocations)
    returns (valid: bool, errors: seq<AllocationError>)
    ensures errors == ItemErrors(items, a) + QuoteErrors(items, ActiveQuotations(quotations), a)
    ensures valid <==> errors == []
    ensures valid <==> IsValid(items, quotations, a)
  {
    var itemErrors := CheckItems(items, a);
    var quoteErrors := CheckQuotes(items, ActiveQuotations(quotations), a);
    errors := itemErrors + quoteErrors;
    valid := |errors| == 0;
    NoErrorsMeansValid(items, quotations, a);
  }

  // ----- what validity means

  ghost predicate WithinRequired(items: seq<RfqItem>, a: Allocations) {
    forall i :: 0 <= i < |items| ==> Total(PerQuote(a, items[i].id)) <= items[i].quantity
  }

  ghost predicate WithinQuoted(items: seq<RfqItem>, q: Quote, a: Allocations) {
    forall i :: 0 <= i < |items| && Qty(a, items[i].id, q.id) > 0.0 ==>
      var line := QuoteLine(q, items[i].id, i);
      line.Some? && Qty(a, items[i].id, q.id) <= line.value.quantity
  }

  ghost predicate IsValid(items: seq<RfqItem>, quotations: seq<Quote>, a: Allocations) {
    WithinRequired(items, a) && AllWithinQuoted(items, ActiveQuotations(quotations), a)
  }

  ghost predicate AllWithinQuoted(items: seq<RfqItem>, quotes: seq<Quote>, a: Allocations) {
    forall q :: q in quotes ==> WithinQuoted(items, q, a)
  }

  lemma {:induction false} ItemErrorsMeaning(items: seq<RfqItem>, a: Allocations)
    ensures ItemErrors(items, a) == [] <==> WithinRequired(items, a)
  {
    if items != [] {
      ItemErrorsMeaning(items[..|items| - 1], a);
    }
  }

  lemma {:induction false} LineErrorsMeaning(items: seq<RfqItem>, q: Quote, a: Allocations)
    ensures LineErrors(items, q, a) == [] <==> WithinQuoted(items, q, a)
  {
    if items != [] {
      LineErrorsMeaning(items[..|items| - 1], q, a);
    }
  }

  lemma {:induction false} QuoteErrorsMeaning(items: seq<RfqItem>, quotes: seq<Quote>, a: Allocations)
    ensures QuoteErrors(items, quotes, a) == [] <==> AllWithinQuoted(items, quotes, a)
  {
    if quotes != [] {
      var n := |quotes| - 1;
      QuoteErrorsMeaning(items, quotes[..n], a);
      LineErrorsMeaning(items, quotes[n], a);
      assert quotes == quotes[..n] + [quotes[n]];
      assert AllWithinQuoted(items, quotes, a) <==> AllWithinQuoted(items, quotes[..n], a) && WithinQuoted(items, quotes[n], a);
    }
  }

  lemma {:induction false} NoErrorsMeansValid(items: seq<RfqItem>, quotations: seq<Quote>, a: Allocations)
    ensures ItemErrors(items, a) + QuoteErrors(items, ActiveQuotations(quotations), a) == [] <==> IsValid(items, quotations, a)
  {
    ItemErrorsMeaning(items, a);
    QuoteErrorsMeaning(items, ActiveQuotations(quotations), a);
  }

  // ----- what the errors say

  /** The split gives more of an item than was asked for, and the error says how much. */
  ghost predicate IsOverRequired(e: AllocationError, item: RfqItem, a: Allocations) {
    var given := if item.id in a then Total(a[item.id]) else 0.0;
    given > item.quantity && e.ExceedsRequired? && e.item == item && e.given == given
  }

  /** The split gives this quote some of an item that it has no line for, or more than its line quotes. */
  ghost predicate IsOverQuoted(e: AllocationError, item: RfqItem, index: nat, q: Quote, a: Allocations) {
    item.id in a && q.id in a[item.id] && a[item.id][q.id] > 0.0 &&
    match QuoteLine(q, item.id, index)
    case None => e == NoQuotationLine(q.id, item)
    case Some(line) =>
      && a[item.id][q.id] > line.quantity && e.ExceedsQuoted?
      && e.quoteId == q.id && e.item == item && e.given == a[item.id][q.id] && e.quoted == line.quantity
  }

  ghost predicate NamesItem(e: AllocationError, items: seq<RfqItem>, a: Allocations) {
    exists i :: 0 <= i < |items| && IsOverRequired(e, items[i], a)
  }

  ghost predicate NamesLine(e: AllocationError, items: seq<RfqItem>, q: Quote, a: Allocations) {
    exists i :: 0 <= i < |items| && IsOverQuoted(e, items[i], i, q, a)
  }

  lemma ItemNamedLast(e: AllocationError, items: seq<RfqItem>, a: Allocations)
    requires items != []
    ensures var n := |items| - 1; NamesItem(e, items, a) <==> NamesItem(e, items[..n], a) || IsOverRequired(e, items[n], a)
  {
    var n := |items| - 1;
    if NamesItem(e, items, a) {
      var i :| 0 <= i < |items| && IsOverRequired(e, items[i], a);
      assert i < n ==> IsOverRequired(e, items[..n][i], a);
    }
    if NamesItem(e, items[..n], a) {
      var i :| 0 <= i < n && IsOverRequired(e, items[..n][i], a);
      assert IsOverRequired(e, items[i], a);
    }
  }

  lemma LineNamedLast(e: AllocationError, items: seq<RfqItem>, q: Quote, a: Allocations)
    requires items != []
    ensures var n := |items| - 1; NamesLine(e, items, q, a) <==> NamesLine(e, items[..n], q, a) || IsOverQuoted(e, items[n], n, q, a)
  {
    var n := |items| - 1;
    if NamesLine(e, items, q, a) {
      var i :| 0 <= i < |items| && IsOverQuoted(e, items[i], i, q, a);
      assert i < n ==> IsOverQuoted(e, items[..n][i], i, q, a);
    }
    if NamesLine(e, items[..n], q, a) {
      var i :| 0 <= i < n && IsOverQuoted(e, items[..n][i], i, q, a);
      assert IsOverQuoted(e, items[i], i, q, a);
    }
  }

  lemma {:induction false} ItemErrorsSay(items: seq<RfqItem>, a: Allocations, e: AllocationError)
    ensures e in ItemErrors(items, a) <==> NamesItem(e, items, a)
  {
    if items != [] {
      ItemErrorsSay(items[..|items| - 1], a, e);
      ItemNamedLast(e, items, a);
      assert Total(map[]) == 0.0;
    }
  }

  lemma {:induction false} LineErrorsSay(items: seq<RfqItem>, q: Quote, a: Allocations, e: AllocationError)
    ensures e in LineErrors(items, q, a) <==> NamesLine(e, items, q, a)
  {
    if items != [] {
      LineErrorsSay(items[..|items| - 1], q, a, e);
      LineNamedLast(e, items, q, a);
    }
  }

  lemma {:induction false} QuoteErrorsSay(items: seq<RfqItem>, quotes: seq<Quote>, a: Allocations, e: AllocationError)
    ensures e in QuoteErrors(items, quotes, a) <==> exists q :: q in quotes && NamesLine(e, items, q, a)
  {
    if quotes != [] {
      var front, last := quotes[..|quotes| - 1], quotes[|quotes| - 1];
      QuoteErrorsSay(items, front, a, e);
      LineErrorsSay(items, last, a, e);
      assert forall q :: q in quotes <==> q in front || q == last by {
        assert quotes == front + [last];
      }
    }
  }

  /** The check reports every item given beyond its requirement and every quote given beyond its line, and nothing else. */
  lemma {:induction false} ErrorsNameEveryExcess(items: seq<RfqItem>, quotes: seq<Quote>, a: Allocations, e: AllocationError)
    ensures e in ItemErrors(items, a) + QuoteErrors(items, quotes, a)
       <==> NamesItem(e, items, a) || exists q :: q in quotes && NamesLine(e, items, q, a)
  {
    ItemErrorsSay(items, a, e);
    QuoteErrorsSay(items, quotes, a, e);
  }

  // ----- plans, quote by quote

  datatype PlanItem = PlanItem(
    rfqItemId: string, quotationItemId: Option<string>, requiredQty: real, quotedQty: real,
    allocatedQty: real, unitPrice: real, lineTotal: real)

  datatype Plan = Plan(quoteId: string, totalValue: real, itemCount: nat, items: seq<PlanItem>)

  function PlanLine(item: RfqItem, index: nat, q: Quote, qty: real): seq<PlanItem> {
    var line := QuoteLine(q, item.id, index);
    if qty <= 0.0 then []
    else [PlanItem(item.id, if line.Some? then Some(line.value.id) else None,
                   item.quantity, QuotedQty(line), qty, UnitPrice(line), qty * UnitPrice(line))]
  }

  function PlanItems(items: seq<RfqItem>, q: Quote, a: Allocations): seq<PlanItem> {
    if items == [] then []
    else
      var n := |items| - 1;
      PlanItems(items[..n], q, a) + PlanLine(items[n], n, q, Qty(a, items[n].id, q.id))
  }

  function PlanTotal(items: seq<PlanItem>): real {
    if items == [] then 0.0 else PlanTotal(items[..|items| - 1]) + items[|items| - 1].lineTotal
  }

  function PlanFor(items: seq<RfqItem>, q: Quote, a: Allocations): Plan {
    var lines := PlanItems(items, q, a);
    Plan(q.id, PlanTotal(lines), |lines|, lines)
  }

  /** One plan per quote, empty or not. */
  function AllPlans(items: seq<RfqItem>, quotes: seq<Quote>, a: Allocations): (r: seq<Plan>)
    ensures |r| == |quotes|
  {
    seq(|quotes|, i requires 0 <= i < |quotes| => PlanFor(items, quotes[i], a))
  }

  function NonEmpty(plans: seq<Plan>): seq<Plan> {
    if plans == [] then []
    else
      var n := |plans| - 1;
      NonEmpty(plans[..n]) + if |plans[n].items| > 0 then [plans[n]] else []
  }

  lemma {:induction false} NonEmptyMembers(plans: seq<Plan>, p: Plan)
    ensures p in NonEmpty(plans) <==> p in plans && |p.items| > 0
  {
    if plans != [] {
      NonEmptyMembers(plans[..|plans| - 1], p);
      assert plans == plans[..|plans| - 1] + [plans[|plans| - 1]];
    }
  }

  function BuildAllocationPlan(items: seq<RfqItem>, quotations: seq<Quote>, a: Allocations): seq<Plan> {
    NonEmpty(AllPlans(items, ActiveQuotations(quotations), a))
  }

  /** What a plan line shows: the item and what it asks for, what it was given, and the quote's line for it, if there is one. */
  ghost predicate Shows(p: PlanItem, item: RfqItem, index: nat, q: Quote, a: Allocations) {
    && item.id in a && q.id in a[item.id] && a[item.id][q.id] > 0.0
    && p.rfqItemId == item.id && p.requiredQty == item.quantity && p.allocatedQty == a[item.id][q.id]
    && p.lineTotal == p.allocatedQty * p.unitPrice
    && match QuoteLine(q, item.id, index)
       case None => p.quotationItemId == None && p.quotedQty == 0.0 && p.unitPrice == 0.0
       case Some(line) => p.quotationItemId == Some(line.id) && p.quotedQty == line.quantity && p.unitPrice == line.unitPrice
  }

  ghost predicate IsShown(p: PlanItem, items: seq<RfqItem>, q: Quote, a: Allocations) {
    exists i :: 0 <= i < |items| && Shows(p, items[i], i, q, a)
  }

  lemma ShownLast(p: PlanItem, items: seq<RfqItem>, q: Quote, a: Allocations)
    requires items != []
    ensures var n := |items| - 1; IsShown(p, items, q, a) <==> IsShown(p, items[..n], q, a) || Shows(p, items[n], n, q, a)
  {
    var n := |items| - 1;
    if IsShown(p, items, q, a) {
      var i :| 0 <= i < |items| && Shows(p, items[i], i, q, a);
      assert i < n ==> Shows(p, items[..n][i], i, q, a);
    }
    if IsShown(p, items[..n], q, a) {
      var i :| 0 <= i < n && Shows(p, items[..n][i], i, q, a);
      assert Shows(p, items[i], i, q, a);
    }
  }

  lemma LineShows(item: RfqItem, index: nat, q: Quote, a: Allocations, p: PlanItem)
    ensures p in PlanLine(item, index, q, Qty(a, item.id, q.id)) <==> Shows(p, item, index, q, a)
  {
  }

  lemma {:induction false} LinesShowSplit(items: seq<RfqItem>, q: Quote, a: Allocations, p: PlanItem)
    ensures p in PlanItems(items, q, a) <==> IsShown(p, items, q, a)
  {
    if items != [] {
      var n := |items| - 1;
      LinesShowSplit(items[..n], q, a, p);
      LineShows(items[n], n, q, a, p);
      ShownLast(p, items, q, a);
    }
  }

  /** A plan has a line for every item that the split gives its quote some of and for no other, and counts them. */
  lemma {:induction false} PlansShowSplit(items: seq<RfqItem>, quotations: seq<Quote>, a: Allocations, q: Quote, p: PlanItem)
    ensures var plan := PlanFor(items, q, a);
            && plan.quoteId == q.id && plan.itemCount == |plan.items|
            && (p in plan.items <==> IsShown(p, items, q, a))
            && (plan in BuildAllocationPlan(items, quotations, a) ==> plan.items != [])
            && (q in ActiveQuotations(quotations) && plan.items != [] ==> plan in BuildAllocationPlan(items, quotations, a))
  {
    var active := ActiveQuotations(quotations);
    LinesShowSplit(items, q, a, p);
    NonEmptyMembers(AllPlans(items, active, a), PlanFor(items, q, a));
    if q in active {
      var j :| 0 <= j < |active| && active[j] == q;
      assert AllPlans(items, active, a)[j] in AllPlans(items, active, a);
    }
  }

  // ----- a valid split promises no more than was quoted or asked for

  ghost function AllocatedIn(lines: seq<PlanItem>, rfqItemId: string): real {
    if lines == [] then 0.0
    else
      var last := lines[|lines| - 1];
      AllocatedIn(lines[..|lines| - 1], rfqItemId) + if last.rfqItemId == rfqItemId then last.allocatedQty else 0.0
  }

  ghost function AllocatedAcross(plans: seq<Plan>, rfqItemId: string): real {
    if plans == [] then 0.0
    else AllocatedAcross(plans[..|plans| - 1], rfqItemId) + AllocatedIn(plans[|plans| - 1].items, rfqItemId)
  }

  /** A plan line that stands for one of the quote's own lines and stays within it. */
  ghost predicate Honoured(p: PlanItem, q: Quote, a: Allocations) {
    && p.allocatedQty == Qty(a, p.rfqItemId, q.id) > 0.0
    && exists it :: it in q.items && p.quotationItemId == Some(it.id)
                 && p.quotedQty == it.quantity && p.unitPrice == it.unitPrice && p.allocatedQty <= it.quantity
  }

  lemma LineHonoured(item: RfqItem, index: nat, q: Quote, a: Allocations)
    requires Qty(a, item.id, q.id) > 0.0 ==>
               QuoteLine(q, item.id, index).Some? && Qty(a, item.id, q.id) <= QuoteLine(q, item.id, index).value.quantity
    ensures forall p :: p in PlanLine(item, index, q, Qty(a, item.id, q.id)) ==> Honoured(p, q, a)
  {
    LineIsQuoted(q, item.id, index);
    if Qty(a, item.id, q.id) > 0.0 {
      var it := QuoteLine(q, item.id, index).value;
      assert it in q.items;
    }
  }

  lemma {:induction false} PlanWithinQuoted(items: seq<RfqItem>, q: Quote, a: Allocations)
    requires WithinQuoted(items, q, a)
    ensures forall p :: p in PlanItems(items, q, a) ==> Honoured(p, q, a)
  {
    if items != [] {
      var n := |items| - 1;
      PlanWithinQuoted(items[..n], q, a);
      LineHonoured(items[n], n, q, a);
    }
  }

  predicate HasItem(items: seq<RfqItem>, id: string) {
    exists i :: 0 <= i < |items| && items[i].id == id
  }

  lemma HasItemLast(items: seq<RfqItem>, id: string)
    requires items != []
    ensures HasItem(items, id) <==> HasItem(items[..|items| - 1], id) || items[|items| - 1].id == id
  {
    var n := |items| - 1;
    if HasItem(items, id) && items[n].id != id {
      var i :| 0 <= i < |items| && items[i].id == id;
      assert items[..n][i].id == id;
    }
    if HasItem(items[..n], id) {
      var i :| 0 <= i < n && items[..n][i].id == id;
      assert items[i].id == id;
    }
  }

  lemma {:induction false} AllocatedInMore(front: seq<PlanItem>, line: seq<PlanItem>, id: string)
    requires |line| <= 1
    ensures AllocatedIn(front + line, id)
         == AllocatedIn(front, id) + if |line| == 1 && line[0].rfqItemId == id then line[0].allocatedQty else 0.0
  {
    if |line| == 1 {
      assert (front + line)[..|front|] == front;
    } else {
      assert front + line == front;
    }
  }

  /** With distinct RFQ items, one plan holds of an item exactly what was allocated to its quote. */
  lemma {:induction false} PlanHoldsAllocation(items: seq<RfqItem>, q: Quote, a: Allocations, id: string)
    requires DistinctItems(items)
    ensures AllocatedIn(PlanItems(items, q, a), id)
         == if HasItem(items, id) && Qty(a, id, q.id) > 0.0 then Qty(a, id, q.id) else 0.0
  {
    if items != [] {
      var n := |items| - 1;
      PlanHoldsAllocation(items[..n], q, a, id);
      HasItemLast(items, id);
      assert items[n].id == id ==> !HasItem(items[..n], id);
      AllocatedInMore(PlanItems(items[..n], q, a), PlanLine(items[n], n, q, Qty(a, items[n].id, q.id)), id);
    }
  }

  lemma {:induction false} PositiveSumIgnores(quotes: seq<Quote>, row: map<string, real>, id: string)
    requires forall i :: 0 <= i < |quotes| ==> quotes[i].id != id
    ensures PositiveSum(quotes, row - {id}) == PositiveSum(quotes, row)
  {
    if quotes != [] {
      PositiveSumIgnores(quotes[..|quotes| - 1], row, id);
    }
  }

  lemma {:induction false} TotalNonNegative(row: map<string, real>)
    requires forall k :: k in row ==> row[k] >= 0.0
    ensures Total(row) >= 0.0
    decreases |row|
  {
    if row != map[] {
      var k :| k in row;
      TotalWithout(row, k);
      TotalNonNegative(row - {k});
    }
  }

  lemma {:induction false} EmptyPlansHoldNothing(plans: seq<Plan>, id: string)
    ensures AllocatedAcross(NonEmpty(plans), id) == AllocatedAcross(plans, id)
  {
    if plans != [] {
      var n := |plans| - 1;
      EmptyPlansHoldNothing(plans[..n], id);
      assert NonEmpty(plans[..n]) + [] == NonEmpty(plans[..n]);
    }
  }

  /** If each plan holds of one item what its quote has in a row, the plans together hold the quotes' part of the row. */
  lemma {:induction false} PlansHoldRow(plans: seq<Plan>, quotes: seq<Quote>, row: map<string, real>, id: string)
    requires |plans| == |quotes|
    requires forall i :: 0 <= i < |plans| ==>
               AllocatedIn(plans[i].items, id)
               == if quotes[i].id in row && row[quotes[i].id] > 0.0 then row[quotes[i].id] else 0.0
    ensures AllocatedAcross(plans, id) == PositiveSum(quotes, row)
  {
    if plans != [] {
      var n := |plans| - 1;
      PlansHoldRow(plans[..n], quotes[..n], row, id);
    }
  }

  /** If the check accepts a split, every line of every plan stays within a line its supplier quoted. */
  lemma {:induction false} PlanLinesAreHonoured(items: seq<RfqItem>, quotations: seq<Quote>, a: Allocations, p: Plan)
    requires IsValid(items, quotations, a) && p in BuildAllocationPlan(items, quotations, a)
    ensures exists q :: q in ActiveQuotations(quotations) && q.id == p.quoteId &&
              forall line :: line in p.items ==> Honoured(line, q, a)
  {
    var active := ActiveQuotations(quotations);
    NonEmptyMembers(AllPlans(items, active, a), p);
    var i :| 0 <= i < |active| && AllPlans(items, active, a)[i] == p;
    PlanWithinQuoted(items, active[i], a);
    assert active[i] in active;
  }

  /** What a row gives to the listed quotes, its negative entries left out. */
  function PositiveSum(quotes: seq<Quote>, row: map<string, real>): real {
    if quotes == [] then 0.0
    else
      var id := quotes[|quotes| - 1].id;
      PositiveSum(quotes[..|quotes| - 1], row) + if id in row && row[id] > 0.0 then row[id] else 0.0
  }

  /** Whatever the split, the plans together hold of an item exactly the positive entries of the active quotes. */
  lemma {:induction false} PlansHoldPositives(items: seq<RfqItem>, quotations: seq<Quote>, a: Allocations, i: nat)
    requires DistinctItems(items) && i < |items|
    ensures AllocatedAcross(BuildAllocationPlan(items, quotations, a), items[i].id)
         == PositiveSum(ActiveQuotations(quotations), PerQuote(a, items[i].id))
  {
    var active, id := ActiveQuotations(quotations), items[i].id;
    var plans, row := AllPlans(items, active, a), PerQuote(a, id);
    assert HasItem(items, id);
    forall j | 0 <= j < |plans|
      ensures AllocatedIn(plans[j].items, id)
           == if active[j].id in row && row[active[j].id] > 0.0 then row[active[j].id] else 0.0
    {
      PlanHoldsAllocation(items, active[j], a, id);
    }
    PlansHoldRow(plans, active, row, id);
    EmptyPlansHoldNothing(plans, id);
  }

  lemma {:induction false} PositivesWithinTotal(quotes: seq<Quote>, row: map<string, real>)
    requires DistinctQuotes(quotes) && forall k :: k in row ==> row[k] >= 0.0
    ensures PositiveSum(quotes, row) <= Total(row)
  {
    if quotes == [] {
      TotalNonNegative(row);
    } else {
      var n := |quotes| - 1;
      var id := quotes[n].id;
      PositivesWithinTotal(quotes[..n], row - {id});
      PositiveSumIgnores(quotes[..n], row, id);
      if id in row {
        TotalWithout(row, id);
      } else {
        assert row - {id} == row;
      }
    }
  }

  /** If the item's own entries are not negative, the plans together never order more of it than was asked for. */
  lemma {:induction false} SoundAllocation(items: seq<RfqItem>, quotations: seq<Quote>, a: Allocations, i: nat)
    requires DistinctItems(items) && DistinctQuotes(ActiveQuotations(quotations))
    requires IsValid(items, quotations, a) && i < |items|
    requires forall k :: k in PerQuote(a, items[i].id) ==> PerQuote(a, items[i].id)[k] >= 0.0
    ensures AllocatedAcross(BuildAllocationPlan(items, quotations, a), items[i].id) <= items[i].quantity
  {
    PlansHoldPositives(items, quotations, a, i);
    PositivesWithinTotal(ActiveQuotations(quotations), PerQuote(a, items[i].id));
  }

  // ----- two RFQ items that stand for one quotation line

  /** The RFQ item at `i` stands for the line with this id. */
  predicate StandsFor(items: seq<RfqItem>, q: Quote, i: nat, lineId: string)
    requires i < |items|
  {
    var line := QuoteLine(q, items[i].id, i);
    line.Some? && line.value.id == lineId
  }

  /** What a split gives to all the RFQ items that stand for one line. */
  ghost function GivenTo(items: seq<RfqItem>, q: Quote, a: Allocations, lineId: string): real {
    if items == [] then 0.0
    else
      var n := |items| - 1;
      var qty := Qty(a, items[n].id, q.id);
      GivenTo(items[..n], q, a, lineId) + if qty > 0.0 && StandsFor(items, q, n, lineId) then qty else 0.0
  }

  /** What a plan orders of one line. */
  ghost function OrderedOf(lines: seq<PlanItem>, lineId: string): real {
    if lines == [] then 0.0
    else
      var last := lines[|lines| - 1];
      OrderedOf(lines[..|lines| - 1], lineId) + if last.quotationItemId == Some(lineId) then last.allocatedQty else 0.0
  }

  lemma {:induction false} OrderedInMore(front: seq<PlanItem>, line: seq<PlanItem>, lineId: string)
    requires |line| <= 1
    ensures OrderedOf(front + line, lineId)
         == OrderedOf(front, lineId)
          + if |line| == 1 && line[0].quotationItemId == Some(lineId) then line[0].allocatedQty else 0.0
  {
    if |line| == 1 {
      assert (front + line)[..|front|] == front;
    } else {
      assert front + line == front;
    }
  }

  lemma {:induction false} PlanOrdersWhatIsGiven(items: seq<RfqItem>, q: Quote, a: Allocations, lineId: string)
    ensures OrderedOf(PlanItems(items, q, a), lineId) == GivenTo(items, q, a, lineId)
  {
    if items != [] {
      var n := |items| - 1;
      PlanOrdersWhatIsGiven(items[..n], q, a, lineId);
      OrderedInMore(PlanItems(items[..n], q, a), PlanLine(items[n], n, q, Qty(a, items[n].id, q.id)), lineId);
    }
  }

  ghost predicate PlanWithinLines(items: seq<RfqItem>, q: Quote, a: Allocations) {
    forall it :: it in q.items ==> OrderedOf(PlanFor(items, q, a).items, it.id) <= it.quantity
  }

  ghost predicate SharesLine(items: seq<RfqItem>, q: Quote, i: nat, j: nat)
    requires i < |items| && j < |items|
  {
    exists it :: it in q.items && StandsFor(items, q, i, it.id) && StandsFor(items, q, j, it.id)
  }

  ghost predicate EachItsOwnLine(items: seq<RfqItem>, q: Quote) {
    forall i, j :: 0 <= i < j < |items| ==> !SharesLine(items, q, i, j)
  }

  ghost predicate DistinctLines(q: Quote) {
    forall x, y :: x in q.items && y in q.items && x.id == y.id ==> x == y
  }

  /** What is given to one line was given to one item, or to none. */
  lemma {:induction false} GivenOnce(items: seq<RfqItem>, q: Quote, a: Allocations, it: QuoteItem)
    requires it in q.items && EachItsOwnLine(items, q)
    ensures GivenTo(items, q, a, it.id) == 0.0
         || exists i :: 0 <= i < |items| && StandsFor(items, q, i, it.id)
                     && GivenTo(items, q, a, it.id) == Qty(a, items[i].id, q.id) > 0.0
  {
    if items != [] {
      var n := |items| - 1;
      var front := items[..n];
      forall i | 0 <= i < n ensures StandsFor(front, q, i, it.id) <==> StandsFor(items, q, i, it.id) {}
      forall i, j | 0 <= i < j < n ensures !SharesLine(front, q, i, j) {
        assert !SharesLine(items, q, i, j);
      }
      GivenOnce(front, q, a, it);
      if GivenTo(front, q, a, it.id) != 0.0 {
        var i :| 0 <= i < |front| && StandsFor(front, q, i, it.id)
              && GivenTo(front, q, a, it.id) == Qty(a, front[i].id, q.id) > 0.0;
        assert StandsFor(items, q, i, it.id) && !SharesLine(items, q, i, n);
      }
    }
  }

  lemma OwnLinesAreKept(items: seq<RfqItem>, q: Quote, a: Allocations)
    requires WithinQuoted(items, q, a) && EachItsOwnLine(items, q) && DistinctLines(q)
    requires forall it :: it in q.items ==> it.quantity >= 0.0
    ensures PlanWithinLines(items, q, a)
  {
    forall it | it in q.items ensures OrderedOf(PlanFor(items, q, a).items, it.id) <= it.quantity {
      PlanOrdersWhatIsGiven(items, q, a, it.id);
      GivenOnce(items, q, a, it);
      if GivenTo(items, q, a, it.id) > 0.0 {
        var i :| 0 <= i < |items| && StandsFor(items, q, i, it.id)
              && GivenTo(items, q, a, it.id) == Qty(a, items[i].id, q.id) > 0.0;
        LineIsQuoted(q, items[i].id, i);
        assert QuoteLine(q, items[i].id, i).value == it;
      }
    }
  }

  function Lesser(x: real, y: real): real {
    if x <= y then x else y
  }

  /** The most that accepted splits can give of one line: to each item standing for it what is asked for, or what is quoted. */
  function MostGiven(items: seq<RfqItem>, q: Quote, it: QuoteItem): real {
    if items == [] then 0.0
    else
      var n := |items| - 1;
      MostGiven(items[..n], q, it) + if StandsFor(items, q, n, it.id) then Lesser(items[n].quantity, it.quantity) else 0.0
  }

  lemma {:induction false} EntryWithinTotal(row: map<string, real>, k: string)
    requires forall x :: x in row ==> row[x] >= 0.0
    ensures (if k in row then row[k] else 0.0) <= Total(row)
  {
    TotalNonNegative(row);
    if k in row {
      TotalWithout(row, k);
      TotalNonNegative(row - {k});
    }
  }

  lemma {:induction false} GivenWithinMost(items: seq<RfqItem>, q: Quote, a: Allocations, it: QuoteItem)
    requires NonNegative(a) && WithinRequired(items, a) && WithinQuoted(items, q, a)
    requires it in q.items && DistinctLines(q) && it.quantity >= 0.0
    requires forall k :: 0 <= k < |items| ==> items[k].quantity >= 0.0
    ensures GivenTo(items, q, a, it.id) <= MostGiven(items, q, it)
  {
    if items != [] {
      var n := |items| - 1;
      var qty := Qty(a, items[n].id, q.id);
      assert WithinRequired(items[..n], a) && WithinQuoted(items[..n], q, a);
      GivenWithinMost(items[..n], q, a, it);
      EntryWithinTotal(PerQuote(a, items[n].id), q.id);
      assert Total(PerQuote(a, items[n].id)) <= items[n].quantity;
      if qty > 0.0 && StandsFor(items, q, n, it.id) {
        LineIsQuoted(q, items[n].id, n);
        assert QuoteLine(q, items[n].id, n).value == it;
      }
    }
  }

  /** The split that gives all of that. */
  function MostSplit(items: seq<RfqItem>, q: Quote, it: QuoteItem): Allocations {
    if items == [] then map[]
    else
      var n := |items| - 1;
      var front := MostSplit(items[..n], q, it);
      if StandsFor(items, q, n, it.id) then front[items[n].id := map[q.id := Lesser(items[n].quantity, it.quantity)]]
      else front
  }

  lemma {:induction false} MostSplitKeys(items: seq<RfqItem>, q: Quote, it: QuoteItem, id: string)
    ensures id in MostSplit(items, q, it) ==> HasItem(items, id)
  {
    if items != [] {
      MostSplitKeys(items[..|items| - 1], q, it, id);
      HasItemLast(items, id);
    }
  }

  lemma {:induction false} MostSplitRow(items: seq<RfqItem>, q: Quote, it: QuoteItem, k: nat)
    requires k < |items| && DistinctItems(items)
    ensures PerQuote(MostSplit(items, q, it), items[k].id)
         == if StandsFor(items, q, k, it.id) then map[q.id := Lesser(items[k].quantity, it.quantity)] else map[]
  {
    var n := |items| - 1;
    if k < n {
      MostSplitRow(items[..n], q, it, k);
      assert StandsFor(items[..n], q, k, it.id) <==> StandsFor(items, q, k, it.id);
    } else {
      MostSplitKeys(items[..n], q, it, items[n].id);
      assert !HasItem(items[..n], items[n].id);
    }
  }

  lemma {:induction false} MostSplitSign(items: seq<RfqItem>, q: Quote, it: QuoteItem)
    requires it.quantity >= 0.0 && forall k :: 0 <= k < |items| ==> items[k].quantity >= 0.0
    ensures NonNegative(MostSplit(items, q, it))
  {
    if items != [] {
      MostSplitSign(items[..|items| - 1], q, it);
    }
  }

  lemma TotalOfOne(quoteId: string, qty: real)
    ensures Total(map[quoteId := qty]) == qty
  {
    var row := map[quoteId := qty];
    TotalWithout(row, quoteId);
    assert row - {quoteId} == map[];
  }

  lemma {:induction false} MostSplitTotal(items: seq<RfqItem>, q: Quote, it: QuoteItem, k: nat)
    requires k < |items| && DistinctItems(items) && items[k].quantity >= 0.0
    ensures Total(PerQuote(MostSplit(items, q, it), items[k].id)) <= items[k].quantity
  {
    MostSplitRow(items, q, it, k);
    TotalOfOne(q.id, Lesser(items[k].quantity, it.quantity));
  }

  lemma {:induction false} MostSplitQty(items: seq<RfqItem>, q: Quote, it: QuoteItem, k: nat, quoteId: string)
    requires k < |items| && DistinctItems(items)
    ensures Qty(MostSplit(items, q, it), items[k].id, quoteId)
         == if StandsFor(items, q, k, it.id) && quoteId == q.id then Lesser(items[k].quantity, it.quantity) else 0.0
  {
    MostSplitRow(items, q, it, k);
  }

  lemma {:induction false} MostSplitWithinQuoted(items: seq<RfqItem>, q: Quote, it: QuoteItem, other: Quote)
    requires DistinctItems(items) && it in q.items && DistinctLines(q) && (other.id == q.id ==> other == q)
    ensures WithinQuoted(items, other, MostSplit(items, q, it))
  {
    var a := MostSplit(items, q, it);
    forall k | 0 <= k < |items| && Qty(a, items[k].id, other.id) > 0.0
      ensures QuoteLine(other, items[k].id, k) == Some(it) && Qty(a, items[k].id, other.id) <= it.quantity
    {
      MostSplitQty(items, q, it, k, other.id);
      LineIsQuoted(q, items[k].id, k);
    }
  }

  lemma {:induction false} MostSplitIsAccepted(items: seq<RfqItem>, quotations: seq<Quote>, q: Quote, it: QuoteItem)
    requires DistinctItems(items) && DistinctQuotes(ActiveQuotations(quotations))
    requires q in ActiveQuotations(quotations) && it in q.items && DistinctLines(q) && it.quantity >= 0.0
    requires forall k :: 0 <= k < |items| ==> items[k].quantity >= 0.0
    ensures NonNegative(MostSplit(items, q, it)) && IsValid(items, quotations, MostSplit(items, q, it))
  {
    MostSplitSign(items, q, it);
    forall k | 0 <= k < |items|
      ensures Total(PerQuote(MostSplit(items, q, it), items[k].id)) <= items[k].quantity
    {
      MostSplitTotal(items, q, it, k);
    }
    forall other | other in ActiveQuotations(quotations) ensures WithinQuoted(items, other, MostSplit(items, q, it)) {
      MostSplitWithinQuoted(items, q, it, other);
    }
  }

  lemma {:induction false} MostSplitGives(items: seq<RfqItem>, q: Quote, it: QuoteItem, m: nat)
    requires m <= |items| && DistinctItems(items) && it.quantity >= 0.0
    requires forall k :: 0 <= k < |items| ==> items[k].quantity >= 0.0
    ensures GivenTo(items[..m], q, MostSplit(items, q, it), it.id) == MostGiven(items[..m], q, it)
  {
    if m > 0 {
      var n := m - 1;
      MostSplitGives(items, q, it, n);
      MostSplitQty(items, q, it, n, q.id);
      assert items[..m][..n] == items[..n] && items[..m][n] == items[n];
      assert StandsFor(items[..m], q, n, it.id) <==> StandsFor(items, q, n, it.id);
    }
  }

  /**
   * The check looks at one RFQ item at a time. All accepted non-negative splits keep a supplier's plan within each of
   * its lines if and only if for each line the RFQ items that stand for it, each with the lesser of what it asks for
   * and what is quoted, together ask for no more than is quoted.
   */
  lemma {:induction false} LinesAreKeptExactly(items: seq<RfqItem>, quotations: seq<Quote>, q: Quote)
    requires DistinctItems(items) && DistinctQuotes(ActiveQuotations(quotations))
    requires q in ActiveQuotations(quotations) && DistinctLines(q)
    requires forall it :: it in q.items ==> it.quantity >= 0.0
    requires forall k :: 0 <= k < |items| ==> items[k].quantity >= 0.0
    ensures (forall a :: NonNegative(a) && IsValid(items, quotations, a) ==> PlanWithinLines(items, q, a))
       <==> forall it :: it in q.items ==> MostGiven(items, q, it) <= it.quantity
  {
    if forall it :: it in q.items ==> MostGiven(items, q, it) <= it.quantity {
      forall a | NonNegative(a) && IsValid(items, quotations, a) ensures PlanWithinLines(items, q, a) {
        forall it | it in q.items ensures OrderedOf(PlanFor(items, q, a).items, it.id) <= it.quantity {
          PlanOrdersWhatIsGiven(items, q, a, it.id);
          GivenWithinMost(items, q, a, it);
        }
      }
    } else {
      var it :| it in q.items && MostGiven(items, q, it) > it.quantity;
      MostSplitIsAccepted(items, quotations, q, it);
      MostSplitGives(items, q, it, |items|);
      assert items[..|items|] == items;
      PlanOrdersWhatIsGiven(items, q, MostSplit(items, q, it), it.id);
      assert !PlanWithinLines(items, q, MostSplit(items, q, it));
    }
  }

  /** A negative entry for one quote that hides what another is given beyond the requirement. */
  function OffsetSplit(itemId: string, quoteId: string, qty: real, otherId: string, required: real): Allocations {
    map[itemId := map[quoteId := qty, otherId := required - qty]]
  }

  lemma OffsetsCancel(itemId: string, quoteId: string, qty: real, otherId: string, required: real)
    requires otherId != quoteId
    ensures Total(PerQuote(OffsetSplit(itemId, quoteId, qty, otherId, required), itemId)) == required
  {
    var row := PerQuote(OffsetSplit(itemId, quoteId, qty, otherId, required), itemId);
    TotalWithout(row, quoteId);
    TotalWithout(row - {quoteId}, otherId);
    assert row - {quoteId} - {otherId} == map[];
  }

  lemma {:induction false} OffsetIsAccepted(items: seq<RfqItem>, quotations: seq<Quote>, i: nat, q: Quote, it: QuoteItem, otherId: string)
    requires i < |items| && DistinctItems(items) && DistinctQuotes(ActiveQuotations(quotations))
    requires forall k :: 0 <= k < |items| ==> items[k].quantity >= 0.0
    requires q in ActiveQuotations(quotations) && QuoteLine(q, items[i].id, i) == Some(it) && otherId != q.id
    requires it.quantity > items[i].quantity
    ensures IsValid(items, quotations, OffsetSplit(items[i].id, q.id, it.quantity, otherId, items[i].quantity))
  {
    var id := items[i].id;
    var a := OffsetSplit(id, q.id, it.quantity, otherId, items[i].quantity);
    forall k | 0 <= k < |items| ensures Total(PerQuote(a, items[k].id)) <= items[k].quantity {
      if k == i {
        OffsetsCancel(id, q.id, it.quantity, otherId, items[i].quantity);
      }
    }
    forall other | other in ActiveQuotations(quotations) ensures WithinQuoted(items, other, a) {
      forall k | 0 <= k < |items| && Qty(a, items[k].id, other.id) > 0.0 ensures k == i && other == q {}
    }
  }

  /**
   * A negative entry hides any excess up to the quoted line: whatever the item asks for, the check accepts a split
   * whose plans hold all of a line that quotes more. The comparison page clamps entries at zero, so only stored
   * allocations can hold such a split.
   */
  lemma {:induction false} NegativeEntryHidesExcess(items: seq<RfqItem>, quotations: seq<Quote>, i: nat, q: Quote, it: QuoteItem, otherId: string)
    requires i < |items| && DistinctItems(items) && DistinctQuotes(ActiveQuotations(quotations))
    requires forall k :: 0 <= k < |items| ==> items[k].quantity >= 0.0
    requires q in ActiveQuotations(quotations) && QuoteLine(q, items[i].id, i) == Some(it) && otherId != q.id
    requires it.quantity > items[i].quantity
    ensures var a := OffsetSplit(items[i].id, q.id, it.quantity, otherId, items[i].quantity);
            && IsValid(items, quotations, a)
            && AllocatedAcross(BuildAllocationPlan(items, quotations, a), items[i].id) == it.quantity
  {
    var a := OffsetSplit(items[i].id, q.id, it.quantity, otherId, items[i].quantity);
    var active, row := ActiveQuotations(quotations), PerQuote(a, items[i].id);
    OffsetIsAccepted(items, quotations, i, q, it, otherId);
    PlansHoldPositives(items, quotations, a, i);
    OnePositive(active, row, q);
    var k :| 0 <= k < |active| && active[k] == q;
    assert active[k].id == q.id;
  }

  lemma {:induction false} OnePositive(quotes: seq<Quote>, row: map<string, real>, q: Quote)
    requires DistinctQuotes(quotes) && q.id in row && row[q.id] > 0.0
    requires forall other :: other in quotes && other.id != q.id && other.id in row ==> row[other.id] <= 0.0
    ensures PositiveSum(quotes, row) == if exists k :: 0 <= k < |quotes| && quotes[k].id == q.id then row[q.id] else 0.0
  {
    if quotes != [] {
      var n := |quotes| - 1;
      OnePositive(quotes[..n], row, q);
      assert quotes[n] in quotes;
      assert forall k :: 0 <= k < n ==> quotes[..n][k].id == quotes[k].id;
      if quotes[n].id == q.id {
        assert forall k :: 0 <= k < n ==> quotes[k].id != q.id;
      }
    }
  }

  // ----- costs, item by item

  function LineCost(item: RfqItem, index: nat, q: Quote, qty: real): real {
    if qty <= 0.0 then 0.0 else qty * UnitPrice(QuoteLine(q, item.id, index))
  }

  function CostOf(items: seq<RfqItem>, q: Quote, a: Allocations): real {
    if items == [] then 0.0
    else
      var n := |items| - 1;
      CostOf(items[..n], q, a) + LineCost(items[n], n, q, Qty(a, items[n].id, q.id))
  }

  /** One turn of the item loop: each quote's cost grows by its line for this item. */
  method AddItemCosts(item: RfqItem, index: nat, quotes: seq<Quote>, a: Allocations, before: map<string, real>)
    returns (costs: map<string, real>)
    requires forall k :: 0 <= k < |quotes| ==> quotes[k].id in before
    ensures costs.Keys == before.Keys
    ensures DistinctQuotes(quotes) ==> forall k :: 0 <= k < |quotes| ==>
              costs[quotes[k].id] == before[quotes[k].id] + LineCost(item, index, quotes[k], Qty(a, item.id, quotes[k].id))
  {
    costs := before;
    for j := 0 to |quotes|
      invariant costs.Keys == before.Keys
      invariant DistinctQuotes(quotes) ==> forall k :: 0 <= k < |quotes| ==>
        costs[quotes[k].id] == before[quotes[k].id]
          + if k < j then LineCost(item, index, quotes[k], Qty(a, item.id, quotes[k].id)) else 0.0
    {
      var qty := Qty(a, item.id, quotes[j].id);
      if qty > 0.0 {
        var worth := qty * UnitPrice(QuoteLine(quotes[j], item.id, index));
        costs := costs[quotes[j].id := costs[quotes[j].id] + worth];
      }
    }
  }

  method AllocatedCostByQuote(items: seq<RfqItem>, quotes: seq<Quote>, a: Allocations)
    returns (costs: map<string, real>)
    ensures forall q :: q in quotes ==> q.id in costs
    ensures DistinctQuotes(quotes) ==> forall q :: q in quotes ==> costs[q.id] == CostOf(items, q, a)
  {
    costs := map[];
    for j := 0 to |quotes|
      invariant forall k :: 0 <= k < j ==> quotes[k].id in costs && costs[quotes[k].id] == 0.0
    {
      costs := costs[quotes[j].id := 0.0];
    }
    for i := 0 to |items|
      invariant forall k :: 0 <= k < |quotes| ==> quotes[k].id in costs
      invariant DistinctQuotes(quotes) ==>
                  forall k :: 0 <= k < |quotes| ==> costs[quotes[k].id] == CostOf(items[..i], quotes[k], a)
    {
      assert items[..i + 1][..i] == items[..i];
      costs := AddItemCosts(items[i], i, quotes, a, costs);
    }
    assert items[..|items|] == items;
  }

  lemma {:induction false} TotalWithLine(front: seq<PlanItem>, line: seq<PlanItem>)
    requires |line| <= 1
    ensures PlanTotal(front + line) == PlanTotal(front) + LineWorth(line)
  {
    if |line| == 1 {
      assert (front + line)[..|front|] == front;
    } else {
      assert front + line == front;
    }
  }

  function LineWorth(line: seq<PlanItem>): real {
    if |line| == 1 then line[0].lineTotal else 0.0
  }

  /** The two traversals meet: a plan is worth its quote's cost. */
  lemma {:induction false} PlanIsWorthItsCost(items: seq<RfqItem>, q: Quote, a: Allocations)
    ensures PlanTotal(PlanItems(items, q, a)) == CostOf(items, q, a)
  {
    if items != [] {
      var n := |items| - 1;
      var line := PlanLine(items[n], n, q, Qty(a, items[n].id, q.id));
      PlanIsWorthItsCost(items[..n], q, a);
      TotalWithLine(PlanItems(items[..n], q, a), line);
    }
  }

  ghost function Sum(xs: seq<real>): real {
    if xs == [] then 0.0 else Sum(xs[..|xs| - 1]) + xs[|xs| - 1]
  }

  ghost function SumPlans(plans: seq<Plan>): real {
    if plans == [] then 0.0 else SumPlans(plans[..|plans| - 1]) + plans[|plans| - 1].totalValue
  }

  lemma {:induction false} SumsAgree(plans: seq<Plan>, costs: seq<real>)
    requires |plans| == |costs| && forall i :: 0 <= i < |plans| ==> plans[i].totalValue == costs[i]
    ensures SumPlans(plans) == Sum(costs)
  {
    if plans != [] {
      var n := |plans| - 1;
      SumsAgree(plans[..n], costs[..n]);
    }
  }

  lemma {:induction false} EmptyPlansAreWorthNothing(plans: seq<Plan>)
    requires forall p :: p in plans && p.items == [] ==> p.totalValue == 0.0
    ensures SumPlans(NonEmpty(plans)) == SumPlans(plans)
  {
    if plans != [] {
      var n := |plans| - 1;
      EmptyPlansAreWorthNothing(plans[..n]);
      assert NonEmpty(plans[..n]) + [] == NonEmpty(plans[..n]);
    }
  }

  ghost function Costs(items: seq<RfqItem>, quotes: seq<Quote>, a: Allocations): (r: seq<real>)
    ensures |r| == |quotes|
  {
    seq(|quotes|, i requires 0 <= i < |quotes| => CostOf(items, quotes[i], a))
  }

  /** Quote by quote, the plan and the cost agree. */
  lemma {:induction false} PlansMeetCosts(items: seq<RfqItem>, quotes: seq<Quote>, a: Allocations)
    ensures forall i :: 0 <= i < |quotes| ==>
              var plan := AllPlans(items, quotes, a)[i];
              plan.quoteId == quotes[i].id && plan.totalValue == CostOf(items, quotes[i], a)
    ensures forall i :: 0 <= i < |quotes| && AllPlans(items, quotes, a)[i].items == [] ==> CostOf(items, quotes[i], a) == 0.0
  {
    forall i | 0 <= i < |quotes|
      ensures PlanFor(items, quotes[i], a).totalValue == CostOf(items, quotes[i], a)
      ensures PlanFor(items, quotes[i], a).items == [] ==> CostOf(items, quotes[i], a) == 0.0
    {
      PlanIsWorthItsCost(items, quotes[i], a);
    }
  }

  /** Every built plan is worth its quote's entry in the cost table. */
  lemma {:induction false} PlansAreWorthCosts(items: seq<RfqItem>, quotations: seq<Quote>, a: Allocations, p: Plan)
    requires p in BuildAllocationPlan(items, quotations, a)
    ensures exists q :: q in ActiveQuotations(quotations) && p.quoteId == q.id && p.totalValue == CostOf(items, q, a)
  {
    var active := ActiveQuotations(quotations);
    var plans := AllPlans(items, active, a);
    PlansMeetCosts(items, active, a);
    NonEmptyMembers(plans, p);
    var i :| 0 <= i < |plans| && plans[i] == p;
    assert active[i] in active;
  }

  /** An active quote without a plan costs nothing. */
  lemma {:induction false} NoPlanNoCost(items: seq<RfqItem>, quotations: seq<Quote>, a: Allocations, q: Quote)
    requires q in ActiveQuotations(quotations) && PlanFor(items, q, a) !in BuildAllocationPlan(items, quotations, a)
    ensures CostOf(items, q, a) == 0.0
  {
    var active := ActiveQuotations(quotations);
    PlansMeetCosts(items, active, a);
    NonEmptyMembers(AllPlans(items, active, a), PlanFor(items, q, a));
    var i :| 0 <= i < |active| && active[i] == q;
    assert AllPlans(items, active, a)[i] in AllPlans(items, active, a);
  }

  /** All plans together are worth all costs together. */
  lemma {:induction false} TraversalsAgree(items: seq<RfqItem>, quotations: seq<Quote>, a: Allocations)
    ensures SumPlans(BuildAllocationPlan(items, quotations, a)) == Sum(Costs(items, ActiveQuotations(quotations), a))
  {
    var active := ActiveQuotations(quotations);
    PlansMeetCosts(items, active, a);
    SumsAgree(AllPlans(items, active, a), Costs(items, active, a));
    EmptyPlansAreWorthNothing(AllPlans(items, active, a));
  }

  // ----- clearing one quote

  function ClearQuoteAllocations(a: Allocations, quoteId: string): Allocations {
    map i | i in a :: a[i] - {quoteId}
  }

  function PlansWithout(plans: seq<Plan>, quoteId: string): seq<Plan> {
    if plans == [] then []
    else
      var n := |plans| - 1;
      PlansWithout(plans[..n], quoteId) + if plans[n].quoteId == quoteId then [] else [plans[n]]
  }

  lemma {:induction false} ClearedQuantities(items: seq<RfqItem>, q: Quote, a: Allocations, quoteId: string)
    ensures PlanItems(items, q, ClearQuoteAllocations(a, quoteId))
         == if q.id == quoteId then [] else PlanItems(items, q, a)
  {
    if items != [] {
      var n := |items| - 1;
      ClearedQuantities(items[..n], q, a, quoteId);
      assert PlanLine(items[n], n, q, 0.0) == [];
    }
  }

  /** `after` is `before` with nothing left in it, if it is the cleared quote's. */
  predicate ClearedFrom(before: Plan, after: Plan, quoteId: string) {
    if before.quoteId == quoteId then after.items == [] else after == before
  }

  /** Emptying the plans of one quote and dropping empty plans is the same as dropping that quote's plans. */
  lemma {:induction false} ClearedPlans(before: seq<Plan>, after: seq<Plan>, quoteId: string)
    requires |before| == |after|
    requires forall i :: 0 <= i < |before| ==> ClearedFrom(before[i], after[i], quoteId)
    ensures NonEmpty(after) == PlansWithout(NonEmpty(before), quoteId)
  {
    if before != [] {
      var n := |before| - 1;
      var front := NonEmpty(before[..n]);
      ClearedPlans(before[..n], after[..n], quoteId);
      assert ClearedFrom(before[n], after[n], quoteId);
      assert front + [] == front;
    }
  }

  /** Clearing a quote removes its plan and leaves every other plan as it was. */
  lemma {:induction false} ClearRemovesOnePlan(items: seq<RfqItem>, quotations: seq<Quote>, a: Allocations, quoteId: string)
    ensures BuildAllocationPlan(items, quotations, ClearQuoteAllocations(a, quoteId))
         == PlansWithout(BuildAllocationPlan(items, quotations, a), quoteId)
  {
    var active := ActiveQuotations(quotations);
    var before, after := AllPlans(items, active, a), AllPlans(items, active, ClearQuoteAllocations(a, quoteId));
    forall i | 0 <= i < |active|
      ensures ClearedFrom(before[i], after[i], quoteId)
    {
      ClearedQuantities(items, active[i], a, quoteId);
    }
    ClearedPlans(before, after, quoteId);
  }

  /** Clearing keeps a valid non-negative split valid. */
  lemma ClearKeepsValid(items: seq<RfqItem>, quotations: seq<Quote>, a: Allocations, quoteId: string)
    requires NonNegative(a) && IsValid(items, quotations, a)
    ensures IsValid(items, quotations, ClearQuoteAllocations(a, quoteId))
  {
    var a' := ClearQuoteAllocations(a, quoteId);
    forall i | 0 <= i < |items| ensures Total(PerQuote(a', items[i].id)) <= items[i].quantity {
      var row := PerQuote(a, items[i].id);
      assert PerQuote(a', items[i].id) == row - {quoteId};
      if quoteId in row {
        TotalWithout(row, quoteId);
      } else {
        assert row - {quoteId} == row;
      }
    }
    forall q | q in ActiveQuotations(quotations) ensures WithinQuoted(items, q, a') {
      forall i | 0 <= i < |items| && Qty(a', items[i].id, q.id) > 0.0
        ensures Qty(a, items[i].id, q.id) == Qty(a', items[i].id, q.id) {}
    }
  }
}
