/** Scoring and ranking of apps/web/src/lib/bid-comparison.ts, over exact reals. */
module BidScores {
  import opened Options
  import opened BidQuotes

  datatype ScoreRow = ScoreRow(
    quoteId: string, totalPrice: real, leadTimeDays: nat,
    priceScore: real, leadTimeScore: real, weightedScore: real, rank: nat)

  function TotalPrice(items: seq<QuoteItem>): real {
    if items == [] then 0.0 else TotalPrice(items[..|items| - 1]) + items[|items| - 1].lineValue
  }

  /** `Math.round(value * 10) / 10`: halves go up. */
  function RoundScore(x: real): real {
    (x * 10.0 + 0.5).Floor as real / 10.0
  }

  function Min(x: real, y: real): real { if x <= y then x else y }
  function Max(x: real, y: real): real { if x >= y then x else y }

  function Least(xs: seq<real>): (m: real)
    ensures xs != [] ==> m in xs && forall x :: x in xs ==> m <= x
    ensures xs == [] ==> m == 0.0
  {
    if |xs| == 0 then 0.0 else if |xs| == 1 then xs[0]
    else
      assert forall x :: x in xs ==> x == xs[0] || x in xs[1..];
      Min(xs[0], Least(xs[1..]))
  }

  function Greatest(xs: seq<real>): (m: real)
    ensures xs != [] ==> m in xs && forall x :: x in xs ==> m >= x
    ensures xs == [] ==> m == 0.0
  {
    if |xs| == 0 then 0.0 else if |xs| == 1 then xs[0]
    else
      assert forall x :: x in xs ==> x == xs[0] || x in xs[1..];
      Max(xs[0], Greatest(xs[1..]))
  }

  /** The prices that take part in the comparison: zero and negative totals do not. */
  function Prices(quotes: seq<Quote>): (r: seq<real>)
    ensures forall q :: q in quotes && TotalPrice(q.items) > 0.0 ==> TotalPrice(q.items) in r
    ensures forall p :: p in r ==> p > 0.0
  {
    if quotes == [] then []
    else
      var p := TotalPrice(quotes[0].items);
      (if p > 0.0 then [p] else []) + Prices(quotes[1..])
  }

  function Leads(quotes: seq<Quote>): (r: seq<real>)
    ensures forall q :: q in quotes && q.leadTimeDays.Some? ==> q.leadTimeDays.value as real in r
    ensures forall d :: d in r ==> d >= 0.0
  {
    if quotes == [] then []
    else
      var d := quotes[0].leadTimeDays;
      (if d.Some? then [d.value as real] else []) + Leads(quotes[1..])
  }

  /** Where `x` stands between the worst (`hi`, 0) and the best (`lo`, 100). */
  function Relative(x: real, lo: real, hi: real): real
    requires lo < hi
  {
    (hi - x) / (hi - lo) * 100.0
  }

  function PriceScore(price: real, prices: seq<real>): real {
    var lo, hi := Least(prices), Greatest(prices);
    if price > 0.0 && hi > lo then Relative(price, lo, hi)
    else if price > 0.0 && lo > 0.0 then lo / price * 100.0
    else 100.0
  }

  function LeadScore(lead: Option<nat>, leads: seq<real>): real {
    var lo, hi := Least(leads), Greatest(leads);
    if lead.Some? then if hi > lo then Relative(lead.value as real, lo, hi) else 100.0
    else if leads == [] then 100.0 else 50.0
  }

  function PriceWeight(percent: real): (w: real)
    ensures 0.0 <= w <= 1.0
  {
    Min(100.0, Max(0.0, percent)) / 100.0
  }

  function Blend(w: real, v: real, price: real, lead: real): real {
    w * price + v * lead
  }

  function Weighted(w: real, price: real, lead: real): real {
    Blend(w, 1.0 - w, price, lead)
  }

  /** One row, scored against all the active quotes. */
  function Scored(q: Quote, quotes: seq<Quote>, percent: real): ScoreRow {
    var p := PriceScore(TotalPrice(q.items), Prices(quotes));
    var l := LeadScore(q.leadTimeDays, Leads(quotes));
    ScoreRow(q.id, TotalPrice(q.items), q.leadTimeDays.GetOr(0),
             RoundScore(p), RoundScore(l), RoundScore(Weighted(PriceWeight(percent), p, l)), 0)
  }

  function ScoredRows(quotes: seq<Quote>, percent: real): (r: seq<ScoreRow>)
    ensures |r| == |quotes|
  {
    seq(|quotes|, i requires 0 <= i < |quotes| => Scored(quotes[i], quotes, percent))
  }

  // ----- the sort: stable, best score first

  /** Put a row after every row that scores at least as much. */
  function Insert(row: ScoreRow, sorted: seq<ScoreRow>): (r: seq<ScoreRow>)
    ensures |r| == |sorted| + 1
  {
    if sorted != [] && sorted[0].weightedScore >= row.weightedScore
    then [sorted[0]] + Insert(row, sorted[1..])
    else [row] + sorted
  }

  function SortByScore(rows: seq<ScoreRow>): (r: seq<ScoreRow>)
    ensures |r| == |rows|
  {
    if rows == [] then [] else Insert(rows[|rows| - 1], SortByScore(rows[..|rows| - 1]))
  }

  function Ranked(rows: seq<ScoreRow>): (r: seq<ScoreRow>)
    ensures |r| == |rows|
  {
    seq(|rows|, i requires 0 <= i < |rows| => rows[i].(rank := i + 1))
  }

  /** The comparison table; the array that `sort` reorders is local, so only its order is visible. */
  method ComputeBidScores(quotations: seq<Quote>, percent: real) returns (table: seq<ScoreRow>)
    ensures table == Ranked(SortByScore(ScoredRows(ActiveQuotations(quotations), percent)))
  {
    var quotes := ActiveQuotations(quotations);
    if |quotes| == 0 { return []; }
    var rows := ScoredRows(quotes, percent);
    var sorted: seq<ScoreRow> := [];
    for i := 0 to |rows|
      invariant sorted == SortByScore(rows[..i])
    {
      assert rows[..i + 1][..i] == rows[..i];
      sorted := Insert(rows[i], sorted);
    }
    assert rows[..|rows|] == rows;
    table := Ranked(sorted);
  }

  // ----- ranges

  lemma RoundMonotone(x: real, y: real)
    requires x <= y
    ensures RoundScore(x) <= RoundScore(y)
  {
    FloorMonotone(x * 10.0 + 0.5, y * 10.0 + 0.5);
  }

  lemma FloorMonotone(x: real, y: real)
    requires x <= y
    ensures x.Floor <= y.Floor
  {
  }

  lemma RoundInRange(x: real)
    requires 0.0 <= x <= 100.0
    ensures 0.0 <= RoundScore(x) <= 100.0
  {
    RoundMonotone(0.0, x);
    RoundMonotone(x, 100.0);
    assert RoundScore(0.0) == 0.0 && RoundScore(100.0) == 100.0;
  }

  lemma TimesPositive(x: real, y: real)
    requires x > 0.0 && y > 0.0
    ensures x * y > 0.0
  {
  }

  lemma DivMonotone(x: real, y: real, d: real)
    requires d > 0.0 && x <= y
    ensures x / d <= y / d
  {
    var a, b := x / d, y / d;
    assert a * d == x && b * d == y;
    if a > b {
      TimesPositive(a - b, d);
    }
  }

  lemma RelativeFalls(x: real, y: real, lo: real, hi: real)
    requires lo < hi && x <= y
    ensures Relative(x, lo, hi) >= Relative(y, lo, hi)
  {
    DivMonotone(hi - y, hi - x, hi - lo);
  }

  lemma RelativeEnds(lo: real, hi: real)
    requires lo < hi
    ensures Relative(lo, lo, hi) == 100.0 && Relative(hi, lo, hi) == 0.0
  {
    DivEnds(hi - lo);
  }

  lemma DivEnds(d: real)
    requires d > 0.0
    ensures d / d == 1.0 && 0.0 / d == 0.0
  {
  }

  lemma RelativeInRange(x: real, lo: real, hi: real)
    requires lo < hi && lo <= x <= hi
    ensures 0.0 <= Relative(x, lo, hi) <= 100.0
  {
    RelativeEnds(lo, hi);
    RelativeFalls(lo, x, lo, hi);
    RelativeFalls(x, hi, lo, hi);
  }

  lemma {:induction false} PriceInRange(price: real, prices: seq<real>)
    requires price > 0.0 ==> price in prices
    ensures 0.0 <= PriceScore(price, prices) <= 100.0
    ensures price > 0.0 && price == Least(prices) ==> PriceScore(price, prices) == 100.0
  {
    var lo, hi := Least(prices), Greatest(prices);
    if price > 0.0 {
      if hi > lo {
        RelativeInRange(price, lo, hi);
        RelativeEnds(lo, hi);
      } else {
        assert price == lo;
        assert price / price == 1.0;
      }
    }
  }

  lemma {:induction false} LeadInRange(lead: Option<nat>, leads: seq<real>)
    requires lead.Some? ==> lead.value as real in leads
    ensures 0.0 <= LeadScore(lead, leads) <= 100.0
    ensures lead.Some? && lead.value as real == Least(leads) ==> LeadScore(lead, leads) == 100.0
  {
    var lo, hi := Least(leads), Greatest(leads);
    if lead.Some? && hi > lo {
      RelativeInRange(lead.value as real, lo, hi);
      RelativeEnds(lo, hi);
    }
  }

  lemma TimesMonotone(w: real, x: real, y: real)
    requires w >= 0.0 && x <= y
    ensures w * x <= w * y
  {
    assert w * (y - x) >= 0.0;
    assert w * (y - x) == w * y - w * x;
  }

  lemma WeightedMonotone(w: real, p: real, l: real, p': real, l': real)
    requires 0.0 <= w <= 1.0 && p <= p' && l <= l'
    ensures Weighted(w, p, l) <= Weighted(w, p', l')
  {
    BlendMonotone(w, 1.0 - w, p, l, p', l');
  }

  lemma BlendMonotone(w: real, v: real, p: real, l: real, p': real, l': real)
    requires 0.0 <= w && 0.0 <= v && p <= p' && l <= l'
    ensures Blend(w, v, p, l) <= Blend(w, v, p', l')
  {
    TimesMonotone(w, p, p');
    TimesMonotone(v, l, l');
  }

  lemma WeightedOfEqual(w: real, x: real)
    ensures Weighted(w, x, x) == x
  {
    assert (1.0 - w) * x == x - w * x;
  }

  /** Every score is between 0 and 100; the cheapest priced quote and the fastest stated one score 100. */
  lemma {:induction false} ScoresInRange(quotes: seq<Quote>, percent: real, q: Quote)
    requires q in quotes
    ensures var r := Scored(q, quotes, percent);
            0.0 <= r.priceScore <= 100.0 && 0.0 <= r.leadTimeScore <= 100.0 && 0.0 <= r.weightedScore <= 100.0
    ensures TotalPrice(q.items) > 0.0 && TotalPrice(q.items) == Least(Prices(quotes)) ==>
              Scored(q, quotes, percent).priceScore == 100.0
    ensures q.leadTimeDays.Some? && q.leadTimeDays.value as real == Least(Leads(quotes)) ==>
              Scored(q, quotes, percent).leadTimeScore == 100.0
  {
    var p := PriceScore(TotalPrice(q.items), Prices(quotes));
    var l := LeadScore(q.leadTimeDays, Leads(quotes));
    var w := PriceWeight(percent);
    PriceInRange(TotalPrice(q.items), Prices(quotes));
    LeadInRange(q.leadTimeDays, Leads(quotes));
    WeightedMonotone(w, 0.0, 0.0, p, l);
    WeightedMonotone(w, p, l, 100.0, 100.0);
    WeightedOfEqual(w, 0.0);
    WeightedOfEqual(w, 100.0);
    RoundInRange(p);
    RoundInRange(l);
    RoundInRange(Weighted(w, p, l));
    assert RoundScore(100.0) == 100.0;
  }

  /** The dearest of differently priced quotes scores 0, and the slowest of differently timed ones too. */
  lemma {:induction false} WorstScoresZero(quotes: seq<Quote>, percent: real, q: Quote)
    requires q in quotes
    ensures TotalPrice(q.items) == Greatest(Prices(quotes)) > Least(Prices(quotes)) && TotalPrice(q.items) > 0.0 ==>
              Scored(q, quotes, percent).priceScore == 0.0
    ensures q.leadTimeDays.Some? && q.leadTimeDays.value as real == Greatest(Leads(quotes)) > Least(Leads(quotes)) ==>
              Scored(q, quotes, percent).leadTimeScore == 0.0
  {
    if Greatest(Prices(quotes)) > Least(Prices(quotes)) {
      RelativeEnds(Least(Prices(quotes)), Greatest(Prices(quotes)));
    }
    if Greatest(Leads(quotes)) > Least(Leads(quotes)) {
      RelativeEnds(Least(Leads(quotes)), Greatest(Leads(quotes)));
    }
    assert RoundScore(0.0) == 0.0;
  }

  lemma {:induction false} StatedLeads(quotes: seq<Quote>)
    ensures Leads(quotes) == [] <==> forall q :: q in quotes ==> q.leadTimeDays.None?
  {
    if quotes != [] {
      StatedLeads(quotes[1..]);
      assert quotes == [quotes[0]] + quotes[1..];
    }
  }

  /** What a quote scores that leaves something out: full marks without a price or where nobody states a lead time, and half where others do. */
  lemma {:induction false} SilenceScores(quotes: seq<Quote>, percent: real, q: Quote)
    ensures TotalPrice(q.items) <= 0.0 ==> Scored(q, quotes, percent).priceScore == 100.0
    ensures q.leadTimeDays.None? ==>
              Scored(q, quotes, percent).leadTimeScore
              == if exists other :: other in quotes && other.leadTimeDays.Some? then 50.0 else 100.0
  {
    StatedLeads(quotes);
    assert RoundScore(100.0) == 100.0 && RoundScore(50.0) == 50.0;
  }

  /** The weight is the price's: at 100 and above only the price counts, at 0 and below only the lead time. */
  lemma WeightIsThePrices(quotes: seq<Quote>, percent: real, q: Quote)
    ensures percent >= 100.0 ==> Scored(q, quotes, percent).weightedScore == Scored(q, quotes, percent).priceScore
    ensures percent <= 0.0 ==> Scored(q, quotes, percent).weightedScore == Scored(q, quotes, percent).leadTimeScore
  {
    var p := PriceScore(TotalPrice(q.items), Prices(quotes));
    var l := LeadScore(q.leadTimeDays, Leads(quotes));
    BlendEnds(p, l);
  }

  lemma BlendEnds(p: real, l: real)
    ensures Blend(1.0, 0.0, p, l) == p && Blend(0.0, 1.0, p, l) == l
  {
  }

  // ----- dominance

  /** `a` is no dearer than `b`, and no slower: both leads stated, or neither. */
  predicate Dominates(a: Quote, b: Quote) {
    && TotalPrice(a.items) <= TotalPrice(b.items)
    && (a.leadTimeDays.Some? <==> b.leadTimeDays.Some?)
    && (a.leadTimeDays.Some? ==> a.leadTimeDays.value <= b.leadTimeDays.value)
  }

  /** Whatever the weight, a quote that dominates another never scores lower. */
  lemma DominanceKeepsScore(quotes: seq<Quote>, percent: real, a: Quote, b: Quote)
    requires a in quotes && b in quotes && Dominates(a, b)
    ensures Scored(a, quotes, percent).priceScore >= Scored(b, quotes, percent).priceScore
    ensures Scored(a, quotes, percent).leadTimeScore >= Scored(b, quotes, percent).leadTimeScore
    ensures Scored(a, quotes, percent).weightedScore >= Scored(b, quotes, percent).weightedScore
  {
    var prices, leads := Prices(quotes), Leads(quotes);
    var pa, pb := TotalPrice(a.items), TotalPrice(b.items);
    var sa, sb := PriceScore(pa, prices), PriceScore(pb, prices);
    var la, lb := LeadScore(a.leadTimeDays, leads), LeadScore(b.leadTimeDays, leads);
    PriceInRange(pb, prices);
    LeadInRange(b.leadTimeDays, leads);
    if pa > 0.0 && Greatest(prices) > Least(prices) {
      RelativeFalls(pa, pb, Least(prices), Greatest(prices));
    } else if pa > 0.0 {
      assert pa == pb;
    }
    if a.leadTimeDays.Some? && Greatest(leads) > Least(leads) {
      RelativeFalls(a.leadTimeDays.value as real, b.leadTimeDays.value as real, Least(leads), Greatest(leads));
    }
    WeightedMonotone(PriceWeight(percent), sb, lb, sa, la);
    RoundMonotone(sb, sa);
    RoundMonotone(lb, la);
    RoundMonotone(Weighted(PriceWeight(percent), sb, lb), Weighted(PriceWeight(percent), sa, la));
  }

  // ----- the total price, and dominance line by line

  /** A total is nothing without lines, the line value of one line, and the sum of both parts of any split. */
  lemma {:induction false} TotalsAdd(xs: seq<QuoteItem>, ys: seq<QuoteItem>, it: QuoteItem)
    ensures TotalPrice([]) == 0.0 && TotalPrice([it]) == it.lineValue
    ensures TotalPrice(xs + ys) == TotalPrice(xs) + TotalPrice(ys)
  {
    assert [it][..0] == [];
    if ys == [] {
      assert xs + ys == xs;
    } else {
      var n := |ys| - 1;
      assert (xs + ys)[..|xs| + n] == xs + ys[..n];
      TotalsAdd(xs, ys[..n], it);
    }
  }

  function Without(items: seq<QuoteItem>, i: nat): seq<QuoteItem>
    requires i < |items|
  {
    items[..i] + items[i + 1..]
  }

  lemma {:induction false} TotalTakesOut(items: seq<QuoteItem>, i: nat)
    requires i < |items|
    ensures TotalPrice(items) == items[i].lineValue + TotalPrice(Without(items, i))
  {
    var front, it, back := items[..i], items[i], items[i + 1..];
    assert items == front + [it] + back;
    TotalsAdd(front, [it], it);
    TotalsAdd(front + [it], back, it);
    TotalsAdd(front, back, it);
  }

  lemma {:induction false} MembersTakeOut(items: seq<QuoteItem>, i: nat)
    requires i < |items|
    ensures multiset(Without(items, i)) == multiset(items) - multiset{items[i]}
  {
    assert items == items[..i] + [items[i]] + items[i + 1..];
  }

  lemma {:induction false} SameFirst(xs: seq<QuoteItem>, ys: seq<QuoteItem>) returns (i: nat)
    requires multiset(xs) == multiset(ys) && xs != []
    ensures i < |ys| && ys[i] == xs[0]
  {
    assert xs[0] in multiset(xs);
    i :| i < |ys| && ys[i] == xs[0];
  }

  /** The order of the lines does not matter. */
  lemma {:induction false} TotalIgnoresOrder(xs: seq<QuoteItem>, ys: seq<QuoteItem>)
    requires multiset(xs) == multiset(ys)
    ensures TotalPrice(xs) == TotalPrice(ys)
    decreases |xs|
  {
    if xs == [] {
      assert |multiset(ys)| == 0;
    } else {
      var i := SameFirst(xs, ys);
      TotalTakesOut(xs, 0);
      TotalTakesOut(ys, i);
      MembersTakeOut(xs, 0);
      MembersTakeOut(ys, i);
      TotalIgnoresOrder(Without(xs, 0), Without(ys, i));
    }
  }

  /** Paired line by line, none of `items` is dearer than its partner. */
  ghost predicate NoLineDearer(items: seq<QuoteItem>, partners: seq<QuoteItem>) {
    |items| == |partners| && forall i :: 0 <= i < |items| ==> items[i].lineValue <= partners[i].lineValue
  }

  lemma {:induction false} NoDearerInTotal(items: seq<QuoteItem>, partners: seq<QuoteItem>)
    requires NoLineDearer(items, partners)
    ensures TotalPrice(items) <= TotalPrice(partners)
  {
    if items != [] {
      var n := |items| - 1;
      NoDearerInTotal(items[..n], partners[..n]);
    }
  }

  /** The lines of `a` can be paired with those of `b` so that none is dearer, and `a` is no slower: both leads stated, or neither. */
  ghost predicate DominatesByLine(a: Quote, b: Quote, partners: seq<QuoteItem>) {
    && multiset(partners) == multiset(b.items) && NoLineDearer(a.items, partners)
    && (a.leadTimeDays.Some? <==> b.leadTimeDays.Some?)
    && (a.leadTimeDays.Some? ==> a.leadTimeDays.value <= b.leadTimeDays.value)
  }

  lemma {:induction false} LinesDominate(a: Quote, b: Quote, partners: seq<QuoteItem>)
    requires DominatesByLine(a, b, partners)
    ensures Dominates(a, b)
  {
    NoDearerInTotal(a.items, partners);
    TotalIgnoresOrder(partners, b.items);
  }

  /** Whatever the weight, a quote that is no dearer line by line never scores lower. */
  lemma {:induction false} LinesDecideScore(quotes: seq<Quote>, percent: real, a: Quote, b: Quote, partners: seq<QuoteItem>)
    requires a in quotes && b in quotes && DominatesByLine(a, b, partners)
    ensures Scored(a, quotes, percent).priceScore >= Scored(b, quotes, percent).priceScore
    ensures Scored(a, quotes, percent).leadTimeScore >= Scored(b, quotes, percent).leadTimeScore
    ensures Scored(a, quotes, percent).weightedScore >= Scored(b, quotes, percent).weightedScore
  {
    LinesDominate(a, b, partners);
    DominanceKeepsScore(quotes, percent, a, b);
  }

  /** A row shows its quote: the id, the stated days or zero, and a total that every further line raises by its line value. */
  lemma {:induction false} RowShowsQuote(q: Quote, quotes: seq<Quote>, percent: real, it: QuoteItem)
    ensures var row := Scored(q, quotes, percent);
            && row.quoteId == q.id && row.rank == 0
            && row.leadTimeDays == (if q.leadTimeDays.Some? then q.leadTimeDays.value else 0)
            && Scored(q.(items := []), quotes, percent).totalPrice == 0.0
            && Scored(q.(items := q.items + [it]), quotes, percent).totalPrice == row.totalPrice + it.lineValue
  {
    TotalsAdd(q.items, [it], it);
  }

  lemma HalfOf(x: real, d: real)
    requires d > 0.0
    ensures x / d < 0.5 <==> x < d / 2.0
  {
    var q := x / d;
    assert q * d == x;
    if q < 0.5 {
      TimesPositive(0.5 - q, d);
    } else {
      TimesMonotone(d, 0.5, q);
    }
  }

  /** Past the middle between the fastest and the slowest stated lead time. */
  predicate PastTheMiddle(days: nat, leads: seq<real>) {
    days as real > (Least(leads) + Greatest(leads)) / 2.0
  }

  lemma {:induction false} SilentLeadBeats(days: nat, leads: seq<real>)
    requires Greatest(leads) > Least(leads)
    ensures LeadScore(None, leads) == 50.0
    ensures LeadScore(None, leads) > LeadScore(Some(days), leads) <==> PastTheMiddle(days, leads)
  {
    HalfOf(Greatest(leads) - days as real, Greatest(leads) - Least(leads));
  }

  lemma BlendStrict(v: real, w: real, price: real, l: real, l': real)
    requires v >= 0.0
    ensures Blend(w, v, price, l) < Blend(w, v, price, l') <==> v > 0.0 && l < l'
  {
    if v > 0.0 && l < l' {
      TimesPositive(v, l' - l);
      assert v * (l' - l) == v * l' - v * l;
    } else if v > 0.0 {
      TimesMonotone(v, l', l);
    } else {
      assert v == 0.0 && 0.0 * l == 0.0 * l';
    }
  }

  /** A quote's weighted score before it is rounded. */
  function Blended(q: Quote, quotes: seq<Quote>, percent: real): real {
    Weighted(PriceWeight(percent), PriceScore(TotalPrice(q.items), Prices(quotes)), LeadScore(q.leadTimeDays, Leads(quotes)))
  }

  /**
   * Among differing stated lead times an unstated one counts as the middle. So of two quotes of one price the silent
   * one has the better lead score if and only if the stated one is past the middle, and the better weighted score if
   * and only if the lead time counts at all as well: why dominance needs both lead times stated, or neither.
   */
  lemma {:induction false} SilenceBeatsSlownessExactly(quotes: seq<Quote>, percent: real, silent: Quote, stated: Quote)
    requires silent.leadTimeDays.None? && stated.leadTimeDays.Some?
    requires TotalPrice(silent.items) == TotalPrice(stated.items)
    requires Greatest(Leads(quotes)) > Least(Leads(quotes))
    ensures var late, leads := PastTheMiddle(stated.leadTimeDays.value, Leads(quotes)), Leads(quotes);
            && (LeadScore(None, leads) > LeadScore(stated.leadTimeDays, leads) <==> late)
            && (Blended(silent, quotes, percent) > Blended(stated, quotes, percent) <==> late && percent < 100.0)
            && (late ==> Scored(silent, quotes, percent).weightedScore >= Scored(stated, quotes, percent).weightedScore)
            && (!late ==> Scored(silent, quotes, percent).weightedScore <= Scored(stated, quotes, percent).weightedScore)
  {
    var w, leads := PriceWeight(percent), Leads(quotes);
    var p, l := PriceScore(TotalPrice(stated.items), Prices(quotes)), LeadScore(stated.leadTimeDays, leads);
    SilentLeadBeats(stated.leadTimeDays.value, leads);
    BlendStrict(1.0 - w, w, p, l, 50.0);
    BlendStrict(1.0 - w, w, p, 50.0, l);
    if l < 50.0 {
      WeightedMonotone(w, p, l, p, 50.0);
      RoundMonotone(Blended(stated, quotes, percent), Blended(silent, quotes, percent));
    } else {
      WeightedMonotone(w, p, 50.0, p, l);
      RoundMonotone(Blended(silent, quotes, percent), Blended(stated, quotes, percent));
    }
  }

  // ----- ranks

  lemma {:induction false} InsertPermutes(row: ScoreRow, sorted: seq<ScoreRow>)
    ensures multiset(Insert(row, sorted)) == multiset(sorted) + multiset{row}
  {
    if sorted != [] && sorted[0].weightedScore >= row.weightedScore {
      InsertPermutes(row, sorted[1..]);
      assert sorted == [sorted[0]] + sorted[1..];
    }
  }

  lemma {:induction false} InsertMembers(row: ScoreRow, sorted: seq<ScoreRow>, x: ScoreRow)
    ensures x in Insert(row, sorted) <==> x == row || x in sorted
  {
    if sorted != [] && sorted[0].weightedScore >= row.weightedScore {
      InsertMembers(row, sorted[1..], x);
      assert sorted == [sorted[0]] + sorted[1..];
    }
  }

  lemma LastApart(rows: seq<ScoreRow>)
    requires rows != []
    ensures multiset(rows) == multiset(rows[..|rows| - 1]) + multiset{rows[|rows| - 1]}
  {
    assert rows == rows[..|rows| - 1] + [rows[|rows| - 1]];
  }

  lemma {:induction false} SortPermutes(rows: seq<ScoreRow>)
    ensures multiset(SortByScore(rows)) == multiset(rows)
  {
    if rows != [] {
      var front, last := rows[..|rows| - 1], rows[|rows| - 1];
      SortPermutes(front);
      InsertPermutes(last, SortByScore(front));
      SortLast(rows);
      LastApart(rows);
    }
  }

  lemma {:induction false} SortKeepsRow(rows: seq<ScoreRow>, x: ScoreRow)
    ensures x in SortByScore(rows) <==> x in rows
  {
    SortPermutes(rows);
    assert x in rows <==> x in multiset(rows);
    assert x in SortByScore(rows) <==> x in multiset(SortByScore(rows));
  }

  ghost predicate Descending(rows: seq<ScoreRow>) {
    forall i, j :: 0 <= i < j < |rows| ==> rows[i].weightedScore >= rows[j].weightedScore
  }

  lemma {:induction false} InsertDescending(row: ScoreRow, sorted: seq<ScoreRow>)
    requires Descending(sorted)
    ensures Descending(Insert(row, sorted))
  {
    if sorted != [] && sorted[0].weightedScore >= row.weightedScore {
      var rest := Insert(row, sorted[1..]);
      InsertDescending(row, sorted[1..]);
      forall i | 0 <= i < |rest| ensures sorted[0].weightedScore >= rest[i].weightedScore {
        InsertMembers(row, sorted[1..], rest[i]);
      }
    }
  }

  lemma {:induction false} SortDescending(rows: seq<ScoreRow>)
    ensures Descending(SortByScore(rows))
  {
    if rows != [] {
      SortDescending(rows[..|rows| - 1]);
      InsertDescending(rows[|rows| - 1], SortByScore(rows[..|rows| - 1]));
    }
  }

  /** `x` stands somewhere before `y`. */
  ghost predicate Before(rows: seq<ScoreRow>, x: ScoreRow, y: ScoreRow) {
    exists i, j :: 0 <= i < j < |rows| && rows[i] == x && rows[j] == y
  }

  lemma BeforeInMore(x: ScoreRow, rest: seq<ScoreRow>, y: ScoreRow)
    requires y in rest
    ensures Before([x] + rest, x, y)
  {
    var k :| 0 <= k < |rest| && rest[k] == y;
    assert ([x] + rest)[0] == x && ([x] + rest)[k + 1] == y;
  }

  lemma BeforeShifts(head: ScoreRow, rest: seq<ScoreRow>, x: ScoreRow, y: ScoreRow)
    requires Before(rest, x, y)
    ensures Before([head] + rest, x, y)
  {
    var k, l :| 0 <= k < l < |rest| && rest[k] == x && rest[l] == y;
    assert ([head] + rest)[k + 1] == x && ([head] + rest)[l + 1] == y;
  }

  lemma {:induction false} InsertKeepsOrder(row: ScoreRow, sorted: seq<ScoreRow>, x: ScoreRow, y: ScoreRow)
    requires Before(sorted, x, y)
    ensures Before(Insert(row, sorted), x, y)
  {
    if sorted[0].weightedScore >= row.weightedScore {
      var i, j :| 0 <= i < j < |sorted| && sorted[i] == x && sorted[j] == y;
      var tail := sorted[1..];
      assert tail[j - 1] == y;
      if i == 0 {
        assert y in tail;
        InsertMembers(row, tail, y);
        BeforeInMore(x, Insert(row, tail), y);
      } else {
        assert tail[i - 1] == x;
        InsertKeepsOrder(row, tail, x, y);
        BeforeShifts(sorted[0], Insert(row, tail), x, y);
      }
    } else {
      BeforeShifts(row, sorted, x, y);
    }
  }

  lemma {:induction false} InsertGoesAfter(row: ScoreRow, sorted: seq<ScoreRow>, x: ScoreRow)
    requires Descending(sorted) && x in sorted && x.weightedScore >= row.weightedScore
    ensures Before(Insert(row, sorted), x, row)
  {
    var i :| 0 <= i < |sorted| && sorted[i] == x;
    assert sorted[0].weightedScore >= row.weightedScore;
    var tail := sorted[1..];
    InsertMembers(row, tail, row);
    if i == 0 {
      BeforeInMore(x, Insert(row, tail), row);
    } else {
      assert tail[i - 1] == x;
      InsertGoesAfter(row, tail, x);
      BeforeShifts(sorted[0], Insert(row, tail), x, row);
    }
  }

  /** The sort is stable: of two rows, the earlier one stays ahead unless it scores less. */
  lemma {:induction false} SortIsStable(rows: seq<ScoreRow>, i: nat, j: nat)
    requires i < j < |rows| && rows[i].weightedScore >= rows[j].weightedScore
    ensures Before(SortByScore(rows), rows[i], rows[j])
    decreases |rows|
  {
    var n := |rows| - 1;
    var front := rows[..n];
    SortLast(rows);
    assert front[i] == rows[i];
    if j < n {
      assert front[j] == rows[j];
      SortIsStable(front, i, j);
      InsertKeepsOrder(rows[n], SortByScore(front), rows[i], rows[j]);
    } else {
      LastGoesAfter(front, i, rows[n]);
    }
  }

  lemma {:induction false} LastGoesAfter(front: seq<ScoreRow>, i: nat, last: ScoreRow)
    requires i < |front| && front[i].weightedScore >= last.weightedScore
    ensures Before(Insert(last, SortByScore(front)), front[i], last)
  {
    var sorted := SortByScore(front);
    SortDescending(front);
    SortKeepsRow(front, front[i]);
    InsertGoesAfter(last, sorted, front[i]);
  }

  lemma {:induction false} SortLast(rows: seq<ScoreRow>)
    requires rows != []
    ensures SortByScore(rows) == Insert(rows[|rows| - 1], SortByScore(rows[..|rows| - 1]))
  {
  }

  lemma RankedAt(sorted: seq<ScoreRow>, k: nat)
    requires k < |sorted|
    ensures Ranked(sorted)[k].quoteId == sorted[k].quoteId && Ranked(sorted)[k].rank == k + 1
  {
  }

  lemma {:induction false} EarlierRanksAhead(rows: seq<ScoreRow>, i: nat, j: nat)
    requires i < j < |rows| && rows[i].weightedScore >= rows[j].weightedScore
    ensures RanksAhead(Ranked(SortByScore(rows)), rows[i].quoteId, rows[j].quoteId)
  {
    SortIsStable(rows, i, j);
    var sorted := SortByScore(rows);
    var k, l :| 0 <= k < l < |sorted| && sorted[k] == rows[i] && sorted[l] == rows[j];
    RankedAt(sorted, k);
    RankedAt(sorted, l);
  }

  ghost predicate RanksAhead(table: seq<ScoreRow>, x: string, y: string) {
    exists k, l :: 0 <= k < l < |table| && table[k].quoteId == x && table[l].quoteId == y && table[k].rank < table[l].rank
  }

  /** `table` lists `rows` by falling score, with ranks counted from one. */
  ghost predicate IsRanking(table: seq<ScoreRow>, rows: seq<ScoreRow>) {
    && |table| == |rows|
    && (forall i :: 0 <= i < |table| ==> table[i].rank == i + 1)
    && Descending(table)
    && multiset(Unranked(table)) == multiset(rows)
  }

  function Unranked(table: seq<ScoreRow>): (r: seq<ScoreRow>)
    ensures |r| == |table|
  {
    seq(|table|, i requires 0 <= i < |table| => table[i].(rank := 0))
  }

  lemma {:induction false} SortedIsRanking(rows: seq<ScoreRow>)
    requires forall x :: x in rows ==> x.rank == 0
    ensures IsRanking(Ranked(SortByScore(rows)), rows)
  {
    var sorted := SortByScore(rows);
    SortDescending(rows);
    SortPermutes(rows);
    forall i | 0 <= i < |sorted| ensures sorted[i].rank == 0 {
      SortKeepsRow(rows, sorted[i]);
    }
    assert Unranked(Ranked(sorted)) == sorted;
  }

  /** The table holds each active quote once, ranks run 1..n, and the weighted score never rises down the table. */
  lemma {:induction false} RanksFollowScores(quotations: seq<Quote>, percent: real)
    ensures IsRanking(Ranked(SortByScore(ScoredRows(ActiveQuotations(quotations), percent))),
                      ScoredRows(ActiveQuotations(quotations), percent))
  {
    SortedIsRanking(ScoredRows(ActiveQuotations(quotations), percent));
  }

  /** A quote that dominates a later one of the list is ranked ahead of it. */
  lemma {:induction false} DominantQuoteRanksAhead(quotations: seq<Quote>, percent: real, i: nat, j: nat)
    requires i < j < |ActiveQuotations(quotations)|
    requires Dominates(ActiveQuotations(quotations)[i], ActiveQuotations(quotations)[j])
    ensures RanksAhead(Ranked(SortByScore(ScoredRows(ActiveQuotations(quotations), percent))),
                       ActiveQuotations(quotations)[i].id, ActiveQuotations(quotations)[j].id)
  {
    var quotes := ActiveQuotations(quotations);
    DominanceKeepsScore(quotes, percent, quotes[i], quotes[j]);
    EarlierRanksAhead(ScoredRows(quotes, percent), i, j);
  }

  /** And so is a quote that is no dearer than a later one line by line, and no slower. */
  lemma {:induction false} LinesDecideRank(quotations: seq<Quote>, percent: real, i: nat, j: nat, partners: seq<QuoteItem>)
    requires i < j < |ActiveQuotations(quotations)|
    requires DominatesByLine(ActiveQuotations(quotations)[i], ActiveQuotations(quotations)[j], partners)
    ensures RanksAhead(Ranked(SortByScore(ScoredRows(ActiveQuotations(quotations), percent))),
                       ActiveQuotations(quotations)[i].id, ActiveQuotations(quotations)[j].id)
  {
    LinesDominate(ActiveQuotations(quotations)[i], ActiveQuotations(quotations)[j], partners);
    DominantQuoteRanksAhead(quotations, percent, i, j);
  }
}
