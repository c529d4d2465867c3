/**
 * verifyStockIntegrity of apps/api/scripts/verify-inventory.ts: stock summary rows, read page by page, against
 * the ledger's movements, on one snapshot. Quantities are exact decimals.
 */
module StockReconciliation {
  import opened JsText
  import opened Options

  const PAGE_SIZE: nat := 5000

  datatype SummaryRow = SummaryRow(id: nat, shopId: string, productId: string, productCode: string, currentStock: real)

  datatype LedgerRow = LedgerRow(shopId: string, productId: string, inQty: real, outQty: real)

  /** One row of `groupBy`: the sums of a pair, null when there is nothing to add. */
  datatype Group = Group(shopId: string, productId: string, inSum: Option<real>, outSum: Option<real>)

  datatype Discrepancy = Discrepancy(
    shopId: string, productId: string, productCode: string, summaryQty: real, ledgerQty: real, delta: real)

  // ----- the database's side

  ghost predicate Ascending(table: seq<SummaryRow>) {
    forall i, j :: 0 <= i < j < |table| ==> table[i].id < table[j].id
  }

  function PositionOf(table: seq<SummaryRow>, id: nat): (k: nat)
    ensures k <= |table|
    ensures k < |table| ==> table[k].id == id
    ensures forall i :: 0 <= i < k ==> table[i].id != id
  {
    if table == [] || table[0].id == id then 0 else 1 + PositionOf(table[1..], id)
  }

  function Take(rows: seq<SummaryRow>): seq<SummaryRow> {
    if |rows| <= PAGE_SIZE then rows else rows[..PAGE_SIZE]
  }

  /** `findMany` by ascending id: the first page, or the page that starts one after the cursor's row. */
  function FindMany(table: seq<SummaryRow>, cursor: Option<nat>): seq<SummaryRow> {
    match cursor
    case None => Take(table)
    case Some(id) =>
      var k := PositionOf(table, id);
      if k < |table| then Take(table[k + 1..]) else []
  }

  function SumIn(ledger: seq<LedgerRow>, s: string, p: string): real {
    if ledger == [] then 0.0
    else
      var r := ledger[|ledger| - 1];
      SumIn(ledger[..|ledger| - 1], s, p) + if r.shopId == s && r.productId == p then r.inQty else 0.0
  }

  function SumOut(ledger: seq<LedgerRow>, s: string, p: string): real {
    if ledger == [] then 0.0
    else
      var r := ledger[|ledger| - 1];
      SumOut(ledger[..|ledger| - 1], s, p) + if r.shopId == s && r.productId == p then r.outQty else 0.0
  }

  ghost predicate HasMovement(ledger: seq<LedgerRow>, s: string, p: string) {
    exists i :: 0 <= i < |ledger| && ledger[i].shopId == s && ledger[i].productId == p
  }

  ghost predicate HasGroup(groups: seq<Group>, s: string, p: string) {
    exists i :: 0 <= i < |groups| && groups[i].shopId == s && groups[i].productId == p
  }

  ghost predicate DistinctGroups(groups: seq<Group>) {
    forall i, j :: 0 <= i < j < |groups| ==> groups[i].shopId != groups[j].shopId || groups[i].productId != groups[j].productId
  }

  /** What the database gives for this sum: null can only stand for zero. */
  ghost predicate IsSum(given: Option<real>, sum: real) {
    if given.Some? then given.value == sum else sum == 0.0
  }

  /** `groups` is the ledger grouped by shop and product. */
  ghost predicate IsGrouping(ledger: seq<LedgerRow>, groups: seq<Group>) {
    && DistinctGroups(groups)
    && (forall g :: g in groups ==>
          && HasMovement(ledger, g.shopId, g.productId)
          && IsSum(g.inSum, SumIn(ledger, g.shopId, g.productId))
          && IsSum(g.outSum, SumOut(ledger, g.shopId, g.productId)))
    && (forall r :: r in ledger ==> HasGroup(groups, r.shopId, r.productId))
  }

  // ----- keys

  function Key(shopId: string, productId: string): string {
    shopId + ":" + productId
  }

  lemma KeySplits(s: string, p: string)
    requires ':' !in s && ':' !in p
    ensures Split(Key(s, p), ':') == [s, p]
  {
    SplitAtSeparator(s, ':', p);
    SplitPlain(p, ':');
  }

  /** Ids without a colon cannot be confused by their joined key. */
  lemma KeyInjective(s: string, p: string, s': string, p': string)
    requires ':' !in s && ':' !in p && ':' !in s' && ':' !in p'
    ensures Key(s, p) == Key(s', p') <==> s == s' && p == p'
  {
    KeySplits(s, p);
    KeySplits(s', p');
  }

  lemma ColonsConfuseKeys()
    ensures Key("a:b", "c") == Key("a", "b:c")
  {
  }

  ghost predicate CleanRows(rows: seq<SummaryRow>) {
    forall r :: r in rows ==> ':' !in r.shopId && ':' !in r.productId
  }

  ghost predicate CleanGroups(groups: seq<Group>) {
    forall g :: g in groups ==> ':' !in g.shopId && ':' !in g.productId
  }

  // ----- reading every page

  lemma {:induction false} CursorFindsRow(table: seq<SummaryRow>, n: nat)
    requires Ascending(table) && 0 < n <= |table|
    ensures PositionOf(table, table[n - 1].id) == n - 1
  {
    var k := PositionOf(table, table[n - 1].id);
    assert k <= n - 1;
    assert table[k].id == table[n - 1].id;
  }

  /** The page after the first `n` rows. */
  lemma NextPage(table: seq<SummaryRow>, n: nat)
    requires Ascending(table) && n <= |table|
    ensures FindMany(table, if n == 0 then None else Some(table[n - 1].id)) == Take(table[n..])
  {
    if n == 0 {
      assert table[0..] == table;
    } else {
      CursorFindsRow(table, n);
    }
  }

  lemma TakeExtends(table: seq<SummaryRow>, n: nat)
    requires n <= |table|
    ensures var page := Take(table[n..]);
            n + |page| <= |table| && table[..n] + page == table[..n + |page|] && (|page| < PAGE_SIZE ==> n + |page| == |table|)
  {
  }

  /** So many full pages have been read, and the cursor stands on the last row of them. */
  ghost predicate ReadSoFar(table: seq<SummaryRow>, rows: seq<SummaryRow>, cursor: Option<nat>, queries: nat) {
    && |rows| == 5000 * queries <= |table| && rows == table[..|rows|]
    && cursor == if |rows| == 0 then None else Some(table[|rows| - 1].id)
  }

  /** The next query brings the rows that follow, and a short page is the last. */
  lemma NextQuery(table: seq<SummaryRow>, rows: seq<SummaryRow>, cursor: Option<nat>, queries: nat)
    requires Ascending(table) && ReadSoFar(table, rows, cursor, queries)
    ensures var page := FindMany(table, cursor);
            if |page| < PAGE_SIZE then rows + page == table && |table| < 5000 * (queries + 1)
            else ReadSoFar(table, rows + page, Some(page[|page| - 1].id), queries + 1)
  {
    NextPage(table, |rows|);
    TakeExtends(table, |rows|);
    var page := FindMany(table, cursor);
    var all := rows + page;
    assert all == table[..|all|];
    if |page| >= PAGE_SIZE {
      assert |page| == 5000 && all[|all| - 1] == page[|page| - 1];
    }
  }

  /** Every row once and in order, 5000 to a query, the last query being the one that comes back short. */
  method ReadAllRows(table: seq<SummaryRow>) returns (rows: seq<SummaryRow>, queries: nat)
    requires Ascending(table)
    ensures rows == table && 5000 * (queries - 1) <= |table| < 5000 * queries
  {
    rows, queries := [], 0;
    var cursor: Option<nat> := None;
    while true
      invariant ReadSoFar(table, rows, cursor, queries)
      decreases |table| - |rows|
    {
      NextQuery(table, rows, cursor, queries);
      var page := FindMany(table, cursor);
      rows, queries := rows + page, queries + 1;
      if |page| < PAGE_SIZE { break; }
      cursor := Some(page[|page| - 1].id);
    }
  }

  // ----- what the report should say

  predicate HasRow(rows: seq<SummaryRow>, s: string, p: string) {
    exists i :: 0 <= i < |rows| && rows[i].shopId == s && rows[i].productId == p
  }

  ghost predicate OneRowPerPair(rows: seq<SummaryRow>) {
    forall i, j :: 0 <= i < j < |rows| ==> rows[i].shopId != rows[j].shopId || rows[i].productId != rows[j].productId
  }

  /** The recorded stock of a pair, zero without a summary row. */
  function StockOf(rows: seq<SummaryRow>, s: string, p: string): real {
    if rows == [] then 0.0
    else if rows[0].shopId == s && rows[0].productId == p then rows[0].currentStock
    else StockOf(rows[1..], s, p)
  }

  /** What the ledger says the stock of a pair is. */
  function NetOf(ledger: seq<LedgerRow>, s: string, p: string): real {
    SumIn(ledger, s, p) - SumOut(ledger, s, p)
  }

  predicate Names(d: Discrepancy, s: string, p: string) {
    d.shopId == s && d.productId == p
  }

  /** The entry shows the product code of the pair's summary row, or says that there is none. */
  ghost predicate ShowsCode(d: Discrepancy, rows: seq<SummaryRow>) {
    && (forall i :: 0 <= i < |rows| && rows[i].shopId == d.shopId && rows[i].productId == d.productId ==>
          d.productCode == rows[i].productCode)
    && (!HasRow(rows, d.shopId, d.productId) ==> d.productCode == "(no stock summary row)")
  }

  ghost predicate Accurate(d: Discrepancy, rows: seq<SummaryRow>, ledger: seq<LedgerRow>) {
    && d.summaryQty == StockOf(rows, d.shopId, d.productId)
    && d.ledgerQty == NetOf(ledger, d.shopId, d.productId)
    && d.delta == d.summaryQty - d.ledgerQty
    && d.delta != 0.0
    && ShowsCode(d, rows)
  }

  ghost predicate ReportedOnce(ds: seq<Discrepancy>, s: string, p: string) {
    exists i :: 0 <= i < |ds| && Names(ds[i], s, p) && forall j :: 0 <= j < |ds| && j != i ==> !Names(ds[j], s, p)
  }

  /** Sound and complete: accurate entries, one for every pair that disagrees and none for any other. */
  ghost predicate IsReport(ds: seq<Discrepancy>, rows: seq<SummaryRow>, ledger: seq<LedgerRow>) {
    && (forall d :: d in ds ==> Accurate(d, rows, ledger))
    && (forall s, p :: StockOf(rows, s, p) != NetOf(ledger, s, p) ==> ReportedOnce(ds, s, p))
    && (forall s, p :: StockOf(rows, s, p) == NetOf(ledger, s, p) ==> forall d :: d in ds ==> !Names(d, s, p))
  }

  // ----- the two passes

  function GroupNet(g: Group): real {
    g.inSum.GetOr(0.0) - g.outSum.GetOr(0.0)
  }

  /** Movements without a summary row. */
  function MissingRows(groups: seq<Group>, rows: seq<SummaryRow>): seq<Discrepancy> {
    if groups == [] then []
    else
      var g := groups[|groups| - 1];
      MissingRows(groups[..|groups| - 1], rows)
      + if HasRow(rows, g.shopId, g.productId) || GroupNet(g) == 0.0 then []
        else [Discrepancy(g.shopId, g.productId, "(no stock summary row)", 0.0, GroupNet(g), -GroupNet(g))]
  }

  function LookupNet(groups: seq<Group>, s: string, p: string): real {
    if groups == [] then 0.0
    else
      var g := groups[|groups| - 1];
      if g.shopId == s && g.productId == p then GroupNet(g) else LookupNet(groups[..|groups| - 1], s, p)
  }

  function WrongRows(rows: seq<SummaryRow>, groups: seq<Group>): seq<Discrepancy> {
    if rows == [] then []
    else
      var r := rows[|rows| - 1];
      var net := LookupNet(groups, r.shopId, r.productId);
      WrongRows(rows[..|rows| - 1], groups)
      + if r.currentStock - net == 0.0 then []
        else [Discrepancy(r.shopId, r.productId, r.productCode, r.currentStock, net, r.currentStock - net)]
  }

  lemma {:induction false} WrongRowsMore(rows: seq<SummaryRow>, i: nat, groups: seq<Group>)
    requires i < |rows|
    ensures var r, net := rows[i], LookupNet(groups, rows[i].shopId, rows[i].productId);
            var d := Discrepancy(r.shopId, r.productId, r.productCode, r.currentStock, net, r.currentStock - net);
            WrongRows(rows[..i + 1], groups) == WrongRows(rows[..i], groups) + if d.delta == 0.0 then [] else [d]
  {
    assert rows[..i + 1][..i] == rows[..i];
  }

  method BuildLedgerMap(groups: seq<Group>) returns (keys: seq<string>, ledgerMap: map<string, real>)
    requires DistinctGroups(groups) && CleanGroups(groups)
    ensures |keys| == |groups| && forall i :: 0 <= i < |groups| ==> keys[i] == Key(groups[i].shopId, groups[i].productId)
    ensures forall k :: k in ledgerMap <==> k in keys
    ensures forall i :: 0 <= i < |groups| ==> ledgerMap[keys[i]] == GroupNet(groups[i])
  {
    keys, ledgerMap := [], map[];
    for i := 0 to |groups|
      invariant |keys| == i && forall j :: 0 <= j < i ==> keys[j] == Key(groups[j].shopId, groups[j].productId)
      invariant forall k :: k in ledgerMap <==> k in keys
      invariant forall j :: 0 <= j < i ==> ledgerMap[keys[j]] == GroupNet(groups[j])
    {
      var key := Key(groups[i].shopId, groups[i].productId);
      forall j | 0 <= j < i ensures keys[j] != key {
        KeyInjective(groups[j].shopId, groups[j].productId, groups[i].shopId, groups[i].productId);
      }
      ledgerMap := ledgerMap[key := groups[i].inSum.GetOr(0.0) - groups[i].outSum.GetOr(0.0)];
      keys := keys + [key];
    }
  }

  /** Looking a pair up by its key finds its group, if it has one. */
  lemma {:induction false} KeyFindsGroup(groups: seq<Group>, keys: seq<string>, ledgerMap: map<string, real>, s: string, p: string)
    requires CleanGroups(groups) && ':' !in s && ':' !in p
    requires |keys| == |groups| && forall i :: 0 <= i < |groups| ==> keys[i] == Key(groups[i].shopId, groups[i].productId)
    requires forall i :: 0 <= i < |groups| ==> keys[i] in ledgerMap && ledgerMap[keys[i]] == GroupNet(groups[i])
    ensures (if Key(s, p) in keys then ledgerMap[Key(s, p)] else 0.0) == LookupNet(groups, s, p)
  {
    if groups != [] {
      var n := |groups| - 1;
      KeyInjective(groups[n].shopId, groups[n].productId, s, p);
      if Key(s, p) != keys[n] {
        KeyFindsGroup(groups[..n], keys[..n], ledgerMap, s, p);
        assert keys == keys[..n] + [keys[n]];
      }
    }
  }

  method FindMissing(groups: seq<Group>, keys: seq<string>, ledgerMap: map<string, real>, rows: seq<SummaryRow>)
    returns (ds: seq<Discrepancy>)
    requires CleanGroups(groups) && CleanRows(rows)
    requires |keys| == |groups| && forall i :: 0 <= i < |groups| ==> keys[i] == Key(groups[i].shopId, groups[i].productId)
    requires forall i :: 0 <= i < |groups| ==> keys[i] in ledgerMap && ledgerMap[keys[i]] == GroupNet(groups[i])
    ensures ds == MissingRows(groups, rows)
  {
    var summaryKeys := set r | r in rows :: Key(r.shopId, r.productId);
    ds := [];
    for i := 0 to |keys|
      invariant ds == MissingRows(groups[..i], rows)
    {
      assert groups[..i + 1][..i] == groups[..i];
      ghost var s, p := groups[i].shopId, groups[i].productId;
      KeyInSummary(rows, s, p);
      KeySplits(s, p);
      var ledgerQty := ledgerMap[keys[i]];
      if !(keys[i] in summaryKeys || ledgerQty == 0.0) {
        var parts := Split(keys[i], ':');
        ds := ds + [Discrepancy(parts[0], parts[1], "(no stock summary row)", 0.0, ledgerQty, -ledgerQty)];
      }
    }
    assert groups[..|groups|] == groups;
  }

  lemma KeyInSummary(rows: seq<SummaryRow>, s: string, p: string)
    requires CleanRows(rows) && ':' !in s && ':' !in p
    ensures Key(s, p) in (set r | r in rows :: Key(r.shopId, r.productId)) <==> HasRow(rows, s, p)
  {
    forall i | 0 <= i < |rows| ensures Key(rows[i].shopId, rows[i].productId) == Key(s, p) <==> rows[i].shopId == s && rows[i].productId == p {
      KeyInjective(rows[i].shopId, rows[i].productId, s, p);
    }
    if HasRow(rows, s, p) {
      var i :| 0 <= i < |rows| && rows[i].shopId == s && rows[i].productId == p;
      assert rows[i] in rows;
    }
  }

  method FindWrong(groups: seq<Group>, keys: seq<string>, ledgerMap: map<string, real>, rows: seq<SummaryRow>)
    returns (ds: seq<Discrepancy>)
    requires CleanGroups(groups) && CleanRows(rows)
    requires |keys| == |groups| && forall i :: 0 <= i < |groups| ==> keys[i] == Key(groups[i].shopId, groups[i].productId)
    requires forall k :: k in ledgerMap <==> k in keys
    requires forall i :: 0 <= i < |groups| ==> ledgerMap[keys[i]] == GroupNet(groups[i])
    ensures ds == WrongRows(rows, groups)
  {
    ds := [];
    for i := 0 to |rows|
      invariant ds == WrongRows(rows[..i], groups)
    {
      WrongRowsMore(rows, i, groups);
      var row := rows[i];
      KeyFindsGroup(groups, keys, ledgerMap, row.shopId, row.productId);
      var key := Key(row.shopId, row.productId);
      var ledgerQty := if key in ledgerMap then ledgerMap[key] else 0.0;
      var delta := row.currentStock - ledgerQty;
      if delta != 0.0 {
        ds := ds + [Discrepancy(row.shopId, row.productId, row.productCode, row.currentStock, ledgerQty, delta)];
      }
    }
    assert rows[..|rows|] == rows;
  }

  /**
   * The whole check: every row is read once, and the report has exactly one accurate entry for each shop and
   * product whose recorded stock (or zero) differs from the ledger, and no other.
   */
  method VerifyStockIntegrity(table: seq<SummaryRow>, ghost ledger: seq<LedgerRow>, groups: seq<Group>)
    returns (checked: nat, shopsChecked: nat, scanned: nat, discrepancies: seq<Discrepancy>)
    requires Ascending(table) && OneRowPerPair(table) && CleanRows(table)
    requires IsGrouping(ledger, groups) && CleanGroups(groups)
    ensures checked == |table| && scanned == |groups| && shopsChecked == |set r | r in table :: r.shopId|
    ensures IsReport(discrepancies, table, ledger)
  {
    var rows, queries := ReadAllRows(table);
    var keys, ledgerMap := BuildLedgerMap(groups);
    var missing := FindMissing(groups, keys, ledgerMap, rows);
    var wrong := FindWrong(groups, keys, ledgerMap, rows);
    discrepancies := missing + wrong;
    checked, shopsChecked, scanned := |rows|, |set r | r in rows :: r.shopId|, |groups|;
    PassesMakeAReport(table, ledger, groups);
  }

  // ----- why the two passes make a report

  /** A ledger without movements leaves nothing, and each movement moves its own pair by what came in less what went out. */
  lemma {:induction false} NetGrowsByMovement(ledger: seq<LedgerRow>, r: LedgerRow, s: string, p: string)
    ensures NetOf([], s, p) == 0.0
    ensures NetOf(ledger + [r], s, p)
         == NetOf(ledger, s, p) + if r.shopId == s && r.productId == p then r.inQty - r.outQty else 0.0
  {
    assert (ledger + [r])[..|ledger|] == ledger;
  }

  lemma {:induction false} NoMovementNoSum(ledger: seq<LedgerRow>, s: string, p: string)
    requires !HasMovement(ledger, s, p)
    ensures SumIn(ledger, s, p) == 0.0 && SumOut(ledger, s, p) == 0.0
  {
    if ledger != [] {
      var n := |ledger| - 1;
      forall i | 0 <= i < n ensures !(ledger[..n][i].shopId == s && ledger[..n][i].productId == p) {
        assert ledger[..n][i] == ledger[i];
      }
      NoMovementNoSum(ledger[..n], s, p);
    }
  }

  lemma {:induction false} LookupInGroups(groups: seq<Group>, s: string, p: string)
    requires DistinctGroups(groups)
    ensures forall g :: g in groups && g.shopId == s && g.productId == p ==> LookupNet(groups, s, p) == GroupNet(g)
    ensures !HasGroup(groups, s, p) ==> LookupNet(groups, s, p) == 0.0
  {
    if groups != [] {
      var n := |groups| - 1;
      LookupInGroups(groups[..n], s, p);
      assert groups == groups[..n] + [groups[n]];
      if HasGroup(groups[..n], s, p) {
        var i :| 0 <= i < n && groups[..n][i].shopId == s && groups[..n][i].productId == p;
        assert groups[i].shopId == s && groups[i].productId == p;
      }
    }
  }

  lemma {:induction false} LookupIsNet(ledger: seq<LedgerRow>, groups: seq<Group>, s: string, p: string)
    requires IsGrouping(ledger, groups)
    ensures LookupNet(groups, s, p) == NetOf(ledger, s, p)
  {
    LookupInGroups(groups, s, p);
    if HasGroup(groups, s, p) {
      var i :| 0 <= i < |groups| && groups[i].shopId == s && groups[i].productId == p;
      assert groups[i] in groups;
    } else {
      assert !HasMovement(ledger, s, p) by {
        assert forall i :: 0 <= i < |ledger| ==> ledger[i] in ledger;
      }
      NoMovementNoSum(ledger, s, p);
    }
  }

  /** The recorded stock of a pair is its row's. */
  lemma {:induction false} StockOfRow(rows: seq<SummaryRow>, i: nat)
    requires OneRowPerPair(rows) && i < |rows|
    ensures StockOf(rows, rows[i].shopId, rows[i].productId) == rows[i].currentStock
  {
    if i > 0 {
      StockOfRow(rows[1..], i - 1);
    }
  }

  /** And zero if it has none. */
  lemma {:induction false} NoRowNoStock(rows: seq<SummaryRow>, s: string, p: string)
    requires !HasRow(rows, s, p)
    ensures StockOf(rows, s, p) == 0.0
  {
    if rows != [] {
      forall i | 0 <= i < |rows| - 1 ensures !(rows[1..][i].shopId == s && rows[1..][i].productId == p) {
        assert rows[1..][i] == rows[i + 1];
      }
      NoRowNoStock(rows[1..], s, p);
    }
  }

  /** Each pass names a pair at most once, and says which pairs it names. */
  ghost predicate NamesOnce(ds: seq<Discrepancy>) {
    forall i, j :: 0 <= i < j < |ds| ==> !Names(ds[j], ds[i].shopId, ds[i].productId)
  }

  ghost predicate NamedIn(ds: seq<Discrepancy>, s: string, p: string) {
    exists i :: 0 <= i < |ds| && Names(ds[i], s, p)
  }

  ghost predicate RightlyMissing(d: Discrepancy, groups: seq<Group>, rows: seq<SummaryRow>) {
    && !HasRow(rows, d.shopId, d.productId) && HasGroup(groups, d.shopId, d.productId)
    && d.summaryQty == 0.0 && d.ledgerQty == LookupNet(groups, d.shopId, d.productId)
    && d.delta == d.summaryQty - d.ledgerQty && d.delta != 0.0 && ShowsCode(d, rows)
  }

  lemma NamesOneMore(ds: seq<Discrepancy>, d: Discrepancy)
    requires NamesOnce(ds) && forall x :: x in ds ==> !Names(x, d.shopId, d.productId)
    ensures NamesOnce(ds + [d])
  {
    forall i, j | 0 <= i < j < |ds + [d]| ensures !Names((ds + [d])[j], (ds + [d])[i].shopId, (ds + [d])[i].productId) {
      if j == |ds| {
        assert ds[i] in ds;
      }
    }
  }

  lemma StillMissing(groups: seq<Group>, rows: seq<SummaryRow>, d: Discrepancy)
    requires groups != [] && DistinctGroups(groups) && RightlyMissing(d, groups[..|groups| - 1], rows)
    ensures RightlyMissing(d, groups, rows) && !Names(d, groups[|groups| - 1].shopId, groups[|groups| - 1].productId)
  {
    var n := |groups| - 1;
    var i :| 0 <= i < n && groups[..n][i].shopId == d.shopId && groups[..n][i].productId == d.productId;
    assert groups[i].shopId == d.shopId && groups[i].productId == d.productId;
  }

  lemma {:induction false} MissingNamesOnce(groups: seq<Group>, rows: seq<SummaryRow>)
    requires DistinctGroups(groups)
    ensures NamesOnce(MissingRows(groups, rows))
    ensures forall d :: d in MissingRows(groups, rows) ==> RightlyMissing(d, groups, rows)
  {
    if groups != [] {
      var n := |groups| - 1;
      MissingNamesOnce(groups[..n], rows);
      forall d | d in MissingRows(groups[..n], rows)
        ensures RightlyMissing(d, groups, rows) && !Names(d, groups[n].shopId, groups[n].productId)
      {
        StillMissing(groups, rows, d);
      }
      var front, all := MissingRows(groups[..n], rows), MissingRows(groups, rows);
      if |all| > |front| {
        NamesOneMore(front, all[|front|]);
        assert all == front + [all[|front|]];
      } else {
        assert all == front;
      }
      assert HasGroup(groups, groups[n].shopId, groups[n].productId) by {
        assert groups[n].shopId == groups[n].shopId;
      }
    }
  }

  lemma {:induction false} MissingIsNamed(groups: seq<Group>, rows: seq<SummaryRow>, i: nat)
    requires i < |groups| && !HasRow(rows, groups[i].shopId, groups[i].productId) && GroupNet(groups[i]) != 0.0
    ensures NamedIn(MissingRows(groups, rows), groups[i].shopId, groups[i].productId)
  {
    var n := |groups| - 1;
    var front := MissingRows(groups[..n], rows);
    if i < n {
      MissingIsNamed(groups[..n], rows, i);
      var k :| 0 <= k < |front| && Names(front[k], groups[i].shopId, groups[i].productId);
      assert Names(MissingRows(groups, rows)[k], groups[i].shopId, groups[i].productId);
    } else {
      assert Names(MissingRows(groups, rows)[|front|], groups[i].shopId, groups[i].productId);
    }
  }

  ghost predicate RightlyWrong(d: Discrepancy, rows: seq<SummaryRow>, groups: seq<Group>) {
    && HasRow(rows, d.shopId, d.productId) && d.summaryQty == StockOf(rows, d.shopId, d.productId)
    && d.ledgerQty == LookupNet(groups, d.shopId, d.productId)
    && d.delta == d.summaryQty - d.ledgerQty && d.delta != 0.0 && ShowsCode(d, rows)
  }

  lemma StillWrong(rows: seq<SummaryRow>, groups: seq<Group>, d: Discrepancy)
    requires rows != [] && OneRowPerPair(rows) && RightlyWrong(d, rows[..|rows| - 1], groups)
    ensures RightlyWrong(d, rows, groups) && !Names(d, rows[|rows| - 1].shopId, rows[|rows| - 1].productId)
  {
    var n := |rows| - 1;
    var i :| 0 <= i < n && rows[..n][i].shopId == d.shopId && rows[..n][i].productId == d.productId;
    assert rows[i].shopId == d.shopId && rows[i].productId == d.productId;
    StockOfRow(rows, i);
    StockOfRow(rows[..n], i);
    assert d.productCode == rows[..n][i].productCode;
  }

  lemma LastIsWrong(rows: seq<SummaryRow>, groups: seq<Group>, d: Discrepancy)
    requires rows != [] && OneRowPerPair(rows)
    requires var r, net := rows[|rows| - 1], LookupNet(groups, rows[|rows| - 1].shopId, rows[|rows| - 1].productId);
             d == Discrepancy(r.shopId, r.productId, r.productCode, r.currentStock, net, r.currentStock - net) && d.delta != 0.0
    ensures RightlyWrong(d, rows, groups)
  {
    StockOfRow(rows, |rows| - 1);
    assert rows[|rows| - 1].shopId == d.shopId;
  }

  lemma {:induction false} WrongNamesOnce(rows: seq<SummaryRow>, groups: seq<Group>)
    requires OneRowPerPair(rows)
    ensures NamesOnce(WrongRows(rows, groups))
    ensures forall d :: d in WrongRows(rows, groups) ==> RightlyWrong(d, rows, groups)
  {
    if rows != [] {
      var n := |rows| - 1;
      WrongNamesOnce(rows[..n], groups);
      forall d | d in WrongRows(rows[..n], groups)
        ensures RightlyWrong(d, rows, groups) && !Names(d, rows[n].shopId, rows[n].productId)
      {
        StillWrong(rows, groups, d);
      }
      var front, all := WrongRows(rows[..n], groups), WrongRows(rows, groups);
      if |all| > |front| {
        assert all == front + [all[|front|]];
        LastIsWrong(rows, groups, all[|front|]);
        NamesOneMore(front, all[|front|]);
      } else {
        assert all == front;
      }
    }
  }

  lemma {:induction false} WrongIsNamed(rows: seq<SummaryRow>, groups: seq<Group>, i: nat)
    requires i < |rows| && rows[i].currentStock != LookupNet(groups, rows[i].shopId, rows[i].productId)
    ensures NamedIn(WrongRows(rows, groups), rows[i].shopId, rows[i].productId)
  {
    var n := |rows| - 1;
    var front := WrongRows(rows[..n], groups);
    if i < n {
      WrongIsNamed(rows[..n], groups, i);
      var k :| 0 <= k < |front| && Names(front[k], rows[i].shopId, rows[i].productId);
      assert Names(WrongRows(rows, groups)[k], rows[i].shopId, rows[i].productId);
    } else {
      assert Names(WrongRows(rows, groups)[|front|], rows[i].shopId, rows[i].productId);
    }
  }

  lemma NamedOnceIsReportedOnce(ds: seq<Discrepancy>, s: string, p: string)
    requires NamesOnce(ds) && NamedIn(ds, s, p)
    ensures ReportedOnce(ds, s, p)
  {
    var i :| 0 <= i < |ds| && Names(ds[i], s, p);
    forall j | 0 <= j < |ds| && j != i ensures !Names(ds[j], s, p) {
      if j < i { assert !Names(ds[i], ds[j].shopId, ds[j].productId); } else { assert !Names(ds[j], ds[i].shopId, ds[i].productId); }
    }
  }

  lemma {:induction false} PassesMakeAReport(rows: seq<SummaryRow>, ledger: seq<LedgerRow>, groups: seq<Group>)
    requires OneRowPerPair(rows) && IsGrouping(ledger, groups)
    ensures IsReport(MissingRows(groups, rows) + WrongRows(rows, groups), rows, ledger)
  {
    var missing, wrong := MissingRows(groups, rows), WrongRows(rows, groups);
    var ds := missing + wrong;
    MissingNamesOnce(groups, rows);
    WrongNamesOnce(rows, groups);
    forall d | d in ds ensures Accurate(d, rows, ledger) {
      LookupIsNet(ledger, groups, d.shopId, d.productId);
      if d in missing {
        NoRowNoStock(rows, d.shopId, d.productId);
      }
    }
    assert NamesOnce(ds) by {
      forall i, j | 0 <= i < j < |ds| ensures !Names(ds[j], ds[i].shopId, ds[i].productId) {
        if i < |missing| <= j {
          assert ds[i] in missing && ds[j] in wrong;
        }
      }
    }
    forall s, p | StockOf(rows, s, p) != NetOf(ledger, s, p) ensures ReportedOnce(ds, s, p) {
      DisagreementIsNamed(rows, ledger, groups, s, p);
      NamedOnceIsReportedOnce(ds, s, p);
    }
  }

  lemma NamedInBoth(x: seq<Discrepancy>, y: seq<Discrepancy>, s: string, p: string)
    requires NamedIn(x, s, p) || NamedIn(y, s, p)
    ensures NamedIn(x + y, s, p)
  {
    if NamedIn(x, s, p) {
      var k :| 0 <= k < |x| && Names(x[k], s, p);
      assert Names((x + y)[k], s, p);
    } else {
      var k :| 0 <= k < |y| && Names(y[k], s, p);
      assert Names((x + y)[|x| + k], s, p);
    }
  }

  lemma {:induction false} DisagreeingRowIsNamed(rows: seq<SummaryRow>, groups: seq<Group>, s: string, p: string)
    requires OneRowPerPair(rows) && HasRow(rows, s, p) && StockOf(rows, s, p) != LookupNet(groups, s, p)
    ensures NamedIn(WrongRows(rows, groups), s, p)
  {
    var i :| 0 <= i < |rows| && rows[i].shopId == s && rows[i].productId == p;
    StockOfRow(rows, i);
    WrongIsNamed(rows, groups, i);
  }

  lemma {:induction false} DisagreeingGroupIsNamed(rows: seq<SummaryRow>, groups: seq<Group>, s: string, p: string)
    requires DistinctGroups(groups) && !HasRow(rows, s, p) && LookupNet(groups, s, p) != 0.0
    ensures NamedIn(MissingRows(groups, rows), s, p)
  {
    LookupInGroups(groups, s, p);
    var i :| 0 <= i < |groups| && groups[i].shopId == s && groups[i].productId == p;
    assert groups[i] in groups;
    MissingIsNamed(groups, rows, i);
  }

  lemma {:induction false} DisagreementIsNamed(rows: seq<SummaryRow>, ledger: seq<LedgerRow>, groups: seq<Group>, s: string, p: string)
    requires OneRowPerPair(rows) && IsGrouping(ledger, groups)
    requires StockOf(rows, s, p) != NetOf(ledger, s, p)
    ensures NamedIn(MissingRows(groups, rows) + WrongRows(rows, groups), s, p)
  {
    LookupIsNet(ledger, groups, s, p);
    if HasRow(rows, s, p) {
      DisagreeingRowIsNamed(rows, groups, s, p);
    } else {
      NoRowNoStock(rows, s, p);
      DisagreeingGroupIsNamed(rows, groups, s, p);
    }
    NamedInBoth(MissingRows(groups, rows), WrongRows(rows, groups), s, p);
  }

  /** The report is empty exactly when recorded stock and ledger agree everywhere. */
  lemma {:induction false} EmptyReportMeansAgreement(ds: seq<Discrepancy>, rows: seq<SummaryRow>, ledger: seq<LedgerRow>)
    requires IsReport(ds, rows, ledger)
    ensures ds == [] <==> forall s, p :: StockOf(rows, s, p) == NetOf(ledger, s, p)
  {
    if ds != [] {
      assert ds[0] in ds;
    }
  }
}
