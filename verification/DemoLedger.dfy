/**
 * The additive demo data of apps/api/prisma/demo-additive.ts: documents, product assignments and number
 * sequences that are created only when missing, and the stock ledger rows written with them.
 */
module DemoLedger {
  datatype Status = DRAFT | POSTED | DISPATCHED

  datatype TransactionType = OPENING | GOODS_RECEIPT | GOODS_ISSUE | DAMAGE

  datatype Line = Line(productId: string, quantity: real)

  datatype Document = Document(shopId: string, status: Status, lines: seq<Line>)

  /** Each kind of document has its own table, in which the number is unique. */
  datatype DocKey = DocKey(kind: TransactionType, number: string)

  datatype LedgerRow = LedgerRow(
    transactionType: TransactionType, transactionRef: string, shopId: string, productId: string,
    inQty: real, outQty: real)

  datatype Assignment = Assignment(productCode: string, shopId: string)

  datatype Bucket = Bucket(docType: string, shopId: string, yearMonth: string)

  datatype Db = Db(
    products: set<string>, assignments: map<Assignment, real>, documents: map<DocKey, Document>,
    sequences: map<Bucket, nat>, ledger: seq<LedgerRow>)

  datatype Call =
    | Product(productCode: string, shopId: string, openingStock: real)
    | PostedReceipt(number: string, shopId: string, lines: seq<Line>)
    | DraftReceipt(number: string, shopId: string, lines: seq<Line>)
    | Issue(number: string, shopId: string, status: Status, lines: seq<Line>)
    | Damaged(number: string, shopId: string, status: Status, line: Line)
    | Sequence(bucket: Bucket, lastSeq: nat)

  // ----- rows

  /** Receipts come in, issues and damage go out. */
  function RowOf(key: DocKey, shopId: string, line: Line): LedgerRow {
    if key.kind.GOODS_RECEIPT?
    then LedgerRow(key.kind, key.number, shopId, line.productId, line.quantity, 0.0)
    else LedgerRow(key.kind, key.number, shopId, line.productId, 0.0, line.quantity)
  }

  function RowsOf(key: DocKey, shopId: string, lines: seq<Line>): (r: seq<LedgerRow>)
    ensures |r| == |lines|
  {
    seq(|lines|, i requires 0 <= i < |lines| => RowOf(key, shopId, lines[i]))
  }

  function Prefix8(s: string): string {
    if |s| <= 8 then s else s[..8]
  }

  function OpeningRow(a: Assignment, openingStock: real): LedgerRow {
    LedgerRow(OPENING, "OPENING-" + a.productCode + "-" + Prefix8(a.shopId), a.shopId, a.productCode, openingStock, 0.0)
  }

  // ----- the calls, on values

  function EnsureDocument(db: Db, key: DocKey, d: Document): Db {
    if key in db.documents then db
    else db.(documents := db.documents[key := d],
             ledger := db.ledger + if d.status.POSTED? then RowsOf(key, d.shopId, d.lines) else [])
  }

  function EnsureAssignment(db: Db, a: Assignment, openingStock: real): Db {
    if a in db.assignments then db
    else db.(assignments := db.assignments[a := openingStock],
             ledger := db.ledger + if openingStock > 0.0 then [OpeningRow(a, openingStock)] else [])
  }

  function Step(db: Db, c: Call): Db {
    match c
    case Product(code, shop, opening) =>
      EnsureAssignment(db.(products := db.products + {code}), Assignment(code, shop), opening)
    case PostedReceipt(n, shop, lines) => EnsureDocument(db, DocKey(GOODS_RECEIPT, n), Document(shop, POSTED, lines))
    case DraftReceipt(n, shop, lines) => EnsureDocument(db, DocKey(GOODS_RECEIPT, n), Document(shop, DRAFT, lines))
    case Issue(n, shop, status, lines) => EnsureDocument(db, DocKey(GOODS_ISSUE, n), Document(shop, status, lines))
    case Damaged(n, shop, status, line) => EnsureDocument(db, DocKey(DAMAGE, n), Document(shop, status, [line]))
    case Sequence(b, n) =>
      if b in db.sequences && db.sequences[b] >= n then db else db.(sequences := db.sequences[b := n])
  }

  function Run(db: Db, calls: seq<Call>): Db {
    if calls == [] then db else Step(Run(db, calls[..|calls| - 1]), calls[|calls| - 1])
  }

  // ----- the calls, on the tables

  class DemoData {
    var products: set<string>
    var assignments: map<Assignment, real>
    var documents: map<DocKey, Document>
    var sequences: map<Bucket, nat>
    var ledger: seq<LedgerRow>

    ghost function View(): Db
      reads this
    {
      Db(products, assignments, documents, sequences, ledger)
    }

    method EnsureProduct(productCode: string, shopId: string, openingStock: real)
      modifies this
      ensures View() == Step(old(View()), Product(productCode, shopId, openingStock))
    {
      if productCode !in products {
        products := products + {productCode};
      }
      var a := Assignment(productCode, shopId);
      if a !in assignments {
        assignments := assignments[a := openingStock];
        if openingStock > 0.0 {
          ledger := ledger + [OpeningRow(a, openingStock)];
        }
      }
      assert products == old(products) + {productCode};
    }

    /** One ledger row per line, in line order. */
    method CreateLedgerRows(key: DocKey, shopId: string, lines: seq<Line>)
      modifies this`ledger
      ensures ledger == old(ledger) + RowsOf(key, shopId, lines)
    {
      for i := 0 to |lines|
        invariant ledger == old(ledger) + RowsOf(key, shopId, lines)[..i]
      {
        ledger := ledger + [RowOf(key, shopId, lines[i])];
      }
    }

    method EnsurePostedGoodsReceipt(number: string, shopId: string, lines: seq<Line>)
      modifies this
      ensures View() == Step(old(View()), PostedReceipt(number, shopId, lines))
    {
      var key := DocKey(GOODS_RECEIPT, number);
      if key in documents { return; }
      documents := documents[key := Document(shopId, POSTED, lines)];
      CreateLedgerRows(key, shopId, lines);
    }

    method EnsureDraftGoodsReceipt(number: string, shopId: string, lines: seq<Line>)
      modifies this
      ensures View() == Step(old(View()), DraftReceipt(number, shopId, lines))
    {
      var key := DocKey(GOODS_RECEIPT, number);
      if key in documents { return; }
      documents := documents[key := Document(shopId, DRAFT, lines)];
    }

    method EnsureGoodsIssue(number: string, shopId: string, status: Status, lines: seq<Line>)
      modifies this
      ensures View() == Step(old(View()), Issue(number, shopId, status, lines))
    {
      var key := DocKey(GOODS_ISSUE, number);
      if key in documents { return; }
      documents := documents[key := Document(shopId, status, lines)];
      if status == POSTED {
        CreateLedgerRows(key, shopId, lines);
      }
    }

    method EnsureDamagedStock(number: string, shopId: string, status: Status, line: Line)
      modifies this
      ensures View() == Step(old(View()), Damaged(number, shopId, status, line))
    {
      var key := DocKey(DAMAGE, number);
      if key in documents { return; }
      documents := documents[key := Document(shopId, status, [line])];
      if status == POSTED {
        ledger := ledger + [RowOf(key, shopId, line)];
        assert RowsOf(key, shopId, [line]) == [RowOf(key, shopId, line)];
      }
    }

    method EnsureDocumentSequence(bucket: Bucket, lastSeq: nat)
      modifies this
      ensures View() == Step(old(View()), Sequence(bucket, lastSeq))
    {
      if bucket !in sequences {
        sequences := sequences[bucket := lastSeq];
      } else if sequences[bucket] >= lastSeq {
        return;
      } else {
        sequences := sequences[bucket := lastSeq];
      }
    }
  }

  // ----- the ledger read back by document and by assignment

  function RowsFor(ledger: seq<LedgerRow>, key: DocKey): seq<LedgerRow> {
    if ledger == [] then []
    else
      var n := |ledger| - 1;
      RowsFor(ledger[..n], key)
      + if ledger[n].transactionType == key.kind && ledger[n].transactionRef == key.number then [ledger[n]] else []
  }

  function OpeningsFor(ledger: seq<LedgerRow>, a: Assignment): seq<LedgerRow> {
    if ledger == [] then []
    else
      var n := |ledger| - 1;
      OpeningsFor(ledger[..n], a)
      + if ledger[n].transactionType.OPENING? && ledger[n].productId == a.productCode && ledger[n].shopId == a.shopId
        then [ledger[n]] else []
  }

  /** The rows a document should have: one for each line once it is posted, none before. */
  function Due(db: Db, key: DocKey): seq<LedgerRow> {
    if key in db.documents && db.documents[key].status.POSTED?
    then RowsOf(key, db.documents[key].shopId, db.documents[key].lines) else []
  }

  function OpeningDue(db: Db, a: Assignment): seq<LedgerRow> {
    if a in db.assignments && db.assignments[a] > 0.0 then [OpeningRow(a, db.assignments[a])] else []
  }

  /** What should be filed is filed, for every document and every assignment. */
  ghost predicate RowsAreDue(db: Db) {
    && (forall key :: key in db.documents ==> !key.kind.OPENING?)
    && (forall key: DocKey :: !key.kind.OPENING? ==> RowsFor(db.ledger, key) == Due(db, key))
    && (forall a :: OpeningsFor(db.ledger, a) == OpeningDue(db, a))
  }

  lemma {:induction false} RowsForMore(ledger: seq<LedgerRow>, more: seq<LedgerRow>, key: DocKey)
    ensures RowsFor(ledger + more, key) == RowsFor(ledger, key) + RowsFor(more, key)
  {
    if more == [] {
      assert ledger + more == ledger;
    } else {
      var n := |more| - 1;
      assert (ledger + more)[..|ledger| + n] == ledger + more[..n];
      RowsForMore(ledger, more[..n], key);
    }
  }

  lemma {:induction false} OpeningsForMore(ledger: seq<LedgerRow>, more: seq<LedgerRow>, a: Assignment)
    ensures OpeningsFor(ledger + more, a) == OpeningsFor(ledger, a) + OpeningsFor(more, a)
  {
    if more == [] {
      assert ledger + more == ledger;
    } else {
      var n := |more| - 1;
      assert (ledger + more)[..|ledger| + n] == ledger + more[..n];
      OpeningsForMore(ledger, more[..n], a);
    }
  }

  lemma {:induction false} RowsOfDocument(key: DocKey, shopId: string, lines: seq<Line>, other: DocKey, a: Assignment)
    requires !key.kind.OPENING?
    ensures RowsFor(RowsOf(key, shopId, lines), other) == if other == key then RowsOf(key, shopId, lines) else []
    ensures OpeningsFor(RowsOf(key, shopId, lines), a) == []
  {
    if lines != [] {
      var n := |lines| - 1;
      var front, last := RowsOf(key, shopId, lines[..n]), [RowOf(key, shopId, lines[n])];
      RowsOfDocument(key, shopId, lines[..n], other, a);
      RowsForMore(front, last, other);
      OpeningsForMore(front, last, a);
      OneRow(key, shopId, lines[n], other, a);
      assert RowsOf(key, shopId, lines) == front + last;
    }
  }

  lemma {:induction false} OneRow(key: DocKey, shopId: string, line: Line, other: DocKey, a: Assignment)
    requires !key.kind.OPENING?
    ensures var row := [RowOf(key, shopId, line)]; RowsFor(row, other) == if other == key then row else []
    ensures OpeningsFor([RowOf(key, shopId, line)], a) == []
  {
    assert [RowOf(key, shopId, line)][..0] == [];
  }

  lemma {:induction false} RowsAfterDocument(db: Db, key: DocKey, d: Document, other: DocKey)
    requires key !in db.documents && !key.kind.OPENING? && RowsFor(db.ledger, other) == Due(db, other)
    ensures RowsFor(EnsureDocument(db, key, d).ledger, other) == Due(EnsureDocument(db, key, d), other)
  {
    RowsForMore(db.ledger, if d.status.POSTED? then RowsOf(key, d.shopId, d.lines) else [], other);
    RowsOfDocument(key, d.shopId, d.lines, other, Assignment("", ""));
  }

  lemma {:induction false} OpeningsAfterDocument(db: Db, key: DocKey, d: Document, a: Assignment)
    requires key !in db.documents && !key.kind.OPENING? && OpeningsFor(db.ledger, a) == OpeningDue(db, a)
    ensures OpeningsFor(EnsureDocument(db, key, d).ledger, a) == OpeningDue(EnsureDocument(db, key, d), a)
  {
    OpeningsForMore(db.ledger, if d.status.POSTED? then RowsOf(key, d.shopId, d.lines) else [], a);
    RowsOfDocument(key, d.shopId, d.lines, key, a);
  }

  lemma DocumentKeepsDue(db: Db, key: DocKey, d: Document)
    requires RowsAreDue(db) && !key.kind.OPENING?
    ensures RowsAreDue(EnsureDocument(db, key, d))
  {
    if key !in db.documents {
      var db' := EnsureDocument(db, key, d);
      forall other: DocKey | !other.kind.OPENING? ensures RowsFor(db'.ledger, other) == Due(db', other) {
        RowsAfterDocument(db, key, d, other);
      }
      forall a ensures OpeningsFor(db'.ledger, a) == OpeningDue(db', a) {
        OpeningsAfterDocument(db, key, d, a);
      }
    }
  }

  /** An opening row belongs to its assignment and to no document. */
  lemma OpeningRowsOnly(a: Assignment, openingStock: real, key: DocKey, b: Assignment)
    requires !key.kind.OPENING?
    ensures var rows := if openingStock > 0.0 then [OpeningRow(a, openingStock)] else [];
            RowsFor(rows, key) == [] && OpeningsFor(rows, b) == if a == b then rows else []
  {
    assert [OpeningRow(a, openingStock)][..0] == [];
  }

  lemma {:induction false} RowsAfterAssignment(db: Db, a: Assignment, openingStock: real, key: DocKey)
    requires a !in db.assignments && !key.kind.OPENING? && RowsFor(db.ledger, key) == Due(db, key)
    ensures RowsFor(EnsureAssignment(db, a, openingStock).ledger, key) == Due(EnsureAssignment(db, a, openingStock), key)
  {
    RowsForMore(db.ledger, if openingStock > 0.0 then [OpeningRow(a, openingStock)] else [], key);
    OpeningRowsOnly(a, openingStock, key, a);
  }

  lemma {:induction false} OpeningsAfterAssignment(db: Db, a: Assignment, openingStock: real, b: Assignment)
    requires a !in db.assignments && OpeningsFor(db.ledger, b) == OpeningDue(db, b)
    ensures OpeningsFor(EnsureAssignment(db, a, openingStock).ledger, b) == OpeningDue(EnsureAssignment(db, a, openingStock), b)
  {
    OpeningsForMore(db.ledger, if openingStock > 0.0 then [OpeningRow(a, openingStock)] else [], b);
    OpeningRowsOnly(a, openingStock, DocKey(DAMAGE, ""), b);
  }

  lemma AssignmentKeepsDue(db: Db, a: Assignment, openingStock: real)
    requires RowsAreDue(db)
    ensures RowsAreDue(EnsureAssignment(db, a, openingStock))
  {
    if a !in db.assignments {
      var db' := EnsureAssignment(db, a, openingStock);
      forall key: DocKey | !key.kind.OPENING? ensures RowsFor(db'.ledger, key) == Due(db', key) {
        RowsAfterAssignment(db, a, openingStock, key);
      }
      forall b ensures OpeningsFor(db'.ledger, b) == OpeningDue(db', b) {
        OpeningsAfterAssignment(db, a, openingStock, b);
      }
    }
  }

  lemma ProductsDoNotMatter(db: Db, products: set<string>)
    requires RowsAreDue(db)
    ensures RowsAreDue(db.(products := products))
  {
    var db' := db.(products := products);
    forall key: DocKey | !key.kind.OPENING? ensures RowsFor(db'.ledger, key) == Due(db', key) {
      assert Due(db', key) == Due(db, key);
    }
    forall a ensures OpeningsFor(db'.ledger, a) == OpeningDue(db', a) {
      assert OpeningDue(db', a) == OpeningDue(db, a);
    }
  }

  lemma SequencesDoNotMatter(db: Db, sequences: map<Bucket, nat>)
    requires RowsAreDue(db)
    ensures RowsAreDue(db.(sequences := sequences))
  {
    var db' := db.(sequences := sequences);
    forall key: DocKey | !key.kind.OPENING? ensures RowsFor(db'.ledger, key) == Due(db', key) {
      assert Due(db', key) == Due(db, key);
    }
    forall a ensures OpeningsFor(db'.ledger, a) == OpeningDue(db', a) {
      assert OpeningDue(db', a) == OpeningDue(db, a);
    }
  }

  lemma StepKeepsDue(db: Db, c: Call)
    requires RowsAreDue(db)
    ensures RowsAreDue(Step(db, c))
  {
    match c
    case Product(code, shop, opening) =>
      ProductsDoNotMatter(db, db.products + {code});
      AssignmentKeepsDue(db.(products := db.products + {code}), Assignment(code, shop), opening);
    case PostedReceipt(x, shop, lines) => DocumentKeepsDue(db, DocKey(GOODS_RECEIPT, x), Document(shop, POSTED, lines));
    case DraftReceipt(x, shop, lines) => DocumentKeepsDue(db, DocKey(GOODS_RECEIPT, x), Document(shop, DRAFT, lines));
    case Issue(x, shop, status, lines) => DocumentKeepsDue(db, DocKey(GOODS_ISSUE, x), Document(shop, status, lines));
    case Damaged(x, shop, status, line) => DocumentKeepsDue(db, DocKey(DAMAGE, x), Document(shop, status, [line]));
    case Sequence(b, n) => SequencesDoNotMatter(db, db.sequences[b := n]);
  }

  // ----- ledger and documents agree

  /**
   * Under the kind and number of a posted document stands one row for each of its lines, in their order, with the
   * document's shop and the line's product, and with its quantity in for a receipt and out for an issue or damage.
   * Under any other number stands none.
   */
  ghost predicate Filed(db: Db, key: DocKey) {
    var rows := RowsFor(db.ledger, key);
    if key in db.documents && db.documents[key].status.POSTED? then
      var d := db.documents[key];
      && |rows| == |d.lines|
      && forall i :: 0 <= i < |rows| ==>
           && rows[i].shopId == d.shopId && rows[i].productId == d.lines[i].productId
           && (if key.kind.GOODS_RECEIPT? then rows[i].inQty == d.lines[i].quantity && rows[i].outQty == 0.0
               else rows[i].inQty == 0.0 && rows[i].outQty == d.lines[i].quantity)
    else rows == []
  }

  /** An assignment with opening stock has one opening row of its product and shop, with that quantity in. */
  ghost predicate OpeningFiled(db: Db, a: Assignment) {
    var rows := OpeningsFor(db.ledger, a);
    if a in db.assignments && db.assignments[a] > 0.0 then
      && |rows| == 1 && rows[0].inQty == db.assignments[a] && rows[0].outQty == 0.0
      && exists n :: 0 <= n <= |a.shopId| && (n == 8 || n == |a.shopId| < 8)
                  && rows[0].transactionRef == "OPENING-" + a.productCode + "-" + a.shopId[..n]
    else rows == []
  }

  /** Ledger and documents agree, number by number and line by line. */
  ghost predicate Consistent(db: Db) {
    && (forall key :: key in db.documents ==> !key.kind.OPENING?)
    && (forall key: DocKey :: !key.kind.OPENING? ==> Filed(db, key))
    && (forall a :: OpeningFiled(db, a))
  }

  lemma {:induction false} RowsForAreItsOwn(ledger: seq<LedgerRow>, key: DocKey)
    ensures forall r :: r in RowsFor(ledger, key) ==> r.transactionType == key.kind && r.transactionRef == key.number
  {
    if ledger != [] {
      RowsForAreItsOwn(ledger[..|ledger| - 1], key);
    }
  }

  lemma {:induction false} OpeningsForAreItsOwn(ledger: seq<LedgerRow>, a: Assignment)
    ensures forall r :: r in OpeningsFor(ledger, a) ==>
              r.transactionType.OPENING? && r.productId == a.productCode && r.shopId == a.shopId
  {
    if ledger != [] {
      OpeningsForAreItsOwn(ledger[..|ledger| - 1], a);
    }
  }

  lemma FiledMeansDue(db: Db, key: DocKey)
    ensures Filed(db, key) <==> RowsFor(db.ledger, key) == Due(db, key)
  {
    RowsForAreItsOwn(db.ledger, key);
    var rows, due := RowsFor(db.ledger, key), Due(db, key);
    if Filed(db, key) && due != [] {
      forall i | 0 <= i < |rows| ensures rows[i] == due[i] {
        assert rows[i] in rows;
      }
    }
  }

  lemma OpeningFiledMeansDue(db: Db, a: Assignment)
    ensures OpeningFiled(db, a) <==> OpeningsFor(db.ledger, a) == OpeningDue(db, a)
  {
    OpeningsForAreItsOwn(db.ledger, a);
    var n := if |a.shopId| < 8 then |a.shopId| else 8;
    assert Prefix8(a.shopId) == a.shopId[..n];
    var rows := OpeningsFor(db.ledger, a);
    if |rows| == 1 {
      assert rows[0] in rows;
    }
  }

  lemma ConsistentMeansDue(db: Db)
    ensures Consistent(db) <==> RowsAreDue(db)
  {
    forall key: DocKey ensures Filed(db, key) <==> RowsFor(db.ledger, key) == Due(db, key) {
      FiledMeansDue(db, key);
    }
    forall a ensures OpeningFiled(db, a) <==> OpeningsFor(db.ledger, a) == OpeningDue(db, a) {
      OpeningFiledMeansDue(db, a);
    }
  }

  lemma {:induction false} RunKeepsDue(db: Db, calls: seq<Call>)
    requires RowsAreDue(db)
    ensures RowsAreDue(Run(db, calls))
  {
    if calls != [] {
      RunKeepsDue(db, calls[..|calls| - 1]);
      StepKeepsDue(Run(db, calls[..|calls| - 1]), calls[|calls| - 1]);
    }
  }

  /** Any completed sequence of calls keeps ledger and documents in agreement. */
  lemma LedgerMatchesDocuments(db: Db, calls: seq<Call>)
    requires Consistent(db)
    ensures Consistent(Run(db, calls))
  {
    ConsistentMeansDue(db);
    RunKeepsDue(db, calls);
    ConsistentMeansDue(Run(db, calls));
  }

  // ----- what stands in stock

  /** In minus out of one product in one shop. */
  function Stock(ledger: seq<LedgerRow>, a: Assignment): real {
    if ledger == [] then 0.0
    else
      var row := ledger[|ledger| - 1];
      Stock(ledger[..|ledger| - 1], a)
      + if row.productId == a.productCode && row.shopId == a.shopId then row.inQty - row.outQty else 0.0
  }

  function QuantityOf(lines: seq<Line>, productId: string): real {
    if lines == [] then 0.0
    else
      var n := |lines| - 1;
      QuantityOf(lines[..n], productId) + if lines[n].productId == productId then lines[n].quantity else 0.0
  }

  /** What a document moves: in by a posted receipt, out by a posted issue or damage. */
  function Moved(key: DocKey, d: Document, a: Assignment): real {
    if !d.status.POSTED? || d.shopId != a.shopId then 0.0
    else if key.kind.GOODS_RECEIPT? then QuantityOf(d.lines, a.productCode)
    else -QuantityOf(d.lines, a.productCode)
  }

  ghost function MovedByAll(documents: map<DocKey, Document>, a: Assignment): real
    decreases |documents|
  {
    if documents == map[] then 0.0
    else
      var key :| key in documents;
      Moved(key, documents[key], a) + MovedByAll(documents - {key}, a)
  }

  lemma {:induction false} MovedWithout(documents: map<DocKey, Document>, key: DocKey, a: Assignment)
    requires key in documents
    ensures MovedByAll(documents, a) == Moved(key, documents[key], a) + MovedByAll(documents - {key}, a)
    decreases |documents|
  {
    var k :| k in documents && MovedByAll(documents, a) == Moved(k, documents[k], a) + MovedByAll(documents - {k}, a);
    if k != key {
      MovedWithout(documents - {k}, key, a);
      MovedWithout(documents - {key}, k, a);
      assert documents - {k} - {key} == documents - {key} - {k};
    }
  }

  lemma {:induction false} StockMore(ledger: seq<LedgerRow>, more: seq<LedgerRow>, a: Assignment)
    ensures Stock(ledger + more, a) == Stock(ledger, a) + Stock(more, a)
  {
    if more == [] {
      assert ledger + more == ledger;
    } else {
      var n := |more| - 1;
      assert (ledger + more)[..|ledger| + n] == ledger + more[..n];
      StockMore(ledger, more[..n], a);
    }
  }

  lemma {:induction false} StockOfRows(key: DocKey, d: Document, n: nat, a: Assignment)
    requires n <= |d.lines| && d.status.POSTED?
    ensures Stock(RowsOf(key, d.shopId, d.lines[..n]), a) == Moved(key, d.(lines := d.lines[..n]), a)
  {
    if n > 0 {
      var front, last := RowsOf(key, d.shopId, d.lines[..n - 1]), [RowOf(key, d.shopId, d.lines[n - 1])];
      StockOfRows(key, d, n - 1, a);
      assert RowsOf(key, d.shopId, d.lines[..n]) == front + last && d.lines[..n][..n - 1] == d.lines[..n - 1];
      StockMore(front, last, a);
      assert last[..0] == [];
    }
  }

  /** What the ledger says is what was there at the opening and what the posted documents have moved since. */
  ghost predicate Accounted(db: Db, a: Assignment) {
    var opening := if a in db.assignments && db.assignments[a] > 0.0 then db.assignments[a] else 0.0;
    Stock(db.ledger, a) == opening + MovedByAll(db.documents, a)
  }

  lemma DocumentIsAccounted(db: Db, key: DocKey, d: Document, a: Assignment)
    requires Accounted(db, a)
    ensures Accounted(EnsureDocument(db, key, d), a)
  {
    if key !in db.documents {
      var db' := EnsureDocument(db, key, d);
      MovedWithout(db'.documents, key, a);
      assert db'.documents - {key} == db.documents;
      StockMore(db.ledger, if d.status.POSTED? then RowsOf(key, d.shopId, d.lines) else [], a);
      assert d.lines[..|d.lines|] == d.lines && d.(lines := d.lines) == d;
      if d.status.POSTED? {
        StockOfRows(key, d, |d.lines|, a);
      }
    }
  }

  lemma AssignmentIsAccounted(db: Db, b: Assignment, openingStock: real, a: Assignment)
    requires Accounted(db, a)
    ensures Accounted(EnsureAssignment(db, b, openingStock), a)
  {
    if b !in db.assignments {
      StockMore(db.ledger, if openingStock > 0.0 then [OpeningRow(b, openingStock)] else [], a);
      assert [OpeningRow(b, openingStock)][..0] == [];
    }
  }

  /**
   * However the demo data is put together, the stock of a product in a shop is its opening stock, what posted receipts
   * brought in and what posted issues and damage took out, document by document.
   */
  lemma {:induction false} StockIsAccountedFor(db: Db, calls: seq<Call>, a: Assignment)
    requires Accounted(db, a)
    ensures Accounted(Run(db, calls), a)
  {
    if calls != [] {
      var n := |calls| - 1;
      var before := Run(db, calls[..n]);
      StockIsAccountedFor(db, calls[..n], a);
      match calls[n]
      case Product(code, shop, opening) =>
        AssignmentIsAccounted(before.(products := before.products + {code}), Assignment(code, shop), opening, a);
      case PostedReceipt(x, shop, lines) => DocumentIsAccounted(before, DocKey(GOODS_RECEIPT, x), Document(shop, POSTED, lines), a);
      case DraftReceipt(x, shop, lines) => DocumentIsAccounted(before, DocKey(GOODS_RECEIPT, x), Document(shop, DRAFT, lines), a);
      case Issue(x, shop, status, lines) => DocumentIsAccounted(before, DocKey(GOODS_ISSUE, x), Document(shop, status, lines), a);
      case Damaged(x, shop, status, line) => DocumentIsAccounted(before, DocKey(DAMAGE, x), Document(shop, status, [line]), a);
      case Sequence(_, _) =>
    }
  }

  // ----- the first call for a number wins

  /** The document a call asks for. */
  function Asked(c: Call, key: DocKey): seq<Document> {
    match c
    case PostedReceipt(n, shop, lines) => if key == DocKey(GOODS_RECEIPT, n) then [Document(shop, POSTED, lines)] else []
    case DraftReceipt(n, shop, lines) => if key == DocKey(GOODS_RECEIPT, n) then [Document(shop, DRAFT, lines)] else []
    case Issue(n, shop, status, lines) => if key == DocKey(GOODS_ISSUE, n) then [Document(shop, status, lines)] else []
    case Damaged(n, shop, status, line) => if key == DocKey(DAMAGE, n) then [Document(shop, status, [line])] else []
    case _ => []
  }

  function AllAsked(calls: seq<Call>, key: DocKey): seq<Document> {
    if calls == [] then [] else AllAsked(calls[..|calls| - 1], key) + Asked(calls[|calls| - 1], key)
  }

  lemma DocumentAfterStep(db: Db, c: Call, key: DocKey)
    ensures key in db.documents ==>
              key in Step(db, c).documents && Step(db, c).documents[key] == db.documents[key]
    ensures key !in db.documents ==> (key in Step(db, c).documents <==> Asked(c, key) != [])
    ensures key !in db.documents && Asked(c, key) != [] ==> Step(db, c).documents[key] == Asked(c, key)[0]
  {
  }

  ghost predicate HoldsFirst(before: Db, after: Db, key: DocKey, asked: seq<Document>) {
    if key in before.documents then key in after.documents && after.documents[key] == before.documents[key]
    else if asked == [] then key !in after.documents
    else key in after.documents && after.documents[key] == asked[0]
  }

  /** A stored document never changes; a new number holds what the first call for it asked. */
  lemma {:induction false} FirstCallWins(db: Db, calls: seq<Call>, key: DocKey)
    ensures HoldsFirst(db, Run(db, calls), key, AllAsked(calls, key))
  {
    if calls != [] {
      var n := |calls| - 1;
      FirstCallWins(db, calls[..n], key);
      DocumentAfterStep(Run(db, calls[..n]), calls[n], key);
    }
  }

  // ----- sequences

  /** The highest number asked for in a bucket, starting from what is stored. */
  function Highest(start: nat, calls: seq<Call>, b: Bucket): nat {
    if calls == [] then start
    else
      var c, m := calls[|calls| - 1], Highest(start, calls[..|calls| - 1], b);
      if c.Sequence? && c.bucket == b && c.lastSeq > m then c.lastSeq else m
  }

  function LastSeq(db: Db, b: Bucket): nat {
    if b in db.sequences then db.sequences[b] else 0
  }

  lemma LastSeqAfterStep(db: Db, c: Call, b: Bucket)
    ensures LastSeq(Step(db, c), b)
         == if c.Sequence? && c.bucket == b && c.lastSeq > LastSeq(db, b) then c.lastSeq else LastSeq(db, b)
  {
  }

  /** Sequences end at the highest number requested, or where they were. */
  lemma {:induction false} SequencesReachTheHighest(db: Db, calls: seq<Call>, b: Bucket)
    ensures LastSeq(Run(db, calls), b) == Highest(LastSeq(db, b), calls, b) >= LastSeq(db, b)
  {
    if calls != [] {
      var n := |calls| - 1;
      SequencesReachTheHighest(db, calls[..n], b);
      LastSeqAfterStep(Run(db, calls[..n]), calls[n], b);
    }
  }

  /** At no point of a run does a sequence stand higher than at the end. */
  lemma {:induction false} SequencesNeverFall(db: Db, calls: seq<Call>, b: Bucket, n: nat)
    requires n <= |calls|
    ensures LastSeq(Run(db, calls[..n]), b) <= LastSeq(Run(db, calls), b)
  {
    if n == |calls| {
      assert calls[..n] == calls;
    } else {
      var m := |calls| - 1;
      SequencesNeverFall(db, calls[..m], b, n);
      assert calls[..m][..n] == calls[..n];
      LastSeqAfterStep(Run(db, calls[..m]), calls[m], b);
    }
  }

  // ----- running it again

  /** The call finds everything it would create. */
  predicate Done(db: Db, c: Call) {
    match c
    case Product(code, shop, _) => code in db.products && Assignment(code, shop) in db.assignments
    case PostedReceipt(n, _, _) => DocKey(GOODS_RECEIPT, n) in db.documents
    case DraftReceipt(n, _, _) => DocKey(GOODS_RECEIPT, n) in db.documents
    case Issue(n, _, _, _) => DocKey(GOODS_ISSUE, n) in db.documents
    case Damaged(n, _, _, _) => DocKey(DAMAGE, n) in db.documents
    case Sequence(b, n) => b in db.sequences && db.sequences[b] >= n
  }

  /** A call changes nothing exactly when it is done, it is done once made, and it stays done. */
  lemma DoneMeansUnchanged(db: Db, c: Call, other: Call)
    ensures Done(db, c) <==> Step(db, c) == db
    ensures Done(Step(db, c), c)
    ensures Done(db, c) ==> Done(Step(db, other), c)
  {
    match c {
      case Product(code, shop, opening) =>
        if Done(db, c) {
          assert db.products + {code} == db.products;
        }
      case _ =>
    }
  }

  lemma {:induction false} AllDoneAfterRun(db: Db, calls: seq<Call>, i: nat)
    requires i < |calls|
    ensures Done(Run(db, calls), calls[i])
  {
    var n := |calls| - 1;
    if i < n {
      AllDoneAfterRun(db, calls[..n], i);
      DoneMeansUnchanged(Run(db, calls[..n]), calls[i], calls[n]);
    } else {
      DoneMeansUnchanged(Run(db, calls[..n]), calls[n], calls[n]);
    }
  }

  lemma {:induction false} RunOfDoneCalls(db: Db, calls: seq<Call>)
    requires forall i :: 0 <= i < |calls| ==> Done(db, calls[i])
    ensures Run(db, calls) == db
  {
    if calls != [] {
      RunOfDoneCalls(db, calls[..|calls| - 1]);
      DoneMeansUnchanged(db, calls[|calls| - 1], calls[|calls| - 1]);
    }
  }

  /** Repeating a completed sequence of calls changes nothing, from any starting data. */
  lemma {:induction false} RepeatingChangesNothing(db: Db, calls: seq<Call>)
    ensures Run(Run(db, calls), calls) == Run(db, calls)
  {
    forall i | 0 <= i < |calls| ensures Done(Run(db, calls), calls[i]) {
      AllDoneAfterRun(db, calls, i);
    }
    RunOfDoneCalls(Run(db, calls), calls);
  }

  // ----- calls that were cut off

  /** A posted document whose call stopped after its first `k` ledger rows. */
  function CutOff(db: Db, key: DocKey, d: Document, k: nat): Db
    requires k <= |d.lines|
  {
    db.(documents := db.documents[key := d], ledger := db.ledger + RowsOf(key, d.shopId, d.lines)[..k])
  }

  lemma {:induction false} FirstRows(key: DocKey, shopId: string, lines: seq<Line>, k: nat)
    requires k <= |lines| && !key.kind.OPENING?
    ensures RowsFor(RowsOf(key, shopId, lines)[..k], key) == RowsOf(key, shopId, lines)[..k]
  {
    assert RowsOf(key, shopId, lines)[..k] == RowsOf(key, shopId, lines[..k]);
    RowsOfDocument(key, shopId, lines[..k], key, Assignment("", ""));
  }

  lemma {:induction false} CutOffRows(db: Db, key: DocKey, d: Document, k: nat)
    requires RowsAreDue(db) && key !in db.documents && !key.kind.OPENING? && d.status.POSTED? && k <= |d.lines|
    ensures RowsFor(CutOff(db, key, d, k).ledger, key) == RowsOf(key, d.shopId, d.lines)[..k]
    ensures Due(CutOff(db, key, d, k), key) == RowsOf(key, d.shopId, d.lines)
  {
    assert RowsFor(db.ledger, key) == Due(db, key) == [];
    RowsForMore(db.ledger, RowsOf(key, d.shopId, d.lines)[..k], key);
    FirstRows(key, d.shopId, d.lines, k);
  }

  lemma CutOffDisagrees(db: Db, key: DocKey, d: Document, k: nat)
    requires RowsAreDue(db) && key !in db.documents && !key.kind.OPENING? && d.status.POSTED? && k < |d.lines|
    ensures !RowsAreDue(CutOff(db, key, d, k)) && CutOff(db, key, d, k) != EnsureDocument(db, key, d)
  {
    CutOffRows(db, key, d, k);
    assert |RowsOf(key, d.shopId, d.lines)[..k]| == k;
  }

  /**
   * A call for a posted document of any kind, cut off after `k` ledger rows, leaves ledger and documents in agreement
   * if and only if it had written them all, and repeating the call changes nothing.
   */
  lemma InterruptedPostingStays(db: Db, c: Call, key: DocKey, d: Document, k: nat)
    requires Consistent(db) && key !in db.documents
    requires Asked(c, key) == [d] && d.status.POSTED? && k <= |d.lines|
    ensures var cut := CutOff(db, key, d, k);
            && (Consistent(cut) <==> k == |d.lines|) && (cut == Step(db, c) <==> k == |d.lines|)
            && Step(cut, c) == cut
  {
    var cut, rows := CutOff(db, key, d, k), RowsOf(key, d.shopId, d.lines);
    ConsistentMeansDue(db);
    ConsistentMeansDue(cut);
    assert Step(db, c) == EnsureDocument(db, key, d) && Step(cut, c) == EnsureDocument(cut, key, d);
    if k == |d.lines| {
      assert rows[..k] == rows && cut == EnsureDocument(db, key, d);
      DocumentKeepsDue(db, key, d);
    } else {
      CutOffDisagrees(db, key, d, k);
    }
  }

  /** The lines of a posted receipt and of an issue are written after the header. Cut off in between, the document keeps none for good: the ledger agrees with it, and both are short. */
  lemma InterruptedHeaderStays(db: Db, c: Call, key: DocKey, d: Document)
    requires Consistent(db) && key !in db.documents && Asked(c, key) == [d] && (c.PostedReceipt? || c.Issue?)
    ensures var cut := db.(documents := db.documents[key := d.(lines := [])]);
            Consistent(cut) && Step(cut, c) == cut && (cut == Step(db, c) <==> d.lines == [])
  {
    var empty := d.(lines := []);
    var cut := db.(documents := db.documents[key := empty]);
    ConsistentMeansDue(db);
    ConsistentMeansDue(cut);
    DocumentKeepsDue(db, key, empty);
    assert RowsOf(key, d.shopId, []) == [] && db.ledger + [] == db.ledger;
    assert cut == EnsureDocument(db, key, empty);
    assert Step(db, c) == EnsureDocument(db, key, d);
    assert Step(db, c).documents[key] == d && cut.documents[key] == empty;
    if d.lines == [] {
      assert d == empty;
    }
  }

  /**
   * A product cut off before its assignment is completed by repeating the call; one cut off between assignment and
   * opening row is not, and is in agreement only if it had no opening stock.
   */
  lemma InterruptedProduct(db: Db, code: string, shop: string, opening: real)
    requires Consistent(db) && Assignment(code, shop) !in db.assignments
    ensures var c, master := Product(code, shop, opening), db.(products := db.products + {code});
            var cut := master.(assignments := db.assignments[Assignment(code, shop) := opening]);
            && Consistent(master) && Step(master, c) == Step(db, c)
            && (Consistent(cut) <==> opening <= 0.0) && Step(cut, c) == cut
  {
    var c, a := Product(code, shop, opening), Assignment(code, shop);
    var master := db.(products := db.products + {code});
    var cut := master.(assignments := db.assignments[a := opening]);
    ConsistentMeansDue(db);
    ConsistentMeansDue(master);
    ConsistentMeansDue(cut);
    ProductsDoNotMatter(db, db.products + {code});
    assert master.products + {code} == master.products;
    assert OpeningsFor(db.ledger, a) == OpeningDue(db, a) == [];
    if opening > 0.0 {
      assert OpeningsFor(cut.ledger, a) != OpeningDue(cut, a);
    } else {
      AssignmentKeepsDue(master, a, opening);
      assert master.ledger + [] == master.ledger;
    }
  }
}
