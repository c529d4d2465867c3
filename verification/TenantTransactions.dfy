/**
 * apps/api/src/prisma/prisma.service.ts: every model query, batch and interactive transaction carries the
 * caller's company and access flag into the database transaction it runs in.
 */
module TenantTransactions {
  import opened Options

  datatype Settings = Settings(companyId: string, systemAccess: bool)

  /** The ambient tenant context of the running request, if there is one. */
  datatype Context = Context(companyId: Option<string>, inRLSTx: bool, systemAccess: bool)

  /** What a caller can ask of the service. A callback may use its own client, or reach back to the service. */
  datatype Op =
    | ModelQuery(query: nat)
    | Batch(queries: seq<nat>)
    | Interactive(body: seq<Inner>)

  datatype Inner = OwnClient(query: nat) | ServiceCall(op: Op)

  /** One executed query: the transaction it ran in, and the settings that transaction had then. */
  datatype Entry = Entry(query: nat, tx: Option<nat>, seen: Option<Settings>)

  /** Transactions in the order they were opened, each with its local settings, and the queries so far. */
  datatype Db = Db(txs: seq<Option<Settings>>, log: seq<Entry>)

  // ----- the database

  function Open(db: Db): Db {
    db.(txs := db.txs + [None])
  }

  function SetConfig(db: Db, tx: nat, s: Settings): Db
    requires tx < |db.txs|
  {
    db.(txs := db.txs[tx := Some(s)])
  }

  /** A query in transaction `tx`, or on a bare connection where nothing is set. */
  function Execute(db: Db, query: nat, tx: Option<nat>): Db
    requires tx.Some? ==> tx.value < |db.txs|
  {
    db.(log := db.log + [Entry(query, tx, if tx.Some? then db.txs[tx.value] else None)])
  }

  // ----- the service

  predicate InTx(ctx: Option<Context>) {
    ctx.Some? && ctx.value.inRLSTx
  }

  /** No context at all means a system task, which is granted access. */
  function CallerSettings(ctx: Option<Context>): Settings {
    match ctx
    case None => Settings("", true)
    case Some(c) => Settings(c.companyId.GetOr(""), c.systemAccess)
  }

  function InnerContext(ctx: Option<Context>): Option<Context> {
    Some(Context(if ctx.Some? then ctx.value.companyId else None, true, CallerSettings(ctx).systemAccess))
  }

  /** The context that a transaction's own queries run in: marked, so that none of them opens another. */
  function Marked(ctx: Option<Context>): Option<Context> {
    if InTx(ctx) then ctx else InnerContext(ctx)
  }

  /** Open a transaction and, unless the caller is already in one, set the caller's settings first. */
  function Begin(db: Db, ctx: Option<Context>): (r: Db)
    ensures |r.txs| == |db.txs| + 1
  {
    if InTx(ctx) then Open(db) else SetConfig(Open(db), |db.txs|, CallerSettings(ctx))
  }

  /**
   * The wrapper around every model query, whichever client it was called on. In a marked context the query runs
   * where its client stands, otherwise in a transaction of its own.
   */
  function Wrapped(db: Db, query: nat, client: Option<nat>, ctx: Option<Context>): (r: Db)
    requires client.Some? ==> client.value < |db.txs|
    ensures |r.txs| >= |db.txs|
  {
    if InTx(ctx) then Execute(db, query, client)
    else Execute(SetConfig(Open(db), |db.txs|, CallerSettings(ctx)), query, Some(|db.txs|))
  }

  function WrapAll(db: Db, queries: seq<nat>, tx: nat, ctx: Option<Context>): (r: Db)
    requires tx < |db.txs|
    ensures |r.txs| >= |db.txs|
    decreases |queries|
  {
    if queries == [] then db else WrapAll(Wrapped(db, queries[0], Some(tx), ctx), queries[1..], tx, ctx)
  }

  function RunOp(db: Db, op: Op, ctx: Option<Context>): (r: Db)
    ensures |r.txs| >= |db.txs|
    decreases op
  {
    match op
    case ModelQuery(q) => Wrapped(db, q, None, ctx)
    case Batch(qs) => WrapAll(Begin(db, ctx), qs, |db.txs|, Marked(ctx))
    case Interactive(body) => RunBody(Begin(db, ctx), body, |db.txs|, Marked(ctx))
  }

  function RunBody(db: Db, body: seq<Inner>, tx: nat, ctx: Option<Context>): (r: Db)
    requires tx < |db.txs|
    ensures |r.txs| >= |db.txs|
    decreases body
  {
    if body == [] then db else RunBody(RunInner(db, body[0], tx, ctx), body[1..], tx, ctx)
  }

  function RunInner(db: Db, inner: Inner, tx: nat, ctx: Option<Context>): (r: Db)
    requires tx < |db.txs|
    ensures |r.txs| >= |db.txs|
    decreases inner
  {
    match inner
    case OwnClient(q) => Wrapped(db, q, Some(tx), ctx)
    case ServiceCall(op) => RunOp(db, op, ctx)
  }

  function RunProgram(db: Db, ops: seq<Op>, ctx: Option<Context>): Db
    decreases |ops|
  {
    if ops == [] then db else RunProgram(RunOp(db, ops[0], ctx), ops[1..], ctx)
  }

  // ----- the service, as it drives the database

  datatype Reply = ConfigDone | Row(query: nat)

  class PrismaService {
    var txs: seq<Option<Settings>>
    var log: seq<Entry>

    ghost function View(): Db
      reads this
    {
      Db(txs, log)
    }

    method OpenTransaction() returns (tx: nat)
      modifies this
      ensures View() == Open(old(View())) && tx == |old(txs)|
    {
      tx := |txs|;
      txs := txs + [None];
    }

    method SetTenantConfig(tx: nat, s: Settings) returns (r: Reply)
      requires tx < |txs|
      modifies this
      ensures View() == SetConfig(old(View()), tx, s) && r == ConfigDone
    {
      txs := txs[tx := Some(s)];
      r := ConfigDone;
    }

    method Query(query: nat, tx: Option<nat>) returns (r: Reply)
      requires tx.Some? ==> tx.value < |txs|
      modifies this
      ensures View() == Execute(old(View()), query, tx) && r == Row(query)
    {
      log := log + [Entry(query, tx, if tx.Some? then txs[tx.value] else None)];
      r := Row(query);
    }

    /** `$allOperations`: a query gets its own two-statement transaction unless the context is marked. */
    method AllOperations(query: nat, client: Option<nat>, ctx: Option<Context>) returns (r: Reply)
      requires client.Some? ==> client.value < |txs|
      modifies this
      ensures View() == Wrapped(old(View()), query, client, ctx) && r == Row(query)
    {
      if InTx(ctx) {
        r := Query(query, client);
      } else {
        var tx := OpenTransaction();
        var config := SetTenantConfig(tx, CallerSettings(ctx));
        r := Query(query, Some(tx));
      }
    }

    /** The batch form: one transaction, the settings first, and the settings' own result dropped. */
    method BatchTransaction(queries: seq<nat>, ctx: Option<Context>) returns (results: seq<Reply>)
      modifies this
      ensures View() == RunOp(old(View()), Batch(queries), ctx)
      ensures results == seq(|queries|, i requires 0 <= i < |queries| => Row(queries[i]))
    {
      var tx := OpenTransaction();
      results := [];
      if !InTx(ctx) {
        var config := SetTenantConfig(tx, CallerSettings(ctx));
        results := [config];
      }
      ghost var first := |results|;
      ghost var begun := View();
      for i := 0 to |queries|
        invariant tx < |begun.txs| <= |txs|
        invariant WrapAll(View(), queries[i..], tx, Marked(ctx)) == WrapAll(begun, queries, tx, Marked(ctx))
        invariant |results| == first + i && first == if InTx(ctx) then 0 else 1
        invariant forall k :: 0 <= k < i ==> results[first + k] == Row(queries[k])
      {
        assert queries[i..][1..] == queries[i + 1..];
        var r := AllOperations(queries[i], Some(tx), Marked(ctx));
        results := results + [r];
      }
      if !InTx(ctx) {
        results := results[1..];
      }
    }

    method InteractiveTransaction(body: seq<Inner>, ctx: Option<Context>)
      modifies this
      ensures View() == RunOp(old(View()), Interactive(body), ctx)
      decreases body, 1
    {
      var tx := OpenTransaction();
      if InTx(ctx) {
        Callback(body, tx, ctx);
      } else {
        var config := SetTenantConfig(tx, CallerSettings(ctx));
        Callback(body, tx, Marked(ctx));
      }
    }

    method Callback(body: seq<Inner>, tx: nat, ctx: Option<Context>)
      requires tx < |txs|
      modifies this
      ensures View() == RunBody(old(View()), body, tx, ctx)
      decreases body, 0
    {
      if |body| > 0 {
        Perform(body[0], tx, ctx);
        Callback(body[1..], tx, ctx);
      }
    }

    method Perform(inner: Inner, tx: nat, ctx: Option<Context>)
      requires tx < |txs|
      modifies this
      ensures View() == RunInner(old(View()), inner, tx, ctx)
      decreases inner, 0
    {
      match inner {
        case OwnClient(q) => var r := AllOperations(q, Some(tx), ctx);
        case ServiceCall(op) => Serve(op, ctx);
      }
    }

    method Serve(op: Op, ctx: Option<Context>)
      modifies this
      ensures View() == RunOp(old(View()), op, ctx)
      decreases op, 0
    {
      match op {
        case ModelQuery(q) => var r := AllOperations(q, None, ctx);
        case Batch(qs) => var rs := BatchTransaction(qs, ctx);
        case Interactive(body) => InteractiveTransaction(body, ctx);
      }
    }
  }

  // ----- which programs are served

  /** The queries an operation makes, in order. */
  function Queries(op: Op): seq<nat>
    decreases op
  {
    match op
    case ModelQuery(q) => [q]
    case Batch(qs) => qs
    case Interactive(body) => BodyQueries(body)
  }

  function BodyQueries(body: seq<Inner>): seq<nat>
    decreases body
  {
    if body == [] then [] else InnerQueries(body[0]) + BodyQueries(body[1..])
  }

  function InnerQueries(inner: Inner): seq<nat>
    decreases inner
  {
    match inner
    case OwnClient(q) => [q]
    case ServiceCall(op) => Queries(op)
  }

  /** The callbacks query through nothing but the client they were given. */
  predicate UsesOwnClient(op: Op) {
    op.Interactive? ==> BodyUsesOwnClient(op.body)
  }

  predicate BodyUsesOwnClient(body: seq<Inner>) {
    forall i :: 0 <= i < |body| ==> OwnOrSilent(body[i])
  }

  ghost predicate AllSee(entries: seq<Entry>, s: Option<Settings>) {
    forall i :: 0 <= i < |entries| ==> entries[i].seen == s
  }

  function QueriesOf(entries: seq<Entry>): seq<nat> {
    seq(|entries|, i requires 0 <= i < |entries| => entries[i].query)
  }

  /** What a run added to the log. */
  ghost predicate Adds(before: Db, after: Db, entries: seq<Entry>) {
    && after.log == before.log + entries
    && |before.txs| <= |after.txs|
    && after.txs[..|before.txs|] == before.txs
  }

  lemma AddsInTurn(a: Db, b: Db, c: Db, x: seq<Entry>, y: seq<Entry>)
    requires Adds(a, b, x) && Adds(b, c, y)
    ensures Adds(a, c, x + y) && QueriesOf(x + y) == QueriesOf(x) + QueriesOf(y)
  {
    assert c.txs[..|a.txs|] == b.txs[..|a.txs|];
  }

  /** In a marked context a batch's queries run in its transaction, one after the other. */
  lemma {:induction false} WrapAllAdds(db: Db, queries: seq<nat>, tx: nat, ctx: Option<Context>) returns (entries: seq<Entry>)
    requires tx < |db.txs| && InTx(ctx)
    ensures Adds(db, WrapAll(db, queries, tx, ctx), entries)
    ensures QueriesOf(entries) == queries && AllSee(entries, db.txs[tx])
    decreases |queries|
  {
    if queries == [] {
      entries := [];
    } else {
      var next := Wrapped(db, queries[0], Some(tx), ctx);
      var rest := WrapAllAdds(next, queries[1..], tx, ctx);
      var e := Entry(queries[0], Some(tx), db.txs[tx]);
      entries := [e] + rest;
      AddsInTurn(db, next, WrapAll(db, queries, tx, ctx), [e], rest);
      assert queries == [queries[0]] + queries[1..];
    }
  }

  lemma BeginAdds(db: Db, ctx: Option<Context>)
    ensures Adds(db, Begin(db, ctx), [])
    ensures Begin(db, ctx).txs[|db.txs|] == if InTx(ctx) then None else Some(CallerSettings(ctx))
  {
  }

  /** Reached from inside a transaction, the service adds its queries without any settings. */
  lemma {:induction false} NestedCallAdds(db: Db, op: Op, ctx: Option<Context>) returns (entries: seq<Entry>)
    requires InTx(ctx)
    ensures Adds(db, RunOp(db, op, ctx), entries)
    ensures QueriesOf(entries) == Queries(op) && AllSee(entries, None)
    decreases op
  {
    var begun := Begin(db, ctx);
    BeginAdds(db, ctx);
    match op {
      case ModelQuery(q) => entries := [Entry(q, None, None)];
      case Batch(qs) =>
        entries := WrapAllAdds(begun, qs, |db.txs|, ctx);
        AddsInTurn(db, begun, RunOp(db, op, ctx), [], entries);
      case Interactive(body) =>
        entries := BodyAdds(begun, body, |db.txs|, ctx);
        AddsInTurn(db, begun, RunOp(db, op, ctx), [], entries);
    }
    assert [] + entries == entries;
  }

  predicate OwnOrSilent(inner: Inner) {
    inner.ServiceCall? ==> Queries(inner.op) == []
  }

  lemma {:induction false} InnerAdds(db: Db, inner: Inner, tx: nat, ctx: Option<Context>) returns (entries: seq<Entry>)
    requires tx < |db.txs| && InTx(ctx)
    ensures Adds(db, RunInner(db, inner, tx, ctx), entries)
    ensures QueriesOf(entries) == InnerQueries(inner)
    ensures db.txs[tx] == None ==> AllSee(entries, None)
    ensures db.txs[tx] != None ==> (AllSee(entries, db.txs[tx]) <==> OwnOrSilent(inner))
    decreases inner
  {
    match inner {
      case OwnClient(q) => entries := [Entry(q, Some(tx), db.txs[tx])];
      case ServiceCall(op) =>
        entries := NestedCallAdds(db, op, ctx);
        assert |entries| == |QueriesOf(entries)|;
        assert entries != [] ==> entries[0].seen == None;
    }
  }

  /** A callback's own queries see the transaction's settings; those that reach back to the service see none. */
  lemma {:induction false} BodyAdds(db: Db, body: seq<Inner>, tx: nat, ctx: Option<Context>) returns (entries: seq<Entry>)
    requires tx < |db.txs| && InTx(ctx)
    ensures Adds(db, RunBody(db, body, tx, ctx), entries)
    ensures QueriesOf(entries) == BodyQueries(body)
    ensures db.txs[tx] == None ==> AllSee(entries, None)
    ensures db.txs[tx] != None ==> (AllSee(entries, db.txs[tx]) <==> BodyUsesOwnClient(body))
    decreases body
  {
    if body == [] {
      entries := [];
    } else {
      var next := RunInner(db, body[0], tx, ctx);
      var first := InnerAdds(db, body[0], tx, ctx);
      assert next.txs[tx] == next.txs[..|db.txs|][tx] == db.txs[tx];
      var rest := BodyAdds(next, body[1..], tx, ctx);
      entries := first + rest;
      AddsInTurn(db, next, RunBody(db, body, tx, ctx), first, rest);
      SeeInTurn(first, rest, db.txs[tx]);
      BodyInTurn(body);
    }
  }

  lemma BodyInTurn(body: seq<Inner>)
    requires body != []
    ensures BodyUsesOwnClient(body) <==> OwnOrSilent(body[0]) && BodyUsesOwnClient(body[1..])
  {
    forall i | 0 <= i < |body[1..]| ensures body[1..][i] == body[i + 1] {}
    assert forall i :: 1 <= i < |body| ==> body[i] == body[1..][i - 1];
  }

  lemma SeeInTurn(x: seq<Entry>, y: seq<Entry>, s: Option<Settings>)
    ensures AllSee(x + y, s) <==> AllSee(x, s) && AllSee(y, s)
  {
    if AllSee(x + y, s) {
      forall i | 0 <= i < |x| ensures x[i].seen == s { assert (x + y)[i] == x[i]; }
      forall i | 0 <= i < |y| ensures y[i].seen == s { assert (x + y)[|x| + i] == y[i]; }
    }
  }

  // ----- main results

  /** Settings that tell the caller's own company, none as "", and its own access; a system task is granted access. */
  ghost predicate Tells(s: Settings, ctx: Option<Context>) {
    && (ctx.None? ==> s.companyId == "" && s.systemAccess)
    && (ctx.Some? ==> s.systemAccess == ctx.value.systemAccess)
    && (ctx.Some? && ctx.value.companyId.None? ==> s.companyId == "")
    && (ctx.Some? && ctx.value.companyId.Some? ==> s.companyId == ctx.value.companyId.value)
  }

  ghost predicate AllServed(entries: seq<Entry>, ctx: Option<Context>) {
    forall i :: 0 <= i < |entries| ==> entries[i].seen.Some? && Tells(entries[i].seen.value, ctx)
  }

  lemma ServedMeansSettings(entries: seq<Entry>, ctx: Option<Context>)
    ensures AllServed(entries, ctx) <==> AllSee(entries, Some(CallerSettings(ctx)))
  {
  }

  /**
   * Called from a request or a system task, an operation runs its queries in order, and all of them run under the
   * caller's own company and access flag if and only if its callbacks query only through the client they were given.
   */
  lemma CallerSettingsReachQueries(db: Db, op: Op, ctx: Option<Context>) returns (entries: seq<Entry>)
    requires ctx.Some? ==> !ctx.value.inRLSTx
    ensures Adds(db, RunOp(db, op, ctx), entries) && QueriesOf(entries) == Queries(op)
    ensures AllServed(entries, ctx) <==> UsesOwnClient(op)
  {
    var begun := Begin(db, ctx);
    BeginAdds(db, ctx);
    match op {
      case ModelQuery(q) => entries := [Entry(q, Some(|db.txs|), Some(CallerSettings(ctx)))];
      case Batch(qs) => entries := WrapAllAdds(begun, qs, |db.txs|, Marked(ctx));
      case Interactive(body) => entries := BodyAdds(begun, body, |db.txs|, Marked(ctx));
    }
    AddsInTurn(db, begun, RunOp(db, op, ctx), [], entries);
    assert [] + entries == entries;
    ServedMeansSettings(entries, ctx);
  }

  ghost predicate AllUseOwnClient(ops: seq<Op>) {
    forall i :: 0 <= i < |ops| ==> UsesOwnClient(ops[i])
  }

  function ProgramQueries(ops: seq<Op>): seq<nat> {
    if ops == [] then [] else Queries(ops[0]) + ProgramQueries(ops[1..])
  }

  /** The same for whole programs: all queries run as the caller's exactly when every operation behaves. */
  lemma {:induction false} ProgramIsServed(db: Db, ops: seq<Op>, ctx: Option<Context>) returns (entries: seq<Entry>)
    requires ctx.Some? ==> !ctx.value.inRLSTx
    ensures Adds(db, RunProgram(db, ops, ctx), entries) && QueriesOf(entries) == ProgramQueries(ops)
    ensures AllServed(entries, ctx) <==> AllUseOwnClient(ops)
    decreases |ops|
  {
    if ops == [] {
      entries := [];
    } else {
      var first := CallerSettingsReachQueries(db, ops[0], ctx);
      var next := RunOp(db, ops[0], ctx);
      var rest := ProgramIsServed(next, ops[1..], ctx);
      entries := first + rest;
      AddsInTurn(db, next, RunProgram(db, ops, ctx), first, rest);
      ServedInTurn(first, rest, ctx);
      assert AllUseOwnClient(ops) <==> UsesOwnClient(ops[0]) && AllUseOwnClient(ops[1..]) by {
        assert forall i :: 1 <= i < |ops| ==> ops[i] == ops[1..][i - 1];
      }
    }
  }

  lemma ServedInTurn(x: seq<Entry>, y: seq<Entry>, ctx: Option<Context>)
    ensures AllServed(x + y, ctx) <==> AllServed(x, ctx) && AllServed(y, ctx)
  {
    ServedMeansSettings(x, ctx);
    ServedMeansSettings(y, ctx);
    ServedMeansSettings(x + y, ctx);
    SeeInTurn(x, y, Some(CallerSettings(ctx)));
  }

  /** To the database a caller without a company is one whose company is the empty text. */
  predicate SameCompany(a: Option<string>, b: Option<string>) {
    a == b || ((a.None? || a.value == "") && (b.None? || b.value == ""))
  }

  /**
   * Two requests are never taken for each other: whatever they run, a query of one sees what a query of the other
   * sees if and only if they have the same company and the same access flag.
   */
  lemma RequestsAreKeptApart(db: Db, ops: seq<Op>, c: Context, db': Db, ops': seq<Op>, c': Context)
    returns (entries: seq<Entry>, entries': seq<Entry>)
    requires !c.inRLSTx && AllUseOwnClient(ops) && !c'.inRLSTx && AllUseOwnClient(ops')
    ensures Adds(db, RunProgram(db, ops, Some(c)), entries) && QueriesOf(entries) == ProgramQueries(ops)
    ensures Adds(db', RunProgram(db', ops', Some(c')), entries') && QueriesOf(entries') == ProgramQueries(ops')
    ensures forall i, j :: 0 <= i < |entries| && 0 <= j < |entries'| ==>
              (entries[i].seen == entries'[j].seen <==>
                 SameCompany(c.companyId, c'.companyId) && c.systemAccess == c'.systemAccess)
  {
    entries := ProgramIsServed(db, ops, Some(c));
    entries' := ProgramIsServed(db', ops', Some(c'));
    forall i, j | 0 <= i < |entries| && 0 <= j < |entries'|
      ensures entries[i].seen == entries'[j].seen <==>
                SameCompany(c.companyId, c'.companyId) && c.systemAccess == c'.systemAccess
    {
      assert Tells(entries[i].seen.value, Some(c)) && Tells(entries'[j].seen.value, Some(c'));
    }
  }

  /** Inside a transaction the context still names the caller: what a callback starts there is the same caller's. */
  lemma MarkKeepsCaller(ctx: Option<Context>, s: Settings)
    ensures Marked(ctx).Some? && Marked(ctx).value.inRLSTx
    ensures ctx.Some? ==> Marked(ctx).value.companyId == ctx.value.companyId
    ensures Tells(s, Marked(ctx)) <==> Tells(s, ctx)
  {
  }

  // ----- how many transactions are opened

  /** Batches and interactive transactions that a callback starts on the service, at any depth. */
  function Nested(body: seq<Inner>): nat
    decreases body
  {
    if body == [] then 0 else NestedIn(body[0]) + Nested(body[1..])
  }

  function NestedIn(inner: Inner): nat
    decreases inner
  {
    match inner
    case OwnClient(_) => 0
    case ServiceCall(op) => NestedOp(op)
  }

  function NestedOp(op: Op): nat
    decreases op
  {
    match op
    case ModelQuery(_) => 0
    case Batch(_) => 1
    case Interactive(body) => 1 + Nested(body)
  }

  /** The mark is what saves a transaction per query: without it each query of a batch opens one. */
  lemma {:induction false} WrapAllOpens(db: Db, queries: seq<nat>, tx: nat, ctx: Option<Context>)
    requires tx < |db.txs|
    ensures |WrapAll(db, queries, tx, ctx).txs| == |db.txs| + if InTx(ctx) then 0 else |queries|
    ensures WrapAll(db, queries, tx, ctx).txs[..|db.txs|] == db.txs
    decreases |queries|
  {
    if queries != [] {
      var next := Wrapped(db, queries[0], Some(tx), ctx);
      WrapAllOpens(next, queries[1..], tx, ctx);
      assert WrapAll(db, queries, tx, ctx).txs[..|db.txs|] == next.txs[..|db.txs|];
    }
  }

  /** And so does each query that a callback makes through its own client. */
  lemma {:induction false} OwnClientOpens(db: Db, body: seq<Inner>, tx: nat, ctx: Option<Context>)
    requires tx < |db.txs| && forall i :: 0 <= i < |body| ==> body[i].OwnClient?
    ensures |RunBody(db, body, tx, ctx).txs| == |db.txs| + if InTx(ctx) then 0 else |body|
    decreases |body|
  {
    if body != [] {
      OwnClientOpens(Wrapped(db, body[0].query, Some(tx), ctx), body[1..], tx, ctx);
    }
  }

  lemma {:induction false} MarkedOpOpens(db: Db, op: Op, ctx: Option<Context>)
    requires InTx(ctx)
    ensures |RunOp(db, op, ctx).txs| == |db.txs| + NestedOp(op)
    ensures RunOp(db, op, ctx).txs[..|db.txs|] == db.txs
    decreases op
  {
    var begun := Begin(db, ctx);
    match op {
      case ModelQuery(_) =>
      case Batch(qs) => WrapAllOpens(begun, qs, |db.txs|, ctx);
      case Interactive(body) => MarkedBodyOpens(begun, body, |db.txs|, ctx);
    }
    assert !op.ModelQuery? ==> RunOp(db, op, ctx).txs[..|db.txs|] == begun.txs[..|db.txs|];
  }

  lemma {:induction false} MarkedInnerOpens(db: Db, inner: Inner, tx: nat, ctx: Option<Context>)
    requires tx < |db.txs| && InTx(ctx)
    ensures |RunInner(db, inner, tx, ctx).txs| == |db.txs| + NestedIn(inner)
    ensures RunInner(db, inner, tx, ctx).txs[..|db.txs|] == db.txs
    decreases inner
  {
    if inner.ServiceCall? {
      MarkedOpOpens(db, inner.op, ctx);
    }
  }

  lemma {:induction false} MarkedBodyOpens(db: Db, body: seq<Inner>, tx: nat, ctx: Option<Context>)
    requires tx < |db.txs| && InTx(ctx)
    ensures |RunBody(db, body, tx, ctx).txs| == |db.txs| + Nested(body)
    ensures RunBody(db, body, tx, ctx).txs[..|db.txs|] == db.txs
    decreases body
  {
    if body != [] {
      var next := RunInner(db, body[0], tx, ctx);
      MarkedInnerOpens(db, body[0], tx, ctx);
      MarkedBodyOpens(next, body[1..], tx, ctx);
      assert RunBody(db, body, tx, ctx).txs[..|db.txs|] == next.txs[..|db.txs|];
    }
  }

  /**
   * However many queries an operation makes, it opens one transaction, under the caller's settings, and one more
   * for each batch or interactive transaction that its callbacks start on the service: exactly one if there is none.
   */
  lemma {:induction false} OneTransactionPerOperation(db: Db, op: Op, ctx: Option<Context>)
    requires ctx.Some? ==> !ctx.value.inRLSTx
    ensures var nested, after := if op.Interactive? then Nested(op.body) else 0, RunOp(db, op, ctx).txs;
            && |after| == |db.txs| + 1 + nested
            && after[..|db.txs|] == db.txs
            && after[|db.txs|].Some? && Tells(after[|db.txs|].value, ctx)
            && (|after| == |db.txs| + 1 <==> nested == 0)
  {
    var begun, after := Begin(db, ctx), RunOp(db, op, ctx).txs;
    match op {
      case ModelQuery(_) =>
      case Batch(qs) => WrapAllOpens(begun, qs, |db.txs|, Marked(ctx));
      case Interactive(body) => MarkedBodyOpens(begun, body, |db.txs|, Marked(ctx));
    }
    assert begun.txs == db.txs + [Some(CallerSettings(ctx))];
    assert after[..|begun.txs|] == begun.txs;
  }
}
