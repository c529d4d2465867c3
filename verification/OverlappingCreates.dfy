/**
 * The mutation handlers of useCreateProduct when creates overlap: each takes its own snapshot of a cached list, and
 * rolls back to that, whatever the others have written since.
 */
module OverlappingCreates {
  import opened Options
  import opened ProductCache

  /** One create's three moments: its optimistic row, the server's product, or the server's refusal. */
  datatype Event = Began(id: nat, temp: Product) | Answered(id: nat, product: Product) | Failed(id: nat)

  /** One cached list, the snapshots of the creates in flight, and the writes of all creates that have not failed. */
  datatype World = World(list: Cached, snapshots: map<nat, Cached>, kept: seq<Event>)

  /** The writes without those of create `id`, which had made only one. */
  function Without(writes: seq<Event>, id: nat): seq<Event> {
    if writes == [] then []
    else
      var n := |writes| - 1;
      Without(writes[..n], id) + if writes[n].Began? && writes[n].id == id then [] else [writes[n]]
  }

  function Step(w: World, e: Event): World {
    match e
    case Began(id, temp) => World(Mutated(w.list, temp), w.snapshots[id := w.list], w.kept + [e])
    case Answered(id, p) => World(Succeeded(w.list, p), w.snapshots - {id}, w.kept + [e])
    case Failed(id) =>
      World(if id in w.snapshots then Restored(w.list, w.snapshots[id]) else w.list,
            w.snapshots - {id}, Without(w.kept, id))
  }

  function Play(c: Cached, events: seq<Event>): World {
    if events == [] then World(c, map[], [])
    else Step(Play(c, events[..|events| - 1]), events[|events| - 1])
  }

  /** The list that writes leave when no create fails. */
  function Written(c: Cached, writes: seq<Event>): Cached {
    if writes == [] then c
    else
      var before, e := Written(c, writes[..|writes| - 1]), writes[|writes| - 1];
      match e
      case Began(_, temp) => Mutated(before, temp)
      case Answered(_, p) => Succeeded(before, p)
      case Failed(_) => before
  }

  /** The products the server answered with, latest first, and how many creates began. */
  function Products(events: seq<Event>): seq<Product> {
    if events == [] then []
    else
      var n := |events| - 1;
      (if events[n].Answered? then [events[n].product] else []) + Products(events[..n])
  }

  function Starts(events: seq<Event>): nat {
    if events == [] then 0
    else Starts(events[..|events| - 1]) + if events[|events| - 1].Began? then 1 else 0
  }

  /** Direct inserts, the last of `products` first. */
  function InsertAll(c: Cached, products: seq<Product>): Cached {
    if products == [] then c else Inserted(InsertAll(c, products[1..]), products[0])
  }

  /** A list as the server sent it: nothing in it is temporary. */
  ghost predicate Plain(c: Cached) {
    c.Listed? && forall i :: 0 <= i < |c.items| ==> !IsOptimistic(c.items[i])
  }

  /** A create's rows are temporary, and the server's products are new. */
  ghost predicate Allowed(c: Cached, w: World, e: Event)
    requires c.Listed?
  {
    match e
    case Began(id, temp) =>
      && id !in w.snapshots && IsOptimistic(temp)
      && forall i :: 0 <= i < |w.kept| ==> !(w.kept[i].Began? && w.kept[i].id == id)
    case Answered(id, p) =>
      id in w.snapshots && !IsOptimistic(p) && !HasId(c.items, p.id) && !HasId(Products(w.kept), p.id)
    case Failed(id) => id in w.snapshots
  }

  ghost predicate Proper(c: Cached, events: seq<Event>)
    requires c.Listed?
  {
    events != [] ==>
      var n := |events| - 1;
      Proper(c, events[..n]) && Allowed(c, Play(c, events[..n]), events[n])
  }

  // ----- the rows that writes leave

  lemma {:induction false} TempsFiltered(temps: seq<Product>, rest: seq<Product>)
    requires forall i :: 0 <= i < |temps| ==> IsOptimistic(temps[i])
    requires forall i :: 0 <= i < |rest| ==> !IsOptimistic(rest[i])
    ensures NotOptimistic(temps + rest) == rest
  {
    if temps == [] {
      assert temps + rest == rest;
      NothingFiltered(rest);
    } else {
      assert (temps + rest)[1..] == temps[1..] + rest;
      TempsFiltered(temps[1..], rest);
    }
  }

  /** Writes as allowed: temporary rows, new products, and never more answers than creates. */
  ghost predicate Tidy(c: Cached, writes: seq<Event>)
    requires c.Listed?
  {
    writes != [] ==>
      var n := |writes| - 1;
      && Tidy(c, writes[..n])
      && !writes[n].Failed?
      && (writes[n].Began? ==> IsOptimistic(writes[n].temp))
      && (writes[n].Answered? ==>
            IsNew(c, writes[..n], writes[n].product) && |Products(writes[..n])| < Starts(writes[..n]))
  }

  /** The server's product is neither temporary nor known. */
  ghost predicate IsNew(c: Cached, writes: seq<Event>, p: Product)
    requires c.Listed?
  {
    !IsOptimistic(p) && !HasId(c.items, p.id) && !HasId(Products(writes), p.id)
  }

  /** What should be in the list in the end: the new products, then the old rows. */
  function Target(c: Cached, writes: seq<Event>): seq<Product>
    requires c.Listed?
  {
    Products(writes) + c.items
  }

  ghost predicate NoTemps(rows: seq<Product>) {
    forall i :: 0 <= i < |rows| ==> !IsOptimistic(rows[i])
  }

  lemma NoTempsInFront(p: Product, rows: seq<Product>)
    requires !IsOptimistic(p) && NoTemps(rows)
    ensures NoTemps([p] + rows)
  {
  }

  /** Temporary rows are marked as such, and the server's products are not. */
  ghost predicate Marked(writes: seq<Event>) {
    forall i :: 0 <= i < |writes| ==>
      && (writes[i].Began? ==> IsOptimistic(writes[i].temp))
      && (writes[i].Answered? ==> !IsOptimistic(writes[i].product))
  }

  lemma MarkedFront(writes: seq<Event>)
    requires writes != [] && Marked(writes)
    ensures Marked(writes[..|writes| - 1])
  {
  }

  lemma {:induction false} TidyIsMarked(c: Cached, writes: seq<Event>)
    requires c.Listed? && Tidy(c, writes)
    ensures Marked(writes)
  {
    if writes != [] {
      var n := |writes| - 1;
      TidyIsMarked(c, writes[..n]);
      assert forall i :: 0 <= i < n ==> writes[i] == writes[..n][i];
    }
  }

  lemma {:induction false} ProductsArePlain(writes: seq<Event>)
    requires Marked(writes)
    ensures NoTemps(Products(writes))
  {
    if writes != [] {
      var n := |writes| - 1;
      MarkedFront(writes);
      ProductsArePlain(writes[..n]);
      if writes[n].Answered? {
        NoTempsInFront(writes[n].product, Products(writes[..n]));
      } else {
        assert Products(writes) == Products(writes[..n]);
      }
    }
  }

  lemma TargetIsPlain(c: Cached, writes: seq<Event>)
    requires Plain(c) && Marked(writes)
    ensures NoTemps(Target(c, writes))
  {
    ProductsArePlain(writes);
  }

  /** The rows are temporary ones, at most one for each create in flight, then the front part of the target. */
  ghost predicate Rows(c: Cached, writes: seq<Event>, temps: seq<Product>, k: nat)
    requires c.Listed?
  {
    var open, list := Starts(writes) - |Products(writes)|, Written(c, writes);
    && list.Listed? && LimitOf(list) == LimitOf(c) && TotalOf(list) == TotalOf(c) + Starts(writes)
    && (writes != [] ==> list == ListOf(list.items, TotalOf(list), LimitOf(c)) && |list.items| <= LimitOf(c))
    && k <= |Target(c, writes)| && list.items == temps + Target(c, writes)[..k]
    && (forall i :: 0 <= i < |temps| ==> IsOptimistic(temps[i]))
    && |temps| <= open
    && (k == |Target(c, writes)| || k >= LimitOf(c) - open)
  }

  lemma CutRows(t: Product, temps: seq<Product>, rest: seq<Product>, limit: Positive)
    returns (temps': seq<Product>, k: nat)
    ensures k <= |rest| && Cut([t] + (temps + rest), limit) == temps' + rest[..k]
    ensures |temps'| <= |temps| + 1 && temps' == ([t] + temps)[..|temps'|]
    ensures k == |rest| || k >= limit - |temps| - 1
  {
    var rows := [t] + (temps + rest);
    if |rows| <= limit {
      temps', k := [t] + temps, |rest|;
    } else if |temps| + 1 >= limit {
      temps', k := ([t] + temps)[..limit], 0;
    } else {
      temps', k := [t] + temps, limit - |temps| - 1;
    }
  }

  lemma RowsAfterBegin(c: Cached, writes: seq<Event>, e: Event, temps: seq<Product>, k: nat)
    returns (temps': seq<Product>, k': nat)
    requires Plain(c) && Rows(c, writes, temps, k) && e.Began? && IsOptimistic(e.temp)
    ensures Rows(c, writes + [e], temps', k')
  {
    assert (writes + [e])[..|writes|] == writes;
    var rest := Target(c, writes)[..k];
    temps', k' := CutRows(e.temp, temps, rest, LimitOf(c));
    assert rest[..k'] == Target(c, writes)[..k'];
    forall i | 0 <= i < |temps'| ensures IsOptimistic(temps'[i]) {
      assert temps'[i] == ([e.temp] + temps)[i];
    }
    assert Target(c, writes + [e]) == Target(c, writes);
  }

  lemma {:induction false} FilteredMembers(rows: seq<Product>, id: string)
    requires HasId(NotOptimistic(rows), id)
    ensures HasId(rows, id)
  {
    var first := if IsOptimistic(rows[0]) then [] else [rows[0]];
    var i :| 0 <= i < |NotOptimistic(rows)| && NotOptimistic(rows)[i].id == id;
    if i < |first| {
      assert rows[0].id == id;
    } else {
      assert NotOptimistic(rows[1..])[i - |first|].id == id;
      FilteredMembers(rows[1..], id);
      var k :| 0 <= k < |rows[1..]| && rows[1..][k].id == id;
      assert rows[k + 1].id == id;
    }
  }

  /** What nobody wrote is not there. */
  lemma {:induction false} NewIdNotWritten(c: Cached, writes: seq<Event>, p: Product)
    requires c.Listed? && Marked(writes)
    requires !IsOptimistic(p) && !HasId(c.items, p.id) && !HasId(Products(writes), p.id)
    ensures Written(c, writes).Listed? && !HasId(Written(c, writes).items, p.id)
  {
    if writes != [] {
      var n := |writes| - 1;
      var e := writes[n];
      MarkedFront(writes);
      NewIdBefore(writes, p);
      NewIdNotWritten(c, writes[..n], p);
      var rows := Written(c, writes[..n]).items;
      if e.Began? {
        FrontHasId(e.temp, rows, p.id);
      } else if e.Answered? {
        FrontHasId(e.product, NotOptimistic(rows), p.id);
        if HasId(NotOptimistic(rows), p.id) {
          FilteredMembers(rows, p.id);
        }
      }
    }
  }

  lemma {:induction false} NewIdBefore(writes: seq<Event>, p: Product)
    requires writes != [] && !HasId(Products(writes), p.id)
    ensures !HasId(Products(writes[..|writes| - 1]), p.id)
    ensures writes[|writes| - 1].Answered? ==> writes[|writes| - 1].product.id != p.id
  {
    var n := |writes| - 1;
    if writes[n].Answered? {
      FrontHasId(writes[n].product, Products(writes[..n]), p.id);
    } else {
      assert Products(writes) == Products(writes[..n]);
    }
  }

  /** A success drops the temporary rows and puts the new one in front. */
  lemma SuccessDropsTemps(list: Cached, temps: seq<Product>, rest: seq<Product>, p: Product)
    requires list.Listed? && list.items == temps + rest && !HasId(list.items, p.id)
    requires forall i :: 0 <= i < |temps| ==> IsOptimistic(temps[i])
    requires forall i :: 0 <= i < |rest| ==> !IsOptimistic(rest[i])
    ensures Succeeded(list, p) == ListOf([p] + rest, TotalOf(list), LimitOf(list))
  {
    TempsFiltered(temps, rest);
  }

  lemma CutFront(p: Product, target: seq<Product>, k: nat, limit: Positive) returns (k': nat)
    requires k <= |target|
    ensures k' == (if k < limit then k + 1 else limit)
    ensures k' <= |target| + 1 && Cut([p] + target[..k], limit) == ([p] + target)[..k']
  {
    k' := if k < limit then k + 1 else limit;
  }

  lemma RowsAfterAnswer(c: Cached, writes: seq<Event>, e: Event, temps: seq<Product>, k: nat) returns (k': nat)
    requires Plain(c) && Marked(writes) && Rows(c, writes, temps, k) && e.Answered?
    requires IsNew(c, writes, e.product) && |Products(writes)| < Starts(writes)
    ensures Rows(c, writes + [e], [], k')
  {
    assert (writes + [e])[..|writes|] == writes;
    var target, p := Target(c, writes), e.product;
    NewIdNotWritten(c, writes, p);
    TargetIsPlain(c, writes);
    SuccessDropsTemps(Written(c, writes), temps, target[..k], p);
    k' := CutFront(p, target, k, LimitOf(c));
    assert Target(c, writes + [e]) == [p] + target;
    assert [] + ([p] + target)[..k'] == ([p] + target)[..k'];
    assert Written(c, writes + [e]) == ListOf([p] + target[..k], TotalOf(Written(c, writes)), LimitOf(c));
  }

  lemma {:induction false} WrittenRows(c: Cached, writes: seq<Event>) returns (temps: seq<Product>, k: nat)
    requires Plain(c) && Tidy(c, writes)
    ensures Rows(c, writes, temps, k)
  {
    if writes == [] {
      temps, k := [], |c.items|;
      assert [] + c.items == c.items && c.items[..k] == c.items;
    } else {
      var n := |writes| - 1;
      assert writes == writes[..n] + [writes[n]];
      temps, k := WrittenRows(c, writes[..n]);
      if writes[n].Began? {
        temps, k := RowsAfterBegin(c, writes[..n], writes[n], temps, k);
      } else {
        TidyIsMarked(c, writes[..n]);
        k := RowsAfterAnswer(c, writes[..n], writes[n], temps, k);
        temps := [];
      }
    }
  }

  lemma CutAgain(x: Product, rows: seq<Product>, limit: Positive)
    ensures Cut([x] + Cut(rows, limit), limit) == Cut([x] + rows, limit)
  {
  }

  lemma {:induction false} InsertAllRows(c: Cached, products: seq<Product>)
    requires c.Listed?
    ensures var list := InsertAll(c, products);
            && list.Listed? && LimitOf(list) == LimitOf(c) && TotalOf(list) == TotalOf(c) + |products|
            && (products != [] ==> list == ListOf(products + c.items, TotalOf(c) + |products|, LimitOf(c)))
  {
    if products != [] {
      var rest, x := products[1..], products[0];
      var before := InsertAll(c, rest);
      InsertAllRows(c, rest);
      InsertedIsList(before, x);
      assert products + c.items == [x] + (rest + c.items);
      if rest == [] {
        assert rest + c.items == c.items;
      } else {
        CutAgain(x, rest + c.items, LimitOf(c));
      }
    }
  }

  lemma CutOfFront(target: seq<Product>, k: nat, limit: Positive)
    requires k <= |target| && (k == |target| || k >= limit)
    ensures Cut(target[..k], limit) == Cut(target, limit)
  {
  }

  lemma SameCut(x: seq<Product>, y: seq<Product>, total: nat, limit: Positive)
    requires Cut(x, limit) == Cut(y, limit)
    ensures ListOf(x, total, limit) == ListOf(y, total, limit)
  {
  }

  lemma {:induction false} SettledItems(c: Cached, writes: seq<Event>, temps: seq<Product>, k: nat)
    requires c.Listed? && writes != [] && Rows(c, writes, temps, k) && Starts(writes) == |Products(writes)|
    ensures k <= |Target(c, writes)| && (k == |Target(c, writes)| || k >= LimitOf(c))
    ensures Written(c, writes) == ListOf(Target(c, writes)[..k], TotalOf(c) + |Products(writes)|, LimitOf(c))
  {
    assert [] + Target(c, writes)[..k] == Target(c, writes)[..k];
  }

  /** With no create in flight, the rows are the front of the target, as long as the page allows. */
  lemma {:induction false} SettledRows(c: Cached, writes: seq<Event>, temps: seq<Product>, k: nat)
    requires c.Listed? && writes != [] && Rows(c, writes, temps, k) && Starts(writes) == |Products(writes)|
    ensures Written(c, writes) == ListOf(Products(writes) + c.items, TotalOf(c) + |Products(writes)|, LimitOf(c))
  {
    var target := Target(c, writes);
    SettledItems(c, writes, temps, k);
    CutOfFront(target, k, LimitOf(c));
    SameCut(target[..k], target, TotalOf(c) + |Products(writes)|, LimitOf(c));
  }

  lemma {:induction false} SomeProduct(c: Cached, writes: seq<Event>)
    requires c.Listed? && writes != [] && Tidy(c, writes) && Starts(writes) == |Products(writes)|
    ensures Products(writes) != []
  {
  }

  lemma {:induction false} AnsweredRows(c: Cached, writes: seq<Event>)
    requires Plain(c) && Tidy(c, writes) && writes != [] && Starts(writes) == |Products(writes)|
    ensures Written(c, writes) == ListOf(Products(writes) + c.items, TotalOf(c) + |Products(writes)|, LimitOf(c))
  {
    var temps, k := WrittenRows(c, writes);
    SettledRows(c, writes, temps, k);
  }

  /** However many creates overlap and in whatever order they are answered, the list ends as direct inserts in that order. */
  lemma {:induction false} AllAnsweredIsInserts(c: Cached, writes: seq<Event>)
    requires Plain(c) && Tidy(c, writes) && Starts(writes) == |Products(writes)|
    ensures Written(c, writes) == InsertAll(c, Products(writes))
  {
    if writes != [] {
      var list := ListOf(Products(writes) + c.items, TotalOf(c) + |Products(writes)|, LimitOf(c));
      assert Written(c, writes) == list by { AnsweredRows(c, writes); }
      assert InsertAll(c, Products(writes)) == list by {
        SomeProduct(c, writes);
        InsertAllRows(c, Products(writes));
      }
    }
  }

  // ----- rollbacks

  /** The create's own optimistic row is the last write there is: nothing came between it and its failure. */
  predicate Clean(w: World, id: nat) {
    w.kept != [] && w.kept[|w.kept| - 1].Began? && w.kept[|w.kept| - 1].id == id
  }

  predicate AllClean(c: Cached, events: seq<Event>) {
    events != [] ==>
      var n := |events| - 1;
      AllClean(c, events[..n]) && (events[n].Failed? ==> Clean(Play(c, events[..n]), events[n].id))
  }

  /** At every point of the run the list is as if the creates that failed had never begun. */
  predicate Agrees(c: Cached, events: seq<Event>) {
    && Play(c, events).list == Written(c, Play(c, events).kept)
    && (events != [] ==> Agrees(c, events[..|events| - 1]))
  }

  predicate BeganAt(writes: seq<Event>, id: nat, i: nat) {
    i < |writes| && writes[i].Began? && writes[i].id == id
  }

  ghost predicate BeginsOnce(writes: seq<Event>) {
    forall i: nat, j: nat, id: nat :: BeganAt(writes, id, i) && BeganAt(writes, id, j) ==> i == j
  }

  /** The snapshot of a create in flight is the list before its write. */
  ghost predicate SnapshotOf(c: Cached, w: World, id: nat)
    requires id in w.snapshots
  {
    exists i: nat :: BeganAt(w.kept, id, i) && w.snapshots[id] == Written(c, w.kept[..i])
  }

  ghost predicate Faithful(c: Cached, w: World)
    requires c.Listed?
  {
    && Tidy(c, w.kept) && BeginsOnce(w.kept) && w.list == Written(c, w.kept)
    && (forall id :: id in w.snapshots ==> SnapshotOf(c, w, id))
    && Starts(w.kept) - |Products(w.kept)| == |w.snapshots|
  }

  lemma {:induction false} NothingToDrop(writes: seq<Event>, id: nat)
    requires forall i: nat :: !BeganAt(writes, id, i)
    ensures Without(writes, id) == writes
  {
    if writes != [] {
      var n := |writes| - 1;
      assert !BeganAt(writes, id, n);
      forall i: nat ensures !BeganAt(writes[..n], id, i) {
        assert !BeganAt(writes, id, i);
      }
      NothingToDrop(writes[..n], id);
      assert writes == writes[..n] + [writes[n]];
    }
  }

  lemma {:induction false} WithoutAt(writes: seq<Event>, id: nat, i: nat)
    requires BeganAt(writes, id, i) && BeginsOnce(writes)
    ensures Without(writes, id) == writes[..i] + writes[i + 1..]
  {
    var n := |writes| - 1;
    forall j: nat, of: nat | BeganAt(writes[..n], of, j) ensures BeganAt(writes, of, j) {}
    if i == n {
      NothingToDrop(writes[..n], id);
      assert writes[..n] + writes[n + 1..] == writes[..n];
    } else {
      assert BeganAt(writes[..n], id, i) && !BeganAt(writes, id, n);
      WithoutAt(writes[..n], id, i);
      assert writes[..n][..i] == writes[..i] && writes[i + 1..] == writes[..n][i + 1..] + [writes[n]];
    }
  }

  lemma {:induction false} WrittenTotal(c: Cached, writes: seq<Event>)
    requires c.Listed?
    ensures Written(c, writes).Listed? && LimitOf(Written(c, writes)) == LimitOf(c)
    ensures TotalOf(Written(c, writes)) == TotalOf(c) + Starts(writes)
  {
    if writes != [] {
      WrittenTotal(c, writes[..|writes| - 1]);
    }
  }

  lemma {:induction false} StartsInTurn(a: seq<Event>, b: seq<Event>)
    ensures Starts(a + b) == Starts(a) + Starts(b)
  {
    if b == [] {
      assert a + b == a;
    } else {
      assert (a + b)[..|a + b| - 1] == a + b[..|b| - 1];
      StartsInTurn(a, b[..|b| - 1]);
    }
  }

  lemma {:induction false} ProductsInTurn(a: seq<Event>, b: seq<Event>)
    ensures Products(a + b) == Products(b) + Products(a)
  {
    if b == [] {
      assert a + b == a;
    } else {
      var n := |b| - 1;
      var last := if b[n].Answered? then [b[n].product] else [];
      assert (a + b)[..|a + b| - 1] == a + b[..n] && (a + b)[|a + b| - 1] == b[n];
      ProductsInTurn(a, b[..n]);
      assert last + (Products(b[..n]) + Products(a)) == (last + Products(b[..n])) + Products(a);
    }
  }

  /** A list tells whether anything was written after a given point: by its total, or by its first row. */
  lemma {:induction false} LaterWritesShow(c: Cached, before: seq<Event>, after: seq<Event>)
    requires c.Listed? && after != [] && Marked(before + after) && !after[|after| - 1].Failed?
    requires after[|after| - 1].Answered? ==>
               var p := after[|after| - 1].product;
               !IsOptimistic(p) && !HasId(c.items, p.id) && !HasId(Products(before + after[..|after| - 1]), p.id)
    ensures Written(c, before + after) != Written(c, before)
  {
    var n, e := |after| - 1, after[|after| - 1];
    assert (before + after)[..|before| + n] == before + after[..n];
    assert Marked(before) && Marked(before + after[..n]) by {
      assert forall i :: 0 <= i < |before| + n ==> (before + after[..n])[i] == (before + after)[i];
      assert forall i :: 0 <= i < |before| ==> before[i] == (before + after)[i];
    }
    if e.Began? {
      WrittenTotal(c, before);
      WrittenTotal(c, before + after);
      StartsInTurn(before, after);
    } else {
      ProductsInTurn(before, after[..n]);
      NotAmongEarlier(Products(after[..n]), Products(before), e.product.id);
      NewIdNotWritten(c, before, e.product);
      NewIdNotWritten(c, before + after[..n], e.product);
      FirstRowIsNew(Written(c, before + after[..n]), e.product);
    }
  }

  lemma NotAmongEarlier(later: seq<Product>, earlier: seq<Product>, id: string)
    requires !HasId(later + earlier, id)
    ensures !HasId(earlier, id)
  {
    forall i | 0 <= i < |earlier| ensures earlier[i].id != id {
      assert (later + earlier)[|later| + i] == earlier[i];
    }
  }

  lemma FirstRowIsNew(list: Cached, p: Product)
    requires list.Listed? && !HasId(list.items, p.id)
    ensures HasId(Succeeded(list, p).items, p.id)
  {
    assert Succeeded(list, p).items[0] == p;
  }

  /** Leaving out a create's first write leaves out no product. */
  lemma DroppedProducts(writes: seq<Event>, i: nat)
    requires i < |writes| - 1 && writes[i].Began?
    ensures var after := writes[i + 1..]; Products(writes[..i] + after[..|after| - 1]) == Products(writes[..|writes| - 1])
  {
    var before, after := writes[..i], writes[i + 1..];
    var middle := after[..|after| - 1];
    assert writes[..|writes| - 1] == before + [writes[i]] + middle;
    ProductsInTurn(before, middle);
    ProductsInTurn(before + [writes[i]], middle);
    ProductsInTurn(before, [writes[i]]);
    assert [writes[i]][..0] == [];
    assert Products([writes[i]]) == [];
  }

  lemma StaysMarked(writes: seq<Event>, i: nat)
    requires i < |writes| && Marked(writes)
    ensures Marked(writes[..i] + writes[i + 1..])
  {
    var rest := writes[..i] + writes[i + 1..];
    forall j | 0 <= j < |rest| ensures rest[j] in writes {
      assert rest[j] == if j < i then writes[j] else writes[j + 1];
    }
  }

  lemma {:induction false} LaterWritesMatter(c: Cached, kept: seq<Event>, i: nat)
    requires Plain(c) && Tidy(c, kept) && i < |kept| - 1 && kept[i].Began?
    ensures Written(c, kept[..i] + kept[i + 1..]) != Written(c, kept[..i])
  {
    var before, after, n := kept[..i], kept[i + 1..], |kept| - 1;
    assert after[|after| - 1] == kept[n];
    TidyIsMarked(c, kept);
    StaysMarked(kept, i);
    DroppedProducts(kept, i);
    LaterWritesShow(c, before, after);
  }

  /** What a rollback restores, and what the other creates alone would have left. */
  lemma RollbackRestores(c: Cached, w: World, id: nat) returns (i: nat)
    requires Plain(c) && Faithful(c, w) && id in w.snapshots
    ensures BeganAt(w.kept, id, i) && (Clean(w, id) <==> i == |w.kept| - 1)
    ensures var w' := Step(w, Failed(id));
            w'.list == Written(c, w.kept[..i]) && w'.kept == w.kept[..i] + w.kept[i + 1..]
  {
    assert SnapshotOf(c, w, id);
    i :| BeganAt(w.kept, id, i) && w.snapshots[id] == Written(c, w.kept[..i]);
    WithoutAt(w.kept, id, i);
    WrittenTotal(c, w.kept[..i]);
    assert Clean(w, id) ==> BeganAt(w.kept, id, |w.kept| - 1);
  }

  /** A rollback gives the list that the other creates alone would have left if and only if it is clean. */
  lemma {:induction false} RollbackIsRightExactly(c: Cached, w: World, id: nat)
    requires Plain(c) && Faithful(c, w) && id in w.snapshots
    ensures var w' := Step(w, Failed(id)); w'.list == Written(c, w'.kept) <==> Clean(w, id)
  {
    var i := RollbackRestores(c, w, id);
    if i == |w.kept| - 1 {
      assert w.kept[..i] + w.kept[i + 1..] == w.kept[..i];
    } else {
      LaterWritesMatter(c, w.kept, i);
    }
  }

  lemma SnapshotStays(c: Cached, w: World, w': World, id: nat)
    requires id in w.snapshots && SnapshotOf(c, w, id)
    requires id in w'.snapshots && w'.snapshots[id] == w.snapshots[id]
    requires |w'.kept| >= |w.kept| && w'.kept[..|w.kept|] == w.kept
    ensures SnapshotOf(c, w', id)
  {
    var i: nat :| BeganAt(w.kept, id, i) && w.snapshots[id] == Written(c, w.kept[..i]);
    assert w'.kept[..i] == w.kept[..i] && w'.kept[i] == w'.kept[..|w.kept|][i];
    assert BeganAt(w'.kept, id, i);
  }

  lemma BeginKeepsFaithful(c: Cached, w: World, id: nat, temp: Product)
    requires Plain(c) && Faithful(c, w) && Allowed(c, w, Began(id, temp))
    ensures Faithful(c, Step(w, Began(id, temp)))
  {
    var w' := Step(w, Began(id, temp));
    assert w'.kept[..|w.kept|] == w.kept;
    forall i: nat, of: nat | BeganAt(w'.kept, of, i)
      ensures if i == |w.kept| then of == id else of != id && BeganAt(w.kept, of, i) {}
    forall of | of in w'.snapshots ensures SnapshotOf(c, w', of) {
      if of == id {
        assert BeganAt(w'.kept, id, |w.kept|);
      } else {
        SnapshotStays(c, w, w', of);
      }
    }
  }

  lemma AnswerKeepsFaithful(c: Cached, w: World, id: nat, p: Product)
    requires Plain(c) && Faithful(c, w) && Allowed(c, w, Answered(id, p))
    ensures Faithful(c, Step(w, Answered(id, p)))
  {
    var w' := Step(w, Answered(id, p));
    assert w'.kept[..|w.kept|] == w.kept;
    forall i: nat, of: nat | BeganAt(w'.kept, of, i) ensures BeganAt(w.kept, of, i) {}
    forall of | of in w'.snapshots ensures SnapshotOf(c, w', of) {
      SnapshotStays(c, w, w', of);
    }
    OneLess(w.snapshots, id);
  }

  lemma OneLess(snapshots: map<nat, Cached>, id: nat)
    requires id in snapshots
    ensures |snapshots - {id}| == |snapshots| - 1
  {
    assert snapshots == (snapshots - {id})[id := snapshots[id]];
  }

  lemma CleanFailureKeepsFaithful(c: Cached, w: World, id: nat)
    requires Plain(c) && Faithful(c, w) && id in w.snapshots && Clean(w, id)
    ensures Faithful(c, Step(w, Failed(id)))
  {
    var w', n := Step(w, Failed(id)), |w.kept| - 1;
    var i := RollbackRestores(c, w, id);
    assert w'.kept == w.kept[..n];
    forall j: nat, of: nat | BeganAt(w'.kept, of, j) ensures BeganAt(w.kept, of, j) {}
    forall of | of in w'.snapshots ensures SnapshotOf(c, w', of) {
      EarlierSnapshotStays(c, w, w', of);
    }
    OneLess(w.snapshots, id);
  }

  lemma EarlierSnapshotStays(c: Cached, w: World, w': World, of: nat)
    requires of in w.snapshots && SnapshotOf(c, w, of) && of in w'.snapshots && w'.snapshots[of] == w.snapshots[of]
    requires w.kept != [] && w'.kept == w.kept[..|w.kept| - 1] && !BeganAt(w.kept, of, |w.kept| - 1)
    ensures SnapshotOf(c, w', of)
  {
    var j: nat :| BeganAt(w.kept, of, j) && w.snapshots[of] == Written(c, w.kept[..j]);
    assert BeganAt(w'.kept, of, j) && w'.kept[..j] == w.kept[..j];
  }

  /**
   * Any number of creates may overlap: at every point of their run the list is as if the failed ones had never begun
   * if and only if each failure finds its own optimistic row to be the last thing written.
   */
  lemma {:induction false} RollbacksAreRightExactly(c: Cached, events: seq<Event>)
    requires Plain(c) && Proper(c, events)
    ensures Agrees(c, events) <==> AllClean(c, events)
    ensures AllClean(c, events) ==> Faithful(c, Play(c, events))
  {
    if events != [] {
      var n := |events| - 1;
      var w, e := Play(c, events[..n]), events[n];
      RollbacksAreRightExactly(c, events[..n]);
      if AllClean(c, events[..n]) {
        match e {
          case Began(id, temp) => BeginKeepsFaithful(c, w, id, temp);
          case Answered(id, p) => AnswerKeepsFaithful(c, w, id, p);
          case Failed(id) =>
            RollbackIsRightExactly(c, w, id);
            if Clean(w, id) {
              CleanFailureKeepsFaithful(c, w, id);
            }
        }
      }
    }
  }

  lemma {:induction false} DroppingKeepsProducts(writes: seq<Event>, id: nat)
    ensures Products(Without(writes, id)) == Products(writes)
  {
    if writes != [] {
      var n := |writes| - 1;
      var front := Without(writes[..n], id);
      DroppingKeepsProducts(writes[..n], id);
      assert (front + [writes[n]])[..|front|] == front;
      assert front + [] == front;
    }
  }

  lemma {:induction false} KeptProducts(c: Cached, events: seq<Event>)
    ensures Products(Play(c, events).kept) == Products(events)
  {
    if events != [] {
      var n := |events| - 1;
      var w := Play(c, events[..n]);
      KeptProducts(c, events[..n]);
      DroppingKeepsProducts(w.kept, events[n].id);
      assert (w.kept + [events[n]])[..|w.kept|] == w.kept;
    }
  }

  /** So once all are settled, with every failure clean, the list is the direct inserts of the answers, in their order. */
  lemma {:induction false} SettledCreatesAreInserts(c: Cached, events: seq<Event>)
    requires Plain(c) && Proper(c, events) && AllClean(c, events) && Play(c, events).snapshots == map[]
    ensures Play(c, events).list == InsertAll(c, Products(events))
  {
    RollbacksAreRightExactly(c, events);
    AllAnsweredIsInserts(c, Play(c, events).kept);
    KeptProducts(c, events);
  }

  // ----- two creates, in every order and with every outcome

  function Settled(list: Cached, snapshot: Cached, outcome: Option<Product>): Cached {
    if outcome.Some? then Succeeded(list, outcome.value) else Restored(list, snapshot)
  }

  /** Two creates begin one after the other; the older one settles first or last. */
  function BothSettled(c: Cached, temp1: Product, temp2: Product,
                       older: Option<Product>, newer: Option<Product>, olderFirst: bool): Cached {
    var one := Mutated(c, temp1);
    var two := Mutated(one, temp2);
    if olderFirst then Settled(Settled(two, c, older), one, newer) else Settled(Settled(two, one, newer), c, older)
  }

  function Outcomes(older: Option<Product>, newer: Option<Product>, olderFirst: bool): seq<Product> {
    var one, two := if older.Some? then [older.value] else [], if newer.Some? then [newer.value] else [];
    if olderFirst then two + one else one + two
  }

  /** What the server answers is new to the list. */
  ghost predicate New(c: Cached, outcome: Option<Product>)
    requires c.Listed?
  {
    outcome.Some? ==> !IsOptimistic(outcome.value) && !HasId(c.items, outcome.value.id)
  }

  /** What some writes come to. */
  ghost predicate Leave(c: Cached, writes: seq<Event>, list: Cached, products: seq<Product>, starts: nat)
    requires c.Listed?
  {
    Tidy(c, writes) && Written(c, writes) == list && Products(writes) == products && Starts(writes) == starts
  }

  lemma BeginOne(c: Cached, writes: seq<Event>, list: Cached, products: seq<Product>, starts: nat, id: nat, temp: Product)
    requires c.Listed? && Leave(c, writes, list, products, starts) && IsOptimistic(temp)
    ensures Leave(c, writes + [Began(id, temp)], Mutated(list, temp), products, starts + 1)
  {
    assert (writes + [Began(id, temp)])[..|writes|] == writes;
    assert [] + products == products;
  }

  lemma {:induction false} BothAnswered(c: Cached, temp1: Product, temp2: Product, a: Product, b: Product)
    requires Plain(c) && New(c, Some(a)) && New(c, Some(b)) && a.id != b.id && IsOptimistic(temp1) && IsOptimistic(temp2)
    ensures Succeeded(Succeeded(Mutated(Mutated(c, temp1), temp2), a), b) == InsertAll(c, [b, a])
  {
    var one := Mutated(c, temp1);
    var two := Mutated(one, temp2);
    var three := Succeeded(two, a);
    var w1 := [] + [Began(1, temp1)];
    var w2 := w1 + [Began(2, temp2)];
    var w3 := w2 + [Answered(1, a)];
    BeginOne(c, [], c, [], 0, 1, temp1);
    BeginOne(c, w1, one, [], 1, 2, temp2);
    AllAnsweredIsInserts(c, w3 + [Answered(2, b)]);
    assert [b] + ([a] + []) == [b, a];
  }

  /**
   * Two overlapping creates end as the direct inserts of their answers if and only if both are answered, or the newer
   * one fails before the older one settles. Otherwise the list is left as the older create's optimistic one, or one
   * short in total, or without the product that was created.
   */
  lemma {:induction false} TwoCreatesEndRightExactly(c: Cached, temp1: Product, temp2: Product,
                                  older: Option<Product>, newer: Option<Product>, olderFirst: bool)
    requires Plain(c) && IsOptimistic(temp1) && IsOptimistic(temp2) && New(c, older) && New(c, newer)
    requires older.Some? && newer.Some? ==> older.value.id != newer.value.id
    ensures var list := BothSettled(c, temp1, temp2, older, newer, olderFirst);
            && (list == InsertAll(c, Outcomes(older, newer, olderFirst)) <==>
                  (older.Some? && newer.Some?) || (newer.None? && !olderFirst))
            && (newer.None? && olderFirst ==> list == Mutated(c, temp1))
            && (older.None? && newer.Some? && olderFirst ==>
                  list.items == Inserted(c, newer.value).items && TotalOf(list) + 1 == TotalOf(Inserted(c, newer.value)))
            && (older.None? && !olderFirst ==> list == c)
  {
    var list := BothSettled(c, temp1, temp2, older, newer, olderFirst);
    InsertAllRows(c, Outcomes(older, newer, olderFirst));
    if older.Some? && newer.Some? {
      BothAnswered(c, temp1, temp2, older.value, newer.value);
      BothAnswered(c, temp1, temp2, newer.value, older.value);
    } else if older.Some? {
      assert Outcomes(older, newer, olderFirst) == [older.value] && [older.value][1..] == [];
      OptimisticCreateIsInsert(c, temp1, older.value);
      assert Mutated(c, temp1).items[0] == temp1;
    } else if newer.Some? {
      assert Outcomes(older, newer, olderFirst) == [newer.value] && [newer.value][1..] == [];
      NothingFiltered(c.items);
    }
  }

}
