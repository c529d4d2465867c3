/** The mutation handlers of useCreateProduct and fetchAllProducts in apps/web/src/hooks/use-products.ts. */
module ProductCache {
  import opened Options

  datatype Product = Product(id: string, productCode: string)

  type Positive = n: nat | n >= 1 witness 1

  datatype Meta = Meta(total: nat, page: nat, limit: Positive, totalPages: nat)

  /** What the query cache may hold under a list key. */
  datatype Cached = Missing | NotAList | Listed(items: seq<Product>, data: seq<Product>, meta: Option<Meta>)

  function PagesFor(total: nat, limit: Positive): nat {
    var pages := (total + limit - 1) / limit;
    if pages < 1 then 1 else pages
  }

  function LimitOf(c: Cached): Positive
    requires c.Listed?
  {
    if c.meta.Some? then c.meta.value.limit else 10
  }

  function TotalOf(c: Cached): nat
    requires c.Listed?
  {
    if c.meta.Some? then c.meta.value.total else |c.items|
  }

  function Cut(rows: seq<Product>, limit: nat): seq<Product> {
    if |rows| <= limit then rows else rows[..limit]
  }

  function ListOf(rows: seq<Product>, total: nat, limit: Positive): Cached {
    var items := Cut(rows, limit);
    Listed(items, items, Some(Meta(total, 1, limit, PagesFor(total, limit))))
  }

  const OPTIMISTIC := "optimistic-"

  predicate IsOptimistic(p: Product) {
    OPTIMISTIC <= p.id
  }

  function NotOptimistic(rows: seq<Product>): (r: seq<Product>)
    ensures |r| <= |rows|
  {
    if rows == [] then []
    else (if IsOptimistic(rows[0]) then [] else [rows[0]]) + NotOptimistic(rows[1..])
  }

  predicate HasId(rows: seq<Product>, id: string) {
    exists i :: 0 <= i < |rows| && rows[i].id == id
  }

  // ----- the handlers, on one cached list

  function Mutated(c: Cached, temp: Product): Cached {
    if !c.Listed? then c else ListOf([temp] + c.items, TotalOf(c) + 1, LimitOf(c))
  }

  /** Setting a query to undefined leaves it as it is. */
  function Restored(now: Cached, snapshot: Cached): Cached {
    if snapshot.Missing? then now else snapshot
  }

  function Succeeded(c: Cached, product: Product): Cached {
    if !c.Listed? || HasId(c.items, product.id) then c
    else ListOf([product] + NotOptimistic(c.items), TotalOf(c), LimitOf(c))
  }

  // ----- the handlers, over the whole cache

  type Lists = map<string, Cached>

  function AllMutated(lists: Lists, temp: Product): Lists {
    map k | k in lists :: Mutated(lists[k], temp)
  }

  function AllRestored(lists: Lists, snapshots: Lists): Lists
    requires snapshots.Keys == lists.Keys
  {
    map k | k in lists :: Restored(lists[k], snapshots[k])
  }

  function AllSucceeded(lists: Lists, product: Product): Lists {
    map k | k in lists :: Succeeded(lists[k], product)
  }

  class QueryCache {
    var keys: seq<string>
    var lists: Lists

    ghost predicate Valid()
      reads this
    {
      && (forall k :: k in lists <==> k in keys)
      && (forall i, j :: 0 <= i < j < |keys| ==> keys[i] != keys[j])
    }

    method OnMutate(temp: Product) returns (snapshots: Lists)
      requires Valid()
      modifies this`lists
      ensures Valid() && snapshots == old(lists)
      ensures lists == AllMutated(old(lists), temp)
    {
      snapshots := lists;
      ghost var after := AllMutated(snapshots, temp);
      for i := 0 to |keys|
        invariant Progress(lists, snapshots, after, keys[..i])
      {
        ProgressStep(lists, snapshots, after, keys, i);
        lists := lists[keys[i] := Mutated(snapshots[keys[i]], temp)];
      }
      assert keys[..|keys|] == keys;
    }

    /** Undefined data leaves the query as it is. */
    method SetQueryData(key: string, data: Cached)
      requires key in lists
      modifies this`lists
      ensures lists == old(lists)[key := Restored(old(lists)[key], data)]
    {
      if !data.Missing? {
        lists := lists[key := data];
      } else {
        assert lists == lists[key := lists[key]];
      }
    }

    method OnError(snapshots: Lists)
      requires Valid() && snapshots.Keys == lists.Keys
      modifies this`lists
      ensures Valid()
      ensures lists == AllRestored(old(lists), snapshots)
    {
      ghost var before := lists;
      ghost var after := AllRestored(before, snapshots);
      for i := 0 to |keys|
        invariant Progress(lists, before, after, keys[..i])
      {
        ProgressStep(lists, before, after, keys, i);
        SetQueryData(keys[i], snapshots[keys[i]]);
      }
      assert keys[..|keys|] == keys;
    }

    method OnSuccess(product: Product)
      requires Valid()
      modifies this`lists
      ensures Valid()
      ensures lists == AllSucceeded(old(lists), product)
    {
      ghost var before := lists;
      ghost var after := AllSucceeded(before, product);
      for i := 0 to |keys|
        invariant Progress(lists, before, after, keys[..i])
      {
        ProgressStep(lists, before, after, keys, i);
        lists := lists[keys[i] := Succeeded(lists[keys[i]], product)];
      }
      assert keys[..|keys|] == keys;
    }
  }

  /** The handled keys hold their new lists, the others still hold their old ones. */
  ghost predicate Progress(now: Lists, before: Lists, after: Lists, handled: seq<string>) {
    && now.Keys == before.Keys == after.Keys
    && forall k :: k in before ==> now[k] == if k in handled then after[k] else before[k]
  }

  lemma ProgressStep(now: Lists, before: Lists, after: Lists, keys: seq<string>, i: nat)
    requires i < |keys| && Progress(now, before, after, keys[..i]) && keys[i] in before
    requires forall j, k :: 0 <= j < k < |keys| ==> keys[j] != keys[k]
    ensures now[keys[i]] == before[keys[i]]
    ensures Progress(now[keys[i] := after[keys[i]]], before, after, keys[..i + 1])
  {
    assert keys[..i + 1] == keys[..i] + [keys[i]];
  }

  // ----- the direct insert they stand for

  /**
   * What a list would be if the server had answered at once: the new row first, cut to the page of so many rows, ten
   * unless the list says otherwise, and one more in total than it says, or than it shows.
   */
  function Inserted(c: Cached, product: Product): Cached {
    match c
    case Listed(items, _, meta) =>
      var total := 1 + match meta case Some(m) => m.total case None => |items|;
      var limit: Positive := match meta case Some(m) => m.limit case None => 10;
      var rows := [product] + items;
      var page := if |rows| <= limit then rows else rows[..limit];
      Listed(page, page, Some(Meta(total, 1, limit, if total <= limit then 1 else (total + limit - 1) / limit)))
    case _ => c
  }

  /** No row that survives the cut is a temporary one or already has the new id. */
  predicate Undisturbed(c: Cached, product: Product)
    requires c.Listed?
  {
    forall i :: 0 <= i < |c.items| && i < LimitOf(c) - 1 ==> !("optimistic-" <= c.items[i].id) && c.items[i].id != product.id
  }

  lemma {:induction false} NothingFiltered(rows: seq<Product>)
    ensures NotOptimistic(rows) == rows <==> forall i :: 0 <= i < |rows| ==> !IsOptimistic(rows[i])
    ensures |NotOptimistic(rows)| == |rows| <==> NotOptimistic(rows) == rows
  {
    if rows != [] {
      NothingFiltered(rows[1..]);
      assert rows == [rows[0]] + rows[1..];
    }
  }

  lemma PagesOfTotal(total: nat, limit: Positive)
    requires total >= 1
    ensures PagesFor(total, limit) == if total <= limit then 1 else (total + limit - 1) / limit
  {
    var t := total + limit - 1;
    if total <= limit {
      assert limit <= t < 2 * limit;
      QuotientOne(t, limit);
    } else {
      QuotientPositive(t, limit);
    }
  }

  lemma QuotientOne(t: nat, d: Positive)
    requires d <= t < 2 * d
    ensures t / d == 1
  {
  }

  lemma QuotientPositive(t: nat, d: Positive)
    requires t >= d
    ensures t / d >= 1
  {
  }

  lemma InsertedIsList(c: Cached, p: Product)
    requires c.Listed?
    ensures Inserted(c, p) == ListOf([p] + c.items, TotalOf(c) + 1, LimitOf(c))
  {
    PagesOfTotal(TotalOf(c) + 1, LimitOf(c));
  }

  /** The rows that keep their place when one is put in front. */
  function Kept(c: Cached): (r: seq<Product>)
    requires c.Listed?
    ensures |r| < LimitOf(c)
  {
    var limit: nat := LimitOf(c);
    Cut(c.items, limit - 1)
  }

  lemma FrontAndKept(c: Cached, x: Product)
    requires c.Listed?
    ensures Cut([x] + c.items, LimitOf(c)) == [x] + Kept(c)
  {
  }

  lemma UndisturbedKept(c: Cached, product: Product)
    requires c.Listed?
    ensures Undisturbed(c, product) <==> NotOptimistic(Kept(c)) == Kept(c) && !HasId(Kept(c), product.id)
  {
    NothingFiltered(Kept(c));
    assert forall i :: 0 <= i < |Kept(c)| ==> Kept(c)[i] == c.items[i];
  }

  lemma SameList(x: seq<Product>, y: seq<Product>, total: nat, limit: Positive)
    requires |x| <= limit && |y| <= limit
    ensures ListOf(x, total, limit) == ListOf(y, total, limit) <==> x == y
  {
  }

  lemma FrontHasId(x: Product, rows: seq<Product>, id: string)
    ensures HasId([x] + rows, id) <==> x.id == id || HasId(rows, id)
  {
    assert forall i :: 0 <= i < |rows| ==> ([x] + rows)[i + 1] == rows[i];
    assert ([x] + rows)[0] == x;
  }

  lemma {:induction false} SucceededAmong(kept: seq<Product>, total: nat, limit: Positive, temp: Product, product: Product)
    requires |kept| < limit && IsOptimistic(temp) && !IsOptimistic(product)
    ensures Succeeded(ListOf([temp] + kept, total, limit), product) == ListOf([product] + kept, total, limit)
       <==> NotOptimistic(kept) == kept && !HasId(kept, product.id)
  {
    var shown, target, rows := [temp] + kept, [product] + kept, [product] + NotOptimistic(kept);
    assert ListOf(shown, total, limit).items == shown;
    FrontHasId(temp, kept, product.id);
    if HasId(kept, product.id) {
      SameList(shown, target, total, limit);
      assert shown[0] != target[0];
    } else {
      assert shown[1..] == kept && NotOptimistic(shown) == NotOptimistic(kept);
      SameList(rows, target, total, limit);
      assert rows[1..] == NotOptimistic(kept) && target[1..] == kept;
    }
  }

  /**
   * An optimistic create that succeeds leaves a list exactly as a direct insert would if and only if no
   * surviving row was temporary or already had the new id.
   */
  lemma OptimisticCreateIsInsert(c: Cached, temp: Product, product: Product)
    requires c.Listed? && "optimistic-" <= temp.id && !("optimistic-" <= product.id)
    ensures Succeeded(Mutated(c, temp), product) == Inserted(c, product) <==> Undisturbed(c, product)
  {
    var total, limit := TotalOf(c) + 1, LimitOf(c);
    FrontAndKept(c, temp);
    FrontAndKept(c, product);
    InsertedIsList(c, product);
    UndisturbedKept(c, product);
    assert Cut([temp] + Kept(c), limit) == [temp] + Kept(c) && Cut([product] + Kept(c), limit) == [product] + Kept(c);
    assert Mutated(c, temp) == ListOf([temp] + Kept(c), total, limit);
    assert Inserted(c, product) == ListOf([product] + Kept(c), total, limit);
    SucceededAmong(Kept(c), total, limit, temp, product);
  }

  /** An optimistic create that fails leaves every cached query as it was, whatever it held. */
  lemma FailedCreateRestores(lists: Lists, temp: Product)
    ensures AllRestored(AllMutated(lists, temp), lists) == lists
  {
  }

  /** A list that was loaded meanwhile stays if there was none before, and gives way to the old one if there was. */
  lemma FailedCreateAfterLoad(lists: Lists, temp: Product, key: string, loaded: Cached)
    requires key in lists
    ensures AllRestored(AllMutated(lists, temp)[key := loaded], lists)
         == if lists[key].Missing? then lists[key := loaded] else lists
  {
  }

  /** The list says it is the first page, and names the fewest pages, one at least, that hold its total. */
  ghost predicate PagesFit(c: Cached) {
    c.Listed? && c.meta.Some? &&
    var m := c.meta.value;
    m.page == 1 && m.totalPages >= 1 && m.total <= m.totalPages * m.limit
    && (m.totalPages > 1 ==> (m.totalPages - 1) * m.limit < m.total)
  }

  lemma FewestPages(total: nat, limit: Positive)
    ensures var pages := PagesFor(total, limit);
            pages >= 1 && total <= pages * limit && (pages > 1 ==> (pages - 1) * limit < total)
  {
    var t := total + limit - 1;
    var q := t / limit;
    assert t == q * limit + t % limit;
    assert q >= 1 ==> (q - 1) * limit == q * limit - limit;
  }

  /**
   * Whatever a list said before, both handlers leave it with as many pages as its total needs, even if that is zero;
   * an answer counts nothing by itself, and changes nothing if its row is already there.
   */
  lemma HandlersCountPages(c: Cached, temp: Product, product: Product)
    requires c.Listed?
    ensures PagesFit(Mutated(c, temp))
    ensures var known, after := exists i :: 0 <= i < |c.items| && c.items[i].id == product.id, Succeeded(c, product);
            if known then after == c
            else
              && PagesFit(after) && after.items != [] && after.items[0] == product && after.data == after.items
              && after.meta.value.total == (if c.meta.Some? then c.meta.value.total else |c.items|)
              && after.meta.value.limit == (if c.meta.Some? then c.meta.value.limit else 10)
  {
    FewestPages(TotalOf(c) + 1, LimitOf(c));
    FewestPages(TotalOf(c), LimitOf(c));
  }

  // ----- reading the whole catalogue

  const API_MAXIMUM: nat := 500

  /** The server's page `n`, counted from 1. */
  function ServerPage(catalogue: seq<Product>, page: nat): (r: seq<Product>)
    requires page >= 1
  {
    var from := (page - 1) * API_MAXIMUM;
    if from >= |catalogue| then [] else Cut(catalogue[from..], API_MAXIMUM)
  }

  /** Every product comes once and in order, up to the page limit. */
  method FetchAllProducts(catalogue: seq<Product>, maxPages: nat) returns (all: seq<Product>)
    ensures all == if maxPages * 500 < |catalogue| then catalogue[..maxPages * 500] else catalogue
  {
    all := [];
    var page := 1;
    while page <= maxPages
      invariant 1 <= page <= maxPages + 1
      invariant (page - 1) * API_MAXIMUM <= |catalogue|
      invariant all == catalogue[..(page - 1) * API_MAXIMUM]
      decreases maxPages + 1 - page
    {
      var items := ServerPage(catalogue, page);
      all := all + items;
      if |items| < API_MAXIMUM { return; }
      page := page + 1;
    }
  }
}
