/** apps/web/src/lib/fetch-cursor-pages.ts, and the page slicing of apps/web/src/hooks/use-goods-receipts.ts. */
module CursorPaging {
  import opened Options

  /** What an endpoint may answer: a bare array with its meta beside it, or an object holding both. */
  datatype Response<T> =
    | Bare(rows: seq<T>, meta: Option<Meta>)
    | Wrapped(data: Option<seq<T>>, inner: Option<Meta>)

  /** `nextCursor` is a string when there is one; an empty string counts as none. */
  datatype Meta = Meta(nextCursor: Option<string>)

  function Rows<T>(r: Response<T>): seq<T> {
    match r
    case Bare(rows, _) => rows
    case Wrapped(data, _) => data.GetOr([])
  }

  function Next<T>(r: Response<T>): Option<string> {
    var meta := match r case Bare(_, m) => m case Wrapped(_, m) => m;
    if meta.Some? && meta.value.nextCursor.Some? && meta.value.nextCursor.value != ""
    then meta.value.nextCursor else None
  }

  /** An endpoint answers a cursor, or no cursor at all, on the `n`-th call. */
  type Endpoint<!T> = (nat, Option<string>) -> Response<T>

  /** The cursor sent with call `n`, if the calls before it all named a next one. */
  function CursorOf<T>(get: Endpoint<T>, n: nat): Option<string> {
    if n == 0 then None else Next(Page(get, n - 1))
  }

  function Page<T>(get: Endpoint<T>, n: nat): Response<T>
    decreases n
  {
    get(n, if n == 0 then None else Next(Page(get, n - 1)))
  }

  function Concat<T>(get: Endpoint<T>, n: nat): seq<T> {
    if n == 0 then [] else Concat(get, n - 1) + Rows(Page(get, n - 1))
  }

  /** Every page before `n` named a next one. */
  ghost predicate Continues<T>(get: Endpoint<T>, n: nat) {
    forall k :: 0 <= k < n ==> Next(Page(get, k)).Some?
  }

  /**
   * The rows of the first `calls` pages in order, where `calls` is where the pages end or the limit,
   * whichever comes first: so the loop ends even if the cursors go round in a circle.
   */
  method FetchAllCursorPages<T>(get: Endpoint<T>, maxPages: nat := 20) returns (items: seq<T>, calls: nat)
    ensures calls <= maxPages && items == Concat(get, calls)
    ensures Continues(get, if calls == 0 then 0 else calls - 1)
    ensures calls < maxPages ==> calls > 0 && Next(Page(get, calls - 1)).None?
  {
    items := [];
    var cursor: Option<string> := None;
    var page := 0;
    calls := 0;
    while page < maxPages
      invariant page == calls <= maxPages
      invariant items == Concat(get, page)
      invariant Continues(get, page)
      invariant cursor == CursorOf(get, page)
    {
      var res := get(page, cursor);
      calls := calls + 1;
      assert res == Page(get, page);
      items := items + Rows(res);
      var next := Next(res);
      if next.None? { break; }
      cursor := next;
      page := page + 1;
    }
  }

  // ----- reading a whole list

  type Positive = n: nat | n >= 1 witness 1

  /** JavaScript's `slice` for bounds that are not negative. */
  function Slice<T>(s: seq<T>, from: nat, to: nat): seq<T> {
    var hi := if to < |s| then to else |s|;
    if from < hi then s[from..hi] else []
  }

  /** Page `k` of a list. */
  function PageOf<T>(list: seq<T>, size: Positive, k: nat): seq<T> {
    Slice(list, k * size, (k + 1) * size)
  }

  /** The response holds these rows, in one shape or the other. */
  ghost predicate Holds<T>(r: Response<T>, rows: seq<T>, meta: Option<Meta>) {
    r == Bare(rows, meta) || r == Wrapped(Some(rows), meta) || (rows == [] && r == Wrapped(None, meta))
  }

  /** The meta names this cursor, or none: it is absent, or names nothing, or names the empty text. */
  ghost predicate NamesNext(meta: Option<Meta>, next: Option<string>) {
    if next.Some? then meta == Some(Meta(next))
    else meta == None || meta == Some(Meta(None)) || meta == Some(Meta(Some("")))
  }

  /** The endpoint hands out a list in pages: asked with the name of page `k` it answers that page, and names the next one if there is more. */
  ghost predicate Serves<T(!new)>(get: Endpoint<T>, list: seq<T>, size: Positive, name: nat -> string) {
    && (forall k :: name(k) != "")
    && (forall n: nat, k: nat :: PageServed(get, list, size, name, n, k))
  }

  ghost predicate Answers<T(!new)>(r: Response<T>, rows: seq<T>, next: Option<string>) {
    exists meta :: Holds(r, rows, meta) && NamesNext(meta, next)
  }

  ghost predicate PageServed<T(!new)>(get: Endpoint<T>, list: seq<T>, size: Positive, name: nat -> string, n: nat, k: nat) {
    Answers(get(n, if k == 0 then None else Some(name(k))), PageOf(list, size, k),
            if (k + 1) * size < |list| then Some(name(k + 1)) else None)
  }

  lemma ServedPage<T(!new)>(get: Endpoint<T>, list: seq<T>, size: Positive, name: nat -> string, n: nat, k: nat)
    requires Serves(get, list, size, name)
    ensures var r := get(n, if k == 0 then None else Some(name(k)));
            Rows(r) == PageOf(list, size, k) && Next(r) == if (k + 1) * size < |list| then Some(name(k + 1)) else None
  {
    assert PageServed(get, list, size, name, n, k);
  }

  /** As long as pages name a next one, call `n` gets page `n`. */
  lemma {:induction false} CallGetsPage<T(!new)>(get: Endpoint<T>, list: seq<T>, size: Positive, name: nat -> string, n: nat)
    requires Serves(get, list, size, name) && (n > 0 ==> n * size < |list|)
    ensures Rows(Page(get, n)) == PageOf(list, size, n)
    ensures Next(Page(get, n)) == if (n + 1) * size < |list| then Some(name(n + 1)) else None
  {
    ServedPage(get, list, size, name, n, n);
    if n > 0 {
      assert (n - 1 + 1) * size == n * size;
      FewerPages(n - 1, n, size);
      CallGetsPage(get, list, size, name, n - 1);
    }
  }

  lemma FewerPages(m: nat, n: nat, size: Positive)
    requires m <= n
    ensures m * size <= n * size
  {
  }

  lemma {:induction false} PagesMakeFront<T(!new)>(get: Endpoint<T>, list: seq<T>, size: Positive, name: nat -> string, n: nat)
    requires Serves(get, list, size, name) && (n > 1 ==> (n - 1) * size < |list|)
    ensures Concat(get, n) == Slice(list, 0, n * size)
  {
    if n > 0 {
      if n > 1 {
        FewerPages(n - 2, n - 1, size);
      }
      PagesMakeFront(get, list, size, name, n - 1);
      CallGetsPage(get, list, size, name, n - 1);
      assert n * size == (n - 1) * size + size;
    }
  }

  /**
   * From an endpoint that hands out a list in pages, in either shape, the loop reads the list from its start, whole unless
   * the limit cuts it after that many pages, and never asks for a page that is not there.
   */
  lemma {:induction false} CallsReadList<T(!new)>(get: Endpoint<T>, list: seq<T>, size: Positive, name: nat -> string, maxPages: nat, calls: nat)
    requires Serves(get, list, size, name)
    requires calls <= maxPages && Continues(get, if calls == 0 then 0 else calls - 1)
    requires calls < maxPages ==> calls > 0 && Next(Page(get, calls - 1)).None?
    ensures Concat(get, calls) == if maxPages * size < |list| then list[..maxPages * size] else list
    ensures calls > 1 ==> (calls - 1) * size < |list|
  {
    CallsAreNeeded(get, list, size, name, calls);
    PagesMakeFront(get, list, size, name, calls);
    FewerPages(calls, maxPages, size);
    if calls > 0 && calls < maxPages {
      CallGetsPage(get, list, size, name, calls - 1);
    }
  }

  lemma {:induction false} CallsAreNeeded<T(!new)>(get: Endpoint<T>, list: seq<T>, size: Positive, name: nat -> string, calls: nat)
    requires Serves(get, list, size, name) && Continues(get, if calls == 0 then 0 else calls - 1)
    ensures calls > 1 ==> (calls - 1) * size < |list|
  {
    if calls > 1 {
      CallsAreNeeded(get, list, size, name, calls - 1);
      CallGetsPage(get, list, size, name, calls - 2);
      assert Next(Page(get, calls - 2)).Some?;
      assert (calls - 2 + 1) * size == (calls - 1) * size;
    }
  }

  // ----- paging in the client

  function TotalPages(total: nat, limit: Positive): nat {
    var pages := (total + limit - 1) / limit;
    if pages < 1 then 1 else pages
  }

  /** `Math.min(Math.max(page, 1), totalPages)`. */
  function ClampPage(page: int, totalPages: nat): int {
    var p := if page < 1 then 1 else page;
    if p > totalPages then totalPages else p
  }

  function Shown<T>(matched: seq<T>, page: int, limit: Positive): seq<T>
  {
    var p := ClampPage(page, TotalPages(|matched|, limit));
    Slice(matched, (p - 1) * limit, p * limit)
  }

  lemma PageBounds(total: nat, limit: Positive)
    ensures TotalPages(total, limit) >= 1
    ensures total <= TotalPages(total, limit) * limit
    ensures total > 0 ==> (TotalPages(total, limit) - 1) * limit < total
    ensures total == 0 ==> TotalPages(total, limit) == 1
  {
    var t := total + limit - 1;
    var q := t / limit;
    assert t == q * limit + t % limit;
    if total > 0 {
      assert q * limit > t - limit;
    }
  }

  lemma TimesMonotone(x: nat, y: nat, d: nat)
    requires x <= y
    ensures x * d <= y * d
  {
  }

  lemma PageStarts(total: nat, limit: Positive, p: nat)
    requires 1 <= p <= TotalPages(total, limit)
    ensures total > 0 ==> (p - 1) * limit < total
    ensures p * limit == (p - 1) * limit + limit
  {
    PageBounds(total, limit);
    TimesMonotone(p - 1, TotalPages(total, limit) - 1, limit);
  }

  lemma SliceLength<T>(s: seq<T>, from: nat, to: nat)
    ensures |Slice(s, from, to)| == if from < to && from < |s| then (if to < |s| then to else |s|) - from else 0
  {
  }

  /** Whatever page is asked for, the one shown exists, and it is empty only if nothing matched. */
  lemma AnyPageIsClamped<T>(matched: seq<T>, page: int, limit: Positive)
    ensures var p := ClampPage(page, TotalPages(|matched|, limit));
            && 1 <= p <= TotalPages(|matched|, limit) && (1 <= page <= TotalPages(|matched|, limit) ==> p == page)
            && (page < 1 ==> p == 1) && (page > TotalPages(|matched|, limit) ==> p == TotalPages(|matched|, limit))
    ensures matched != [] ==> 1 <= |Shown(matched, page, limit)| <= limit
    ensures matched == [] ==> Shown(matched, page, limit) == [] && ClampPage(page, TotalPages(|matched|, limit)) == 1
  {
    PageBounds(|matched|, limit);
    PageIsShown(matched, ClampPage(page, TotalPages(|matched|, limit)), limit);
  }

  lemma PageIsShown<T>(matched: seq<T>, p: nat, limit: Positive)
    requires 1 <= p <= TotalPages(|matched|, limit)
    ensures var rows := |Slice(matched, (p - 1) * limit, p * limit)|;
            if matched == [] then rows == 0 else 1 <= rows <= limit
  {
    PageStarts(|matched|, limit, p);
    SliceLength(matched, (p - 1) * limit, p * limit);
  }

  function PagesUpTo<T>(matched: seq<T>, limit: Positive, n: nat): seq<T> {
    if n == 0 then [] else PagesUpTo(matched, limit, n - 1) + Shown(matched, n, limit)
  }

  lemma {:induction false} PagesArePrefix<T>(matched: seq<T>, limit: Positive, n: nat)
    requires n <= TotalPages(|matched|, limit)
    ensures PagesUpTo(matched, limit, n) == Slice(matched, 0, n * limit)
  {
    if n > 0 {
      PagesArePrefix(matched, limit, n - 1);
      assert n * limit == (n - 1) * limit + limit;
      assert ClampPage(n, TotalPages(|matched|, limit)) == n;
    }
  }

  /** Pages 1 to the last, one after the other, are exactly the matched rows. */
  lemma {:induction false} PagesConcatenate<T>(matched: seq<T>, limit: Positive)
    ensures PagesUpTo(matched, limit, TotalPages(|matched|, limit)) == matched
  {
    PageBounds(|matched|, limit);
    PagesArePrefix(matched, limit, TotalPages(|matched|, limit));
  }
}
