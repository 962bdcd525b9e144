/** Cursor paging over the request log (`requests_http_response` and the admin page in
    `backend/src/server/http_dispatch.cpp`, `RequestStore::query` in `backend/src/request/request.cpp`). */
module EventPaging {
  import opened Text
  import opened Database

  /** `RequestListFilter`: `matches` stands for every condition that is not about the cursor. */
  datatype Query = Query(
    matches: Request -> bool,
    beforeId: Option<int>,
    afterId: Option<int>,
    limit: nat, // 0 = no LIMIT
    orderAsc: bool)

  predicate Hit(q: Query, r: Request) {
    && q.matches(r)
    && (q.beforeId.Some? ==> r.id < q.beforeId.value)
    && (q.afterId.Some? ==> r.id > q.afterId.value)
  }

  /** The table in primary-key order. */
  ghost predicate Ascending(rows: seq<Request>) {
    forall i, j | 0 <= i < j < |rows| :: rows[i].id < rows[j].id
  }

  function Hits(q: Query, rows: seq<Request>): seq<Request> {
    if rows == [] then []
    else Hits(q, rows[..|rows| - 1]) + (if Hit(q, rows[|rows| - 1]) then [rows[|rows| - 1]] else [])
  }

  function Reverse<T>(s: seq<T>): (r: seq<T>)
    ensures |r| == |s|
    ensures forall i | 0 <= i < |s| :: r[i] == s[|s| - 1 - i]
  {
    if s == [] then [] else [s[|s| - 1]] + Reverse(s[..|s| - 1])
  }

  function Take<T>(s: seq<T>, limit: nat): seq<T> {
    if 0 < limit < |s| then s[..limit] else s
  }

  /** The hits in the requested order, cut at the limit. */
  function Select(q: Query, rows: seq<Request>): seq<Request> {
    Take(if q.orderAsc then Hits(q, rows) else Reverse(Hits(q, rows)), q.limit)
  }

  lemma HitsSnoc(q: Query, rows: seq<Request>, i: nat)
    requires i < |rows|
    ensures Hits(q, rows[..i + 1]) == Hits(q, rows[..i]) + (if Hit(q, rows[i]) then [rows[i]] else [])
  {
    assert rows[..i + 1][..i] == rows[..i];
  }

  lemma {:induction false} HitsAppend(q: Query, a: seq<Request>, b: seq<Request>)
    ensures Hits(q, a + b) == Hits(q, a) + Hits(q, b)
  {
    if b == [] {
      assert a + b == a;
    } else {
      var init := b[..|b| - 1];
      assert (a + b)[..|a + b| - 1] == a + init;
      HitsAppend(q, a, init);
    }
  }

  lemma {:induction false} ReverseAppend<T>(a: seq<T>, b: seq<T>)
    ensures Reverse(a + b) == Reverse(b) + Reverse(a)
  {
  }

  /** `RequestStore::query`: an index scan in the requested direction that stops at the limit. */
  method RunQuery(q: Query, rows: seq<Request>) returns (out: seq<Request>)
    ensures out == Select(q, rows)
  {
    if q.orderAsc {
      out := ScanUp(q, rows);
    } else {
      out := ScanDown(q, rows);
    }
  }

  method ScanUp(q: Query, rows: seq<Request>) returns (out: seq<Request>)
    ensures out == Take(Hits(q, rows), q.limit)
  {
    hide Hit;
    out := [];
    for i := 0 to |rows|
      invariant out == Hits(q, rows[..i])
      invariant q.limit > 0 ==> |out| < q.limit
    {
      HitsSnoc(q, rows, i);
      if Hit(q, rows[i]) {
        out := out + [rows[i]];
        if |out| == q.limit {
          assert rows == rows[..i + 1] + rows[i + 1..];
          HitsAppend(q, rows[..i + 1], rows[i + 1..]);
          assert (out + Hits(q, rows[i + 1..]))[..q.limit] == out;
          return;
        }
      }
    }
    assert rows[..|rows|] == rows;
  }

  method ScanDown(q: Query, rows: seq<Request>) returns (out: seq<Request>)
    ensures out == Take(Reverse(Hits(q, rows)), q.limit)
  {
    hide Hit, Hits, Reverse;
    out := [];
    NoHits(q);
    assert rows[|rows|..] == [];
    for i := |rows| downto 0
      invariant out == Reverse(Hits(q, rows[i..]))
      invariant q.limit > 0 ==> |out| < q.limit
    {
      assert rows[i..] == [rows[i]] + rows[i + 1..];
      OneMoreBelow(q, rows[i], rows[i + 1..]);
      if Hit(q, rows[i]) {
        out := out + [rows[i]];
        if |out| == q.limit {
          assert rows == rows[..i] + rows[i..];
          HitsAppend(q, rows[..i], rows[i..]);
          ReverseAppend(Hits(q, rows[..i]), Hits(q, rows[i..]));
          assert (out + Reverse(Hits(q, rows[..i])))[..q.limit] == out;
          return;
        }
      }
    }
    assert rows[0..] == rows;
  }

  lemma NoHits(q: Query)
    ensures Reverse(Hits(q, [])) == []
  {
  }

  lemma OneMoreBelow(q: Query, r: Request, above: seq<Request>)
    ensures Reverse(Hits(q, [r] + above)) == Reverse(Hits(q, above)) + (if Hit(q, r) then [r] else [])
  {
    OneHit(q, r);
    hide Hits, Hit, Reverse;
    HitsAppend(q, [r], above);
    ReverseAppend(Hits(q, [r]), Hits(q, above));
  }

  lemma OneHit(q: Query, r: Request)
    ensures Hits(q, [r]) == (if Hit(q, r) then [r] else [])
    ensures Reverse(Hits(q, [r])) == (if Hit(q, r) then [r] else [])
  {
    hide Hit;
    assert [r][..0] == [];
    var none: seq<Request> := [];
    assert Hits(q, none) == none && none + none == none && none + [r] == [r];
    assert Reverse([r]) == [r] + Reverse(none);
  }

  // ---------------------------------------------------------------------------------
  // The user's event list
  // ---------------------------------------------------------------------------------

  datatype Page = Page(events: seq<Request>, nextBeforeId: Option<int>)

  function Before(matches: Request -> bool, cursor: Option<int>): Query {
    Query(matches, cursor, None, 0, false)
  }

  /** All events a cursor still has to deliver, newest first. */
  function Remaining(matches: Request -> bool, cursor: Option<int>, rows: seq<Request>): seq<Request> {
    Reverse(Hits(Before(matches, cursor), rows))
  }

  function PageOf(matches: Request -> bool, cursor: Option<int>, limit: nat, rows: seq<Request>): Page {
    var all := Remaining(matches, cursor, rows);
    if |all| > limit > 0 then Page(all[..limit], Some(all[limit - 1].id)) else Page(all, None)
  }

  lemma {:induction false} LimitIrrelevant(q: Query, q': Query, rows: seq<Request>)
    requires q == q'.(limit := q.limit, orderAsc := q.orderAsc)
    ensures Hits(q, rows) == Hits(q', rows)
  {
    if rows != [] {
      LimitIrrelevant(q, q', rows[..|rows| - 1]);
    }
  }

  /** `requests_http_response`: one row more than shown decides whether there is a next page. */
  method EventsPage(matches: Request -> bool, beforeId: Option<int>, limit: nat, rows: seq<Request>) returns (page: Page)
    requires 0 < limit <= 100
    ensures page == PageOf(matches, beforeId, limit, rows)
  {
    var q := Query(matches, beforeId, None, limit + 1, false);
    LimitIrrelevant(q, Before(matches, beforeId), rows);
    var loaded := RunQuery(q, rows);
    var hasExtra := |loaded| > limit;
    if hasExtra {
      loaded := loaded[..limit];
    }
    var next := None;
    if hasExtra && loaded != [] {
      next := Some(loaded[|loaded| - 1].id);
    }
    return Page(loaded, next);
  }

  /** A cursor taken from the hits cuts them exactly there. */
  lemma {:induction false} CutAt(matches: Request -> bool, cursor: Option<int>, rows: seq<Request>, j: nat)
    requires Ascending(rows) && j < |Hits(Before(matches, cursor), rows)|
    ensures var g := Hits(Before(matches, cursor), rows);
            Hits(Before(matches, Some(g[j].id)), rows) == g[..j]
  {
    var q := Before(matches, cursor);
    var init, last := rows[..|rows| - 1], rows[|rows| - 1];
    var g, h := Hits(q, rows), Hits(q, init);
    if j < |h| {
      CutAt(matches, cursor, init, j);
      HitsBounded(q, init, last.id - 1);
      assert h[j] == g[j] && g[..j] == h[..j];
    } else {
      assert g == h + [last] && g[..j] == h;
      CutAbove(matches, cursor, init, last.id);
    }
  }

  lemma {:induction false} HitsBounded(q: Query, rows: seq<Request>, top: int)
    requires forall i | 0 <= i < |rows| :: rows[i].id <= top
    ensures forall i | 0 <= i < |Hits(q, rows)| :: Hits(q, rows)[i].id <= top && Hit(q, Hits(q, rows)[i])
  {
    if rows != [] {
      HitsBounded(q, rows[..|rows| - 1], top);
    }
  }

  lemma {:induction false} HitsAscend(q: Query, rows: seq<Request>)
    requires Ascending(rows)
    ensures Ascending(Hits(q, rows))
  {
    if rows != [] {
      HitsAscend(q, rows[..|rows| - 1]);
      HitsBounded(q, rows[..|rows| - 1], rows[|rows| - 1].id - 1);
    }
  }

  /** A cursor above every row, and not above the current cursor, changes nothing. */
  lemma {:induction false} CutAbove(matches: Request -> bool, cursor: Option<int>, rows: seq<Request>, c: int)
    requires forall i | 0 <= i < |rows| :: rows[i].id < c
    requires cursor.Some? ==> c <= cursor.value
    ensures Hits(Before(matches, Some(c)), rows) == Hits(Before(matches, cursor), rows)
  {
    if rows != [] {
      CutAbove(matches, cursor, rows[..|rows| - 1], c);
    }
  }

  /** What follows a page is what the page left out. */
  lemma NextPage(matches: Request -> bool, cursor: Option<int>, limit: nat, rows: seq<Request>)
    requires Ascending(rows) && limit > 0 && PageOf(matches, cursor, limit, rows).nextBeforeId.Some?
    ensures var page := PageOf(matches, cursor, limit, rows);
            && Remaining(matches, cursor, rows) == page.events + Remaining(matches, page.nextBeforeId, rows)
            && |page.events| == limit
  {
    var g := Hits(Before(matches, cursor), rows);
    CutAt(matches, cursor, rows, |g| - limit);
    assert g == g[..|g| - limit] + g[|g| - limit..];
    ReverseAppend(g[..|g| - limit], g[|g| - limit..]);
  }

  /** Between two pages rows may be added, all with ids above the present ones. */
  ghost predicate GrewTo(rows: seq<Request>, rows': seq<Request>) {
    && rows <= rows' && Ascending(rows')
    && (forall i, j | 0 <= i < |rows| <= j < |rows'| :: rows[i].id < rows'[j].id)
  }

  lemma {:induction false} NoneBelow(q: Query, rows: seq<Request>, c: int)
    requires q.beforeId == Some(c) && forall i | 0 <= i < |rows| :: rows[i].id >= c
    ensures Hits(q, rows) == []
  {
    if rows != [] {
      NoneBelow(q, rows[..|rows| - 1], c);
    }
  }

  lemma GrowthInvisible(matches: Request -> bool, c: int, rows: seq<Request>, rows': seq<Request>)
    requires GrewTo(rows, rows')
    requires exists i :: 0 <= i < |rows| && c <= rows[i].id
    ensures Remaining(matches, Some(c), rows') == Remaining(matches, Some(c), rows)
  {
    var q := Before(matches, Some(c));
    var more := rows'[|rows|..];
    assert rows' == rows + more;
    HitsAppend(q, rows, more);
    NoneBelow(q, more, c);
    assert Hits(q, rows) + [] == Hits(q, rows);
  }

  /** The table as it is when each page is asked for. */
  ghost predicate Growing(tables: nat -> seq<Request>) {
    Ascending(tables(0)) && forall k: nat :: GrewTo(tables(k), tables(k + 1))
  }

  /** The client that follows `next_before_id` until there is none, at most `pages` times. */
  function Walk(matches: Request -> bool, cursor: Option<int>, limit: nat, tables: nat -> seq<Request>,
                k: nat, pages: nat): seq<Request>
    decreases pages
  {
    if pages == 0 then []
    else
      var page := PageOf(matches, cursor, limit, tables(k));
      if page.nextBeforeId.None? then page.events
      else page.events + Walk(matches, page.nextBeforeId, limit, tables, k + 1, pages - 1)
  }

  /** The walk is a partition: whatever is added meanwhile, it delivers exactly the events that
      matched when it started, each once, newest first, within one page per event plus one. */
  lemma WalkIsPartition(matches: Request -> bool, limit: nat, tables: nat -> seq<Request>, pages: nat)
    requires limit > 0 && Growing(tables)
    requires pages > |Remaining(matches, None, tables(0))|
    ensures var walked := Walk(matches, None, limit, tables, 0, pages);
            && walked == Remaining(matches, None, tables(0))
            && (forall i, j | 0 <= i < j < |walked| :: walked[i].id > walked[j].id)
            && (forall i | 0 <= i < |walked| :: matches(walked[i]))
  {
    WalkFrom(matches, None, limit, tables, 0, pages);
    HitsAscend(Before(matches, None), tables(0));
    if tables(0) != [] {
      HitsBounded(Before(matches, None), tables(0), tables(0)[|tables(0)| - 1].id);
    }
  }

  lemma {:induction false} WalkFrom(matches: Request -> bool, cursor: Option<int>, limit: nat,
                                    tables: nat -> seq<Request>, k: nat, pages: nat)
    requires limit > 0 && Growing(tables) && Ascending(tables(k))
    requires pages > |Remaining(matches, cursor, tables(k))|
    ensures Walk(matches, cursor, limit, tables, k, pages) == Remaining(matches, cursor, tables(k))
    decreases pages
  {
    hide Hits, Ascending, Remaining;
    var rows := tables(k);
    var page := PageOf(matches, cursor, limit, rows);
    if page.nextBeforeId.Some? {
      NextPage(matches, cursor, limit, rows);
      assert GrewTo(tables(k), tables(k + 1));
      CursorIsRow(matches, cursor, limit, rows);
      GrowthInvisible(matches, page.nextBeforeId.value, rows, tables(k + 1));
      WalkFrom(matches, page.nextBeforeId, limit, tables, k + 1, pages - 1);
    }
  }

  lemma CursorIsRow(matches: Request -> bool, cursor: Option<int>, limit: nat, rows: seq<Request>)
    requires limit > 0 && Ascending(rows) && PageOf(matches, cursor, limit, rows).nextBeforeId.Some?
    ensures exists i :: 0 <= i < |rows| && PageOf(matches, cursor, limit, rows).nextBeforeId.value <= rows[i].id
  {
    if rows != [] {
      HitsBounded(Before(matches, cursor), rows, rows[|rows| - 1].id);
    }
  }

  // ---------------------------------------------------------------------------------
  // The walk while rows come in anywhere
  // ---------------------------------------------------------------------------------

  ghost predicate Descending(rows: seq<Request>) {
    forall i, j | 0 <= i < j < |rows| :: rows[i].id > rows[j].id
  }

  /** Ids are given when a request arrives and rows are written when it is done, so a row may come
      in below others; the rows of the first table stay. */
  ghost predicate Kept(tables: nat -> seq<Request>) {
    forall k: nat ::
      && Ascending(tables(k))
      && (forall i | 0 <= i < |tables(k)| :: tables(k)[i].id > 0)
      && (forall i | 0 <= i < |tables(0)| :: tables(0)[i] in tables(k))
  }

  ghost predicate Below(cursor: Option<int>, r: Request) {
    cursor.Some? ==> r.id < cursor.value
  }

  /** A page: its events, all that is left or the part down to the next cursor. */
  lemma PageFacts(matches: Request -> bool, cursor: Option<int>, limit: nat, rows: seq<Request>)
    requires limit > 0 && Ascending(rows)
    ensures
      var page := PageOf(matches, cursor, limit, rows);
      && Descending(page.events)
      && (forall r :: r in page.events <==>
            r in rows && matches(r) && Below(cursor, r) && !(page.nextBeforeId.Some? && r.id < page.nextBeforeId.value))
      && (page.nextBeforeId.Some? ==>
            page.events != [] && page.nextBeforeId.value == page.events[|page.events| - 1].id)
  {
    hide Hits, Reverse;
    var all := Remaining(matches, cursor, rows);
    RemainingFacts(matches, cursor, rows);
    if |all| > limit {
      CutFacts(all, limit);
    }
  }

  lemma CutFacts(all: seq<Request>, limit: nat)
    requires 0 < limit < |all| && Descending(all)
    ensures Descending(all[..limit])
    ensures forall r :: r in all[..limit] <==> r in all && r.id >= all[limit - 1].id
  {
    forall r | r in all && r.id >= all[limit - 1].id ensures r in all[..limit] {
      var i :| 0 <= i < |all| && all[i] == r;
      assert r == all[..limit][i];
    }
    forall r | r in all[..limit] ensures r in all && r.id >= all[limit - 1].id {
      var i :| 0 <= i < limit && all[i] == r;
    }
  }

  lemma RemainingFacts(matches: Request -> bool, cursor: Option<int>, rows: seq<Request>)
    requires Ascending(rows)
    ensures var all := Remaining(matches, cursor, rows);
            Descending(all) && forall r :: r in all <==> r in rows && matches(r) && Below(cursor, r)
  {
    var q := Before(matches, cursor);
    HitsAscend(q, rows);
    HitsMembers(q, rows);
    hide Hits;
    ReverseMembers(Hits(q, rows));
  }

  lemma {:induction false} HitsMembers(q: Query, rows: seq<Request>)
    ensures forall r :: r in Hits(q, rows) <==> r in rows && Hit(q, r)
  {
    hide Hit;
    if rows != [] {
      var init, last := rows[..|rows| - 1], rows[|rows| - 1];
      HitsMembers(q, init);
      assert rows == init + [last];
      assert Hits(q, rows) == Hits(q, init) + (if Hit(q, last) then [last] else []);
    }
  }

  lemma ReverseMembers(s: seq<Request>)
    ensures forall r :: r in Reverse(s) <==> r in s
  {
    hide Reverse;
    var t := Reverse(s);
    forall r | r in s ensures r in t {
      var i :| 0 <= i < |s| && s[i] == r;
      assert t[|s| - 1 - i] == r;
    }
    forall r | r in t ensures r in s {
      var i :| 0 <= i < |t| && t[i] == r;
      assert s[|s| - 1 - i] == r;
    }
  }

  /** However rows come in, a walk delivers no event twice, misses none that was there when it
      started, and ends: following cursors further than the first ids reach adds nothing. */
  lemma WalkUnderAnyGrowth(matches: Request -> bool, limit: nat, tables: nat -> seq<Request>, top: nat, pages: nat)
    requires limit > 0 && Kept(tables)
    requires (forall i | 0 <= i < |tables(0)| :: tables(0)[i].id <= top) && pages > top
    ensures var walked := Walk(matches, None, limit, tables, 0, pages);
            && Descending(walked)
            && (forall r | r in tables(0) && matches(r) :: r in walked)
            && (forall r | r in walked :: matches(r) && exists k: nat :: r in tables(k))
            && (forall more | more >= pages :: Walk(matches, None, limit, tables, 0, more) == walked)
  {
    hide Walk, PageOf;
    WalkBelow(matches, None, limit, tables, 0, top, pages);
    forall more | more >= pages ensures Walk(matches, None, limit, tables, 0, more) == Walk(matches, None, limit, tables, 0, pages) {
      WalkEnds(matches, None, limit, tables, 0, top, pages, more);
    }
  }

  /** Enough pages: one for every id below the cursor. */
  ghost predicate Enough(cursor: Option<int>, rows: seq<Request>, top: nat, pages: nat) {
    if cursor.Some? then cursor.value > 0 && pages >= cursor.value
    else pages > top && forall i | 0 <= i < |rows| :: rows[i].id <= top
  }

  lemma NextEnough(matches: Request -> bool, cursor: Option<int>, limit: nat, tables: nat -> seq<Request>, k: nat,
                   top: nat, pages: nat)
    requires limit > 0 && Kept(tables) && Enough(cursor, tables(k), top, pages)
    ensures pages > 0
    ensures var next := PageOf(matches, cursor, limit, tables(k)).nextBeforeId;
            next.Some? ==> Enough(next, tables(k + 1), top, pages - 1) && (cursor.Some? ==> next.value < cursor.value)
  {
    hide PageOf;
    PageFacts(matches, cursor, limit, tables(k));
    var page := PageOf(matches, cursor, limit, tables(k));
    if page.nextBeforeId.Some? {
      var last := page.events[|page.events| - 1];
      assert last in page.events;
      assert last in tables(k) && Below(cursor, last);
    }
  }

  lemma {:induction false} WalkBelow(matches: Request -> bool, cursor: Option<int>, limit: nat, tables: nat -> seq<Request>,
                                     k: nat, top: nat, pages: nat)
    requires limit > 0 && Kept(tables) && Enough(cursor, tables(k), top, pages)
    ensures var walked := Walk(matches, cursor, limit, tables, k, pages);
            && Descending(walked)
            && (forall r | r in tables(0) && matches(r) && Below(cursor, r) :: r in walked)
            && (forall r | r in walked :: matches(r) && Below(cursor, r) && exists j: nat :: r in tables(j))
    decreases pages
  {
    hide PageOf, Enough;
    NextEnough(matches, cursor, limit, tables, k, top, pages);
    PageFacts(matches, cursor, limit, tables(k));
    var page := PageOf(matches, cursor, limit, tables(k));
    if page.nextBeforeId.Some? {
      WalkBelow(matches, page.nextBeforeId, limit, tables, k + 1, top, pages - 1);
      var later := Walk(matches, page.nextBeforeId, limit, tables, k + 1, pages - 1);
      DescendingJoin(page.events, later, page.nextBeforeId.value);
    }
  }

  lemma DescendingJoin(a: seq<Request>, b: seq<Request>, c: int)
    requires Descending(a) && Descending(b)
    requires (forall r | r in a :: r.id >= c) && (forall r | r in b :: r.id < c)
    ensures Descending(a + b)
  {
    assert forall i | 0 <= i < |a| :: (a + b)[i] == a[i] && a[i] in a;
    assert forall i | |a| <= i < |a + b| :: (a + b)[i] == b[i - |a|] && b[i - |a|] in b;
  }

  lemma {:induction false} WalkEnds(matches: Request -> bool, cursor: Option<int>, limit: nat, tables: nat -> seq<Request>,
                                    k: nat, top: nat, pages: nat, more: nat)
    requires limit > 0 && Kept(tables) && Enough(cursor, tables(k), top, pages) && more >= pages
    ensures Walk(matches, cursor, limit, tables, k, more) == Walk(matches, cursor, limit, tables, k, pages)
    decreases pages
  {
    hide PageOf, Enough, Kept;
    NextEnough(matches, cursor, limit, tables, k, top, pages);
    var page := PageOf(matches, cursor, limit, tables(k));
    if page.nextBeforeId.Some? {
      WalkEnds(matches, page.nextBeforeId, limit, tables, k + 1, top, pages - 1, more - 1);
    }
  }

  // ---------------------------------------------------------------------------------
  // What a query is
  // ---------------------------------------------------------------------------------

  ghost predicate Sorted(up: bool, s: seq<Request>) {
    forall i, j | 0 <= i < j < |s| :: if up then s[i].id < s[j].id else s[i].id > s[j].id
  }

  /** The answer to a query on the table: rows that meet every condition, in the order asked for, no
      more than the limit; a row that meets them is missing only behind a full answer. */
  lemma SelectExactly(q: Query, rows: seq<Request>)
    requires Ascending(rows)
    ensures
      var out := Select(q, rows);
      && Sorted(q.orderAsc, out) && (q.limit > 0 ==> |out| <= q.limit)
      && (forall r | r in out ::
            && r in rows && q.matches(r)
            && (q.beforeId.Some? ==> r.id < q.beforeId.value) && (q.afterId.Some? ==> r.id > q.afterId.value))
      && (forall r | r in rows && r !in out && q.matches(r) &&
                     (q.beforeId.Some? ==> r.id < q.beforeId.value) && (q.afterId.Some? ==> r.id > q.afterId.value) ::
            q.limit == |out| > 0 && forall x | x in out :: if q.orderAsc then x.id < r.id else x.id > r.id)
  {
    HitsAscend(q, rows);
    HitsMembers(q, rows);
    hide Hits;
    ReverseMembers(Hits(q, rows));
    hide Reverse;
    TakeFacts(if q.orderAsc then Hits(q, rows) else Reverse(Hits(q, rows)), q.limit, q.orderAsc);
  }

  lemma TakeFacts(s: seq<Request>, limit: nat, up: bool)
    requires Sorted(up, s)
    ensures var t := Take(s, limit);
            && Sorted(up, t) && (forall r | r in t :: r in s)
            && (forall r | r in s && r !in t ::
                  limit == |t| > 0 && forall x | x in t :: if up then x.id < r.id else x.id > r.id)
  {
    var t := Take(s, limit);
    assert forall k | 0 <= k < |t| :: t[k] == s[k] && t[k] in t;
    forall r | r in s && r !in t
      ensures limit == |t| > 0 && forall x | x in t :: if up then x.id < r.id else x.id > r.id {
      var i :| 0 <= i < |s| && s[i] == r;
    }
  }

  // ---------------------------------------------------------------------------------
  // The admin's backward page
  // ---------------------------------------------------------------------------------

  function Above(matches: Request -> bool, cursor: int): Query {
    Query(matches, None, Some(cursor), 0, true)
  }

  /** The page before a cursor, for comparison: its `limit` nearest newer events, newest first. */
  function NearestAbove(matches: Request -> bool, cursor: int, limit: nat, rows: seq<Request>): seq<Request> {
    Reverse(Take(Hits(Above(matches, cursor), rows), limit))
  }

  /** `admin_usage_page_http_response` with `after_id`: reversed first, truncated after. */
  method AdminPageAfter(matches: Request -> bool, afterId: int, limit: nat, rows: seq<Request>) returns (events: seq<Request>)
    requires 10 <= limit <= 200 && Ascending(rows)
    ensures var newer := Hits(Above(matches, afterId), rows);
            && (|newer| <= limit ==> events == NearestAbove(matches, afterId, limit, rows))
            && (|newer| > limit ==> events == Reverse(newer[1..limit + 1]))
            && (events == NearestAbove(matches, afterId, limit, rows) <==> |newer| <= limit)
    ensures Sorted(false, events) && forall r | r in events :: r in rows && matches(r) && r.id > afterId
  {
    BackwardPage(matches, afterId, limit, rows);
    hide Hits, Reverse, Ascending, Select, NearestAbove, Sorted;
    var loaded := RunQuery(Query(matches, None, Some(afterId), limit + 1, true), rows);
    loaded := Reverse(loaded);
    if |loaded| > limit {
      loaded := loaded[..limit];
    }
    return loaded;
  }

  lemma BackwardPage(matches: Request -> bool, afterId: int, limit: nat, rows: seq<Request>)
    requires Ascending(rows) && limit > 0
    ensures
      var newer := Hits(Above(matches, afterId), rows);
      var back := Reverse(Select(Query(matches, None, Some(afterId), limit + 1, true), rows));
      var events := if |back| > limit then back[..limit] else back;
      && (|newer| <= limit ==> events == NearestAbove(matches, afterId, limit, rows))
      && (|newer| > limit ==> events == Reverse(newer[1..limit + 1]))
      && (events == NearestAbove(matches, afterId, limit, rows) <==> |newer| <= limit)
      && Sorted(false, events) && forall r | r in events :: r in rows && matches(r) && r.id > afterId
  {
    AboveMeans(matches, afterId, limit, rows);
    hide Hits, Ascending, Select, NearestAbove, Sorted;
    var newer := Hits(Above(matches, afterId), rows);
    var loaded := Select(Query(matches, None, Some(afterId), limit + 1, true), rows);
    ReverseAll(loaded);
    PrefixOf(Reverse(loaded), limit);
    if |newer| > limit {
      DropsNearest(newer, limit);
    }
  }

  lemma PrefixOf(s: seq<Request>, limit: nat)
    requires Sorted(false, s)
    ensures limit <= |s| ==> Sorted(false, s[..limit]) && forall r | r in s[..limit] :: r in s
  {
  }

  /** What the page loads, and what it should show. */
  lemma AboveMeans(matches: Request -> bool, afterId: int, limit: nat, rows: seq<Request>)
    requires Ascending(rows) && limit > 0
    ensures
      var newer, loaded := Hits(Above(matches, afterId), rows), Select(Query(matches, None, Some(afterId), limit + 1, true), rows);
      && Ascending(newer) && loaded == (if |newer| > limit then newer[..limit + 1] else newer)
      && NearestAbove(matches, afterId, limit, rows) == Reverse(if |newer| > limit then newer[..limit] else newer)
      && Sorted(true, loaded) && forall r | r in loaded :: r in rows && matches(r) && r.id > afterId
  {
    hide Hits, Reverse, Hit;
    var q := Query(matches, None, Some(afterId), limit + 1, true);
    LimitIrrelevant(q, Above(matches, afterId), rows);
    HitsAscend(Above(matches, afterId), rows);
    SelectExactly(q, rows);
  }

  lemma ReverseAll(s: seq<Request>)
    requires Sorted(true, s)
    ensures Sorted(false, Reverse(s)) && forall r | r in Reverse(s) :: r in s
  {
    forall r | r in Reverse(s) ensures r in s {
      var i :| 0 <= i < |s| && Reverse(s)[i] == r;
      assert s[|s| - 1 - i] == r;
    }
  }

  /** Truncating after the reversal drops the newer event next to the cursor, not the farthest. */
  lemma DropsNearest(newer: seq<Request>, limit: nat)
    requires Ascending(newer) && 0 < limit < |newer|
    ensures Reverse(newer[..limit + 1])[..limit] == Reverse(newer[1..limit + 1]) != Reverse(newer[..limit])
  {
    var shown, right := Reverse(newer[1..limit + 1]), Reverse(newer[..limit]);
    assert Reverse(newer[..limit + 1])[..limit] == shown;
    assert shown[0] == newer[limit] && right[0] == newer[limit - 1];
  }
}
