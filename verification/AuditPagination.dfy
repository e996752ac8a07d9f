/** Pages of the audit log by keyset, and what following the cursors yields. */
module AuditPagination {
  import opened Wrappers

  type Time = int

  const DEFAULT_LIMIT := 25
  const MAX_LIMIT := 100
  const LAST_90_DAYS_MS := 90 * 24 * 60 * 60 * 1000

  datatype Key = Key(createdAt: Time, id: nat)

  datatype Row = Row(key: Key, organization: nat, action: string, actor: nat)

  datatype Query = Query(
    organization: nat,
    action: Option<string>,
    actor: Option<nat>,
    requestedFrom: Option<Time>,
    requestedTo: Option<Time>,
    limit: Option<int>)

  datatype Page = Page(items: seq<Row>, nextCursor: Option<Key>)

  // ----- Limit and window -----

  function Distance(a: int, b: int): int {
    if a < b then b - a else a - b
  }

  /** The allowed limit that is nearest to what was asked for. */
  function NormalizeLimit(limit: Option<int>): (r: int)
    ensures 1 <= r <= MAX_LIMIT
    ensures limit.None? ==> r == DEFAULT_LIMIT
    ensures limit.Some? ==> forall k :: 1 <= k <= MAX_LIMIT ==> Distance(limit.value, r) <= Distance(limit.value, k)
  {
    match limit
    case None => DEFAULT_LIMIT
    case Some(n) => var atLeastOne := if n < 1 then 1 else n; if atLeastOne > MAX_LIMIT then MAX_LIMIT else atLeastOne
  }

  /** The first and last instant that a request covers; none if it is refused. */
  function Window(q: Query, now: Time): Option<(Time, Time)> {
    var minFrom := now - LAST_90_DAYS_MS;
    var requestedFrom := q.requestedFrom.GetOr(minFrom);
    var requestedTo := q.requestedTo.GetOr(now);
    if q.requestedFrom.Some? && q.requestedTo.Some? && requestedFrom > requestedTo then None
    else
      var from := if requestedFrom < minFrom then minFrom else requestedFrom;
      var boundedTo := if requestedTo > now then now else requestedTo;
      var to := if boundedTo < minFrom then minFrom else boundedTo;
      if from > to then None else Some((from, to))
  }

  /** Asked for, and within the last 90 days. */
  predicate Wanted(q: Query, now: Time, t: Time) {
    && (q.requestedFrom.Some? ==> q.requestedFrom.value <= t)
    && (q.requestedTo.Some? ==> t <= q.requestedTo.value)
    && now - LAST_90_DAYS_MS <= t <= now
  }

  /** The request ends before the last 90 days begin. */
  predicate WhollyBefore(q: Query, now: Time) {
    q.requestedTo.Some? && q.requestedTo.value < now - LAST_90_DAYS_MS
  }

  predicate Inverted(q: Query) {
    q.requestedFrom.Some? && q.requestedTo.Some? && q.requestedFrom.value > q.requestedTo.value
  }

  /** The window is what was asked for within the last 90 days, exactly unless the request is wholly
      before them. Such a request gets their first instant, which it did not ask for. */
  lemma WindowExactly(q: Query, now: Time)
    requires Window(q, now).Some?
    ensures var (from, to) := Window(q, now).value;
            && from <= to
            && ((forall t :: from <= t <= to <==> Wanted(q, now, t)) <==> !WhollyBefore(q, now))
            && (WhollyBefore(q, now) ==> from == to == now - LAST_90_DAYS_MS && !Wanted(q, now, from))
  {
    var (from, to) := Window(q, now).value;
    if WhollyBefore(q, now) { assert from <= from <= to && !Wanted(q, now, from); }
  }

  /** Refused are the requests for nothing, except those wholly before the last 90 days whose bounds
      are in order. */
  lemma RefusedExactly(q: Query, now: Time)
    ensures Window(q, now).None? <==> (forall t :: !Wanted(q, now, t)) && (WhollyBefore(q, now) ==> Inverted(q))
  {
    if Window(q, now).Some? && !WhollyBefore(q, now) {
      assert Wanted(q, now, Window(q, now).value.0);
    }
  }

  /** A request that was accepted once is accepted from then on. */
  lemma StaysAccepted(q: Query, now: Time, later: Time)
    requires Window(q, now).Some? && now <= later
    ensures Window(q, later).Some?
  {
  }

  // ----- One page -----

  predicate Older(k: Key, c: Key) {
    k.createdAt < c.createdAt || (k.createdAt == c.createdAt && k.id < c.id)
  }

  predicate Newer(a: Row, b: Row) {
    a.key.createdAt > b.key.createdAt || (a.key.createdAt == b.key.createdAt && a.key.id > b.key.id)
  }

  ghost predicate UniqueIds(table: set<Row>) {
    forall a, b :: a in table && b in table && a.key.id == b.key.id ==> a == b
  }

  predicate Descending(rows: seq<Row>) {
    forall i, j :: 0 <= i < j < |rows| ==> Older(rows[j].key, rows[i].key)
  }

  ghost predicate IsNewest(table: set<Row>, newest: Row) {
    newest in table && forall r :: r in table && r != newest ==> Older(r.key, newest.key)
  }

  lemma {:induction false} HasNewest(table: set<Row>)
    requires UniqueIds(table) && table != {}
    ensures exists newest :: IsNewest(table, newest)
    decreases |table|
  {
    var some :| some in table;
    if table == {some} {
      assert IsNewest(table, some);
    } else {
      HasNewest(table - {some});
      var rest :| IsNewest(table - {some}, rest);
      assert IsNewest(table, if Older(some.key, rest.key) then rest else some);
    }
  }

  ghost predicate Lists(rows: seq<Row>, table: set<Row>) {
    Descending(rows) && (forall r :: r in rows <==> r in table) && |rows| == |table|
  }

  lemma {:induction false} HasOrder(table: set<Row>)
    requires UniqueIds(table)
    ensures exists rows :: Lists(rows, table)
    decreases |table|
  {
    if table == {} {
      assert Lists([], table);
    } else {
      HasNewest(table);
      var newest :| IsNewest(table, newest);
      HasOrder(table - {newest});
      var rest :| Lists(rest, table - {newest});
      assert Lists([newest] + rest, table);
    }
  }

  /** ORDER BY "createdAt" DESC, "id" DESC. */
  ghost function Sorted(table: set<Row>): (rows: seq<Row>)
    requires UniqueIds(table)
    ensures Lists(rows, table)
  {
    HasOrder(table);
    var rows :| Lists(rows, table);
    rows
  }

  lemma TailHolds(a: seq<Row>, b: seq<Row>)
    requires Descending(a) && Descending(b) && a != [] && b != [] && forall r :: r in a <==> r in b
    ensures a[0] == b[0] && forall r :: r in a[1..] ==> r in b[1..]
  {
    assert a[0] in b && b[0] in a;
    forall r | r in a[1..] ensures r in b[1..] {
      assert r in b && r != a[0];
    }
  }

  lemma HasMember(rows: seq<Row>)
    ensures rows == [] || exists r :: r in rows
  {
    if rows != [] { assert rows[0] in rows; }
  }

  /** Descending order leaves no choice. */
  lemma {:induction false} SortedIsUnique(a: seq<Row>, b: seq<Row>)
    requires Descending(a) && Descending(b) && forall r :: r in a <==> r in b
    ensures a == b
    decreases |a|
  {
    HasMember(a);
    HasMember(b);
    if a != [] {
      TailHolds(a, b);
      TailHolds(b, a);
      SortedIsUnique(a[1..], b[1..]);
    }
  }

  predicate Selected(q: Query, window: (Time, Time), r: Row) {
    && r.organization == q.organization
    && (q.action.Some? ==> r.action == q.action.value)
    && (q.actor.Some? ==> r.actor == q.actor.value)
    && window.0 <= r.key.createdAt <= window.1
  }

  ghost function Matching(table: set<Row>, q: Query, window: (Time, Time)): set<Row> {
    set r | r in table && Selected(q, window, r)
  }

  /** The keyset predicate. */
  ghost function Below(rows: set<Row>, cursor: Option<Key>): set<Row> {
    set r | r in rows && (cursor.Some? ==> Older(r.key, cursor.value))
  }

  function Take(rows: seq<Row>, n: int): seq<Row>
    requires 0 <= n
  {
    if |rows| <= n then rows else rows[..n]
  }

  /** What is made of the selected rows in descending order: one row more than the limit is taken, to
      know whether there is a next page. */
  function PageOf(selected: seq<Row>, limit: int): Page
    requires limit >= 1
  {
    var rows := Take(selected, limit + 1);
    var hasMore := |rows| > limit;
    var items := if hasMore then rows[..limit] else rows;
    Page(items, if hasMore then Some(items[|items| - 1].key) else None)
  }

  /** `listAuditLogs`; none if the request is refused. */
  ghost function ListAuditLogs(table: set<Row>, q: Query, cursor: Option<Key>, now: Time): Option<Page>
    requires UniqueIds(table)
  {
    var window := Window(q, now);
    if window.None? then None
    else Some(PageOf(Sorted(Below(Matching(table, q, window.value), cursor)), NormalizeLimit(q.limit)))
  }

  /** A page holds the newest of the rows: every other one is below the next cursor, and there is a next
      cursor exactly if there is such a row. */
  ghost predicate IsPage(page: Page, rows: set<Row>, limit: int) {
    && Descending(page.items) && |page.items| <= limit
    && (forall r :: r in page.items ==> r in rows)
    && (page.nextCursor.None? ==> forall r :: r in rows ==> r in page.items)
    && (page.nextCursor.Some? ==>
          && |page.items| == limit && limit >= 1 && page.nextCursor.value == page.items[limit - 1].key
          && forall r :: r in rows ==> (r in page.items <==> !Older(r.key, page.nextCursor.value)))
    && (page.nextCursor.Some? <==> |rows| > limit)
  }

  lemma LastOfPrefix(rows: seq<Row>, limit: int, r: Row)
    requires Descending(rows) && 1 <= limit <= |rows| && r in rows
    ensures r in rows[..limit] <==> !Older(r.key, rows[limit - 1].key)
  {
    var i :| 0 <= i < |rows| && rows[i] == r;
    if i < limit { assert rows[..limit][i] == r; }
  }

  lemma PageIsPrefix(rows: seq<Row>, all: set<Row>, limit: int)
    requires Lists(rows, all) && limit >= 1
    ensures IsPage(PageOf(rows, limit), all, limit)
  {
    var page := PageOf(rows, limit);
    assert page.items == Take(rows, limit);
    if |rows| > limit {
      forall r | r in all ensures r in page.items <==> !Older(r.key, rows[limit - 1].key) { LastOfPrefix(rows, limit, r); }
    }
  }

  lemma ListingIsPage(table: set<Row>, q: Query, cursor: Option<Key>, now: Time)
    requires UniqueIds(table) && Window(q, now).Some?
    ensures ListAuditLogs(table, q, cursor, now).Some?
    ensures IsPage(ListAuditLogs(table, q, cursor, now).value, Below(Matching(table, q, Window(q, now).value), cursor), NormalizeLimit(q.limit))
  {
    var rows := Below(Matching(table, q, Window(q, now).value), cursor);
    PageIsPrefix(Sorted(rows), rows, NormalizeLimit(q.limit));
  }

  // ----- Chains of pages -----

  /** A page with all rows that match at its time, whatever the cursor. */
  datatype Response = Response(all: set<Row>, page: Page)

  /** Each page starts where the one before it ended. */
  ghost predicate Chain(limit: int, cursor: Option<Key>, responses: seq<Response>)
    decreases |responses|
  {
    responses == []
    || (&& IsPage(responses[0].page, Below(responses[0].all, cursor), limit)
        && (|responses| > 1 ==> responses[0].page.nextCursor.Some?)
        && Chain(limit, responses[0].page.nextCursor, responses[1..]))
  }

  ghost function Rows(responses: seq<Response>): seq<Row> {
    if responses == [] then [] else responses[0].page.items + Rows(responses[1..])
  }

  /** The last page has no cursor. */
  ghost predicate Finished(responses: seq<Response>) {
    responses != [] && responses[|responses| - 1].page.nextCursor.None?
  }

  lemma JoinDescending(a: seq<Row>, b: seq<Row>, k: Key)
    requires Descending(a) && Descending(b) && a != [] && a[|a| - 1].key == k
    requires forall r :: r in b ==> Older(r.key, k)
    ensures Descending(a + b)
  {
    forall i, j | 0 <= i < j < |a + b| ensures Older((a + b)[j].key, (a + b)[i].key) {
      if i < |a| <= j { assert b[j - |a|] in b; }
    }
  }

  lemma {:induction false} ChainDescends(limit: int, cursor: Option<Key>, responses: seq<Response>)
    requires Chain(limit, cursor, responses)
    ensures Descending(Rows(responses))
    ensures cursor.Some? ==> forall r :: r in Rows(responses) ==> Older(r.key, cursor.value)
    decreases |responses|
  {
    if |responses| > 1 {
      var page := responses[0].page;
      ChainDescends(limit, page.nextCursor, responses[1..]);
      assert page.items[limit - 1] in page.items;
      JoinDescending(page.items, Rows(responses[1..]), page.nextCursor.value);
    } else if |responses| == 1 {
      assert Rows(responses) == responses[0].page.items;
    }
  }

  lemma {:induction false} ChainSkipsNothing(limit: int, cursor: Option<Key>, responses: seq<Response>, r: Row)
    requires Chain(limit, cursor, responses) && Finished(responses)
    requires (forall i :: 0 <= i < |responses| ==> r in responses[i].all) && (cursor.Some? ==> Older(r.key, cursor.value))
    ensures r in Rows(responses)
    decreases |responses|
  {
    assert r in Below(responses[0].all, cursor);
    if r !in responses[0].page.items {
      ChainSkipsNothing(limit, responses[0].page.nextCursor, responses[1..], r);
    }
  }

  lemma {:induction false} ChainInventsNothing(limit: int, cursor: Option<Key>, responses: seq<Response>, r: Row)
    requires Chain(limit, cursor, responses) && r in Rows(responses)
    ensures exists i :: 0 <= i < |responses| && r in responses[i].all
    decreases |responses|
  {
    if r in responses[0].page.items {
      assert r in responses[0].all;
    } else {
      ChainInventsNothing(limit, responses[0].page.nextCursor, responses[1..], r);
      var i :| 0 <= i < |responses[1..]| && r in responses[1..][i].all;
      assert responses[i + 1] == responses[1..][i];
    }
  }

  // ----- Following the cursors -----

  /** The table and the clock at one request. */
  datatype Visit = Visit(table: set<Row>, now: Time)

  ghost predicate Visits(visits: seq<Visit>) {
    forall i :: 0 <= i < |visits| ==> UniqueIds(visits[i].table)
  }

  /** The responses to requests that each start from the cursor that the one before returned, until there
      is none. */
  ghost function Follow(q: Query, cursor: Option<Key>, visits: seq<Visit>): seq<Response>
    requires Visits(visits)
    decreases |visits|
  {
    if visits == [] then []
    else
      match ListAuditLogs(visits[0].table, q, cursor, visits[0].now)
      case None => []
      case Some(page) =>
        [Response(Matching(visits[0].table, q, Window(q, visits[0].now).value), page)]
        + if page.nextCursor.Some? then Follow(q, page.nextCursor, visits[1..]) else []
  }

  /** Response `i` answers request `i`. */
  ghost predicate Answers(q: Query, visit: Visit, response: Response) {
    Window(q, visit.now).Some? && response.all == Matching(visit.table, q, Window(q, visit.now).value)
  }

  lemma ChainCons(limit: int, cursor: Option<Key>, first: Response, rest: seq<Response>)
    requires IsPage(first.page, Below(first.all, cursor), limit) && Chain(limit, first.page.nextCursor, rest)
    requires rest != [] ==> first.page.nextCursor.Some?
    ensures Chain(limit, cursor, [first] + rest)
  {
    assert ([first] + rest)[1..] == rest;
  }

  lemma FollowSplits(q: Query, cursor: Option<Key>, visits: seq<Visit>) returns (first: Response, rest: seq<Response>)
    requires Visits(visits) && visits != [] && Window(q, visits[0].now).Some?
    ensures Follow(q, cursor, visits) == [first] + rest && Answers(q, visits[0], first)
    ensures rest == if first.page.nextCursor.Some? then Follow(q, first.page.nextCursor, visits[1..]) else []
    ensures IsPage(first.page, Below(first.all, cursor), NormalizeLimit(q.limit))
  {
    var page := ListAuditLogs(visits[0].table, q, cursor, visits[0].now).value;
    first := Response(Matching(visits[0].table, q, Window(q, visits[0].now).value), page);
    rest := if page.nextCursor.Some? then Follow(q, page.nextCursor, visits[1..]) else [];
    ListingIsPage(visits[0].table, q, cursor, visits[0].now);
  }

  ghost predicate AllAnswer(q: Query, visits: seq<Visit>, responses: seq<Response>) {
    |responses| <= |visits| && forall i :: 0 <= i < |responses| ==> Answers(q, visits[i], responses[i])
  }

  lemma AnswersCons(q: Query, visits: seq<Visit>, first: Response, rest: seq<Response>)
    requires visits != [] && Answers(q, visits[0], first) && AllAnswer(q, visits[1..], rest)
    ensures AllAnswer(q, visits, [first] + rest)
  {
  }

  lemma {:induction false} FollowIsChain(q: Query, cursor: Option<Key>, visits: seq<Visit>)
    requires Visits(visits)
    ensures Chain(NormalizeLimit(q.limit), cursor, Follow(q, cursor, visits))
    ensures AllAnswer(q, visits, Follow(q, cursor, visits))
    decreases |visits|
  {
    if visits != [] && Window(q, visits[0].now).Some? {
      var first, rest := FollowSplits(q, cursor, visits);
      if first.page.nextCursor.Some? { FollowIsChain(q, first.page.nextCursor, visits[1..]); }
      ChainCons(NormalizeLimit(q.limit), cursor, first, rest);
      AnswersCons(q, visits, first, rest);
    }
  }

  /** Whatever is inserted or deleted, and however the clock moves between the requests: the rows come in
      descending order, the newest first, so none is returned twice. */
  lemma NoRowRepeats(q: Query, visits: seq<Visit>)
    requires Visits(visits)
    ensures Descending(Rows(Follow(q, None, visits)))
    ensures var rows := Rows(Follow(q, None, visits)); forall i, j :: 0 <= i < j < |rows| ==> Newer(rows[i], rows[j]) && rows[i] != rows[j]
  {
    FollowIsChain(q, None, visits);
    ChainDescends(NormalizeLimit(q.limit), None, Follow(q, None, visits));
  }

  /** The request asks for this row: it is the organization's own, of the action and by the actor that
      were given if any, and from the time asked for within the last 90 days. A request wholly before
      them gets their first instant. */
  predicate AskedFor(q: Query, now: Time, r: Row) {
    var t, since := r.key.createdAt, now - 7_776_000_000;
    && r.organization == q.organization
    && (q.action.None? || q.action.value == r.action)
    && (q.actor.None? || q.actor.value == r.actor)
    && if q.requestedTo.Some? && q.requestedTo.value < since then t == since
       else since <= t <= now && (q.requestedFrom.None? || q.requestedFrom.value <= t) && (q.requestedTo.None? || t <= q.requestedTo.value)
  }

  /** The query selects exactly the rows that were asked for. */
  lemma SelectedExactly(q: Query, now: Time, r: Row)
    requires Window(q, now).Some?
    ensures Selected(q, Window(q, now).value, r) <==> AskedFor(q, now, r)
  {
    WindowExactly(q, now);
  }

  /** A row that is there and asked for at every request is returned by the time the last page is reached. */
  lemma NoRowSkipped(q: Query, visits: seq<Visit>, r: Row)
    requires Visits(visits) && Finished(Follow(q, None, visits))
    requires forall i :: 0 <= i < |visits| ==> r in visits[i].table && AskedFor(q, visits[i].now, r)
    ensures r in Rows(Follow(q, None, visits))
  {
    var responses := Follow(q, None, visits);
    FollowIsChain(q, None, visits);
    forall i | 0 <= i < |responses| ensures r in responses[i].all {
      assert Answers(q, visits[i], responses[i]);
      SelectedExactly(q, visits[i].now, r);
    }
    ChainSkipsNothing(NormalizeLimit(q.limit), None, responses, r);
  }

  /** Every returned row was there, and asked for, at some request. */
  lemma NoRowInvented(q: Query, visits: seq<Visit>, r: Row)
    requires Visits(visits) && r in Rows(Follow(q, None, visits))
    ensures r.organization == q.organization
    ensures q.action.Some? ==> r.action == q.action.value
    ensures q.actor.Some? ==> r.actor == q.actor.value
    ensures exists i :: 0 <= i < |visits| && r in visits[i].table && AskedFor(q, visits[i].now, r)
  {
    var responses := Follow(q, None, visits);
    FollowIsChain(q, None, visits);
    ChainInventsNothing(NormalizeLimit(q.limit), None, responses, r);
    var i :| 0 <= i < |responses| && r in responses[i].all;
    assert Answers(q, visits[i], responses[i]);
    SelectedExactly(q, visits[i].now, r);
    assert r in visits[i].table && AskedFor(q, visits[i].now, r);
  }

  // ----- A fixed table -----

  ghost predicate Fixed(visits: seq<Visit>, table: set<Row>, now: Time) {
    forall i :: 0 <= i < |visits| ==> visits[i] == Visit(table, now)
  }

  /** All rows that were asked for, newest first. */
  ghost predicate IsListing(rows: seq<Row>, table: set<Row>, q: Query, now: Time) {
    && (forall i, j :: 0 <= i < j < |rows| ==> Newer(rows[i], rows[j]))
    && (forall r :: r in rows <==> r in table && AskedFor(q, now, r))
  }

  /** Over a fixed table the pages are the sorted list of all rows asked for, cut into pieces. */
  lemma PagesRefineSortedList(table: set<Row>, q: Query, now: Time, visits: seq<Visit>)
    requires UniqueIds(table) && Window(q, now).Some? && Fixed(visits, table, now) && Finished(Follow(q, None, visits))
    ensures Rows(Follow(q, None, visits)) == Sorted(Matching(table, q, Window(q, now).value))
    ensures IsListing(Rows(Follow(q, None, visits)), table, q, now)
  {
    var matching := Matching(table, q, Window(q, now).value);
    var rows := Rows(Follow(q, None, visits));
    NoRowRepeats(q, visits);
    forall r | r in table && AskedFor(q, now, r) ensures r in rows {
      assert forall i :: 0 <= i < |visits| ==> visits[i] == Visit(table, now);
      NoRowSkipped(q, visits, r);
    }
    forall r | r in rows ensures r in table && AskedFor(q, now, r) {
      NoRowInvented(q, visits, r);
      var i :| 0 <= i < |visits| && r in visits[i].table && AskedFor(q, visits[i].now, r);
      assert visits[i] == Visit(table, now);
    }
    forall r ensures r in rows <==> r in matching { SelectedExactly(q, now, r); }
    SortedIsUnique(rows, Sorted(matching));
  }

  lemma FirstResponse(q: Query, cursor: Option<Key>, visits: seq<Visit>) returns (page: Page)
    requires Visits(visits) && visits != [] && Window(q, visits[0].now).Some?
    ensures IsPage(page, Below(Matching(visits[0].table, q, Window(q, visits[0].now).value), cursor), NormalizeLimit(q.limit))
    ensures page.nextCursor.None? ==> Finished(Follow(q, cursor, visits))
    ensures page.nextCursor.Some? && Finished(Follow(q, page.nextCursor, visits[1..])) ==> Finished(Follow(q, cursor, visits))
  {
    var first, rest := FollowSplits(q, cursor, visits);
    page := first.page;
  }

  /** As many requests as pages are needed for the matching rows are enough. */
  lemma {:induction false} PagingTerminates(table: set<Row>, q: Query, now: Time, cursor: Option<Key>, visits: seq<Visit>, limit: int)
    requires UniqueIds(table) && Window(q, now).Some? && Fixed(visits, table, now) && visits != [] && limit == NormalizeLimit(q.limit)
    requires |Below(Matching(table, q, Window(q, now).value), cursor)| <= limit * |visits|
    ensures Finished(Follow(q, cursor, visits))
    decreases |visits|
  {
    assert visits[0] == Visit(table, now);
    var page := FirstResponse(q, cursor, visits);
    if page.nextCursor.Some? {
      var matching := Matching(table, q, Window(q, now).value);
      OnePageLess(matching, cursor, page, limit);
      OneRequestLess(limit, |Below(matching, cursor)|, |visits|);
      PagingTerminates(table, q, now, page.nextCursor, visits[1..], limit);
    }
  }

  lemma OneRequestLess(limit: int, rows: int, requests: int)
    requires limit < rows <= limit * requests && limit >= 1 && requests >= 1
    ensures requests > 1 && rows - limit <= limit * (requests - 1)
  {
    assert limit * (requests - 1) == limit * requests - limit;
  }

  lemma OnePageLess(rows: set<Row>, cursor: Option<Key>, page: Page, limit: int)
    requires IsPage(page, Below(rows, cursor), limit) && page.nextCursor.Some?
    ensures |Below(rows, page.nextCursor)| <= |Below(rows, cursor)| - limit
  {
    DistinctCount(page.items);
    var shown := set r | r in page.items;
    var rest := Below(rows, page.nextCursor);
    assert page.items[limit - 1] in page.items;
    forall r | r in rest ensures r in Below(rows, cursor) && r !in shown {}
    Subset(shown + rest, Below(rows, cursor));
  }

  lemma {:induction false} Subset<T>(a: set<T>, b: set<T>)
    requires a <= b
    ensures |a| <= |b|
    decreases a
  {
    if a != {} {
      var x :| x in a;
      Subset(a - {x}, b - {x});
    }
  }

  lemma {:induction false} DistinctCount(rows: seq<Row>)
    requires Descending(rows)
    ensures |set r | r in rows| == |rows|
    decreases |rows|
  {
    if rows != [] {
      DistinctCount(rows[1..]);
      assert rows[0] !in rows[1..];
      assert (set r | r in rows) == {rows[0]} + set r | r in rows[1..];
    }
  }
}
