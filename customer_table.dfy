/**
 * The customer table of the agent and supervisor dashboards: the rows the
 * page fetches from `/api/customers?withLatest=true`, and the derived view
 * it shows — search, date window, status filters, activity filter, sort and
 * pagination. Both dashboards run the same pipeline.
 */
module CustomerTable {
  import opened Wrappers
  import opened Strings
  import opened Models
  import opened Queries

  /** A fetched row: the customer, its agent's name, and `interactions`, which holds the latest interaction if there is one. */
  datatype TableRow = TableRow(customer: Customer, agentName: Option<string>, interactions: seq<Interaction>)

  /** `interactions: c.latestInteraction ? [c.latestInteraction] : []` */
  function FromRow(r: CustomerRow): (t: TableRow)
    ensures t.customer == r.customer && t.agentName == r.agentName
    ensures |t.interactions| <= 1
    ensures |t.interactions| == 1 <==> r.latestInteraction.Some?
    ensures |t.interactions| == 1 ==> t.interactions[0] == r.latestInteraction.value
  {
    match r.latestInteraction
    case None => TableRow(r.customer, r.agentName, [])
    case Some(i) => TableRow(r.customer, r.agentName, [i])
  }

  /** `c._id?.toString() || ''`: the id a row is selected and edited by. */
  function RowId(t: TableRow): Id {
    t.customer.id
  }

  /** `lastInteractionAt`: the date of the latest interaction, 0 when there is none. */
  function LastInteractionAt(t: TableRow): Millis {
    if |t.interactions| > 0 then t.interactions[0].date else 0
  }

  /** `isActive`: the customer has been interacted with. */
  predicate IsActive(t: TableRow) {
    |t.interactions| > 0
  }

  /**
   * A fetched row is active exactly when the store holds an interaction with
   * its customer, and then its `lastInteractionAt` is the latest such date.
   */
  lemma FetchedRowActivity(db: Db, c: Customer)
    ensures var t := FromRow(RowOf(db, c));
      IsActive(t) <==> exists j :: 0 <= j < |db.interactions| && db.interactions[j].customerId == c.id
    ensures var t := FromRow(RowOf(db, c));
      forall j :: 0 <= j < |db.interactions| && db.interactions[j].customerId == c.id ==>
        db.interactions[j].date <= LastInteractionAt(t)
    ensures var t := FromRow(RowOf(db, c));
      IsActive(t) ==> exists j :: 0 <= j < |db.interactions| && db.interactions[j].customerId == c.id
                                  && db.interactions[j].date == LastInteractionAt(t)
  {
    var l := LatestFor(db.interactions, c.id);
    if l.Some? {
      var j :| 0 <= j < |db.interactions| && db.interactions[j] == l.value;
      assert db.interactions[j].customerId == c.id;
    }
  }

  // ---------------------------------------------------------------------
  // Filters
  // ---------------------------------------------------------------------

  /** The text searched for: the query trimmed and lower-cased. */
  function SearchText(query: string): string {
    Lower(Trim(query))
  }

  /** A row matches `q` when its name, e-mail, phone or contact title, lower-cased, contains it. */
  predicate Matches(t: TableRow, q: string) {
    || Contains(Lower(t.customer.name), q)
    || Contains(Lower(OrEmpty(t.customer.email)), q)
    || Contains(Lower(OrEmpty(t.customer.phone)), q)
    || Contains(Lower(OrEmpty(t.customer.contactTitle)), q)
  }

  function MatchTest(q: string): TableRow -> bool {
    t => Matches(t, q)
  }

  /** `searched`: all rows for a blank query, the matching ones otherwise. */
  function Search(rows: seq<TableRow>, query: string): seq<TableRow> {
    var q := SearchText(query);
    if q == "" then rows else Filter(rows, MatchTest(q))
  }

  /** A blank query keeps every row, in order. */
  lemma BlankSearchKeepsAll(rows: seq<TableRow>, query: string)
    requires IsBlank(query)
    ensures Search(rows, query) == rows
  {
    TrimEmptyIffBlank(query);
  }

  /** A row is found by a non-blank query exactly when one of its four text fields contains the query, ignoring case and surrounding blanks. */
  lemma SearchFinds(rows: seq<TableRow>, query: string, t: TableRow)
    requires !IsBlank(query)
    ensures t in Search(rows, query) <==> t in rows && Matches(t, SearchText(query))
  {
    TrimEmptyIffBlank(query);
    var r := Search(rows, query);
    if t in r {
      var k :| 0 <= k < |r| && r[k] == t;
    }
    if t in rows && Matches(t, SearchText(query)) {
      var k :| 0 <= k < |rows| && rows[k] == t;
    }
  }

  /** A date window `[start, end)`, as the date presets and the custom range compute it. */
  datatype Window = Window(start: Millis, end: Millis)

  /** With a window, a row passes when it has a non-zero last interaction date inside `[start, end)`. */
  predicate InWindow(w: Option<Window>, t: TableRow) {
    match w
    case None => true
    case Some(win) =>
      var at := LastInteractionAt(t);
      at != 0 && win.start <= at < win.end
  }

  function WindowTest(w: Option<Window>): TableRow -> bool {
    t => InWindow(w, t)
  }

  /** The call-status and follow-up filters (`None` is "all") test the latest interaction, which must exist. */
  predicate StatusMatches(call: Option<CallStatus>, followUp: Option<FollowUpStatus>, t: TableRow) {
    && (call.Some? ==> |t.interactions| > 0 && t.interactions[0].callStatus == call.value)
    && (followUp.Some? ==> |t.interactions| > 0 && t.interactions[0].followUpStatus == followUp.value)
  }

  function StatusTest(call: Option<CallStatus>, followUp: Option<FollowUpStatus>): TableRow -> bool {
    t => StatusMatches(call, followUp, t)
  }

  /** `filterStatus`: all, active (interacted with) or new (never interacted with). */
  datatype Activity = Everyone | ActiveOnly | NewOnly

  predicate ActivityMatches(a: Activity, t: TableRow) {
    match a
    case Everyone => true
    case ActiveOnly => IsActive(t)
    case NewOnly => !IsActive(t)
  }

  function ActivityTest(a: Activity): TableRow -> bool {
    t => ActivityMatches(a, t)
  }

  // ---------------------------------------------------------------------
  // Sorting
  // ---------------------------------------------------------------------

  datatype SortKey = ByName | ByLastInteraction
  datatype Direction = Ascending | Descending

  /** Strict lexicographic order on strings, by code point. */
  predicate LexLess(a: string, b: string) {
    if |a| == 0 then |b| > 0
    else if |b| == 0 then false
    else if a[0] != b[0] then a[0] < b[0]
    else LexLess(a[1..], b[1..])
  }

  lemma {:induction false} LexLessAsymmetric(a: string, b: string)
    ensures !(LexLess(a, b) && LexLess(b, a))
  {
    if |a| > 0 && |b| > 0 && a[0] == b[0] {
      LexLessAsymmetric(a[1..], b[1..]);
    }
  }

  /** The name a row sorts by: `(name || '').toLowerCase()`. */
  function NameKey(t: TableRow): string {
    Lower(t.customer.name)
  }

  /** The comparator returns a negative number: `a` sorts strictly before `b`. */
  predicate Precedes(key: SortKey, dir: Direction, a: TableRow, b: TableRow) {
    match (key, dir)
    case (ByName, Ascending) => LexLess(NameKey(a), NameKey(b))
    case (ByName, Descending) => LexLess(NameKey(b), NameKey(a))
    case (ByLastInteraction, Ascending) => LastInteractionAt(a) < LastInteractionAt(b)
    case (ByLastInteraction, Descending) => LastInteractionAt(b) < LastInteractionAt(a)
  }

  lemma PrecedesAsymmetric(key: SortKey, dir: Direction, a: TableRow, b: TableRow)
    ensures !(Precedes(key, dir, a, b) && Precedes(key, dir, b, a))
  {
    if key == ByName {
      LexLessAsymmetric(NameKey(a), NameKey(b));
    }
  }

  /** No row sorts strictly before the row above it. */
  predicate Ordered(key: SortKey, dir: Direction, s: seq<TableRow>) {
    forall i :: 0 <= i < |s| - 1 ==> !Precedes(key, dir, s[i + 1], s[i])
  }

  /** `x` placed in front of the first row it sorts strictly before, so after every row it ties with. */
  function Insert(key: SortKey, dir: Direction, x: TableRow, s: seq<TableRow>): (r: seq<TableRow>)
    ensures multiset(r) == multiset(s) + multiset{x}
    ensures |r| == |s| + 1
    ensures r[0] == x || (|s| > 0 && r[0] == s[0])
  {
    if s == [] then [x]
    else if Precedes(key, dir, x, s[0]) then [x] + s
    else
      assert s == [s[0]] + s[1..];
      [s[0]] + Insert(key, dir, x, s[1..])
  }

  lemma {:induction false} InsertOrdered(key: SortKey, dir: Direction, x: TableRow, s: seq<TableRow>)
    requires Ordered(key, dir, s)
    ensures Ordered(key, dir, Insert(key, dir, x, s))
  {
    if s != [] {
      PrecedesAsymmetric(key, dir, x, s[0]);
      if !Precedes(key, dir, x, s[0]) {
        InsertOrdered(key, dir, x, s[1..]);
      }
    }
  }

  /** `Array.prototype.sort` with the table's comparator: a stable insertion sort, row by row in input order. */
  function Sort(key: SortKey, dir: Direction, s: seq<TableRow>): (r: seq<TableRow>)
    ensures multiset(r) == multiset(s)
    ensures |r| == |s|
  {
    if s == [] then []
    else
      assert s == s[..|s| - 1] + [s[|s| - 1]];
      Insert(key, dir, s[|s| - 1], Sort(key, dir, s[..|s| - 1]))
  }

  lemma {:induction false} SortOrdered(key: SortKey, dir: Direction, s: seq<TableRow>)
    ensures Ordered(key, dir, Sort(key, dir, s))
  {
    if s != [] {
      SortOrdered(key, dir, s[..|s| - 1]);
      InsertOrdered(key, dir, s[|s| - 1], Sort(key, dir, s[..|s| - 1]));
    }
  }

  // ---------------------------------------------------------------------
  // The whole pipeline
  // ---------------------------------------------------------------------

  /** The table's controls, the date preset already turned into a window. */
  datatype Controls = Controls(
    query: string, window: Option<Window>, callStatus: Option<CallStatus>, followUp: Option<FollowUpStatus>,
    activity: Activity, sortBy: SortKey, dir: Direction)

  /** Every test a row must pass to be shown. */
  predicate Keep(ctl: Controls, t: TableRow) {
    && (SearchText(ctl.query) == "" || Matches(t, SearchText(ctl.query)))
    && InWindow(ctl.window, t)
    && StatusMatches(ctl.callStatus, ctl.followUp, t)
    && ActivityMatches(ctl.activity, t)
  }

  /** `filteredAll`: searched, then filtered by date, status and activity, then sorted. */
  function FilteredAll(rows: seq<TableRow>, ctl: Controls): seq<TableRow> {
    var searched := Search(rows, ctl.query);
    var dated := Filter(searched, WindowTest(ctl.window));
    var statused := Filter(dated, StatusTest(ctl.callStatus, ctl.followUp));
    var filtered := Filter(statused, ActivityTest(ctl.activity));
    Sort(ctl.sortBy, ctl.dir, filtered)
  }

  /** Filtering twice is filtering once by both tests. */
  lemma {:induction false} FilterFilter<T>(s: seq<T>, p: T -> bool, q: T -> bool, pq: T -> bool)
    requires forall x :: pq(x) == (p(x) && q(x))
    ensures Filter(Filter(s, p), q) == Filter(s, pq)
  {
    if s != [] {
      FilterFilter(s[1..], p, q, pq);
    }
  }

  function SearchTest(q: string): TableRow -> bool {
    t => q == "" || Matches(t, q)
  }

  function KeepTest(ctl: Controls): TableRow -> bool {
    t => Keep(ctl, t)
  }

  /** The search is a filter whose test a blank query always passes. */
  lemma SearchIsFilter(rows: seq<TableRow>, query: string)
    ensures Search(rows, query) == Filter(rows, SearchTest(SearchText(query)))
  {
    var q := SearchText(query);
    if q == "" {
      FilterAll(rows, SearchTest(q));
    } else {
      FilterSame(rows, MatchTest(q), SearchTest(q));
    }
  }

  function SearchWindowTest(ctl: Controls): TableRow -> bool {
    t => SearchTest(SearchText(ctl.query))(t) && InWindow(ctl.window, t)
  }

  function SearchWindowStatusTest(ctl: Controls): TableRow -> bool {
    t => SearchWindowTest(ctl)(t) && StatusMatches(ctl.callStatus, ctl.followUp, t)
  }

  /** The four filters in a row are one filter by `Keep`. */
  lemma FiltersAreKeep(rows: seq<TableRow>, ctl: Controls)
    ensures Filter(Filter(Filter(Search(rows, ctl.query), WindowTest(ctl.window)),
                          StatusTest(ctl.callStatus, ctl.followUp)), ActivityTest(ctl.activity))
         == Filter(rows, KeepTest(ctl))
  {
    SearchIsFilter(rows, ctl.query);
    FilterFilter(rows, SearchTest(SearchText(ctl.query)), WindowTest(ctl.window), SearchWindowTest(ctl));
    FilterFilter(rows, SearchWindowTest(ctl), StatusTest(ctl.callStatus, ctl.followUp), SearchWindowStatusTest(ctl));
    FilterFilter(rows, SearchWindowStatusTest(ctl), ActivityTest(ctl.activity), KeepTest(ctl));
  }

  /**
   * The shown rows are, up to order, exactly the fetched rows that pass
   * every test (with their repetitions), and they are in sort order.
   */
  lemma FilteredAllExactly(rows: seq<TableRow>, ctl: Controls)
    ensures multiset(FilteredAll(rows, ctl)) == multiset(Filter(rows, KeepTest(ctl)))
    ensures Ordered(ctl.sortBy, ctl.dir, FilteredAll(rows, ctl))
  {
    FiltersAreKeep(rows, ctl);
    var filtered := Filter(Filter(Filter(Search(rows, ctl.query), WindowTest(ctl.window)),
                                  StatusTest(ctl.callStatus, ctl.followUp)), ActivityTest(ctl.activity));
    SortOrdered(ctl.sortBy, ctl.dir, filtered);
  }

  /** Two tests that agree everywhere filter alike. */
  lemma {:induction false} FilterSame<T>(s: seq<T>, p: T -> bool, q: T -> bool)
    requires forall x :: p(x) == q(x)
    ensures Filter(s, p) == Filter(s, q)
  {
    if s != [] {
      FilterSame(s[1..], p, q);
    }
  }

  /** A test every record passes keeps the sequence as it is. */
  lemma {:induction false} FilterAll<T>(s: seq<T>, p: T -> bool)
    requires forall x :: p(x)
    ensures Filter(s, p) == s
  {
    if s != [] {
      FilterAll(s[1..], p);
    }
  }

  /** A row is shown exactly when it is among the fetched rows and passes every test. */
  lemma FilteredAllMembership(rows: seq<TableRow>, ctl: Controls, t: TableRow)
    ensures t in FilteredAll(rows, ctl) <==> t in rows && Keep(ctl, t)
  {
    FilteredAllExactly(rows, ctl);
    var kept := Filter(rows, KeepTest(ctl));
    assert t in FilteredAll(rows, ctl) <==> t in multiset(kept);
    if t in kept {
      var k :| 0 <= k < |kept| && kept[k] == t;
    }
    if t in rows && Keep(ctl, t) {
      var k :| 0 <= k < |rows| && rows[k] == t;
    }
  }

  // ---------------------------------------------------------------------
  // Pagination
  // ---------------------------------------------------------------------

  /** `Math.max(1, Math.ceil(total / pageSize))` */
  function TotalPages(total: nat, pageSize: nat): (n: nat)
    requires pageSize > 0
    ensures n >= 1
    ensures total == 0 ==> n == 1
    ensures total > 0 ==> (n - 1) * pageSize < total <= n * pageSize
  {
    if total == 0 then 1
    else
      var n := (total + pageSize - 1) / pageSize;
      assert n * pageSize <= total + pageSize - 1 < (n + 1) * pageSize;
      n
  }

  lemma {:induction false} MulMonotone(a: nat, b: nat, c: nat)
    requires a <= b
    ensures a * c <= b * c
  {
    if a < b {
      MulMonotone(a, b - 1, c);
      assert (b - 1) * c + c == b * c;
    }
  }

  /** Every page up to the last starts within the list, and a non-empty list's pages start before its end. */
  lemma PageStartBound(page: nat, total: nat, pageSize: nat)
    requires pageSize >= 1 && 1 <= page <= TotalPages(total, pageSize)
    ensures (page - 1) * pageSize <= total
    ensures total > 0 ==> (page - 1) * pageSize < total
    ensures page * pageSize == (page - 1) * pageSize + pageSize
  {
    MulMonotone(page - 1, TotalPages(total, pageSize) - 1, pageSize);
  }

  /** The rows `slice((page - 1) * pageSize, page * pageSize)`, the slice bounds clamped to the list. */
  function PageAt<T>(s: seq<T>, page: nat, pageSize: nat): seq<T>
    requires page >= 1
  {
    Slice(s, (page - 1) * pageSize, page * pageSize)
  }

  /** `s.slice(lo, hi)` for non-negative bounds: both clamped to the length, empty when `hi <= lo`. */
  function Slice<T>(s: seq<T>, lo: nat, hi: nat): (r: seq<T>)
    ensures lo <= hi <= |s| ==> r == s[lo..hi]
    ensures lo <= |s| <= hi ==> r == s[lo..]
    ensures |s| <= lo ==> r == []
  {
    var lo' := if lo < |s| then lo else |s|;
    var hi' := if hi < |s| then hi else |s|;
    if hi' <= lo' then [] else s[lo'..hi']
  }

  /** The index of the first row of a page. */
  function PageStart(page: nat, pageSize: nat): nat
    requires page >= 1
  {
    (page - 1) * pageSize
  }

  /** What the table shows: one page of the rows, and the pager's numbers. */
  datatype View<T> = View(paged: seq<T>, total: nat, totalPages: nat, currentPage: nat)

  /** `currentPage = Math.min(page, totalPages)` and its slice; the page state is always at least 1. */
  function Paginate<T>(s: seq<T>, page: nat, pageSize: nat): (v: View<T>)
    requires page >= 1 && pageSize >= 1
    ensures v.total == |s|
    ensures 1 <= v.currentPage <= v.totalPages
    ensures v.currentPage == (if page <= v.totalPages then page else v.totalPages)
    ensures |v.paged| <= pageSize
    ensures |s| > 0 ==> |v.paged| > 0
    ensures PageStart(v.currentPage, pageSize) + |v.paged| <= |s|
    ensures v.paged == s[PageStart(v.currentPage, pageSize)..PageStart(v.currentPage, pageSize) + |v.paged|]
  {
    var totalPages := TotalPages(|s|, pageSize);
    var current := if page < totalPages then page else totalPages;
    PageStartBound(current, |s|, pageSize);
    var lo := PageStart(current, pageSize);
    var paged := Slice(s, lo, lo + pageSize);
    assert lo <= |s| && (|s| > 0 ==> lo < |s|);
    assert |paged| <= pageSize && paged == s[lo..lo + |paged|] && (|s| > 0 ==> |paged| > 0) by {
      if lo + pageSize <= |s| {
        assert paged == s[lo..lo + pageSize];
      } else {
        assert paged == s[lo..];
      }
    }
    View(paged, |s|, totalPages, current)
  }

  /** Pages `1..n` laid end to end. */
  function Pages<T>(s: seq<T>, pageSize: nat, n: nat): seq<T> {
    if n == 0 then [] else Pages(s, pageSize, n - 1) + PageAt(s, n, pageSize)
  }

  lemma {:induction false} PagesArePrefix<T>(s: seq<T>, pageSize: nat, n: nat)
    ensures Pages(s, pageSize, n) == s[..if n * pageSize < |s| then n * pageSize else |s|]
  {
    if n > 0 {
      PagesArePrefix(s, pageSize, n - 1);
      assert (n - 1) * pageSize + pageSize == n * pageSize;
    }
  }

  /** The pages from the first to the last hold every row exactly once, in order. */
  lemma PagesPartition<T>(s: seq<T>, pageSize: nat)
    requires pageSize >= 1
    ensures Pages(s, pageSize, TotalPages(|s|, pageSize)) == s
  {
    PagesArePrefix(s, pageSize, TotalPages(|s|, pageSize));
  }

  /** Row `k` is shown on page `k / pageSize + 1`, at position `k % pageSize`. */
  lemma RowPage<T>(s: seq<T>, pageSize: nat, k: nat)
    requires pageSize >= 1 && k < |s|
    ensures var p := k / pageSize + 1;
      p <= TotalPages(|s|, pageSize)
      && k % pageSize < |Paginate(s, p, pageSize).paged|
      && Paginate(s, p, pageSize).paged[k % pageSize] == s[k]
  {
    var p := k / pageSize + 1;
    var n := TotalPages(|s|, pageSize);
    var lo := (p - 1) * pageSize;
    assert lo + k % pageSize == k;
    assert p <= n by {
      if p > n {
        MulMonotone(n, p - 1, pageSize);
      }
    }
    PageStartBound(p, |s|, pageSize);
  }

  /** Everything the table derives from its rows and controls. */
  function Derive(rows: seq<TableRow>, ctl: Controls, page: nat, pageSize: nat): View<TableRow>
    requires page >= 1 && pageSize >= 1
  {
    Paginate(FilteredAll(rows, ctl), page, pageSize)
  }
}
