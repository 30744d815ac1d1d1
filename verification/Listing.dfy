/** Directory listing in pages that follow a cursor. */
module DirectoryListing {
  import opened Wrappers
  import opened CodePointOrder
  import opened NameOrder

  datatype EntryType = File | Directory | Symlink | Other
  datatype Metadata = Metadata(kind: EntryType, size: Option<nat>)
  type Entry = Named<Metadata>

  datatype Cursor = Cursor(path: Name, after: Name)
  datatype Page = Page(entries: seq<Entry>, nextCursor: Option<Cursor>)
  datatype Error = InvalidCursor

  /** Names are distinct and not empty, as in any directory. */
  ghost predicate IsDirectory(dir: seq<Entry>) {
    DistinctNames(dir) && forall e :: e in dir ==> e.name != []
  }

  /** The position of the first entry behind the cursor, or the end. */
  function StartAt(sorted: seq<Entry>, after: Option<Name>, i: nat): nat
    requires i <= |sorted|
    decreases |sorted| - i
  {
    if after.None? then 0
    else if i == |sorted| then |sorted|
    else if Less(after.value, sorted[i].name) then i
    else StartAt(sorted, after, i + 1)
  }

  function PageOf(path: Name, sorted: seq<Entry>, after: Option<Name>, limit: nat): Page {
    var start := StartAt(sorted, after, 0);
    StartInRange(sorted, after, 0);
    var end := if start + limit < |sorted| then start + limit else |sorted|;
    var page := sorted[start..end];
    Page(page, if end < |sorted| && |page| > 0 then Some(Cursor(path, page[|page| - 1].name)) else None)
  }

  lemma {:induction false} StartInRange(sorted: seq<Entry>, after: Option<Name>, i: nat)
    requires i <= |sorted|
    ensures StartAt(sorted, after, i) <= |sorted|
    decreases |sorted| - i
  {
    if i < |sorted| { StartInRange(sorted, after, i + 1); }
  }

  predicate Accepted(path: Name, cursor: Option<Cursor>) {
    cursor.Some? ==> cursor.value.path == path && cursor.value.after != []
  }

  function After(cursor: Option<Cursor>): Option<Name> {
    if cursor.Some? then Some(cursor.value.after) else None
  }

  /** One listing of a directory as it is read now. */
  function Listed(path: Name, dir: seq<Entry>, cursor: Option<Cursor>, limit: nat): Result<Page, Error> {
    if !Accepted(path, cursor) then Err(InvalidCursor)
    else Ok(PageOf(path, Sort(dir), After(cursor), limit))
  }

  /** `findIndex` of the first name behind the cursor, or the length. */
  method FindStart(listed: seq<Entry>, after: Name) returns (start: nat)
    ensures start == StartAt(listed, Some(after), 0)
  {
    start := 0;
    while start < |listed|
      invariant 0 <= start <= |listed|
      invariant StartAt(listed, Some(after), 0) == StartAt(listed, Some(after), start)
    {
      var order := CompareCodePoints(after, listed[start].name);
      if order < 0 {
        break;
      }
      start := start + 1;
    }
  }

  // ---- Following the cursor while the directory changes. ----

  predicate Behind(after: Option<Name>, name: Name) {
    after.Some? ==> Less(after.value, name)
  }

  lemma {:induction false} StartSplits(sorted: seq<Entry>, after: Option<Name>, i: nat)
    requires i <= |sorted| && Increasing(sorted)
    ensures after.Some? ==> i <= StartAt(sorted, after, i)
    ensures StartAt(sorted, after, i) <= |sorted|
    ensures forall k :: i <= k < |sorted| ==> (StartAt(sorted, after, i) <= k <==> Behind(after, sorted[k].name))
    decreases |sorted| - i
  {
    if after.Some? && i < |sorted| {
      if Less(after.value, sorted[i].name) {
        forall k | i < k < |sorted| ensures Less(after.value, sorted[k].name) {
          StrictTotalOrder(after.value, sorted[i].name, sorted[k].name);
        }
      } else {
        StartSplits(sorted, after, i + 1);
      }
    }
  }

  /** The slice of the sorted directory that a page shows. */
  lemma {:induction false} PageSlice(path: Name, sorted: seq<Entry>, after: Option<Name>, limit: nat) returns (start: nat, end: nat)
    requires Increasing(sorted) && limit >= 1
    ensures start <= end <= |sorted| && PageOf(path, sorted, after, limit).entries == sorted[start..end]
    ensures forall k :: 0 <= k < |sorted| ==> (start <= k <==> Behind(after, sorted[k].name))
    ensures end <= start + limit && (end < |sorted| ==> end == start + limit)
    ensures PageOf(path, sorted, after, limit).nextCursor
         == if start < end < |sorted| then Some(Cursor(path, sorted[end - 1].name)) else None
  {
    StartSplits(sorted, after, 0);
    start := StartAt(sorted, after, 0);
    end := if start + limit < |sorted| then start + limit else |sorted|;
  }

  lemma {:induction false} PageEntry(path: Name, dir: seq<Entry>, after: Option<Name>, limit: nat, e: Entry)
    requires IsDirectory(dir) && limit >= 1 && e in PageOf(path, Sort(dir), after, limit).entries
    ensures e in dir && Behind(after, e.name) && e.name != []
  {
    var sorted := Sort(dir);
    SortIncreases(dir);
    var start, end := PageSlice(path, sorted, after, limit);
    var k :| 0 <= k < end - start && sorted[start..end][k] == e;
    assert sorted[start + k] == e;
    SortMember(dir, e);
  }

  lemma {:induction false} PageOrder(path: Name, sorted: seq<Entry>, after: Option<Name>, limit: nat)
    requires Increasing(sorted) && limit >= 1
    ensures var page := PageOf(path, sorted, after, limit);
            && Increasing(page.entries)
            && (page.nextCursor.Some? ==>
                  page.entries != [] && page.nextCursor.value == Cursor(path, page.entries[|page.entries| - 1].name))
  {
    var start, end := PageSlice(path, sorted, after, limit);
  }

  lemma {:induction false} PageCovers(path: Name, dir: seq<Entry>, after: Option<Name>, limit: nat, e: Entry)
    requires IsDirectory(dir) && limit >= 1 && e in dir && Behind(after, e.name)
    ensures var page := PageOf(path, Sort(dir), after, limit);
            e in page.entries || (page.nextCursor.Some? && Less(page.nextCursor.value.after, e.name))
  {
    var sorted := Sort(dir);
    SortIncreases(dir);
    var start, end := PageSlice(path, sorted, after, limit);
    SortMember(dir, e);
    var k :| 0 <= k < |sorted| && sorted[k] == e;
    if k < end { assert sorted[start..end][k - start] == e; }
  }

  /** What one page holds: in order, only entries behind the cursor, up to the next cursor; and
      every such entry of the directory. It is full if there is a next cursor. */
  ghost predicate Holds(path: Name, dir: seq<Entry>, after: Option<Name>, limit: nat, page: Page) {
    && (forall i, j :: 0 <= i < j < |page.entries| ==> Less(page.entries[i].name, page.entries[j].name))
    && (forall e :: e in page.entries ==> e in dir && (after.Some? ==> Less(after.value, e.name)))
    && |page.entries| <= limit
    && (page.nextCursor.Some? ==>
          && |page.entries| == limit && page.entries != [] && page.nextCursor.value.path == path
          && page.nextCursor.value.after == page.entries[|page.entries| - 1].name && page.nextCursor.value.after != [])
    && (forall e :: e in dir && (after.Some? ==> Less(after.value, e.name)) ==>
                      e in page.entries || (page.nextCursor.Some? && Less(page.nextCursor.value.after, e.name)))
  }

  lemma {:induction false} PageHolds(path: Name, dir: seq<Entry>, after: Option<Name>, limit: nat)
    requires IsDirectory(dir) && limit >= 1
    ensures Holds(path, dir, after, limit, PageOf(path, Sort(dir), after, limit))
  {
    SortIncreases(dir);
    PageOrder(path, Sort(dir), after, limit);
    var start, end := PageSlice(path, Sort(dir), after, limit);
    forall e | e in PageOf(path, Sort(dir), after, limit).entries ensures e in dir && Behind(after, e.name) && e.name != [] {
      PageEntry(path, dir, after, limit, e);
    }
    forall e | e in dir && Behind(after, e.name)
      ensures e in PageOf(path, Sort(dir), after, limit).entries ||
              (PageOf(path, Sort(dir), after, limit).nextCursor.Some? &&
               Less(PageOf(path, Sort(dir), after, limit).nextCursor.value.after, e.name))
    {
      PageCovers(path, dir, after, limit, e);
    }
  }

  /** A listing refuses a cursor that was made for another path or has no name, and nothing else; it
      returns one page of the sorted directory. */
  method List(path: Name, dir: seq<Entry>, cursor: Option<Cursor>, limit: nat) returns (r: Result<Page, Error>)
    requires 1 <= limit <= 1000
    ensures r == Listed(path, dir, cursor, limit)
    ensures r.Err? <==> cursor.Some? && (cursor.value.path != path || cursor.value.after == [])
    ensures r.Ok? && IsDirectory(dir) ==>
              Holds(path, dir, if cursor.Some? then Some(cursor.value.after) else None, limit, r.value)
  {
    if IsDirectory(dir) {
      PageHolds(path, dir, After(cursor), limit);
    }
    if cursor.Some? && (cursor.value.path != path || cursor.value.after == []) {
      return Err(InvalidCursor);
    }
    var listed := Sort(dir);
    var start := 0;
    if cursor.Some? {
      start := FindStart(listed, cursor.value.after);
      StartInRange(listed, After(cursor), 0);
    }
    var end := if start + limit < |listed| then start + limit else |listed|;
    var page := listed[start..end];
    var hasMore := end < |listed|;
    return Ok(Page(page, if hasMore && |page| > 0 then Some(Cursor(path, page[|page| - 1].name)) else None));
  }

  /** The pages of a client that follows the cursor; dirs[k] is the directory when page k is read. */
  function Walk(path: Name, dirs: seq<seq<Entry>>, limits: seq<nat>, after: Option<Name>): seq<Entry>
    requires |limits| == |dirs|
    decreases |dirs|
  {
    if dirs == [] then []
    else
      var page := PageOf(path, Sort(dirs[0]), after, limits[0]);
      page.entries + if page.nextCursor.Some? then Walk(path, dirs[1..], limits[1..], Some(page.nextCursor.value.after)) else []
  }

  /** The walk got to a page without a next cursor. */
  predicate Ends(path: Name, dirs: seq<seq<Entry>>, limits: seq<nat>, after: Option<Name>)
    requires |limits| == |dirs|
    decreases |dirs|
  {
    dirs != [] &&
    var page := PageOf(path, Sort(dirs[0]), after, limits[0]);
    page.nextCursor.Some? ==> Ends(path, dirs[1..], limits[1..], Some(page.nextCursor.value.after))
  }

  ghost predicate Directories(dirs: seq<seq<Entry>>, limits: seq<nat>) {
    && |limits| == |dirs| && (forall d :: d in dirs ==> IsDirectory(d)) && (forall l :: l in limits ==> l >= 1)
  }

  lemma {:induction false} Rest(dirs: seq<seq<Entry>>, limits: seq<nat>)
    requires Directories(dirs, limits) && dirs != []
    ensures IsDirectory(dirs[0]) && limits[0] >= 1 && Directories(dirs[1..], limits[1..])
  {
    assert dirs[0] in dirs && limits[0] in limits;
    assert forall d :: d in dirs[1..] ==> d in dirs;
    assert forall l :: l in limits[1..] ==> l in limits;
  }

  /** Every cursor that was handed out is accepted when it comes back for the same path. */
  lemma {:induction false} CursorComesBack(path: Name, dir: seq<Entry>, cursor: Option<Cursor>, limit: nat)
    requires IsDirectory(dir) && limit >= 1 && Listed(path, dir, cursor, limit).Ok?
    ensures Accepted(path, Listed(path, dir, cursor, limit).value.nextCursor)
  {
    PageHolds(path, dir, After(cursor), limit);
  }

  ghost predicate AllBehind(s: seq<Entry>, after: Option<Name>) {
    forall i :: 0 <= i < |s| ==> Behind(after, s[i].name)
  }

  lemma {:induction false} PageBehind(path: Name, dir: seq<Entry>, after: Option<Name>, limit: nat)
    requires IsDirectory(dir) && limit >= 1
    ensures AllBehind(PageOf(path, Sort(dir), after, limit).entries, after)
  {
    var entries := PageOf(path, Sort(dir), after, limit).entries;
    forall i | 0 <= i < |entries| ensures Behind(after, entries[i].name) {
      PageEntry(path, dir, after, limit, entries[i]);
    }
  }

  /** Whatever happens to the directory between the pages, the names come in strictly
      increasing order, so none comes twice. */
  lemma {:induction false} WalkIncreases(path: Name, dirs: seq<seq<Entry>>, limits: seq<nat>, after: Option<Name>)
    requires Directories(dirs, limits)
    ensures Increasing(Walk(path, dirs, limits, after))
    ensures AllBehind(Walk(path, dirs, limits, after), after)
    decreases |dirs|
  {
    if dirs != [] {
      Rest(dirs, limits);
      SortIncreases(dirs[0]);
      PageOrder(path, Sort(dirs[0]), after, limits[0]);
      PageBehind(path, dirs[0], after, limits[0]);
      var page := PageOf(path, Sort(dirs[0]), after, limits[0]);
      if page.nextCursor.Some? {
        var next := page.nextCursor.value.after;
        WalkIncreases(path, dirs[1..], limits[1..], Some(next));
        WalkJoins(page.entries, Walk(path, dirs[1..], limits[1..], Some(next)), next, after);
      }
    }
  }

  lemma {:induction false} WalkJoins(page: seq<Entry>, rest: seq<Entry>, next: Name, after: Option<Name>)
    requires Increasing(page) && Increasing(rest) && page != [] && next == page[|page| - 1].name
    requires AllBehind(rest, Some(next)) && AllBehind(page, after)
    ensures Increasing(page + rest) && AllBehind(page + rest, after)
  {
    var s := page + rest;
    forall i, j | 0 <= i < j < |s| ensures Less(s[i].name, s[j].name) {
      if i < |page| <= j {
        assert Behind(Some(next), rest[j - |page|].name);
        StrictTotalOrder(page[i].name, next, s[j].name);
      }
    }
    forall i | 0 <= i < |s| ensures Behind(after, s[i].name) {
      if i >= |page| && after.Some? {
        assert Behind(Some(next), rest[i - |page|].name) && Behind(after, page[|page| - 1].name);
        StrictTotalOrder(after.value, next, s[i].name);
      }
    }
  }

  ghost predicate HasName(s: seq<Entry>, name: Name) {
    exists e :: e in s && e.name == name
  }

  /** A walk that got to the end returned every name that was there at all its reads. */
  lemma {:induction false} WalkMissesNothing(path: Name, dirs: seq<seq<Entry>>, limits: seq<nat>, after: Option<Name>, name: Name)
    requires Directories(dirs, limits) && Ends(path, dirs, limits, after)
    requires Behind(after, name) && forall d :: d in dirs ==> HasName(d, name)
    ensures HasName(Walk(path, dirs, limits, after), name)
    decreases |dirs|
  {
    Rest(dirs, limits);
    var page := PageOf(path, Sort(dirs[0]), after, limits[0]);
    PageHolds(path, dirs[0], after, limits[0]);
    assert HasName(dirs[0], name);
    var e :| e in dirs[0] && e.name == name;
    if e in page.entries {
      assert e in Walk(path, dirs, limits, after);
    } else {
      var next := Some(page.nextCursor.value.after);
      WalkMissesNothing(path, dirs[1..], limits[1..], next, name);
      var x :| x in Walk(path, dirs[1..], limits[1..], next) && x.name == name;
      assert x in Walk(path, dirs, limits, after);
    }
  }

  function Copies<T>(x: T, n: nat): seq<T> {
    seq(n, i => x)
  }

  /** The entries behind the cursor. */
  function Remaining(sorted: seq<Entry>, after: Option<Name>): seq<Entry> {
    StartInRange(sorted, after, 0);
    sorted[StartAt(sorted, after, 0)..]
  }

  /** Behind the name of an entry, the listing goes on with the entry after it. */
  lemma {:induction false} StartBehind(sorted: seq<Entry>, k: nat)
    requires Increasing(sorted) && k < |sorted|
    ensures StartAt(sorted, Some(sorted[k].name), 0) == k + 1
  {
    var after := Some(sorted[k].name);
    StartSplits(sorted, after, 0);
    StrictTotalOrder(sorted[k].name, sorted[k].name, sorted[k].name);
    assert !Behind(after, sorted[k].name);
    if k + 1 < |sorted| { assert Behind(after, sorted[k + 1].name); }
  }

  lemma {:induction false} CutAt(sorted: seq<Entry>, start: nat, end: nat)
    requires start <= end <= |sorted|
    ensures sorted[start..] == sorted[start..end] + sorted[end..]
  {
  }

  /** A page with a next cursor is full, and the listing goes on right behind it. */
  lemma {:induction false} MorePages(path: Name, sorted: seq<Entry>, after: Option<Name>, limit: nat)
    requires Increasing(sorted) && limit >= 1 && StartAt(sorted, after, 0) + limit < |sorted|
    ensures var page := PageOf(path, sorted, after, limit);
            && page.nextCursor.Some? && |page.entries| == limit
            && Remaining(sorted, after) == page.entries + Remaining(sorted, Some(page.nextCursor.value.after))
  {
    var start := StartAt(sorted, after, 0);
    StartBehind(sorted, start + limit - 1);
    CutAt(sorted, start, start + limit);
  }

  /** A page without one shows all that is left. */
  lemma {:induction false} LastPage(path: Name, sorted: seq<Entry>, after: Option<Name>, limit: nat)
    requires limit >= 1 && StartAt(sorted, after, 0) + limit >= |sorted|
    ensures var page := PageOf(path, sorted, after, limit);
            page.nextCursor.None? && page.entries == Remaining(sorted, after)
  {
    StartInRange(sorted, after, 0);
  }

  lemma {:induction false} OnePageLess(rest: nat, limit: nat, n: nat)
    requires n >= 1 && rest + limit <= n * limit
    ensures rest <= (n - 1) * limit
  {
  }

  /** The pages of an unchanged directory. */
  function FixedWalk(path: Name, dir: seq<Entry>, limit: nat, after: Option<Name>, n: nat): seq<Entry> {
    Walk(path, Copies(dir, n), Copies(limit, n), after)
  }

  predicate FixedEnds(path: Name, dir: seq<Entry>, limit: nat, after: Option<Name>, n: nat) {
    Ends(path, Copies(dir, n), Copies(limit, n), after)
  }

  lemma {:induction false} FixedStep(path: Name, dir: seq<Entry>, limit: nat, after: Option<Name>, n: nat)
    requires n >= 1
    ensures var page := PageOf(path, Sort(dir), after, limit);
            && FixedWalk(path, dir, limit, after, n) ==
               page.entries + (if page.nextCursor.Some? then FixedWalk(path, dir, limit, Some(page.nextCursor.value.after), n - 1) else [])
            && (FixedEnds(path, dir, limit, after, n) <==>
                (page.nextCursor.Some? ==> FixedEnds(path, dir, limit, Some(page.nextCursor.value.after), n - 1)))
  {
    assert Copies(dir, n)[1..] == Copies(dir, n - 1) && Copies(limit, n)[1..] == Copies(limit, n - 1);
    assert Copies(dir, n)[0] == dir && Copies(limit, n)[0] == limit;
  }

  /** On a directory that does not change, the pages together are the sorted rest, and the walk
      ends within any n pages that can hold that rest. */
  lemma {:induction false} FixedDirectory(path: Name, dir: seq<Entry>, limit: nat, after: Option<Name>, n: nat)
    requires IsDirectory(dir) && limit >= 1 && n >= 1
    requires |Remaining(Sort(dir), after)| <= n * limit
    ensures FixedEnds(path, dir, limit, after, n)
    ensures FixedWalk(path, dir, limit, after, n) == Remaining(Sort(dir), after)
    decreases n
  {
    SortIncreases(dir);
    FixedStep(path, dir, limit, after, n);
    if StartAt(Sort(dir), after, 0) + limit < |Sort(dir)| {
      MorePages(path, Sort(dir), after, limit);
      var next := Some(PageOf(path, Sort(dir), after, limit).nextCursor.value.after);
      MoreIsLeft(Sort(dir), after, limit);
      OnePageLess(|Remaining(Sort(dir), next)|, limit, n);
      if n > 1 {
        FixedDirectory(path, dir, limit, next, n - 1);
      }
    } else {
      LastPage(path, Sort(dir), after, limit);
    }
  }

  lemma {:induction false} MoreIsLeft(sorted: seq<Entry>, after: Option<Name>, limit: nat)
    requires StartAt(sorted, after, 0) + limit < |sorted|
    ensures |Remaining(sorted, after)| > limit
  {
  }

  lemma {:induction false} AtLeastOnePer(n: nat, limit: nat)
    requires limit >= 1
    ensures n <= n * limit
  {
    assert n * limit == n + n * (limit - 1);
  }

  lemma {:induction false} AllRemains(dir: seq<Entry>, limit: nat)
    requires IsDirectory(dir) && limit >= 1
    ensures Remaining(Sort(dir), None) == Sort(dir)
    ensures |Remaining(Sort(dir), None)| <= (|dir| + 1) * limit
  {
    SortIncreases(dir);
    AtLeastOnePer(|dir| + 1, limit);
  }

  /** Walking a fixed directory from the start lists it once, in order. */
  lemma {:induction false} FixedDirectoryListsAll(path: Name, dir: seq<Entry>, limit: nat)
    requires IsDirectory(dir) && limit >= 1
    ensures FixedEnds(path, dir, limit, None, |dir| + 1)
    ensures FixedWalk(path, dir, limit, None, |dir| + 1) == Sort(dir)
  {
    AllRemains(dir, limit);
    FixedDirectory(path, dir, limit, None, |dir| + 1);
  }
}
