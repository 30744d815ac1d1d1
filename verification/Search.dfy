/** The bounded recursive search of a directory tree. */
module TreeSearch {
  import opened Utf16
  import opened Wrappers
  import opened CodePointOrder
  import opened NameOrder
  import opened ExactPatch

  /** What reading a file gives: nothing, or its size and its decoded text (None when binary). */
  datatype Content = Unreadable | Readable(size: nat, text: Option<Text>)

  /** A directory is admitted when its real path resolves inside the workspace. */
  datatype Node = File(content: Content) | Dir(admitted: bool, children: seq<Child>) | Symlink | Special
  type Child = Named<Node>
  type Path = seq<Name>

  /** Lines and columns count from 1; both are 0 when the search has no query. */
  datatype Match = Match(path: Path, line: nat, column: nat, preview: Option<Text>)

  /** The request. Glob matching and UTF-8 lengths are uninterpreted. */
  datatype Options = Options(
    glob: Path -> bool,
    query: Option<Text>,
    maxDepth: nat,
    maxFileBytes: nat,
    maxResults: nat,
    maxBytes: nat,
    pathBytes: Path -> nat,
    textBytes: Text -> nat)

  /** A query has at least one character. */
  predicate ValidOptions(o: Options) {
    o.query.Some? ==> o.query.value != []
  }

  const MAX_SEARCH_ENTRIES: nat := 50_000
  const PREVIEW_CHARACTERS: nat := 300
  const NEWLINE: Unit := 0x0A
  const ELLIPSIS: Unit := 0x2026

  function BoundedPreview(line: Text): Text {
    if |line| <= PREVIEW_CHARACTERS then line else line[..PREVIEW_CHARACTERS] + [ELLIPSIS]
  }

  function Estimate(o: Options, m: Match): nat {
    o.pathBytes(m.path) + (if m.preview.Some? then o.textBytes(m.preview.value) else 0) + 64
  }

  function Total(o: Options, matches: seq<Match>): nat {
    if matches == [] then 0 else Total(o, matches[..|matches| - 1]) + Estimate(o, matches[|matches| - 1])
  }

  // ---- What a search without limits finds. ----

  /** `split` at line feeds: always at least one line. */
  function Lines(text: Text): (r: seq<Text>)
    ensures r != []
  {
    if text == [] then [[]]
    else
      var lines, last := Lines(text[..|text| - 1]), text[|text| - 1];
      if last == NEWLINE then lines + [[]]
      else lines[..|lines| - 1] + [lines[|lines| - 1] + [last]]
  }

  /** The positions the inner loop visits in one line. */
  function Hits(line: Text, query: Text, from: nat): seq<nat>
    requires query != []
    decreases |line| - from
  {
    var found := IndexOf(line, query, from);
    if found < 0 then [] else [found] + Hits(line, query, found + |query|)
  }

  function HitMatch(path: Path, number: nat, line: Text, hit: nat): Match {
    Match(path, number, hit + 1, Some(BoundedPreview(line)))
  }

  /** The matches for the hits of one line. */
  function HitMatches(path: Path, number: nat, line: Text, hits: seq<nat>): seq<Match> {
    if hits == [] then []
    else HitMatches(path, number, line, hits[..|hits| - 1]) + [HitMatch(path, number, line, hits[|hits| - 1])]
  }

  function LineMatches(path: Path, query: Text, lines: seq<Text>): seq<Match>
    requires query != []
  {
    if lines == [] then []
    else
      var n := |lines|;
      LineMatches(path, query, lines[..n - 1]) + HitMatches(path, n, lines[n - 1], Hits(lines[n - 1], query, 0))
  }

  /** Matches, and the counts that go with them. */
  datatype Findings = Findings(matches: seq<Match>, entries: nat, files: nat, binary: nat, oversized: nat)

  const NOTHING := Findings([], 0, 0, 0, 0)
  const ENTRY := NOTHING.(entries := 1)
  const FILE := NOTHING.(files := 1)

  function Both(a: Findings, b: Findings): Findings {
    Findings(a.matches + b.matches, a.entries + b.entries, a.files + b.files, a.binary + b.binary, a.oversized + b.oversized)
  }

  function TextFindings(o: Options, path: Path, content: Content): Findings
    requires o.query.Some? && ValidOptions(o)
  {
    if content.Unreadable? then NOTHING
    else if content.size > o.maxFileBytes then NOTHING.(oversized := 1)
    else if content.text.None? then NOTHING.(binary := 1)
    else NOTHING.(matches := LineMatches(path, o.query.value, Lines(content.text.value)))
  }

  function OneFinding(m: Match): Findings {
    NOTHING.(matches := [m])
  }

  function ChosenFindings(o: Options, path: Path, content: Content): Findings
    requires ValidOptions(o)
  {
    if o.query.None? then OneFinding(Match(path, 0, 0, None)) else TextFindings(o, path, content)
  }

  function FileFindings(o: Options, path: Path, content: Content): Findings
    requires ValidOptions(o)
  {
    if !o.glob(path) then NOTHING
    else Both(FILE, ChosenFindings(o, path, content))
  }

  function ChildFindings(o: Options, path: Path, child: Child, depth: nat): Findings
    requires ValidOptions(o) && depth <= o.maxDepth
    decreases o.maxDepth - depth, 0
  {
    match child.item
    case File(content) => FileFindings(o, path + [child.name], content)
    case Dir(admitted, children) =>
      if depth >= o.maxDepth || !admitted then NOTHING
      else DirFindings(o, path + [child.name], Sort(children), depth + 1)
    case Symlink => NOTHING
    case Special => NOTHING
  }

  function DirFindings(o: Options, path: Path, sorted: seq<Child>, depth: nat): Findings
    requires ValidOptions(o) && depth <= o.maxDepth
    decreases o.maxDepth - depth, |sorted| + 1
  {
    if sorted == [] then NOTHING
    else
      var n := |sorted|;
      Both(DirFindings(o, path, sorted[..n - 1], depth), Both(ENTRY, ChildFindings(o, path, sorted[n - 1], depth)))
  }

  // ---- Subsequences. ----

  predicate IsSub(a: seq<Match>, b: seq<Match>) {
    a == [] ||
    (b != [] &&
     ((a[|a| - 1] == b[|b| - 1] && IsSub(a[..|a| - 1], b[..|b| - 1])) || IsSub(a, b[..|b| - 1])))
  }

  lemma {:induction false} SubSame(a: seq<Match>)
    ensures IsSub(a, a)
  {
    if a != [] { SubSame(a[..|a| - 1]); }
  }

  /** A subsequence is read off at increasing positions. */
  lemma {:induction false} SubMeans(a: seq<Match>, b: seq<Match>) returns (at: seq<nat>)
    requires IsSub(a, b)
    ensures |at| == |a| && forall i :: 0 <= i < |a| ==> at[i] < |b| && b[at[i]] == a[i]
    ensures forall i, j :: 0 <= i < j < |at| ==> at[i] < at[j]
    decreases |b|
  {
    if a == [] {
      at := [];
    } else {
      var c := b[..|b| - 1];
      if a[|a| - 1] == b[|b| - 1] && IsSub(a[..|a| - 1], c) {
        var init := SubMeans(a[..|a| - 1], c);
        at := init + [|b| - 1];
      } else {
        at := SubMeans(a, c);
      }
    }
  }

  lemma {:induction false} SubConcat(a: seq<Match>, b: seq<Match>, c: seq<Match>, d: seq<Match>)
    requires IsSub(a, b) && IsSub(c, d)
    ensures IsSub(a + c, b + d)
    decreases |d|
  {
    if d == [] {
      assert a + c == a && b + d == b;
    } else {
      var d' := d[..|d| - 1];
      assert (b + d)[..|b + d| - 1] == b + d';
      if c == [] {
        SubConcat(a, b, c, d');
        assert a + c == a;
      } else {
        if c[|c| - 1] == d[|d| - 1] && IsSub(c[..|c| - 1], d') {
          assert (a + c)[..|a + c| - 1] == a + c[..|c| - 1];
          SubConcat(a, b, c[..|c| - 1], d');
        } else {
          SubConcat(a, b, c, d');
        }
      }
    }
  }

  // ---- What a part of the walk does to the shared state. ----

  datatype Progress = Progress(found: Findings, truncated: bool)

  /** Nothing in these findings reaches a limit. */
  predicate Fits(o: Options, f: Findings) {
    |f.matches| <= o.maxResults && Total(o, f.matches) <= o.maxBytes && f.entries < MAX_SEARCH_ENTRIES
  }

  predicate NoMoreThan(f: Findings, g: Findings) {
    f.entries <= g.entries && f.files <= g.files && f.binary <= g.binary && f.oversized <= g.oversized
  }

  /** A match is taken when there is room for it, whatever was refused before. */
  function Offer(o: Options, taken: seq<Match>, m: Match): seq<Match> {
    if |taken| >= o.maxResults || Total(o, taken) + Estimate(o, m) > o.maxBytes then taken else taken + [m]
  }

  /** What is taken of matches that come one after the other. */
  function Offered(o: Options, taken: seq<Match>, matches: seq<Match>): seq<Match> {
    if matches == [] then taken
    else Offer(o, Offered(o, taken, matches[..|matches| - 1]), matches[|matches| - 1])
  }

  /** As long as the number of entries is no limit, all expected matches were offered in order,
      everything was counted, and the search is truncated iff a match was refused. */
  ghost predicate AllOffered(o: Options, a: Progress, b: Progress, expected: Findings) {
    a.found.entries + expected.entries < MAX_SEARCH_ENTRIES ==>
      && b.found == Both(a.found, expected).(matches := Offered(o, a.found.matches, expected.matches))
      && (b.truncated <==> a.truncated || |b.found.matches| < |a.found.matches| + |expected.matches|)
  }

  /** From a to b a part of the expected findings was added; all of them, unless the search now
      says that it is truncated; and it says so only when some limit is in the way. */
  ghost predicate Searched(o: Options, a: Progress, b: Progress, expected: Findings) {
    && a.found.matches <= b.found.matches
    && IsSub(b.found.matches[|a.found.matches|..], expected.matches)
    && NoMoreThan(b.found, Both(a.found, expected))
    && (a.truncated ==> b.truncated)
    && (!b.truncated ==> b.found == Both(a.found, expected))
    && (!a.truncated && Fits(o, Both(a.found, expected)) ==> !b.truncated)
    && AllOffered(o, a, b, expected)
  }

  lemma {:induction false} OfferedTwice(o: Options, taken: seq<Match>, e: seq<Match>, f: seq<Match>)
    ensures Offered(o, taken, e + f) == Offered(o, Offered(o, taken, e), f)
    decreases |f|
  {
    if f == [] {
      assert e + f == e;
    } else {
      var g := f[..|f| - 1];
      assert (e + f)[..|e + f| - 1] == e + g && (e + f)[|e + f| - 1] == f[|f| - 1];
      OfferedTwice(o, taken, e, g);
    }
  }

  /** The next match is taken iff there is still room for it in number and in bytes. */
  lemma {:induction false} OfferedNext(o: Options, taken: seq<Match>, matches: seq<Match>, m: Match)
    ensures var before := Offered(o, taken, matches);
            var bytes := o.pathBytes(m.path) + (match m.preview case Some(text) => o.textBytes(text) case None => 0) + 64;
            Offered(o, taken, matches + [m])
            == if |before| < o.maxResults && Total(o, before) + bytes <= o.maxBytes then before + [m] else before
  {
    assert (matches + [m])[..|matches|] == matches;
  }

  lemma {:induction false} OfferedLength(o: Options, taken: seq<Match>, e: seq<Match>)
    ensures |taken| <= |Offered(o, taken, e)| <= |taken| + |e|
  {
    if e != [] { OfferedLength(o, taken, e[..|e| - 1]); }
  }

  lemma {:induction false} AllOfferedTwice(o: Options, a: Progress, b: Progress, c: Progress, e: Findings, f: Findings)
    requires AllOffered(o, a, b, e) && AllOffered(o, b, c, f) && (b.truncated ==> c.truncated)
    requires NoMoreThan(b.found, Both(a.found, e))
    ensures AllOffered(o, a, c, Both(e, f))
  {
    if a.found.entries + e.entries + f.entries < MAX_SEARCH_ENTRIES {
      OfferedTwice(o, a.found.matches, e.matches, f.matches);
      RefusedTwice(o, a.found.matches, e.matches, f.matches);
    }
  }

  /** Something of two lists is refused iff something of one of them is. */
  lemma {:induction false} RefusedTwice(o: Options, taken: seq<Match>, e: seq<Match>, f: seq<Match>)
    ensures var first := Offered(o, taken, e);
            |Offered(o, first, f)| < |taken| + |e + f| <==> |first| < |taken| + |e| || |Offered(o, first, f)| < |first| + |f|
  {
    OfferedLength(o, taken, e);
    OfferedLength(o, Offered(o, taken, e), f);
  }

  lemma {:induction false} TotalGrows(o: Options, a: seq<Match>, b: seq<Match>)
    ensures Total(o, a) <= Total(o, a + b)
  {
    if b == [] {
      assert a + b == a;
    } else {
      TotalGrows(o, a, b[..|b| - 1]);
      assert (a + b)[..|a + b| - 1] == a + b[..|b| - 1];
    }
  }

  lemma {:induction false} BothAssociative(a: Findings, b: Findings, c: Findings)
    ensures Both(Both(a, b), c) == Both(a, Both(b, c))
  {
    assert a.matches + b.matches + c.matches == a.matches + (b.matches + c.matches);
  }

  lemma {:induction false} NothingMore(a: Findings)
    ensures Both(a, NOTHING) == a && Both(NOTHING, a) == a
  {
    assert a.matches + [] == a.matches && [] + a.matches == a.matches;
  }

  lemma {:induction false} PartFits(o: Options, a: Findings, b: Findings)
    requires Fits(o, Both(a, b))
    ensures Fits(o, a)
  {
    TotalGrows(o, a.matches, b.matches);
  }

  lemma {:induction false} SearchedSub(o: Options, a: Progress, b: Progress, c: Progress, e: Findings, f: Findings)
    requires Searched(o, a, b, e) && Searched(o, b, c, f)
    ensures a.found.matches <= c.found.matches
    ensures IsSub(c.found.matches[|a.found.matches|..], (e.matches + f.matches))
  {
    var x, y, z := a.found.matches, b.found.matches, c.found.matches;
    assert z[|x|..] == y[|x|..] + z[|y|..];
    SubConcat(y[|x|..], e.matches, z[|y|..], f.matches);
  }

  lemma {:induction false} SearchedTwice(o: Options, a: Progress, b: Progress, c: Progress, e: Findings, f: Findings)
    requires Searched(o, a, b, e) && Searched(o, b, c, f)
    ensures Searched(o, a, c, Both(e, f))
  {
    SearchedSub(o, a, b, c, e, f);
    AllOfferedTwice(o, a, b, c, e, f);
    BothAssociative(a.found, e, f);
    if !a.truncated && Fits(o, Both(a.found, Both(e, f))) {
      PartFits(o, Both(a.found, e), f);
    }
  }

  lemma {:induction false} SearchedNothing(o: Options, a: Progress)
    ensures Searched(o, a, a, NOTHING)
  {
    NothingMore(a.found);
  }

  /** Stopping early, with a limit in the way, is a search of everything. */
  lemma {:induction false} StoppedEarly(o: Options, a: Progress, b: Progress, done: Findings, rest: Findings)
    requires Searched(o, a, b, done) && b.found.entries + rest.entries >= MAX_SEARCH_ENTRIES
    requires a.found.entries + done.entries + rest.entries >= MAX_SEARCH_ENTRIES
    ensures Searched(o, a, b.(truncated := true), Both(done, rest))
  {
    BothAssociative(a.found, done, rest);
    SubConcat(b.found.matches[|a.found.matches|..], done.matches, [], rest.matches);
    assert b.found.matches[|a.found.matches|..] + [] == b.found.matches[|a.found.matches|..];
  }

  /** The state that the whole recursion shares. */
  class SearchState {
    var matches: seq<Match>
    var truncated: bool
    var outputBytes: nat
    var scannedEntries: nat
    var scannedFiles: nat
    var skippedBinary: nat
    var skippedOversized: nat

    constructor ()
      ensures Now() == Progress(NOTHING, false) && outputBytes == 0
    {
      matches, truncated := [], false;
      outputBytes, scannedEntries, scannedFiles, skippedBinary, skippedOversized := 0, 0, 0, 0, 0;
    }

    ghost function Now(): Progress
      reads this
    {
      Progress(Findings(matches, scannedEntries, scannedFiles, skippedBinary, skippedOversized), truncated)
    }

    /** The bounds that hold at any time. */
    ghost predicate Within(o: Options)
      reads this
    {
      && |matches| <= o.maxResults
      && outputBytes == Total(o, matches) && outputBytes <= o.maxBytes
      && scannedFiles <= scannedEntries && scannedFiles <= MAX_SEARCH_ENTRIES
      && (truncated || scannedEntries <= MAX_SEARCH_ENTRIES)
    }
  }

  lemma {:induction false} OneMatch(o: Options, before: seq<Match>, m: Match)
    ensures Total(o, before + [m]) == Total(o, before) + Estimate(o, m)
    ensures Estimate(o, m) == o.pathBytes(m.path) + (match m.preview case Some(text) => o.textBytes(text) case None => 0) + 64
  {
    assert (before + [m])[..|before|] == before;
  }

  method AppendSearchMatch(o: Options, state: SearchState, m: Match)
    requires state.Within(o)
    modifies state
    ensures state.Within(o)
    ensures state.matches == Offer(o, old(state.matches), m)
    ensures var bytes := o.pathBytes(m.path) + (match m.preview case Some(text) => o.textBytes(text) case None => 0) + 64;
            if |old(state.matches)| < o.maxResults && old(state.outputBytes) + bytes <= o.maxBytes then
              && state.matches == old(state.matches) + [m] && state.outputBytes == old(state.outputBytes) + bytes
              && state.truncated == old(state.truncated)
            else
              state.matches == old(state.matches) && state.outputBytes == old(state.outputBytes) && state.truncated
    ensures Searched(o, old(state.Now()), state.Now(), OneFinding(m))
    ensures state.scannedEntries == old(state.scannedEntries) && state.scannedFiles == old(state.scannedFiles)
  {
    var estimatedBytes := Estimate(o, m);
    OneMatch(o, state.matches, m);
    if |state.matches| >= o.maxResults || state.outputBytes + estimatedBytes > o.maxBytes {
      state.truncated := true;
      return;
    }
    state.matches := state.matches + [m];
    state.outputBytes := state.outputBytes + estimatedBytes;
    SubSame([m]);
  }

  function LineFindings(path: Path, number: nat, line: Text, hits: seq<nat>): Findings {
    NOTHING.(matches := HitMatches(path, number, line, hits))
  }

  lemma {:induction false} HitAppended(path: Path, number: nat, line: Text, hits: seq<nat>, found: nat, more: seq<nat>)
    requires more == hits + [found]
    ensures LineFindings(path, number, line, more)
         == Both(LineFindings(path, number, line, hits), OneFinding(HitMatch(path, number, line, found)))
  {
    assert more[..|hits|] == hits;
  }

  lemma {:induction false} OneMoreHit(o: Options, a: Progress, b: Progress, c: Progress, path: Path, number: nat, line: Text, hits: seq<nat>, found: nat, more: seq<nat>)
    requires more == hits + [found] && Searched(o, a, b, LineFindings(path, number, line, hits))
    requires Searched(o, b, c, OneFinding(HitMatch(path, number, line, found)))
    ensures Searched(o, a, c, LineFindings(path, number, line, more))
  {
    HitAppended(path, number, line, hits, found, more);
    SearchedTwice(o, a, b, c, LineFindings(path, number, line, hits), OneFinding(HitMatch(path, number, line, found)));
  }

  /** The hits before and from a position are all hits. */
  predicate SplitsHits(line: Text, query: Text, hits: seq<nat>, from: nat)
    requires query != []
  {
    Hits(line, query, 0) == hits + Hits(line, query, from)
  }

  lemma {:induction false} NextHit(line: Text, query: Text, hits: seq<nat>, from: nat, found: nat) returns (more: seq<nat>)
    requires query != [] && found == IndexOf(line, query, from) && SplitsHits(line, query, hits, from)
    ensures more == hits + [found] && SplitsHits(line, query, more, found + |query|)
  {
    more := hits + [found];
    assert hits + ([found] + Hits(line, query, found + |query|)) == more + Hits(line, query, found + |query|);
  }

  lemma {:induction false} HitAdded(o: Options, a: Progress, b: Progress, c: Progress, path: Path, number: nat, line: Text, query: Text,
                 hits: seq<nat>, from: nat, found: nat) returns (more: seq<nat>)
    requires query != [] && found == IndexOf(line, query, from) && SplitsHits(line, query, hits, from)
    requires Searched(o, a, b, LineFindings(path, number, line, hits))
    requires Searched(o, b, c, OneFinding(HitMatch(path, number, line, found)))
    ensures SplitsHits(line, query, more, found + |query|)
    ensures Searched(o, a, c, LineFindings(path, number, line, more))
  {
    more := NextHit(line, query, hits, from, found);
    OneMoreHit(o, a, b, c, path, number, line, hits, found, more);
  }

  lemma {:induction false} LastHit(line: Text, query: Text, hits: seq<nat>, from: nat)
    requires query != [] && IndexOf(line, query, from) < 0 && SplitsHits(line, query, hits, from)
    ensures hits == Hits(line, query, 0)
  {
  }

  lemma {:induction false} FirstHit(line: Text, query: Text)
    requires query != []
    ensures SplitsHits(line, query, [], 0)
  {
  }

  /** One round of the inner loop: the next hit from a position, when there is one. */
  method SearchFrom(o: Options, state: SearchState, path: Path, number: nat, line: Text, query: Text, from: nat,
                    ghost start: Progress, ghost hits: seq<nat>) returns (found: int, ghost more: seq<nat>)
    requires query != [] && state.Within(o) && SplitsHits(line, query, hits, from)
    requires Searched(o, start, state.Now(), LineFindings(path, number, line, hits))
    modifies state
    ensures state.Within(o) && Searched(o, start, state.Now(), LineFindings(path, number, line, more))
    ensures if found < 0 then more == Hits(line, query, 0)
            else from <= found <= |line| - |query| && SplitsHits(line, query, more, found + |query|)
    ensures state.scannedEntries == old(state.scannedEntries) && state.scannedFiles == old(state.scannedFiles)
  {
    found := IndexOf(line, query, from);
    if found < 0 {
      LastHit(line, query, hits, from);
      return found, hits;
    }
    ghost var before := state.Now();
    AppendSearchMatch(o, state, HitMatch(path, number, line, found));
    more := HitAdded(o, start, before, state.Now(), path, number, line, query, hits, from, found);
  }

  /** The inner loop over one line. */
  method SearchLine(o: Options, state: SearchState, path: Path, number: nat, line: Text, query: Text)
    requires query != [] && state.Within(o)
    modifies state
    ensures state.Within(o)
    ensures Searched(o, old(state.Now()), state.Now(), LineFindings(path, number, line, Hits(line, query, 0)))
    ensures state.scannedEntries == old(state.scannedEntries) && state.scannedFiles == old(state.scannedFiles)
  {
    var from: nat := 0;
    ghost var start := state.Now();
    ghost var hits: seq<nat> := [];
    SearchedNothing(o, start);
    FirstHit(line, query);
    while true
      invariant state.Within(o) && from <= |line| + |query|
      invariant SplitsHits(line, query, hits, from)
      invariant Searched(o, start, state.Now(), LineFindings(path, number, line, hits))
      invariant state.scannedEntries == old(state.scannedEntries) && state.scannedFiles == old(state.scannedFiles)
      decreases |line| + |query| - from
    {
      var found;
      found, hits := SearchFrom(o, state, path, number, line, query, from, start, hits);
      if found < 0 {
        break;
      }
      from := found + |query|;
    }
  }

  /** The findings in the first n lines. */
  function FirstLines(path: Path, query: Text, lines: seq<Text>, n: nat): Findings
    requires query != [] && n <= |lines|
  {
    NOTHING.(matches := LineMatches(path, query, lines[..n]))
  }

  lemma {:induction false} OneMoreLine(o: Options, a: Progress, b: Progress, c: Progress, path: Path, query: Text, lines: seq<Text>, n: nat)
    requires query != [] && n < |lines| && Searched(o, a, b, FirstLines(path, query, lines, n))
    requires Searched(o, b, c, LineFindings(path, n + 1, lines[n], Hits(lines[n], query, 0)))
    ensures Searched(o, a, c, FirstLines(path, query, lines, n + 1))
  {
    SearchedTwice(o, a, b, c, FirstLines(path, query, lines, n), LineFindings(path, n + 1, lines[n], Hits(lines[n], query, 0)));
    assert lines[..n + 1][..n] == lines[..n];
  }

  lemma {:induction false} AllLines(path: Path, query: Text, lines: seq<Text>)
    requires query != []
    ensures FirstLines(path, query, lines, 0) == NOTHING
    ensures FirstLines(path, query, lines, |lines|) == NOTHING.(matches := LineMatches(path, query, lines))
  {
    assert lines[..|lines|] == lines;
  }

  /** The loop over the lines of a text. */
  method SearchText(o: Options, state: SearchState, path: Path, text: Text, query: Text)
    requires query != [] && state.Within(o)
    modifies state
    ensures state.Within(o)
    ensures Searched(o, old(state.Now()), state.Now(), NOTHING.(matches := LineMatches(path, query, Lines(text))))
    ensures state.scannedEntries == old(state.scannedEntries) && state.scannedFiles == old(state.scannedFiles)
  {
    var lines := Lines(text);
    var lineIndex := 0;
    ghost var start := state.Now();
    SearchedNothing(o, start);
    AllLines(path, query, lines);
    while lineIndex < |lines|
      invariant 0 <= lineIndex <= |lines| && state.Within(o)
      invariant Searched(o, start, state.Now(), FirstLines(path, query, lines, lineIndex))
      invariant state.scannedEntries == old(state.scannedEntries) && state.scannedFiles == old(state.scannedFiles)
    {
      ghost var before := state.Now();
      SearchLine(o, state, path, lineIndex + 1, lines[lineIndex], query);
      OneMoreLine(o, start, before, state.Now(), path, query, lines, lineIndex);
      lineIndex := lineIndex + 1;
    }
  }

  /** The part of the walk that reads one file for a query. */
  method SearchContent(o: Options, state: SearchState, path: Path, content: Content)
    requires ValidOptions(o) && o.query.Some? && state.Within(o)
    modifies state
    ensures state.Within(o)
    ensures Searched(o, old(state.Now()), state.Now(), TextFindings(o, path, content))
    ensures state.scannedEntries == old(state.scannedEntries)
  {
    ghost var start := state.Now();
    if content.Unreadable? {
      SearchedNothing(o, start);
      return;
    }
    if content.size > o.maxFileBytes {
      state.skippedOversized := state.skippedOversized + 1;
      Counted(o, start, state.Now(), NOTHING.(oversized := 1));
      return;
    }
    if content.text.None? {
      state.skippedBinary := state.skippedBinary + 1;
      Counted(o, start, state.Now(), NOTHING.(binary := 1));
      return;
    }
    SearchText(o, state, path, content.text.value, o.query.value);
  }

  /** The part of the walk that looks at one file. */
  method SearchFile(o: Options, state: SearchState, path: Path, content: Content)
    requires ValidOptions(o) && state.Within(o) && state.scannedFiles < state.scannedEntries <= MAX_SEARCH_ENTRIES
    modifies state
    ensures state.Within(o)
    ensures Searched(o, old(state.Now()), state.Now(), FileFindings(o, path, content))
    ensures state.scannedEntries == old(state.scannedEntries)
  {
    ghost var start := state.Now();
    if !o.glob(path) {
      SearchedNothing(o, start);
      return;
    }
    state.scannedFiles := state.scannedFiles + 1;
    ghost var before := state.Now();
    Counted(o, start, before, FILE);
    if o.query.None? {
      AppendSearchMatch(o, state, Match(path, 0, 0, None));
    } else {
      SearchContent(o, state, path, content);
    }
    SearchedTwice(o, start, before, state.Now(), FILE, ChosenFindings(o, path, content));
  }

  /** Counting adds no matches and reaches no limit. */
  lemma {:induction false} Counted(o: Options, a: Progress, b: Progress, f: Findings)
    requires f.matches == [] && b == Progress(Both(a.found, f), a.truncated)
    ensures Searched(o, a, b, f)
  {
    assert b.found.matches[|a.found.matches|..] == [];
  }

  /** The findings in the first n children. */
  function FirstChildren(o: Options, path: Path, sorted: seq<Child>, n: nat, depth: nat): Findings
    requires ValidOptions(o) && depth <= o.maxDepth && n <= |sorted|
  {
    DirFindings(o, path, sorted[..n], depth)
  }

  lemma {:induction false} ChildAppended(o: Options, path: Path, sorted: seq<Child>, n: nat, depth: nat)
    requires ValidOptions(o) && depth <= o.maxDepth && n < |sorted|
    ensures FirstChildren(o, path, sorted, n + 1, depth)
         == Both(FirstChildren(o, path, sorted, n, depth), Both(ENTRY, ChildFindings(o, path, sorted[n], depth)))
  {
    assert sorted[..n + 1][..n] == sorted[..n];
  }

  /** From b the entry was counted, giving c, and then searched, giving d. */
  lemma {:induction false} OneMoreChild(o: Options, a: Progress, b: Progress, c: Progress, d: Progress, path: Path, sorted: seq<Child>, n: nat, depth: nat)
    requires ValidOptions(o) && depth <= o.maxDepth && n < |sorted|
    requires Searched(o, a, b, FirstChildren(o, path, sorted, n, depth))
    requires c == Progress(b.found.(entries := b.found.entries + 1), b.truncated)
    requires Searched(o, c, d, ChildFindings(o, path, sorted[n], depth))
    ensures Searched(o, a, d, FirstChildren(o, path, sorted, n + 1, depth))
  {
    var found := ChildFindings(o, path, sorted[n], depth);
    EntryCounted(o, b, c);
    SearchedTwice(o, b, c, d, ENTRY, found);
    SearchedTwice(o, a, b, d, FirstChildren(o, path, sorted, n, depth), Both(ENTRY, found));
    ChildAppended(o, path, sorted, n, depth);
  }

  lemma {:induction false} EntryCounted(o: Options, b: Progress, c: Progress)
    requires c == Progress(b.found.(entries := b.found.entries + 1), b.truncated)
    ensures Searched(o, b, c, ENTRY)
  {
    NothingMore(b.found);
    Counted(o, b, c, ENTRY);
  }

  lemma {:induction false} AllChildren(o: Options, path: Path, sorted: seq<Child>, depth: nat)
    requires ValidOptions(o) && depth <= o.maxDepth
    ensures FirstChildren(o, path, sorted, 0, depth) == NOTHING
    ensures FirstChildren(o, path, sorted, |sorted|, depth) == DirFindings(o, path, sorted, depth)
  {
    assert sorted[..|sorted|] == sorted;
  }

  lemma {:induction false} LastChild(o: Options, path: Path, sorted: seq<Child>, depth: nat) returns (last: Findings)
    requires ValidOptions(o) && depth <= o.maxDepth && sorted != []
    ensures last.entries >= 1
    ensures DirFindings(o, path, sorted, depth) == Both(DirFindings(o, path, sorted[..|sorted| - 1], depth), last)
  {
    last := Both(ENTRY, ChildFindings(o, path, sorted[|sorted| - 1], depth));
  }

  /** The findings that the walk has not come to yet. */
  lemma {:induction false} RestOf(o: Options, path: Path, sorted: seq<Child>, i: nat, depth: nat) returns (rest: Findings)
    requires ValidOptions(o) && depth <= o.maxDepth && i <= |sorted|
    ensures DirFindings(o, path, sorted, depth) == Both(FirstChildren(o, path, sorted, i, depth), rest)
    ensures i < |sorted| ==> rest.entries >= 1
    decreases |sorted|
  {
    if i == |sorted| {
      AllChildren(o, path, sorted, depth);
      rest := NOTHING;
      NothingMore(DirFindings(o, path, sorted, depth));
    } else {
      var part := RestOf(o, path, sorted[..|sorted| - 1], i, depth);
      var last := LastChild(o, path, sorted, depth);
      rest := Both(part, last);
      FirstOfInit(o, path, sorted, i, depth);
      BothAssociative(FirstChildren(o, path, sorted, i, depth), part, last);
    }
  }

  lemma {:induction false} FirstOfInit(o: Options, path: Path, sorted: seq<Child>, i: nat, depth: nat)
    requires ValidOptions(o) && depth <= o.maxDepth && i < |sorted|
    ensures FirstChildren(o, path, sorted[..|sorted| - 1], i, depth) == FirstChildren(o, path, sorted, i, depth)
  {
    assert sorted[..|sorted| - 1][..i] == sorted[..i];
  }

  /** Stopping before a directory, or at an entry that is one too many, is a search of everything. */
  lemma {:induction false} StoppedHere(o: Options, a: Progress, b: Progress, c: Progress, path: Path, sorted: seq<Child>, n: nat, depth: nat)
    requires ValidOptions(o) && depth <= o.maxDepth && n < |sorted|
    requires Searched(o, a, b, FirstChildren(o, path, sorted, n, depth)) && b.found.entries >= MAX_SEARCH_ENTRIES
    requires c == Progress(b.found.(entries := b.found.entries + 1), true)
    ensures Searched(o, a, c, DirFindings(o, path, sorted, depth))
  {
    var rest := RestOf(o, path, sorted, n, depth);
    StoppedEarly(o, a, b, FirstChildren(o, path, sorted, n, depth), rest);
  }

  lemma {:induction false} NotEntered(o: Options, a: Progress, b: Progress, expected: Findings)
    requires a.found.entries >= MAX_SEARCH_ENTRIES && b == a.(truncated := true)
    ensures Searched(o, a, b, expected)
  {
  }

  /** What the walk does with one entry. */
  method SearchEntry(o: Options, path: Path, child: Child, depth: nat, state: SearchState)
    requires ValidOptions(o) && depth <= o.maxDepth
    requires state.Within(o) && state.scannedFiles < state.scannedEntries <= MAX_SEARCH_ENTRIES
    modifies state
    ensures state.Within(o)
    ensures Searched(o, old(state.Now()), state.Now(), ChildFindings(o, path, child, depth))
    decreases o.maxDepth - depth, 0
  {
    if child.item.File? {
      SearchFile(o, state, path + [child.name], child.item.content);
    } else if child.item.Dir? && depth < o.maxDepth && child.item.admitted {
      WalkSearch(o, path + [child.name], child.item.children, depth + 1, state);
    } else {
      SearchedNothing(o, state.Now());
    }
  }

  /** One round of the loop over the entries; true when there was one entry too many. */
  method SearchNext(o: Options, path: Path, entries: seq<Child>, i: nat, depth: nat, state: SearchState, ghost start: Progress)
      returns (stop: bool)
    requires ValidOptions(o) && depth <= o.maxDepth && i < |entries| && state.Within(o)
    requires Searched(o, start, state.Now(), FirstChildren(o, path, entries, i, depth))
    modifies state
    ensures state.Within(o)
    ensures Searched(o, start, state.Now(), if stop then DirFindings(o, path, entries, depth) else FirstChildren(o, path, entries, i + 1, depth))
    decreases o.maxDepth - depth, 1
  {
    ghost var before := state.Now();
    state.scannedEntries := state.scannedEntries + 1;
    if state.scannedEntries > MAX_SEARCH_ENTRIES {
      state.truncated := true;
      StoppedHere(o, start, before, state.Now(), path, entries, i, depth);
      return true;
    }
    ghost var entered := state.Now();
    SearchEntry(o, path, entries[i], depth, state);
    OneMoreChild(o, start, before, entered, state.Now(), path, entries, i, depth);
    return false;
  }

  /** The loop over the sorted entries of one directory. */
  method SearchEntries(o: Options, path: Path, entries: seq<Child>, depth: nat, state: SearchState)
    requires ValidOptions(o) && depth <= o.maxDepth && state.Within(o)
    modifies state
    ensures state.Within(o)
    ensures Searched(o, old(state.Now()), state.Now(), DirFindings(o, path, entries, depth))
    decreases o.maxDepth - depth, 2
  {
    ghost var start := state.Now();
    SearchedNothing(o, start);
    AllChildren(o, path, entries, depth);
    var i := 0;
    while i < |entries|
      invariant 0 <= i <= |entries| && state.Within(o)
      invariant Searched(o, start, state.Now(), FirstChildren(o, path, entries, i, depth))
    {
      var stop := SearchNext(o, path, entries, i, depth, state, start);
      if stop {
        return;
      }
      i := i + 1;
    }
  }

  /** One directory of the walk; the children are those that reading it gives. */
  method WalkSearch(o: Options, path: Path, children: seq<Child>, depth: nat, state: SearchState)
    requires ValidOptions(o) && depth <= o.maxDepth && state.Within(o)
    modifies state
    ensures state.Within(o)
    ensures Searched(o, old(state.Now()), state.Now(), DirFindings(o, path, Sort(children), depth))
    decreases o.maxDepth - depth, 3
  {
    var entries := Sort(children);
    if state.scannedEntries >= MAX_SEARCH_ENTRIES {
      ghost var start := state.Now();
      state.truncated := true;
      NotEntered(o, start, state.Now(), DirFindings(o, path, entries, depth));
      return;
    }
    SearchEntries(o, path, entries, depth, state);
  }

  /** A whole search. Sound for every tree; complete unless it says that it is truncated, which it
      never says of a result that fits the limits. */
  method Search(o: Options, path: Path, children: seq<Child>) returns (matches: seq<Match>, truncated: bool, files: nat, binary: nat, oversized: nat)
    requires ValidOptions(o)
    ensures var all := DirFindings(o, path, Sort(children), 0);
            && IsSub(matches, all.matches)
            && (!truncated ==> matches == all.matches && files == all.files && binary == all.binary && oversized == all.oversized)
            && (|all.matches| <= o.maxResults && Total(o, all.matches) <= o.maxBytes && all.entries < 50_000 ==> !truncated)
            && (all.entries > 50_000 ==> truncated)
            && (all.entries < 50_000 ==>
                  && matches == Offered(o, [], all.matches) && (truncated <==> |matches| < |all.matches|)
                  && files == all.files && binary == all.binary && oversized == all.oversized)
    ensures |matches| <= o.maxResults && Total(o, matches) <= o.maxBytes && files <= 50_000
  {
    var state := new SearchState();
    WalkSearch(o, path, children, 0, state);
    NothingMore(DirFindings(o, path, Sort(children), 0));
    assert state.matches[0..] == state.matches;
    return state.matches, state.truncated, state.scannedFiles, state.skippedBinary, state.skippedOversized;
  }
}
