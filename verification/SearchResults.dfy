/** What an unlimited search finds: exactly the hits of the files it may see, in order. */
module SearchResults {
  import opened Utf16
  import opened Wrappers
  import opened CodePointOrder
  import opened NameOrder
  import opened ExactPatch
  import opened TreeSearch

  // ---- Lines and hits. ----

  function JoinLines(lines: seq<Text>): Text {
    if lines == [] then []
    else if |lines| == 1 then lines[0]
    else JoinLines(lines[..|lines| - 1]) + [10] + lines[|lines| - 1]
  }

  /** The lines are the text cut at its line feeds. */
  lemma {:induction false} LinesCutText(text: Text)
    ensures JoinLines(Lines(text)) == text
    ensures forall line :: line in Lines(text) ==> 10 !in line
  {
    if text != [] {
      var init, last := text[..|text| - 1], text[|text| - 1];
      var lines := Lines(init);
      LinesCutText(init);
      if last == NEWLINE {
        assert (lines + [[]])[..|lines|] == lines;
      } else {
        LongerLine(lines, last);
      }
      assert text == init + [last];
    }
  }

  lemma {:induction false} LongerLine(lines: seq<Text>, last: Unit)
    requires lines != [] && last != NEWLINE && forall line :: line in lines ==> NEWLINE !in line
    ensures var longer := lines[..|lines| - 1] + [lines[|lines| - 1] + [last]];
            JoinLines(longer) == JoinLines(lines) + [last] && forall line :: line in longer ==> NEWLINE !in line
  {
    var init, line := lines[..|lines| - 1], lines[|lines| - 1];
    var longer := init + [line + [last]];
    assert longer[..|longer| - 1] == init;
    assert line in lines && forall other :: other in init ==> other in lines;
    if |lines| > 1 {
      assert JoinLines(init) + [NEWLINE] + (line + [last]) == (JoinLines(init) + [NEWLINE] + line) + [last];
    }
  }

  ghost predicate Covered(hits: seq<nat>, length: nat, p: int) {
    exists k :: 0 <= k < |hits| && hits[k] <= p < hits[k] + length
  }

  lemma {:induction false} CoveredLater(found: nat, rest: seq<nat>, length: nat, p: int)
    requires Covered(rest, length, p)
    ensures Covered([found] + rest, length, p)
  {
    var k :| 0 <= k < |rest| && rest[k] <= p < rest[k] + length;
    assert ([found] + rest)[k + 1] == rest[k];
  }

  lemma {:induction false} CoveredNow(found: nat, rest: seq<nat>, length: nat, p: int)
    requires found <= p < found + length
    ensures Covered([found] + rest, length, p)
  {
    assert ([found] + rest)[0] == found;
  }

  /** Every occurrence is a hit or overlaps a hit to its left. */
  lemma {:induction false} HitsCover(line: Text, query: Text, from: nat, p: nat)
    requires query != [] && from <= p && OccursAt(line, query, p)
    ensures Covered(Hits(line, query, from), |query|, p)
    decreases |line| - from
  {
    var found := IndexOf(line, query, from);
    var rest := Hits(line, query, found + |query|);
    if p < found + |query| {
      CoveredNow(found, rest, |query|, p);
    } else {
      HitsCover(line, query, found + |query|, p);
      CoveredLater(found, rest, |query|, p);
    }
  }

  lemma {:induction false} FirstHitIs(line: Text, query: Text, from: nat, found: nat)
    requires query != [] && found == IndexOf(line, query, from)
    ensures from <= found && OccursAt(line, query, found)
    ensures Hits(line, query, from) == [found] + Hits(line, query, found + |query|)
  {
  }

  /** Each hit is an occurrence. */
  lemma {:induction false} HitOccurs(line: Text, query: Text, from: nat, hits: seq<nat>, hit: nat)
    requires query != [] && hits == Hits(line, query, from) && hit in hits
    ensures OccursAt(line, query, hit)
    decreases |line| - from
  {
    var found := IndexOf(line, query, from);
    FirstHitIs(line, query, from, found);
    if hit != found {
      HitOccurs(line, query, found + |query|, hits[1..], hit);
    }
  }

  /** Each is behind the end of the one before it. */
  predicate Spaced(hits: seq<nat>, length: nat, from: nat) {
    hits == [] || (from <= hits[0] && Spaced(hits[1..], length, hits[0] + length))
  }

  lemma {:induction false} HitsSpaced(line: Text, query: Text, from: nat, hits: seq<nat>)
    requires query != [] && hits == Hits(line, query, from)
    ensures Spaced(hits, |query|, from)
    decreases |line| - from
  {
    if hits != [] {
      var found := IndexOf(line, query, from);
      FirstHitIs(line, query, from, found);
      HitsSpaced(line, query, found + |query|, hits[1..]);
    }
  }

  lemma {:induction false} SpacedApart(hits: seq<nat>, length: nat, from: nat)
    requires Spaced(hits, length, from)
    ensures forall k :: 0 <= k < |hits| ==> from <= hits[k]
    ensures forall j, k :: 0 <= j < k < |hits| ==> hits[j] + length <= hits[k]
  {
    if hits != [] {
      var rest := hits[1..];
      SpacedApart(rest, length, hits[0] + length);
      assert forall k :: 0 < k < |hits| ==> hits[k] == rest[k - 1];
    }
  }

  lemma {:induction false} HitsOccur(line: Text, query: Text, from: nat)
    requires query != []
    ensures forall k :: 0 <= k < |Hits(line, query, from)| ==> OccursAt(line, query, Hits(line, query, from)[k])
    ensures forall j, k :: 0 <= j < k < |Hits(line, query, from)| ==> Hits(line, query, from)[j] + |query| <= Hits(line, query, from)[k]
  {
    forall k | 0 <= k < |Hits(line, query, from)| ensures OccursAt(line, query, Hits(line, query, from)[k]) {
      HitOccurs(line, query, from, Hits(line, query, from), Hits(line, query, from)[k]);
    }
    HitsSpaced(line, query, from, Hits(line, query, from));
    SpacedApart(Hits(line, query, from), |query|, from);
  }

  /** The hits of a line are the greedy leftmost ones. */
  lemma {:induction false} HitsAreGreedy(line: Text, query: Text)
    requires query != []
    ensures var hits := Hits(line, query, 0);
            && (forall k :: 0 <= k < |hits| ==> OccursAt(line, query, hits[k]))
            && (forall j, k :: 0 <= j < k < |hits| ==> hits[j] + |query| <= hits[k])
            && (forall p: nat :: OccursAt(line, query, p) ==> Covered(hits, |query|, p))
  {
    HitsOccur(line, query, 0);
    forall p: nat | OccursAt(line, query, p) ensures Covered(Hits(line, query, 0), |query|, p) {
      HitsCover(line, query, 0, p);
    }
  }

  // ---- Order. ----

  predicate PathLess(a: Path, b: Path) {
    b != [] && (a == [] || Less(a[0], b[0]) || (a[0] == b[0] && PathLess(a[1..], b[1..])))
  }

  predicate Before(m: Match, n: Match) {
    || PathLess(m.path, n.path)
    || (m.path == n.path && (m.line < n.line || (m.line == n.line && m.column < n.column)))
  }

  ghost predicate InOrder(s: seq<Match>) {
    forall i, j :: 0 <= i < j < |s| ==> Before(s[i], s[j])
  }

  ghost predicate AllBefore(s: seq<Match>, t: seq<Match>) {
    forall i, j :: 0 <= i < |s| && 0 <= j < |t| ==> Before(s[i], t[j])
  }

  lemma {:induction false} JoinInOrder(s: seq<Match>, t: seq<Match>)
    requires InOrder(s) && InOrder(t) && AllBefore(s, t)
    ensures InOrder(s + t)
  {
  }

  lemma {:induction false} ForkLess(path: Path, a: Path, b: Path)
    requires path < a && path < b && Less(a[|path|], b[|path|])
    ensures PathLess(a, b)
  {
    if path != [] { ForkLess(path[1..], a[1..], b[1..]); }
  }

  // ---- One file. ----

  /** A match of a file: where it is, and the line it shows. */
  ghost predicate IsHit(m: Match, path: Path, query: Text, lines: seq<Text>)
    requires query != []
  {
    && m.path == path && 1 <= m.line <= |lines| && 1 <= m.column
    && m.column - 1 in Hits(lines[m.line - 1], query, 0)
    && m.preview.Some? && Previews(lines[m.line - 1], m.preview.value)
  }

  /** A line of at most 300 units is shown as it is, of a longer one the first 300 and an ellipsis. */
  predicate Previews(line: Text, preview: Text) {
    if |line| <= 300 then preview == line
    else |preview| == 301 && preview[..300] == line[..300] && preview[300] == 0x2026
  }

  lemma {:induction false} PreviewIs(line: Text, preview: Option<Text>)
    ensures preview == Some(BoundedPreview(line)) <==> preview.Some? && Previews(line, preview.value)
  {
    if preview.Some? && |line| > 300 && Previews(line, preview.value) {
      assert preview.value == preview.value[..300] + [preview.value[300]];
    }
  }

  lemma {:induction false} HitMember(path: Path, number: nat, line: Text, hits: seq<nat>, m: Match)
    ensures m in HitMatches(path, number, line, hits) <==>
            m.path == path && m.line == number && m.column >= 1 && m.column - 1 in hits && m.preview == Some(BoundedPreview(line))
  {
    if hits != [] {
      var init := hits[..|hits| - 1];
      HitMember(path, number, line, init, m);
      assert hits == init + [hits[|hits| - 1]];
    }
  }

  lemma {:induction false} HitsInOrder(path: Path, number: nat, line: Text, hits: seq<nat>)
    requires forall j, k :: 0 <= j < k < |hits| ==> hits[j] < hits[k]
    ensures InOrder(HitMatches(path, number, line, hits))
  {
    if hits != [] {
      var init, last := hits[..|hits| - 1], hits[|hits| - 1];
      var s, t := HitMatches(path, number, line, init), [HitMatch(path, number, line, last)];
      HitsInOrder(path, number, line, init);
      forall i, j | 0 <= i < |s| && 0 <= j < |t| ensures Before(s[i], t[j]) {
        HitMember(path, number, line, init, s[i]);
      }
      JoinInOrder(s, t);
    }
  }

  lemma {:induction false} HitInPart(m: Match, path: Path, query: Text, lines: seq<Text>)
    requires query != [] && lines != []
    ensures m.line != |lines| ==> (IsHit(m, path, query, lines) <==> IsHit(m, path, query, lines[..|lines| - 1]))
  {
    if 1 <= m.line < |lines| { assert lines[..|lines| - 1][m.line - 1] == lines[m.line - 1]; }
  }

  lemma {:induction false} LastLineMember(path: Path, query: Text, lines: seq<Text>, m: Match)
    requires query != [] && lines != []
    ensures var n := |lines|;
            m in HitMatches(path, n, lines[n - 1], Hits(lines[n - 1], query, 0)) <==> m.line == n && IsHit(m, path, query, lines)
  {
    var n := |lines|;
    HitMember(path, n, lines[n - 1], Hits(lines[n - 1], query, 0), m);
    PreviewIs(lines[n - 1], m.preview);
  }

  lemma {:induction false} EarlierLineMember(path: Path, query: Text, lines: seq<Text>, m: Match)
    requires query != [] && lines != []
    ensures IsHit(m, path, query, lines[..|lines| - 1]) <==> m.line != |lines| && IsHit(m, path, query, lines)
  {
    HitInPart(m, path, query, lines);
  }

  /** The matches of a file are exactly its hits. */
  lemma {:induction false} LineMember(path: Path, query: Text, lines: seq<Text>, m: Match)
    requires query != []
    ensures m in LineMatches(path, query, lines) <==> IsHit(m, path, query, lines)
  {
    if lines != [] {
      var n := |lines|;
      var init, last := LineMatches(path, query, lines[..n - 1]), HitMatches(path, n, lines[n - 1], Hits(lines[n - 1], query, 0));
      LineMember(path, query, lines[..n - 1], m);
      LastLineMember(path, query, lines, m);
      EarlierLineMember(path, query, lines, m);
      assert m in init + last <==> m in init || m in last;
    }
  }

  /** ... by line and column. */
  lemma {:induction false} LinesInOrder(path: Path, query: Text, lines: seq<Text>)
    requires query != []
    ensures InOrder(LineMatches(path, query, lines))
  {
    if lines != [] {
      var n := |lines|;
      var init, hits := LineMatches(path, query, lines[..n - 1]), Hits(lines[n - 1], query, 0);
      var last := HitMatches(path, n, lines[n - 1], hits);
      LinesInOrder(path, query, lines[..n - 1]);
      HitsOccur(lines[n - 1], query, 0);
      HitsInOrder(path, n, lines[n - 1], hits);
      forall i, j | 0 <= i < |init| && 0 <= j < |last| ensures Before(init[i], last[j]) {
        LineMember(path, query, lines[..n - 1], init[i]);
        HitMember(path, n, lines[n - 1], hits, last[j]);
      }
      JoinInOrder(init, last);
    }
  }

  /** The text that a search with a query looks at, when it looks at it. */
  predicate HasText(o: Options, path: Path, content: Content) {
    && o.glob(path) && o.query.Some?
    && content.Readable? && content.size <= o.maxFileBytes && content.text.Some?
  }

  lemma {:induction false} TextCase(o: Options, path: Path, content: Content)
    requires ValidOptions(o) && HasText(o, path, content)
    ensures FileFindings(o, path, content).matches == LineMatches(path, o.query.value, Lines(content.text.value))
  {
    NothingBefore(FILE, TextFindings(o, path, content));
  }

  lemma {:induction false} PathCase(o: Options, path: Path, content: Content)
    requires ValidOptions(o) && o.glob(path) && o.query.None?
    ensures FileFindings(o, path, content).matches == [Match(path, 0, 0, None)]
  {
    NothingBefore(FILE, OneFinding(Match(path, 0, 0, None)));
  }

  lemma {:induction false} NoCase(o: Options, path: Path, content: Content)
    requires ValidOptions(o) && !HasText(o, path, content) && (o.glob(path) ==> o.query.Some?)
    ensures FileFindings(o, path, content).matches == []
  {
    if o.glob(path) {
      NothingBefore(FILE, TextFindings(o, path, content));
    }
  }

  /** The matches are in order, and all of one path. */
  ghost predicate OrderedOf(path: Path, matches: seq<Match>) {
    InOrder(matches) && forall m :: m in matches ==> m.path == path
  }

  lemma {:induction false} TextInOrder(path: Path, query: Text, lines: seq<Text>)
    requires query != []
    ensures OrderedOf(path, LineMatches(path, query, lines))
  {
    LinesInOrder(path, query, lines);
    forall m | m in LineMatches(path, query, lines) ensures m.path == path { LineMember(path, query, lines, m); }
  }

  lemma {:induction false} FileInOrder(o: Options, path: Path, content: Content)
    requires ValidOptions(o)
    ensures OrderedOf(path, FileFindings(o, path, content).matches)
  {
    if o.glob(path) && o.query.None? {
      PathCase(o, path, content);
    } else if !HasText(o, path, content) {
      NoCase(o, path, content);
    } else {
      TextCase(o, path, content);
      TextInOrder(path, o.query.value, Lines(content.text.value));
    }
  }

  /** A match that one file gives: its path alone without a query, else a hit of its text when
      that can be read, is not too long and is not binary. */
  ghost predicate IsFileMatch(o: Options, path: Path, content: Content, m: Match)
    requires ValidOptions(o)
  {
    if o.query.None? then m == Match(path, 0, 0, None)
    else
      && content.Readable? && content.size <= o.maxFileBytes && content.text.Some?
      && IsHit(m, path, o.query.value, Lines(content.text.value))
  }

  lemma {:induction false} FileMember(o: Options, path: Path, content: Content, m: Match)
    requires ValidOptions(o)
    ensures m in FileFindings(o, path, content).matches <==> o.glob(path) && IsFileMatch(o, path, content, m)
  {
    if o.glob(path) && o.query.None? {
      PathCase(o, path, content);
    } else if !HasText(o, path, content) {
      NoCase(o, path, content);
    } else {
      TextCase(o, path, content);
      LineMember(path, o.query.value, Lines(content.text.value), m);
    }
  }

  // ---- The tree. ----

  /** Names are distinct in every directory. */
  ghost predicate IsTree(children: seq<Child>) {
    DistinctNames(children) && forall i :: 0 <= i < |children| ==> IsSubtree(children[i].item)
  }

  ghost predicate IsSubtree(node: Node) {
    node.Dir? ==> IsTree(node.children)
  }

  function FindChild(children: seq<Child>, name: Name): Option<Node> {
    if children == [] then None
    else if children[0].name == name then Some(children[0].item)
    else FindChild(children[1..], name)
  }

  /** The file at a relative path, through admitted directories at most `depth` levels down. */
  function Lookup(children: seq<Child>, path: Path, depth: nat): Option<Content>
    decreases |path|
  {
    if path == [] then None
    else
      match FindChild(children, path[0])
      case Some(File(content)) => if |path| == 1 then Some(content) else None
      case Some(Dir(admitted, below)) => if admitted && depth > 0 then Lookup(below, path[1..], depth - 1) else None
      case _ => None
  }

  lemma {:induction false} FindIt(children: seq<Child>, i: nat)
    requires DistinctNames(children) && i < |children|
    ensures FindChild(children, children[i].name) == Some(children[i].item)
  {
    if i > 0 { FindIt(children[1..], i - 1); }
  }

  lemma {:induction false} Found(children: seq<Child>, name: Name) returns (i: nat)
    requires FindChild(children, name).Some?
    ensures i < |children| && children[i].name == name && children[i].item == FindChild(children, name).value
  {
    if children[0].name == name {
      i := 0;
    } else {
      i := Found(children[1..], name);
      i := i + 1;
    }
  }

  /** A match that the files below a directory give. */
  ghost predicate FoundBelow(o: Options, path: Path, children: seq<Child>, depth: nat, m: Match)
    requires ValidOptions(o) && depth <= o.maxDepth
  {
    && path <= m.path
    && var file := Lookup(children, m.path[|path|..], o.maxDepth - depth);
       file.Some? && m in FileFindings(o, m.path, file.value).matches
  }

  ghost predicate FoundInChild(o: Options, path: Path, child: Child, depth: nat, m: Match)
    requires ValidOptions(o) && depth <= o.maxDepth
  {
    var p := path + [child.name];
    match child.item
    case File(content) => m.path == p && m in FileFindings(o, p, content).matches
    case Dir(admitted, children) => admitted && depth < o.maxDepth && FoundBelow(o, p, children, depth + 1, m)
    case _ => false
  }

  lemma {:induction false} DirMember(o: Options, path: Path, sorted: seq<Child>, depth: nat, m: Match)
    requires ValidOptions(o) && depth <= o.maxDepth
    ensures m in DirFindings(o, path, sorted, depth).matches <==>
            exists i :: 0 <= i < |sorted| && m in ChildFindings(o, path, sorted[i], depth).matches
  {
    if sorted != [] {
      var n := |sorted|;
      DirMember(o, path, sorted[..n - 1], depth, m);
      var init := sorted[..n - 1];
      if i :| 0 <= i < |init| && m in ChildFindings(o, path, init[i], depth).matches {
        assert sorted[i] == init[i];
      }
      if i :| 0 <= i < |sorted| && m in ChildFindings(o, path, sorted[i], depth).matches {
        if i < n - 1 { assert init[i] == sorted[i]; }
      }
    }
  }

  lemma {:induction false} ChildrenOnPath(o: Options, path: Path, children: seq<Child>, i: nat, depth: nat, m: Match)
    requires ValidOptions(o) && depth <= o.maxDepth && IsTree(children) && i < |children|
    requires FoundInChild(o, path, children[i], depth, m)
    ensures FoundBelow(o, path, children, depth, m)
  {
    var p := path + [children[i].name];
    FindIt(children, i);
    assert p <= m.path;
    assert path == p[..|path|] && m.path[|path|] == children[i].name;
    assert m.path[|path|..][1..] == m.path[|p|..];
  }

  lemma {:induction false} OnPathChild(o: Options, path: Path, children: seq<Child>, depth: nat, m: Match) returns (i: nat)
    requires ValidOptions(o) && depth <= o.maxDepth && IsTree(children)
    requires FoundBelow(o, path, children, depth, m)
    ensures i < |children| && FoundInChild(o, path, children[i], depth, m)
  {
    var rel := m.path[|path|..];
    i := Found(children, rel[0]);
    var p := path + [children[i].name];
    assert m.path == path + rel;
    assert p <= m.path && m.path[|p|..] == rel[1..];
    assert |rel| == 1 ==> m.path == p;
  }

  lemma {:induction false} ChildExactly(o: Options, path: Path, child: Child, depth: nat, m: Match)
    requires ValidOptions(o) && depth <= o.maxDepth && IsSubtree(child.item)
    ensures m in ChildFindings(o, path, child, depth).matches <==> FoundInChild(o, path, child, depth, m)
    decreases o.maxDepth - depth, 0
  {
    var p := path + [child.name];
    match child.item {
      case File(content) => FileInOrder(o, p, content);
      case Dir(admitted, children) =>
        if admitted && depth < o.maxDepth { FindsExactly(o, p, children, depth + 1, m); }
      case _ =>
    }
  }

  /** The search finds a match exactly when a file at the match's path, reached within the depth,
      gives it. */
  lemma {:induction false} FindsExactly(o: Options, path: Path, children: seq<Child>, depth: nat, m: Match)
    requires ValidOptions(o) && depth <= o.maxDepth && IsTree(children)
    ensures m in DirFindings(o, path, Sort(children), depth).matches <==> FoundBelow(o, path, children, depth, m)
    decreases o.maxDepth - depth, 1
  {
    var sorted := Sort(children);
    DirMember(o, path, sorted, depth, m);
    if i :| 0 <= i < |sorted| && m in ChildFindings(o, path, sorted[i], depth).matches {
      SortMember(children, sorted[i]);
      var k :| 0 <= k < |children| && children[k] == sorted[i];
      ChildExactly(o, path, children[k], depth, m);
      ChildrenOnPath(o, path, children, k, depth, m);
    }
    if FoundBelow(o, path, children, depth, m) {
      var k := OnPathChild(o, path, children, depth, m);
      ChildExactly(o, path, children[k], depth, m);
      SortMember(children, children[k]);
      var i :| 0 <= i < |sorted| && sorted[i] == children[k];
    }
  }

  lemma {:induction false} UnderChild(o: Options, path: Path, child: Child, depth: nat, m: Match)
    requires ValidOptions(o) && depth <= o.maxDepth && IsSubtree(child.item)
    requires m in ChildFindings(o, path, child, depth).matches
    ensures path < m.path && m.path[|path|] == child.name
  {
    ChildExactly(o, path, child, depth, m);
    var p := path + [child.name];
    assert p <= m.path && path == p[..|path|];
  }

  lemma {:induction false} EntriesInOrder(o: Options, path: Path, sorted: seq<Child>, depth: nat)
    requires ValidOptions(o) && depth <= o.maxDepth && Increasing(sorted)
    requires forall i :: 0 <= i < |sorted| ==> IsSubtree(sorted[i].item)
    ensures InOrder(DirFindings(o, path, sorted, depth).matches)
    decreases o.maxDepth - depth, 1, |sorted|
  {
    if sorted != [] {
      var n := |sorted|;
      var init, last := sorted[..n - 1], sorted[n - 1];
      EntriesInOrder(o, path, init, depth);
      ChildInOrder(o, path, last, depth);
      var s, t := DirFindings(o, path, init, depth).matches, ChildFindings(o, path, last, depth).matches;
      forall i, j | 0 <= i < |s| && 0 <= j < |t| ensures Before(s[i], t[j]) {
        EarlierChild(o, path, sorted, depth, s[i], t[j]);
      }
      JoinInOrder(s, t);
      MatchesJoin(o, path, sorted, depth);
    }
  }

  lemma {:induction false} MatchesJoin(o: Options, path: Path, sorted: seq<Child>, depth: nat)
    requires ValidOptions(o) && depth <= o.maxDepth && sorted != []
    ensures DirFindings(o, path, sorted, depth).matches
         == DirFindings(o, path, sorted[..|sorted| - 1], depth).matches + ChildFindings(o, path, sorted[|sorted| - 1], depth).matches
  {
    var init, last := DirFindings(o, path, sorted[..|sorted| - 1], depth), ChildFindings(o, path, sorted[|sorted| - 1], depth);
    NothingBefore(ENTRY, last);
    assert DirFindings(o, path, sorted, depth) == Both(init, Both(ENTRY, last));
  }

  lemma {:induction false} NothingBefore(a: Findings, b: Findings)
    requires a.matches == []
    ensures Both(a, b).matches == b.matches
  {
  }

  lemma {:induction false} EarlierChild(o: Options, path: Path, sorted: seq<Child>, depth: nat, m: Match, n: Match)
    requires ValidOptions(o) && depth <= o.maxDepth && sorted != [] && Increasing(sorted)
    requires forall i :: 0 <= i < |sorted| ==> IsSubtree(sorted[i].item)
    requires m in DirFindings(o, path, sorted[..|sorted| - 1], depth).matches
    requires n in ChildFindings(o, path, sorted[|sorted| - 1], depth).matches
    ensures Before(m, n)
  {
    var init, last := sorted[..|sorted| - 1], sorted[|sorted| - 1];
    DirMember(o, path, init, depth, m);
    var k :| 0 <= k < |init| && m in ChildFindings(o, path, init[k], depth).matches;
    UnderChild(o, path, sorted[k], depth, m);
    UnderChild(o, path, last, depth, n);
    ForkLess(path, m.path, n.path);
  }

  lemma {:induction false} ChildInOrder(o: Options, path: Path, child: Child, depth: nat)
    requires ValidOptions(o) && depth <= o.maxDepth && IsSubtree(child.item)
    ensures InOrder(ChildFindings(o, path, child, depth).matches)
    decreases o.maxDepth - depth, 0
  {
    match child.item {
      case File(content) => FileInOrder(o, path + [child.name], content);
      case Dir(admitted, children) =>
        if admitted && depth < o.maxDepth { FindingsInOrder(o, path + [child.name], children, depth + 1); }
      case _ =>
    }
  }

  /** The matches of a tree come strictly sorted by path segments, line and column. */
  lemma {:induction false} FindingsInOrder(o: Options, path: Path, children: seq<Child>, depth: nat)
    requires ValidOptions(o) && depth <= o.maxDepth && IsTree(children)
    ensures InOrder(DirFindings(o, path, Sort(children), depth).matches)
    decreases o.maxDepth - depth, 2
  {
    var sorted := Sort(children);
    SortIncreases(children);
    forall i | 0 <= i < |sorted| ensures IsSubtree(sorted[i].item) {
      SortMember(children, sorted[i]);
      var k :| 0 <= k < |children| && children[k] == sorted[i];
    }
    EntriesInOrder(o, path, sorted, depth);
  }

  /** A search from the top finds exactly the file matches of the files that match the glob and
      can be reached within the depth. */
  lemma {:induction false} SearchFinds(o: Options, path: Path, children: seq<Child>, m: Match)
    requires ValidOptions(o) && IsTree(children)
    ensures m in DirFindings(o, path, Sort(children), 0).matches <==>
            && path <= m.path
            && var file := Lookup(children, m.path[|path|..], o.maxDepth);
               file.Some? && o.glob(m.path) && IsFileMatch(o, m.path, file.value, m)
  {
    FindsExactly(o, path, children, 0, m);
    if path <= m.path && Lookup(children, m.path[|path|..], o.maxDepth).Some? {
      FileMember(o, m.path, Lookup(children, m.path[|path|..], o.maxDepth).value, m);
    }
  }
}
