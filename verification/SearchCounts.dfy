/** The search as a flat list of visited entries: which they are, in which order, and what is counted. */
module SearchCounts {
  import opened Utf16
  import opened Wrappers
  import opened CodePointOrder
  import opened NameOrder
  import opened TreeSearch
  import opened SearchResults

  datatype Visit = Visit(path: Path, node: Node)

  /** The entries the walk comes to when no limit stops it, in its order. */
  function Visited(path: Path, sorted: seq<Child>, depth: nat): seq<Visit>
    decreases depth, |sorted| + 1
  {
    if sorted == [] then []
    else
      var init, last := sorted[..|sorted| - 1], sorted[|sorted| - 1];
      Visited(path, init, depth) + VisitedAt(path + [last.name], last.item, depth)
  }

  function VisitedAt(path: Path, node: Node, depth: nat): seq<Visit>
    decreases depth, 0
  {
    [Visit(path, node)] + if node.Dir? && node.admitted && depth > 0 then Visited(path, Sort(node.children), depth - 1) else []
  }

  // ---- The findings are those of the visits. ----

  function NodeFindings(o: Options, path: Path, node: Node): Findings
    requires ValidOptions(o)
  {
    match node
    case File(content) => FileFindings(o, path, content)
    case _ => NOTHING
  }

  function VisitFindings(o: Options, v: Visit): Findings
    requires ValidOptions(o)
  {
    Both(ENTRY, NodeFindings(o, v.path, v.node))
  }

  function Sum(o: Options, visits: seq<Visit>): Findings
    requires ValidOptions(o)
  {
    if visits == [] then NOTHING else Both(Sum(o, visits[..|visits| - 1]), VisitFindings(o, visits[|visits| - 1]))
  }

  lemma {:induction false} SumConcat(o: Options, a: seq<Visit>, b: seq<Visit>)
    requires ValidOptions(o)
    ensures Sum(o, a + b) == Both(Sum(o, a), Sum(o, b))
    decreases |b|
  {
    if b == [] {
      assert a + b == a;
      NothingMore(Sum(o, a));
    } else {
      var init := b[..|b| - 1];
      assert (a + b)[..|a + b| - 1] == a + init;
      SumConcat(o, a, init);
      BothAssociative(Sum(o, a), Sum(o, init), VisitFindings(o, b[|b| - 1]));
    }
  }

  lemma {:induction false} SumOne(o: Options, v: Visit)
    requires ValidOptions(o)
    ensures Sum(o, [v]) == VisitFindings(o, v)
  {
    NothingMore(VisitFindings(o, v));
  }

  lemma {:induction false} EntersDir(o: Options, path: Path, child: Child, depth: nat)
    requires ValidOptions(o) && depth < o.maxDepth && child.item.Dir? && child.item.admitted
    ensures ChildFindings(o, path, child, depth) == DirFindings(o, path + [child.name], Sort(child.item.children), depth + 1)
    ensures NodeFindings(o, path + [child.name], child.item) == NOTHING
  {
  }

  lemma {:induction false} EntryAlone(o: Options, v: Visit, below: Findings)
    requires ValidOptions(o) && NodeFindings(o, v.path, v.node) == NOTHING
    ensures Both(VisitFindings(o, v), below) == Both(ENTRY, below)
  {
    NothingMore(ENTRY);
  }

  lemma {:induction false} EntersNothing(o: Options, path: Path, child: Child, depth: nat)
    requires ValidOptions(o) && depth <= o.maxDepth
    requires !(child.item.Dir? && child.item.admitted && depth < o.maxDepth)
    ensures ChildFindings(o, path, child, depth) == NodeFindings(o, path + [child.name], child.item)
  {
  }

  /** `left` levels are left below this depth. */
  predicate Left(o: Options, depth: nat, left: nat) {
    ValidOptions(o) && depth + left == o.maxDepth
  }

  ghost predicate WalkFlat(o: Options, path: Path, sorted: seq<Child>, depth: nat, left: nat)
    requires Left(o, depth, left)
  {
    DirFindings(o, path, sorted, depth) == Sum(o, Visited(path, sorted, left))
  }

  ghost predicate ChildFlat(o: Options, path: Path, child: Child, depth: nat, left: nat)
    requires Left(o, depth, left)
  {
    Both(ENTRY, ChildFindings(o, path, child, depth)) == Sum(o, VisitedAt(path + [child.name], child.item, left))
  }

  predicate Enters(node: Node, left: nat) {
    node.Dir? && node.admitted && left > 0
  }

  lemma {:induction false} LeafIsFlat(o: Options, path: Path, child: Child, depth: nat, left: nat)
    requires Left(o, depth, left) && !Enters(child.item, left)
    ensures ChildFlat(o, path, child, depth, left)
  {
    var v := Visit(path + [child.name], child.item);
    SumOne(o, v);
    EntersNothing(o, path, child, depth);
    LeafAlone(v.path, v.node, left);
  }

  lemma {:induction false} LeafAlone(path: Path, node: Node, left: nat)
    requires !Enters(node, left)
    ensures VisitedAt(path, node, left) == [Visit(path, node)]
  {
  }

  lemma {:induction false} EntersBelow(path: Path, node: Node, left: nat)
    requires Enters(node, left)
    ensures VisitedAt(path, node, left) == [Visit(path, node)] + Visited(path, Sort(node.children), left - 1)
  {
  }

  lemma {:induction false} DirIsFlat(o: Options, path: Path, child: Child, sorted: seq<Child>, depth: nat, left: nat)
    requires Left(o, depth, left) && Enters(child.item, left) && sorted == Sort(child.item.children)
    requires WalkFlat(o, path + [child.name], sorted, depth + 1, left - 1)
    ensures ChildFlat(o, path, child, depth, left)
  {
    var p := path + [child.name];
    EntersDir(o, path, child, depth);
    EntersBelow(p, child.item, left);
    DirSum(o, Visit(p, child.item), Visited(p, sorted, left - 1), ChildFindings(o, path, child, depth), VisitedAt(p, child.item, left));
  }

  lemma {:induction false} DirSum(o: Options, v: Visit, below: seq<Visit>, found: Findings, visits: seq<Visit>)
    requires ValidOptions(o) && NodeFindings(o, v.path, v.node) == NOTHING
    requires found == Sum(o, below) && visits == [v] + below
    ensures Both(ENTRY, found) == Sum(o, visits)
  {
    SumOne(o, v);
    SumConcat(o, [v], below);
    EntryAlone(o, v, Sum(o, below));
  }

  lemma {:induction false} NothingIsFlat(o: Options, path: Path, sorted: seq<Child>, depth: nat, left: nat)
    requires Left(o, depth, left) && sorted == []
    ensures WalkFlat(o, path, sorted, depth, left)
  {
  }

  lemma {:induction false} LastIsFlat(o: Options, path: Path, sorted: seq<Child>, depth: nat, left: nat)
    requires Left(o, depth, left) && sorted != []
    requires WalkFlat(o, path, sorted[..|sorted| - 1], depth, left) && ChildFlat(o, path, sorted[|sorted| - 1], depth, left)
    ensures WalkFlat(o, path, sorted, depth, left)
  {
    var init, last := sorted[..|sorted| - 1], sorted[|sorted| - 1];
    LastVisited(path, sorted, left);
    JoinedSum(o, Visited(path, init, left), VisitedAt(path + [last.name], last.item, left),
              DirFindings(o, path, init, depth), Both(ENTRY, ChildFindings(o, path, last, depth)),
              DirFindings(o, path, sorted, depth), Visited(path, sorted, left));
  }

  lemma {:induction false} LastVisited(path: Path, sorted: seq<Child>, left: nat)
    requires sorted != []
    ensures var init, last := sorted[..|sorted| - 1], sorted[|sorted| - 1];
            Visited(path, sorted, left) == Visited(path, init, left) + VisitedAt(path + [last.name], last.item, left)
  {
  }

  lemma {:induction false} JoinedSum(o: Options, a: seq<Visit>, b: seq<Visit>, f: Findings, g: Findings, all: Findings, visits: seq<Visit>)
    requires ValidOptions(o) && f == Sum(o, a) && g == Sum(o, b) && all == Both(f, g) && visits == a + b
    ensures all == Sum(o, visits)
  {
    SumConcat(o, a, b);
  }

  lemma {:induction false} ChildIsFlat(o: Options, path: Path, child: Child, depth: nat, left: nat)
    requires Left(o, depth, left)
    ensures ChildFlat(o, path, child, depth, left)
    decreases left, 0
  {
    if Enters(child.item, left) {
      var sorted := Sort(child.item.children);
      WalkIsFlat(o, path + [child.name], sorted, depth + 1, left - 1);
      DirIsFlat(o, path, child, sorted, depth, left);
    } else {
      LeafIsFlat(o, path, child, depth, left);
    }
  }

  /** What a search without limits finds and counts is the sum over the entries it visits. */
  lemma {:induction false} WalkIsFlat(o: Options, path: Path, sorted: seq<Child>, depth: nat, left: nat)
    requires Left(o, depth, left)
    ensures WalkFlat(o, path, sorted, depth, left)
    decreases left, |sorted| + 1
  {
    if sorted == [] {
      NothingIsFlat(o, path, sorted, depth, left);
    } else {
      WalkIsFlat(o, path, sorted[..|sorted| - 1], depth, left);
      ChildIsFlat(o, path, sorted[|sorted| - 1], depth, left);
      LastIsFlat(o, path, sorted, depth, left);
    }
  }

  // ---- What is counted. ----

  /** A file whose path matches the glob. */
  predicate Chosen(o: Options, v: Visit) {
    v.node.File? && o.glob(v.path)
  }

  /** One that is opened for a query and is longer than the limit. */
  predicate TooLong(o: Options, v: Visit) {
    Chosen(o, v) && o.query.Some? && v.node.content.Readable? && v.node.content.size > o.maxFileBytes
  }

  /** One that is read for a query and is not text. */
  predicate NotText(o: Options, v: Visit) {
    Chosen(o, v) && o.query.Some? && v.node.content.Readable? && v.node.content.size <= o.maxFileBytes && v.node.content.text.None?
  }

  datatype Kind = Scanned | Oversized | Binary

  predicate Counted(o: Options, kind: Kind, v: Visit) {
    match kind
    case Scanned => Chosen(o, v)
    case Oversized => TooLong(o, v)
    case Binary => NotText(o, v)
  }

  function Count(kind: Kind, f: Findings): nat {
    match kind
    case Scanned => f.files
    case Oversized => f.oversized
    case Binary => f.binary
  }

  function Places(o: Options, kind: Kind, visits: seq<Visit>): set<nat> {
    set i: nat | i < |visits| && Counted(o, kind, visits[i])
  }

  lemma {:induction false} OnePlaceMore(o: Options, kind: Kind, visits: seq<Visit>)
    requires visits != []
    ensures |Places(o, kind, visits)|
         == |Places(o, kind, visits[..|visits| - 1])| + if Counted(o, kind, visits[|visits| - 1]) then 1 else 0
  {
    var n := |visits| - 1;
    PlacesSplit(o, kind, visits);
    assert n !in Places(o, kind, visits[..n]);
  }

  lemma {:induction false} PlacesSplit(o: Options, kind: Kind, visits: seq<Visit>)
    requires visits != []
    ensures var n := |visits| - 1;
            Places(o, kind, visits) == Places(o, kind, visits[..n]) + if Counted(o, kind, visits[n]) then {n} else {}
  {
    var n := |visits| - 1;
    forall i: nat
      ensures i in Places(o, kind, visits) <==> i in Places(o, kind, visits[..n]) || (i == n && Counted(o, kind, visits[n]))
    {
    }
  }

  lemma {:induction false} CountBoth(kind: Kind, a: Findings, b: Findings)
    ensures Count(kind, Both(a, b)) == Count(kind, a) + Count(kind, b)
    ensures Both(a, b).entries == a.entries + b.entries
  {
  }

  lemma {:induction false} TextCount(o: Options, kind: Kind, path: Path, content: Content)
    requires ValidOptions(o) && o.query.Some? && o.glob(path)
    ensures Count(kind, TextFindings(o, path, content))
         == if kind != Scanned && Counted(o, kind, Visit(path, File(content))) then 1 else 0
    ensures TextFindings(o, path, content).entries == 0
  {
  }

  lemma {:induction false} ChosenCount(o: Options, kind: Kind, path: Path, content: Content)
    requires ValidOptions(o) && o.glob(path)
    ensures Count(kind, ChosenFindings(o, path, content))
         == if kind != Scanned && Counted(o, kind, Visit(path, File(content))) then 1 else 0
    ensures ChosenFindings(o, path, content).entries == 0
  {
    if o.query.Some? {
      TextCount(o, kind, path, content);
    }
  }

  lemma {:induction false} FileCount(o: Options, kind: Kind, path: Path, content: Content)
    requires ValidOptions(o)
    ensures Count(kind, FileFindings(o, path, content)) == if Counted(o, kind, Visit(path, File(content))) then 1 else 0
    ensures FileFindings(o, path, content).entries == 0
  {
    if o.glob(path) {
      ChosenCount(o, kind, path, content);
      FileAdds(kind, ChosenFindings(o, path, content), Count(kind, ChosenFindings(o, path, content)));
    }
  }

  lemma {:induction false} FileAdds(kind: Kind, found: Findings, n: nat)
    requires Count(kind, found) == n && found.entries == 0
    ensures Count(kind, Both(FILE, found)) == (if kind == Scanned then n + 1 else n) && Both(FILE, found).entries == 0
  {
  }

  lemma {:induction false} NodeCount(o: Options, kind: Kind, path: Path, node: Node)
    requires ValidOptions(o)
    ensures Count(kind, NodeFindings(o, path, node)) == if Counted(o, kind, Visit(path, node)) then 1 else 0
    ensures NodeFindings(o, path, node).entries == 0
  {
    match node {
      case File(content) => FileCount(o, kind, path, content);
      case _ =>
    }
  }

  lemma {:induction false} VisitCount(o: Options, kind: Kind, v: Visit)
    requires ValidOptions(o)
    ensures Count(kind, VisitFindings(o, v)) == if Counted(o, kind, v) then 1 else 0
    ensures VisitFindings(o, v).entries == 1
  {
    NodeCount(o, kind, v.path, v.node);
    EntryAdds(kind, NodeFindings(o, v.path, v.node), if Counted(o, kind, v) then 1 else 0);
  }

  lemma {:induction false} EntryAdds(kind: Kind, found: Findings, n: nat)
    requires Count(kind, found) == n && found.entries == 0
    ensures Count(kind, Both(ENTRY, found)) == n && Both(ENTRY, found).entries == 1
  {
  }

  lemma {:induction false} SumCount(o: Options, kind: Kind, visits: seq<Visit>)
    requires ValidOptions(o)
    ensures Count(kind, Sum(o, visits)) == |Places(o, kind, visits)|
    ensures Sum(o, visits).entries == |visits|
  {
    if visits == [] {
      assert Places(o, kind, visits) == {};
    } else {
      var init, last := visits[..|visits| - 1], visits[|visits| - 1];
      SumCount(o, kind, init);
      VisitCount(o, kind, last);
      CountBoth(kind, Sum(o, init), VisitFindings(o, last));
      OnePlaceMore(o, kind, visits);
    }
  }

  /** Every visit is counted as an entry, as scanned files those that match the glob, and of them,
      when there is a query, the ones too long and the ones not text. */
  ghost predicate CountsOf(o: Options, all: Findings, visits: seq<Visit>) {
    && all.entries == |visits|
    && all.files == |set i: nat | i < |visits| && Chosen(o, visits[i])|
    && all.oversized == |set i: nat | i < |visits| && TooLong(o, visits[i])|
    && all.binary == |set i: nat | i < |visits| && NotText(o, visits[i])|
  }

  /** A search without limits counts what it visits. */
  lemma {:induction false} CountsAre(o: Options, path: Path, children: seq<Child>, depth: nat, left: nat)
    requires Left(o, depth, left)
    ensures CountsOf(o, DirFindings(o, path, Sort(children), depth), Visited(path, Sort(children), left))
  {
    WalkIsFlat(o, path, Sort(children), depth, left);
    SumCounts(o, DirFindings(o, path, Sort(children), depth), Visited(path, Sort(children), left));
  }

  lemma {:induction false} SumCounts(o: Options, all: Findings, visits: seq<Visit>)
    requires ValidOptions(o) && all == Sum(o, visits)
    ensures CountsOf(o, all, visits)
  {
    SumCount(o, Scanned, visits);
    SumCount(o, Oversized, visits);
    SumCount(o, Binary, visits);
    PlacesAre(o, visits);
  }

  lemma {:induction false} PlacesAre(o: Options, visits: seq<Visit>)
    ensures Places(o, Scanned, visits) == set i: nat | i < |visits| && Chosen(o, visits[i])
    ensures Places(o, Oversized, visits) == set i: nat | i < |visits| && TooLong(o, visits[i])
    ensures Places(o, Binary, visits) == set i: nat | i < |visits| && NotText(o, visits[i])
  {
  }

  // ---- Which entries are visited. ----

  /** What stands at a relative path, through admitted directories at most `depth` levels down. */
  function NodeAt(children: seq<Child>, path: Path, depth: nat): Option<Node>
    decreases |path|
  {
    if path == [] then None
    else
      match FindChild(children, path[0])
      case None => None
      case Some(node) =>
        if |path| == 1 then Some(node)
        else if node.Dir? && node.admitted && depth > 0 then NodeAt(node.children, path[1..], depth - 1)
        else None
  }

  lemma {:induction false} FilesAt(children: seq<Child>, path: Path, depth: nat, content: Content)
    ensures Lookup(children, path, depth) == Some(content) <==> NodeAt(children, path, depth) == Some(File(content))
    decreases |path|
  {
    if path != [] && FindChild(children, path[0]).Some? {
      var node := FindChild(children, path[0]).value;
      if node.Dir? && node.admitted && depth > 0 {
        FilesAt(node.children, path[1..], depth - 1, content);
      }
    }
  }

  ghost predicate VisitedBelow(path: Path, children: seq<Child>, depth: nat, v: Visit) {
    path <= v.path && NodeAt(children, v.path[|path|..], depth) == Some(v.node)
  }

  /** The visit of a child or of something below it. */
  ghost predicate VisitedFrom(path: Path, child: Child, depth: nat, v: Visit) {
    var p := path + [child.name];
    || v == Visit(p, child.item)
    || (child.item.Dir? && child.item.admitted && depth > 0 && VisitedBelow(p, child.item.children, depth - 1, v))
  }

  /** The visit comes from one of the children. */
  ghost predicate FromSome(path: Path, sorted: seq<Child>, depth: nat, v: Visit) {
    exists i :: 0 <= i < |sorted| && v in VisitedAt(path + [sorted[i].name], sorted[i].item, depth)
  }

  lemma {:induction false} FromLast(path: Path, sorted: seq<Child>, depth: nat, v: Visit)
    requires sorted != []
    ensures var init, last := sorted[..|sorted| - 1], sorted[|sorted| - 1];
            FromSome(path, sorted, depth, v) <==> FromSome(path, init, depth, v) || v in VisitedAt(path + [last.name], last.item, depth)
  {
    var n := |sorted|;
    var init := sorted[..n - 1];
    if i :| 0 <= i < |init| && v in VisitedAt(path + [init[i].name], init[i].item, depth) {
      assert sorted[i] == init[i];
    }
    if i :| 0 <= i < |sorted| && v in VisitedAt(path + [sorted[i].name], sorted[i].item, depth) {
      if i < n - 1 { assert init[i] == sorted[i]; }
    }
  }

  lemma {:induction false} InJoined(a: seq<Visit>, b: seq<Visit>, all: seq<Visit>, v: Visit)
    requires all == a + b
    ensures v in all <==> v in a || v in b
  {
  }

  lemma {:induction false} VisitedMember(path: Path, sorted: seq<Child>, depth: nat, v: Visit)
    ensures v in Visited(path, sorted, depth) <==> FromSome(path, sorted, depth, v)
  {
    if sorted != [] {
      var init, last := sorted[..|sorted| - 1], sorted[|sorted| - 1];
      VisitedMember(path, init, depth, v);
      LastVisited(path, sorted, depth);
      InJoined(Visited(path, init, depth), VisitedAt(path + [last.name], last.item, depth), Visited(path, sorted, depth), v);
      FromLast(path, sorted, depth, v);
    }
  }

  lemma {:induction false} FromChild(path: Path, children: seq<Child>, i: nat, depth: nat, v: Visit)
    requires IsTree(children) && i < |children| && VisitedFrom(path, children[i], depth, v)
    ensures VisitedBelow(path, children, depth, v)
  {
    var p := path + [children[i].name];
    FindIt(children, i);
    assert p <= v.path;
    assert path == p[..|path|] && v.path[|path|] == children[i].name;
    assert v.path[|path|..][1..] == v.path[|p|..];
    if v.path != p {
      assert |v.path[|path|..]| > 1;
    }
  }

  lemma {:induction false} ToChild(path: Path, children: seq<Child>, depth: nat, v: Visit) returns (i: nat)
    requires IsTree(children) && VisitedBelow(path, children, depth, v)
    ensures i < |children| && VisitedFrom(path, children[i], depth, v)
  {
    var rel := v.path[|path|..];
    i := Found(children, rel[0]);
    var p := path + [children[i].name];
    assert v.path == path + rel;
    assert p <= v.path && v.path[|p|..] == rel[1..];
    assert |rel| == 1 ==> v.path == p;
  }

  lemma {:induction false} ChildVisits(path: Path, child: Child, depth: nat, v: Visit)
    requires IsSubtree(child.item)
    ensures v in VisitedAt(path + [child.name], child.item, depth) <==> VisitedFrom(path, child, depth, v)
    decreases depth, 0
  {
    if child.item.Dir? && child.item.admitted && depth > 0 {
      VisitsExactly(path + [child.name], child.item.children, depth - 1, v);
    }
  }

  /** The walk visits exactly what stands at some path that leads through admitted directories
      within the depth. */
  lemma {:induction false} VisitsExactly(path: Path, children: seq<Child>, depth: nat, v: Visit)
    requires IsTree(children)
    ensures v in Visited(path, Sort(children), depth) <==> path <= v.path && NodeAt(children, v.path[|path|..], depth) == Some(v.node)
    decreases depth, 1
  {
    var sorted := Sort(children);
    VisitedMember(path, sorted, depth, v);
    if i :| 0 <= i < |sorted| && v in VisitedAt(path + [sorted[i].name], sorted[i].item, depth) {
      SortMember(children, sorted[i]);
      var k :| 0 <= k < |children| && children[k] == sorted[i];
      ChildVisits(path, children[k], depth, v);
      FromChild(path, children, k, depth, v);
    }
    if VisitedBelow(path, children, depth, v) {
      var k := ToChild(path, children, depth, v);
      ChildVisits(path, children[k], depth, v);
      SortMember(children, children[k]);
      var i :| 0 <= i < |sorted| && sorted[i] == children[k];
    }
  }

  // ---- In which order. ----

  ghost predicate PathsIncrease(visits: seq<Visit>) {
    forall i, j :: 0 <= i < j < |visits| ==> PathLess(visits[i].path, visits[j].path)
  }

  ghost predicate AllUnder(visits: seq<Visit>, path: Path) {
    forall i :: 0 <= i < |visits| ==> path <= visits[i].path
  }

  lemma {:induction false} PrefixLess(a: Path, b: Path)
    requires a < b
    ensures PathLess(a, b)
  {
    if a != [] {
      assert a[0] == b[0] && a[1..] < b[1..];
      PrefixLess(a[1..], b[1..]);
    }
  }

  lemma {:induction false} IncreasingJoin(a: seq<Visit>, b: seq<Visit>)
    requires PathsIncrease(a) && PathsIncrease(b)
    requires forall i, j :: 0 <= i < |a| && 0 <= j < |b| ==> PathLess(a[i].path, b[j].path)
    ensures PathsIncrease(a + b)
  {
  }

  lemma {:induction false} ChildIncreases(path: Path, node: Node, depth: nat)
    requires IsSubtree(node)
    ensures PathsIncrease(VisitedAt(path, node, depth)) && AllUnder(VisitedAt(path, node, depth), path)
    decreases depth, 0
  {
    if node.Dir? && node.admitted && depth > 0 {
      VisitsIncrease(path, node.children, depth - 1);
      DirIncreases(path, node, depth);
    } else {
      LeafIncreases(path, node, depth);
    }
  }

  lemma {:induction false} LeafIncreases(path: Path, node: Node, depth: nat)
    requires !(node.Dir? && node.admitted && depth > 0)
    ensures PathsIncrease(VisitedAt(path, node, depth)) && AllUnder(VisitedAt(path, node, depth), path)
  {
    LeafAlone(path, node, depth);
  }

  lemma {:induction false} DirIncreases(path: Path, node: Node, depth: nat)
    requires node.Dir? && node.admitted && depth > 0 && IsTree(node.children)
    requires PathsIncrease(Visited(path, Sort(node.children), depth - 1))
    ensures PathsIncrease(VisitedAt(path, node, depth)) && AllUnder(VisitedAt(path, node, depth), path)
  {
    BelowFollows(path, node.children, depth - 1);
    EntersBelow(path, node, depth);
    DirFirst(Visit(path, node), Visited(path, Sort(node.children), depth - 1));
  }

  lemma {:induction false} BelowFollows(path: Path, children: seq<Child>, depth: nat)
    requires IsTree(children)
    ensures forall v :: v in Visited(path, Sort(children), depth) ==> path < v.path
  {
    forall v | v in Visited(path, Sort(children), depth) ensures path < v.path {
      VisitsExactly(path, children, depth, v);
    }
  }

  lemma {:induction false} DirFirst(v: Visit, below: seq<Visit>)
    requires PathsIncrease(below) && forall w :: w in below ==> v.path < w.path
    ensures PathsIncrease([v] + below) && AllUnder([v] + below, v.path)
  {
    forall j | 0 <= j < |below| ensures PathLess(v.path, below[j].path) && v.path <= below[j].path {
      assert below[j] in below;
      PrefixLess(v.path, below[j].path);
    }
    IncreasingJoin([v], below);
  }

  lemma {:induction false} EarlierVisit(path: Path, sorted: seq<Child>, depth: nat, v: Visit, w: Visit)
    requires sorted != [] && Increasing(sorted) && forall i :: 0 <= i < |sorted| ==> IsSubtree(sorted[i].item)
    requires v in Visited(path, sorted[..|sorted| - 1], depth)
    requires path + [sorted[|sorted| - 1].name] <= w.path
    ensures PathLess(v.path, w.path)
  {
    var init := sorted[..|sorted| - 1];
    VisitedMember(path, init, depth, v);
    var k :| 0 <= k < |init| && v in VisitedAt(path + [init[k].name], init[k].item, depth);
    assert init[k] == sorted[k];
    var p, q := path + [sorted[k].name], path + [sorted[|sorted| - 1].name];
    ChildVisits(path, sorted[k], depth, v);
    assert p <= v.path && path == p[..|path|] && path == q[..|path|];
    ForkLess(path, v.path, w.path);
  }

  lemma {:induction false} SortedIncrease(path: Path, sorted: seq<Child>, depth: nat)
    requires Increasing(sorted) && forall i :: 0 <= i < |sorted| ==> IsSubtree(sorted[i].item)
    ensures PathsIncrease(Visited(path, sorted, depth))
    decreases depth, 1, |sorted|
  {
    if sorted != [] {
      var init, last := sorted[..|sorted| - 1], sorted[|sorted| - 1];
      var s, t := Visited(path, init, depth), VisitedAt(path + [last.name], last.item, depth);
      SortedIncrease(path, init, depth);
      ChildIncreases(path + [last.name], last.item, depth);
      forall i, j | 0 <= i < |s| && 0 <= j < |t| ensures PathLess(s[i].path, t[j].path) {
        EarlierVisit(path, sorted, depth, s[i], t[j]);
      }
      IncreasingJoin(s, t);
    }
  }

  /** Nothing is visited twice: the paths increase strictly, a directory before what it holds. */
  lemma {:induction false} VisitsIncrease(path: Path, children: seq<Child>, depth: nat)
    requires IsTree(children)
    ensures PathsIncrease(Visited(path, Sort(children), depth))
    decreases depth, 2
  {
    var sorted := Sort(children);
    SortIncreases(children);
    forall i | 0 <= i < |sorted| ensures IsSubtree(sorted[i].item) {
      SortMember(children, sorted[i]);
      var k :| 0 <= k < |children| && children[k] == sorted[i];
    }
    SortedIncrease(path, sorted, depth);
  }
}
