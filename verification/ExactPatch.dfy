/** The exact text patch: locating every edit, planning, and applying the plan. */
module ExactPatch {
  import opened Utf16
  import opened Wrappers

  datatype Edit = Edit(oldText: Text, newText: Text)

  datatype Planned = Planned(edit: Edit, index: nat, start: nat) {
    function End(): nat { start + |edit.oldText| }
  }

  datatype Conflict =
    | NotFound(index: nat)
    | Ambiguous(index: nat, matchCount: nat)
    | Overlapping(index: nat, conflictsWith: nat)

  predicate OccursAt(source: Text, expected: Text, i: int) {
    0 <= i <= |source| - |expected| && source[i..i + |expected|] == expected
  }

  /** `String.prototype.indexOf`. */
  function IndexOf(source: Text, expected: Text, from: nat): (r: int)
    ensures r == -1 || (from <= r && OccursAt(source, expected, r))
    ensures forall j :: from <= j && OccursAt(source, expected, j) ==> r != -1 && r <= j
    decreases |source| - from
  {
    if from + |expected| > |source| then -1
    else if source[from..from + |expected|] == expected then from
    else IndexOf(source, expected, from + 1)
  }

  /** All positions of the expected text from `from` on, overlapping ones included. */
  function Occurrences(source: Text, expected: Text, from: nat): (r: seq<nat>)
    requires expected != []
    decreases |source| - from
  {
    var found := IndexOf(source, expected, from);
    if found < 0 then [] else [found] + Occurrences(source, expected, found + 1)
  }

  /** The positions are exactly those where the text occurs, each once, in order. */
  lemma {:induction false} OccurrencesExact(source: Text, expected: Text, from: nat)
    requires expected != []
    ensures forall j, k :: 0 <= j < k < |Occurrences(source, expected, from)| ==> Occurrences(source, expected, from)[j] < Occurrences(source, expected, from)[k]
    ensures forall i :: i in Occurrences(source, expected, from) <==> from <= i && OccursAt(source, expected, i)
    decreases |source| - from
  {
    var found := IndexOf(source, expected, from);
    if found >= 0 {
      OccurrencesExact(source, expected, found + 1);
      var rest := Occurrences(source, expected, found + 1);
      assert forall k :: 0 <= k < |rest| ==> rest[k] in rest;
    }
  }

  lemma {:induction false} AppendAssociates<T>(a: seq<T>, b: seq<T>, c: seq<T>)
    ensures (a + b) + c == a + (b + c)
  {
  }

  lemma {:induction false} FirstOccurrence(source: Text, expected: Text, from: nat, found: nat)
    requires expected != [] && found == IndexOf(source, expected, from)
    ensures Occurrences(source, expected, from) == [found] + Occurrences(source, expected, found + 1)
  {
  }

  lemma {:induction false} NextOccurrence(source: Text, expected: Text, matches: seq<nat>, from: nat, found: nat)
    requires expected != [] && found == IndexOf(source, expected, from)
    ensures matches + Occurrences(source, expected, from) == matches + [found] + Occurrences(source, expected, found + 1)
  {
    FirstOccurrence(source, expected, from, found);
    AppendAssociates(matches, [found], Occurrences(source, expected, found + 1));
  }

  /** The loop is sound, complete and terminates for every non-empty text. */
  method FindAllOccurrences(source: Text, expected: Text) returns (matches: seq<nat>)
    requires expected != []
    ensures matches == Occurrences(source, expected, 0)
    ensures forall j, k :: 0 <= j < k < |matches| ==> matches[j] < matches[k]
    ensures forall i :: i in matches <==> OccursAt(source, expected, i)
  {
    matches := [];
    var from: nat := 0;
    while true
      invariant from <= |source| + 1
      invariant Occurrences(source, expected, 0) == matches + Occurrences(source, expected, from)
      decreases |source| + 1 - from
    {
      var found := IndexOf(source, expected, from);
      if found < 0 {
        break;
      }
      NextOccurrence(source, expected, matches, from, found);
      matches := matches + [found];
      from := found + 1;
    }
    OccurrencesExact(source, expected, 0);
  }

  // ---- Planning. ----

  /** The position of each edit, or the first edit that has none or several. */
  function Located(source: Text, edits: seq<Edit>): (r: Result<seq<Planned>, Conflict>)
    requires forall e :: e in edits ==> e.oldText != []
    ensures r.Ok? ==> |r.value| == |edits|
  {
    if edits == [] then Ok([])
    else
      var i := |edits| - 1;
      match Located(source, edits[..i])
      case Err(conflict) => Err(conflict)
      case Ok(planned) =>
        var matches := Occurrences(source, edits[i].oldText, 0);
        if |matches| == 0 then Err(NotFound(i))
        else if |matches| > 1 then Err(Ambiguous(i, |matches|))
        else Ok(planned + [Planned(edits[i], i, matches[0])])
  }

  /** The stable sort by start position. */
  function Insert(p: Planned, ordered: seq<Planned>): seq<Planned> {
    if ordered == [] || ordered[|ordered| - 1].start <= p.start then ordered + [p]
    else Insert(p, ordered[..|ordered| - 1]) + [ordered[|ordered| - 1]]
  }

  function SortByStart(planned: seq<Planned>): seq<Planned> {
    if planned == [] then [] else Insert(planned[|planned| - 1], SortByStart(planned[..|planned| - 1]))
  }

  /** The first neighbours that overlap. */
  function FirstOverlap(ordered: seq<Planned>, i: nat): Option<Conflict>
    requires 1 <= i
    decreases |ordered| - i
  {
    if i >= |ordered| then None
    else if ordered[i].start < ordered[i - 1].End() then Some(Overlapping(ordered[i].index, ordered[i - 1].index))
    else FirstOverlap(ordered, i + 1)
  }

  function Plan(source: Text, edits: seq<Edit>): Result<seq<Planned>, Conflict>
    requires forall e :: e in edits ==> e.oldText != []
  {
    match Located(source, edits)
    case Err(conflict) => Err(conflict)
    case Ok(planned) =>
      var ordered := SortByStart(planned);
      match FirstOverlap(ordered, 1)
      case Some(conflict) => Err(conflict)
      case None => Ok(ordered)
  }

  method PlanExactPatch(source: Text, edits: seq<Edit>) returns (r: Result<seq<Planned>, Conflict>)
    requires forall e :: e in edits ==> e.oldText != []
    ensures r == Plan(source, edits)
  {
    var planned: seq<Planned> := [];
    var editIndex := 0;
    assert edits[..0] == [];
    while editIndex < |edits|
      invariant 0 <= editIndex <= |edits|
      invariant Located(source, edits[..editIndex]) == Ok(planned)
    {
      var upTo := edits[..editIndex + 1];
      assert upTo[..editIndex] == edits[..editIndex];
      var matches := FindAllOccurrences(source, edits[editIndex].oldText);
      if |matches| == 0 {
        LocatedPrefix(source, edits, editIndex + 1);
        return Err(NotFound(editIndex));
      }
      if |matches| > 1 {
        LocatedPrefix(source, edits, editIndex + 1);
        return Err(Ambiguous(editIndex, |matches|));
      }
      planned := planned + [Planned(edits[editIndex], editIndex, matches[0])];
      editIndex := editIndex + 1;
    }
    assert edits[..|edits|] == edits;

    var ordered := SortByStart(planned);
    var index := 1;
    while index < |ordered|
      invariant 1 <= index
      invariant FirstOverlap(ordered, 1) == FirstOverlap(ordered, index)
    {
      if ordered[index].start < ordered[index - 1].End() {
        return Err(Overlapping(ordered[index].index, ordered[index - 1].index));
      }
      index := index + 1;
    }
    return Ok(ordered);
  }

  /** A conflict among the first edits is the conflict of all. */
  lemma {:induction false} LocatedPrefix(source: Text, edits: seq<Edit>, n: nat)
    requires forall e :: e in edits ==> e.oldText != []
    requires n <= |edits|
    ensures Located(source, edits[..n]).Err? ==> Located(source, edits) == Located(source, edits[..n])
    decreases |edits|
  {
    if n == |edits| {
      assert edits[..n] == edits;
    } else {
      var init := edits[..|edits| - 1];
      assert init[..n] == edits[..n];
      LocatedPrefix(source, init, n);
    }
  }

  // ---- Applying a plan. ----

  /** A plan in order: each edit ends before the next starts. */
  predicate Sorted(plan: seq<Planned>) {
    forall i :: 0 < i < |plan| ==> plan[i - 1].End() <= plan[i].start
  }

  predicate ValidPlan(source: Text, plan: seq<Planned>) {
    Sorted(plan) && (plan != [] ==> plan[|plan| - 1].End() <= |source|)
  }

  function Splice(source: Text, p: Planned): Text
    requires p.End() <= |source|
  {
    source[..p.start] + p.edit.newText + source[p.End()..]
  }

  /** The edits made one at a time, the last in the text first. */
  function SpliceAll(source: Text, plan: seq<Planned>): (r: Text)
    requires ValidPlan(source, plan)
    decreases |plan|
  {
    if plan == [] then source
    else
      var last, init := plan[|plan| - 1], plan[..|plan| - 1];
      PrefixFits(source, plan);
      SpliceAll(Splice(source, last), init)
  }

  lemma {:induction false} PrefixFits(source: Text, plan: seq<Planned>)
    requires ValidPlan(source, plan) && plan != []
    ensures ValidPlan(Splice(source, plan[|plan| - 1]), plan[..|plan| - 1])
    ensures ValidPlan(source[..plan[|plan| - 1].start], plan[..|plan| - 1])
  {
  }

  /** What lies behind the plan is carried along unchanged. */
  lemma {:induction false} SpliceTail(source: Text, plan: seq<Planned>, k: nat)
    requires k <= |source| && ValidPlan(source[..k], plan)
    ensures ValidPlan(source, plan)
    ensures SpliceAll(source, plan) == SpliceAll(source[..k], plan) + source[k..]
    decreases |plan|
  {
    if plan == [] {
      assert source == source[..k] + source[k..];
    } else {
      var last, init := plan[|plan| - 1], plan[..|plan| - 1];
      PrefixFits(source[..k], plan);
      PrefixFits(source, plan);
      var short, long := Splice(source[..k], last), Splice(source, last);
      assert long[..|short|] == short;
      assert long[|short|..] == source[k..];
      SpliceTail(long, init, |short|);
    }
  }

  /** The last edit made behind everything before it. */
  lemma {:induction false} SpliceLast(source: Text, plan: seq<Planned>, p: Planned)
    requires ValidPlan(source, plan + [p])
    ensures ValidPlan(source[..p.start], plan)
    ensures SpliceAll(source, plan + [p]) == SpliceAll(source[..p.start], plan) + p.edit.newText + source[p.End()..]
  {
    assert (plan + [p])[..|plan|] == plan;
    PrefixFits(source, plan + [p]);
    var t := Splice(source, p);
    assert t[..p.start] == source[..p.start];
    assert t[p.start..] == p.edit.newText + source[p.End()..];
    SpliceTail(t, plan, p.start);
  }

  function Join(parts: seq<Text>): Text {
    if parts == [] then [] else Join(parts[..|parts| - 1]) + parts[|parts| - 1]
  }

  lemma {:induction false} JoinAppend(parts: seq<Text>, s: Text, t: Text)
    ensures Join(parts + [s]) == Join(parts) + s
    ensures Join(parts + [s, t]) == Join(parts) + s + t
  {
    assert (parts + [s])[..|parts|] == parts;
    assert (parts + [s, t])[..|parts| + 1] == parts + [s];
  }

  /** One pass from left to right makes the same text as the edits one by one from right to left. */
  method ApplyPlannedPatch(source: Text, planned: seq<Planned>) returns (text: Text)
    requires ValidPlan(source, planned)
    ensures text == SpliceAll(source, planned)
  {
    var parts: seq<Text> := [];
    var cursor: nat := 0;
    var i := 0;
    while i < |planned|
      invariant 0 <= i <= |planned|
      invariant cursor == if i == 0 then 0 else planned[i - 1].End()
      invariant cursor <= |source| && ValidPlan(source[..cursor], planned[..i])
      invariant Join(parts) == SpliceAll(source[..cursor], planned[..i])
    {
      var edit := planned[i];
      SortedWithin(source, planned, i);
      LoopStep(source, planned, i, cursor);
      JoinAppend(parts, source[cursor..edit.start], edit.edit.newText);
      parts := parts + [source[cursor..edit.start], edit.edit.newText];
      cursor := edit.End();
      i := i + 1;
    }
    assert planned[..i] == planned;
    SpliceTail(source, planned, cursor);
    JoinAppend(parts, source[cursor..], []);
    parts := parts + [source[cursor..]];
    text := Join(parts);
  }

  lemma {:induction false} SortedWithin(source: Text, plan: seq<Planned>, i: nat)
    requires ValidPlan(source, plan) && i < |plan|
    ensures plan[i].End() <= |source|
    decreases |plan| - i
  {
    if i + 1 < |plan| {
      SortedWithin(source, plan, i + 1);
    }
  }

  lemma {:induction false} LoopStep(source: Text, plan: seq<Planned>, i: nat, cursor: nat)
    requires ValidPlan(source, plan) && i < |plan| && plan[i].End() <= |source|
    requires cursor == if i == 0 then 0 else plan[i - 1].End()
    requires cursor <= |source| && ValidPlan(source[..cursor], plan[..i])
    ensures cursor <= plan[i].start && ValidPlan(source[..plan[i].End()], plan[..i + 1])
    ensures SpliceAll(source[..plan[i].End()], plan[..i + 1])
         == SpliceAll(source[..cursor], plan[..i]) + source[cursor..plan[i].start] + plan[i].edit.newText
  {
    var p := plan[i];
    assert plan[..i + 1] == plan[..i] + [p];
    LoopSplice(source, plan[..i], p, cursor);
  }

  lemma {:induction false} LoopSplice(source: Text, before: seq<Planned>, p: Planned, cursor: nat)
    requires cursor <= p.start <= p.End() <= |source| && ValidPlan(source[..cursor], before)
    requires ValidPlan(source[..p.End()], before + [p]) && ValidPlan(source[..p.start], before)
    ensures SpliceAll(source[..p.End()], before + [p])
         == SpliceAll(source[..cursor], before) + source[cursor..p.start] + p.edit.newText
  {
    var s := source[..p.End()];
    assert s[..p.start] == source[..p.start];
    SpliceLast(s, before, p);
    assert source[..p.start][..cursor] == source[..cursor];
    SpliceTail(source[..p.start], before, cursor);
    assert s[p.End()..] == [];
  }

  // ---- Length and inverse. ----

  function Growth(plan: seq<Planned>): int {
    if plan == [] then 0
    else Growth(plan[..|plan| - 1]) + |plan[|plan| - 1].edit.newText| - |plan[|plan| - 1].edit.oldText|
  }

  lemma {:induction false} PatchedLength(source: Text, plan: seq<Planned>)
    requires ValidPlan(source, plan)
    ensures |SpliceAll(source, plan)| == |source| + Growth(plan)
    decreases |plan|
  {
    if plan != [] {
      PrefixFits(source, plan);
      PatchedLength(Splice(source, plan[|plan| - 1]), plan[..|plan| - 1]);
    }
  }

  /** The old texts are what stands at the planned positions. */
  predicate Matches(source: Text, plan: seq<Planned>) {
    forall p :: p in plan ==> OccursAt(source, p.edit.oldText, p.start)
  }

  /** The plan that puts the old texts back at the shifted positions. */
  function Undo(source: Text, plan: seq<Planned>): (r: seq<Planned>)
    requires ValidPlan(source, plan)
    ensures |r| == |plan|
    decreases |plan|
  {
    if plan == [] then []
    else
      var last, init := plan[|plan| - 1], plan[..|plan| - 1];
      PrefixFits(source, plan);
      var shifted := |SpliceAll(source[..last.start], init)|;
      Undo(source[..last.start], init) + [Planned(Edit(last.edit.newText, last.edit.oldText), last.index, shifted)]
  }

  /** Each undoing edit puts the old text back for the new one, where its edit was, moved by what
      the edits before it added. */
  lemma {:induction false} UndoShifts(source: Text, plan: seq<Planned>, i: nat)
    requires ValidPlan(source, plan) && i < |plan|
    ensures Undo(source, plan)[i].start == plan[i].start + Growth(plan[..i])
    ensures Undo(source, plan)[i].edit == Edit(plan[i].edit.newText, plan[i].edit.oldText)
    ensures Undo(source, plan)[i].index == plan[i].index
    decreases |plan|
  {
    var last, init := plan[|plan| - 1], plan[..|plan| - 1];
    PrefixFits(source, plan);
    if i == |init| {
      PatchedLength(source[..last.start], init);
    } else {
      UndoShifts(source[..last.start], init, i);
      assert init[..i] == plan[..i];
    }
  }

  /** Splicing the old texts back restores the source exactly. */
  lemma {:induction false} UndoRestores(source: Text, plan: seq<Planned>)
    requires ValidPlan(source, plan) && Matches(source, plan)
    ensures ValidPlan(SpliceAll(source, plan), Undo(source, plan))
    ensures SpliceAll(SpliceAll(source, plan), Undo(source, plan)) == source
    decreases |plan|
  {
    if plan != [] {
      var last, init := plan[|plan| - 1], plan[..|plan| - 1];
      assert plan == init + [last];
      PrefixFits(source, plan);
      var head := source[..last.start];
      HeadMatches(source, plan);
      UndoRestores(head, init);
      SpliceLast(source, init, last);
      UndoLast(source, head, init, last);
    }
  }

  lemma {:induction false} HeadMatches(source: Text, plan: seq<Planned>)
    requires ValidPlan(source, plan) && Matches(source, plan) && plan != []
    ensures Matches(source[..plan[|plan| - 1].start], plan[..|plan| - 1])
  {
    var last, init := plan[|plan| - 1], plan[..|plan| - 1];
    forall p | p in init ensures OccursAt(source[..last.start], p.edit.oldText, p.start) {
      var i :| 0 <= i < |init| && init[i] == p;
      PrefixFits(source, plan);
      SortedWithin(source[..last.start], init, i);
      assert p in plan;
      assert source[..last.start][p.start..p.End()] == source[p.start..p.End()];
    }
  }

  lemma {:induction false} UndoLast(source: Text, head: Text, init: seq<Planned>, last: Planned)
    requires ValidPlan(source, init + [last]) && head == source[..last.start] && ValidPlan(head, init)
    requires OccursAt(source, last.edit.oldText, last.start)
    requires ValidPlan(SpliceAll(head, init), Undo(head, init))
    requires SpliceAll(SpliceAll(head, init), Undo(head, init)) == head
    requires SpliceAll(source, init + [last]) == SpliceAll(head, init) + last.edit.newText + source[last.End()..]
    ensures ValidPlan(SpliceAll(source, init + [last]), Undo(source, init + [last]))
    ensures SpliceAll(SpliceAll(source, init + [last]), Undo(source, init + [last])) == source
  {
    var patched, before := SpliceAll(source, init + [last]), SpliceAll(head, init);
    assert (init + [last])[..|init|] == init;
    var undo := Undo(head, init);
    var back := Planned(Edit(last.edit.newText, last.edit.oldText), last.index, |before|);
    assert Undo(source, init + [last]) == undo + [back];
    SpliceTail(patched, undo, |before|) by {
      assert patched[..|before|] == before;
    }
    UndoFits(before, patched, undo, back);
    SpliceLast(patched, undo, back);
    assert patched[..|before|] == before;
    assert patched[back.End()..] == source[last.End()..];
    assert source == head + last.edit.oldText + source[last.End()..];
  }

  lemma {:induction false} UndoFits(before: Text, patched: Text, undo: seq<Planned>, back: Planned)
    requires ValidPlan(before, undo) && back.start == |before| && back.End() <= |patched|
    ensures ValidPlan(patched, undo + [back])
  {
  }

  // ---- When a plan exists, and that it does not depend on the order of the edits. ----

  /** The text occurs at p and nowhere else. */
  ghost predicate OnlyAt(source: Text, expected: Text, p: nat) {
    OccursAt(source, expected, p) && forall q :: OccursAt(source, expected, q) ==> q == p
  }

  predicate Apart(p: nat, m: nat, q: nat, n: nat) {
    p + m <= q || q + n <= p
  }

  ghost predicate AllUnique(source: Text, edits: seq<Edit>) {
    forall e :: e in edits ==> exists p: nat :: OnlyAt(source, e.oldText, p)
  }

  ghost predicate AllApart(source: Text, edits: seq<Edit>) {
    forall i, j, p: nat, q: nat | 0 <= i < j < |edits| && OnlyAt(source, edits[i].oldText, p) && OnlyAt(source, edits[j].oldText, q) ::
      Apart(p, |edits[i].oldText|, q, |edits[j].oldText|)
  }

  /** Every old text occurs exactly once and no two of their spans overlap. */
  ghost predicate Plannable(source: Text, edits: seq<Edit>) {
    AllUnique(source, edits) && AllApart(source, edits)
  }

  predicate NonEmpty(edits: seq<Edit>) {
    forall e :: e in edits ==> e.oldText != []
  }

  lemma {:induction false} OneOccurrence(source: Text, expected: Text)
    requires expected != []
    ensures |Occurrences(source, expected, 0)| == 1 ==> OnlyAt(source, expected, Occurrences(source, expected, 0)[0])
    ensures (exists p: nat :: OnlyAt(source, expected, p)) ==> |Occurrences(source, expected, 0)| == 1
  {
    var r := Occurrences(source, expected, 0);
    OccurrencesExact(source, expected, 0);
    if |r| == 1 {
      forall q | OccursAt(source, expected, q) ensures q == r[0] {
        assert q in r;
      }
    }
    if p: nat :| OnlyAt(source, expected, p) {
      assert p in r;
      assert forall k :: 0 <= k < |r| ==> r[k] in r && r[k] == p;
    }
  }

  /** Planned in the order of the edits, each at its only occurrence. */
  ghost predicate InPlace(source: Text, edits: seq<Edit>, planned: seq<Planned>) {
    && |planned| == |edits|
    && forall i :: 0 <= i < |edits| ==>
                     && planned[i].edit == edits[i] && planned[i].index == i
                     && OnlyAt(source, edits[i].oldText, planned[i].start)
  }

  lemma {:induction false} LocatedExact(source: Text, edits: seq<Edit>)
    requires NonEmpty(edits)
    ensures Located(source, edits).Ok? <==> AllUnique(source, edits)
    ensures Located(source, edits).Ok? ==> InPlace(source, edits, Located(source, edits).value)
  {
    if edits != [] {
      var init, last := edits[..|edits| - 1], edits[|edits| - 1];
      LocatedExact(source, init);
      OneOccurrence(source, last.oldText);
      assert last in edits;
      assert forall e :: e in edits <==> e in init || e == last;
    }
  }

  /** In order of start; equal starts keep the order of the edits. */
  predicate Before(a: Planned, b: Planned) {
    a.start < b.start || (a.start == b.start && a.index < b.index)
  }

  ghost predicate Ordered(plan: seq<Planned>) {
    forall i, j :: 0 <= i < j < |plan| ==> Before(plan[i], plan[j])
  }

  lemma {:induction false} InsertByStartMember(p: Planned, ordered: seq<Planned>, x: Planned)
    ensures x in Insert(p, ordered) <==> x in ordered || x == p
    decreases |ordered|
  {
    if !(ordered == [] || ordered[|ordered| - 1].start <= p.start) {
      InsertByStartMember(p, ordered[..|ordered| - 1], x);
      assert ordered == ordered[..|ordered| - 1] + [ordered[|ordered| - 1]];
    }
  }

  lemma {:induction false} InsertOrders(p: Planned, ordered: seq<Planned>)
    requires Ordered(ordered) && forall i :: 0 <= i < |ordered| ==> ordered[i].index < p.index
    ensures Ordered(Insert(p, ordered)) && |Insert(p, ordered)| == |ordered| + 1
    decreases |ordered|
  {
    if !(ordered == [] || ordered[|ordered| - 1].start <= p.start) {
      var init, last := ordered[..|ordered| - 1], ordered[|ordered| - 1];
      InsertOrders(p, init);
      var r := Insert(p, init);
      forall i | 0 <= i < |r| ensures Before(r[i], last) {
        InsertByStartMember(p, init, r[i]);
        if r[i] != p {
          var k :| 0 <= k < |init| && init[k] == r[i];
          assert ordered[k] == r[i];
        }
      }
    } else {
      forall i | 0 <= i < |ordered| ensures Before(ordered[i], p) {
        assert i < |ordered| - 1 ==> Before(ordered[i], ordered[|ordered| - 1]);
      }
    }
  }

  lemma {:induction false} SortByStartMember(planned: seq<Planned>, x: Planned)
    ensures x in SortByStart(planned) <==> x in planned
  {
    if planned != [] {
      var init, last := planned[..|planned| - 1], planned[|planned| - 1];
      assert planned == init + [last];
      SortByStartMember(init, x);
      InsertByStartMember(last, SortByStart(init), x);
    }
  }

  lemma {:induction false} SortsByStart(planned: seq<Planned>)
    requires forall i :: 0 <= i < |planned| ==> planned[i].index == i
    ensures Ordered(SortByStart(planned)) && |SortByStart(planned)| == |planned|
  {
    if planned != [] {
      var init, last := planned[..|planned| - 1], planned[|planned| - 1];
      SortsByStart(init);
      var r := SortByStart(init);
      forall i | 0 <= i < |r| ensures r[i].index < last.index {
        SortByStartMember(init, r[i]);
        var k :| 0 <= k < |init| && init[k] == r[i];
      }
      InsertOrders(last, r);
    }
  }

  lemma {:induction false} SortOrders(planned: seq<Planned>)
    requires forall i :: 0 <= i < |planned| ==> planned[i].index == i
    ensures Ordered(SortByStart(planned)) && |SortByStart(planned)| == |planned|
    ensures forall x :: x in SortByStart(planned) <==> x in planned
  {
    SortsByStart(planned);
    forall x ensures x in SortByStart(planned) <==> x in planned {
      SortByStartMember(planned, x);
    }
  }

  lemma {:induction false} NoOverlap(plan: seq<Planned>, i: nat)
    requires 1 <= i
    ensures FirstOverlap(plan, i) == None <==> forall k :: i <= k < |plan| ==> plan[k - 1].End() <= plan[k].start
    decreases |plan| - i
  {
    if i < |plan| && plan[i].start >= plan[i - 1].End() {
      NoOverlap(plan, i + 1);
    }
  }

  ghost predicate SpansApart(plan: seq<Planned>) {
    forall i, j :: 0 <= i < j < |plan| ==> plan[i].End() <= plan[j].start
  }

  /** Comparing neighbours is enough. */
  lemma {:induction false} NeighboursSuffice(plan: seq<Planned>)
    requires Sorted(plan) && forall p :: p in plan ==> p.edit.oldText != []
    ensures SpansApart(plan)
  {
    if plan != [] {
      var init, last := plan[..|plan| - 1], plan[|plan| - 1];
      assert plan == init + [last];
      NeighboursSuffice(init);
      forall i | 0 <= i < |init| ensures init[i].End() <= last.start {
        assert i < |init| - 1 ==> init[i].End() <= init[|init| - 1].start;
        assert init[|init| - 1] in plan;
      }
    }
  }

  lemma {:induction false} ApartIsSorted(source: Text, edits: seq<Edit>, planned: seq<Planned>)
    requires NonEmpty(edits) && InPlace(source, edits, planned) && AllApart(source, edits)
    ensures Sorted(SortByStart(planned))
  {
    var plan := SortByStart(planned);
    SortOrders(planned);
    forall i | 0 < i < |plan| ensures plan[i - 1].End() <= plan[i].start {
      var a, b := plan[i - 1], plan[i];
      assert a in plan && b in plan && Before(a, b);
      assert planned[a.index] == a && planned[b.index] == b;
      assert b.edit in edits;
      if a.index < b.index {
        assert Apart(a.start, |edits[a.index].oldText|, b.start, |edits[b.index].oldText|);
      } else {
        assert Apart(b.start, |edits[b.index].oldText|, a.start, |edits[a.index].oldText|);
      }
    }
  }

  lemma {:induction false} SortedIsApart(source: Text, edits: seq<Edit>, planned: seq<Planned>)
    requires NonEmpty(edits) && InPlace(source, edits, planned) && Sorted(SortByStart(planned))
    ensures AllApart(source, edits)
  {
    var plan := SortByStart(planned);
    SortOrders(planned);
    forall p | p in plan ensures p.edit.oldText != [] { assert p.edit in edits; }
    NeighboursSuffice(plan);
    forall i, j, p: nat, q: nat | 0 <= i < j < |edits| && OnlyAt(source, edits[i].oldText, p) && OnlyAt(source, edits[j].oldText, q)
      ensures Apart(p, |edits[i].oldText|, q, |edits[j].oldText|)
    {
      assert planned[i] in plan && planned[j] in plan;
      var k :| 0 <= k < |plan| && plan[k] == planned[i];
      var l :| 0 <= l < |plan| && plan[l] == planned[j];
      assert planned[i].start == p && planned[j].start == q;
      assert k != l;
    }
  }

  /** Planning succeeds exactly when every old text occurs exactly once and all spans are
      pairwise disjoint, although only neighbours are compared. */
  lemma {:induction false} PlanIffPlannable(source: Text, edits: seq<Edit>)
    requires NonEmpty(edits)
    ensures Plan(source, edits).Ok? <==> Plannable(source, edits)
  {
    LocatedExact(source, edits);
    if Located(source, edits).Ok? {
      var planned := Located(source, edits).value;
      if AllApart(source, edits) { ApartIsSorted(source, edits, planned); }
      if Sorted(SortByStart(planned)) { SortedIsApart(source, edits, planned); }
      NoOverlap(SortByStart(planned), 1);
    }
  }

  ghost predicate FromEdits(source: Text, edits: seq<Edit>, plan: seq<Planned>) {
    forall p :: p in plan ==> p.edit in edits && p.edit.oldText != [] && OnlyAt(source, p.edit.oldText, p.start)
  }

  ghost predicate UsesAll(edits: seq<Edit>, plan: seq<Planned>) {
    forall e :: e in edits ==> exists p :: p in plan && p.edit == e
  }

  lemma {:induction false} PlanElements(source: Text, edits: seq<Edit>)
    requires NonEmpty(edits) && Plan(source, edits).Ok?
    ensures InPlace(source, edits, Located(source, edits).value)
    ensures var plan := Plan(source, edits).value;
            && |plan| == |edits| && Sorted(plan)
            && forall p :: p in plan <==> p in Located(source, edits).value
  {
    LocatedExact(source, edits);
    SortOrders(Located(source, edits).value);
    NoOverlap(Plan(source, edits).value, 1);
  }

  lemma {:induction false} InPlaceMeans(source: Text, edits: seq<Edit>, planned: seq<Planned>)
    requires NonEmpty(edits) && InPlace(source, edits, planned)
    ensures FromEdits(source, edits, planned) && UsesAll(edits, planned)
  {
    forall p | p in planned ensures p.edit in edits && p.edit.oldText != [] && OnlyAt(source, p.edit.oldText, p.start) {
      var i :| 0 <= i < |planned| && planned[i] == p;
      assert edits[i] in edits;
    }
    forall e | e in edits ensures exists p :: p in planned && p.edit == e {
      var i :| 0 <= i < |edits| && edits[i] == e;
      assert planned[i] in planned;
    }
  }

  /** What a successful plan contains: every edit, once, at its only occurrence, in order. */
  lemma {:induction false} PlanContents(source: Text, edits: seq<Edit>)
    requires NonEmpty(edits) && Plan(source, edits).Ok?
    ensures var plan := Plan(source, edits).value;
            && |plan| == |edits| && FromEdits(source, edits, plan) && UsesAll(edits, plan)
            && ValidPlan(source, plan) && Matches(source, plan) && SpansApart(plan)
  {
    var plan := Plan(source, edits).value;
    PlanElements(source, edits);
    InPlaceMeans(source, edits, Located(source, edits).value);
    NeighboursSuffice(plan);
    if plan != [] {
      assert OccursAt(source, plan[|plan| - 1].edit.oldText, plan[|plan| - 1].start);
    }
  }

  // ---- Permutations. ----

  /** The same edits at the same places, whatever their original numbers. */
  ghost predicate SamePlaces(a: seq<Planned>, b: seq<Planned>) {
    |a| == |b| && forall i :: 0 <= i < |a| ==> a[i].edit == b[i].edit && a[i].start == b[i].start
  }

  lemma {:induction false} SamePlacesSameText(source: Text, a: seq<Planned>, b: seq<Planned>)
    requires ValidPlan(source, a) && ValidPlan(source, b) && SamePlaces(a, b)
    ensures SpliceAll(source, a) == SpliceAll(source, b)
    decreases |a|
  {
    if a != [] {
      PrefixFits(source, a);
      PrefixFits(source, b);
      SamePlacesSameText(Splice(source, a[|a| - 1]), a[..|a| - 1], b[..|b| - 1]);
    }
  }

  ghost predicate Covers(a: seq<Planned>, b: seq<Planned>) {
    forall p :: p in a ==> exists q :: q in b && q.edit == p.edit && q.start == p.start
  }

  /** Where b has the edit and start of a[i]. */
  ghost function PlaceOf(a: seq<Planned>, b: seq<Planned>, i: nat): (j: nat)
    requires Covers(a, b) && i < |a|
    ensures j < |b| && b[j].edit == a[i].edit && b[j].start == a[i].start
  {
    assert a[i] in a;
    var j: nat :| j < |b| && b[j].edit == a[i].edit && b[j].start == a[i].start;
    j
  }

  lemma {:induction false} PlacesIncrease(a: seq<Planned>, b: seq<Planned>, i: nat)
    requires SpansApart(a) && SpansApart(b) && Covers(a, b) && i + 1 < |a|
    requires forall p :: p in a ==> p.edit.oldText != []
    ensures PlaceOf(a, b, i) < PlaceOf(a, b, i + 1)
  {
    var j, k := PlaceOf(a, b, i), PlaceOf(a, b, i + 1);
    assert a[i] in a;
    assert a[i].End() <= a[i + 1].start;
    assert b[j].start < b[k].start;
  }

  lemma {:induction false} PlaceAtLeast(a: seq<Planned>, b: seq<Planned>, i: nat)
    requires SpansApart(a) && SpansApart(b) && Covers(a, b) && i < |a|
    requires forall p :: p in a ==> p.edit.oldText != []
    ensures PlaceOf(a, b, i) >= i
  {
    if i > 0 {
      PlaceAtLeast(a, b, i - 1);
      PlacesIncrease(a, b, i - 1);
    }
  }

  lemma {:induction false} PlaceAtMost(a: seq<Planned>, b: seq<Planned>, i: nat)
    requires SpansApart(a) && SpansApart(b) && Covers(a, b) && i < |a| == |b|
    requires forall p :: p in a ==> p.edit.oldText != []
    ensures PlaceOf(a, b, i) <= i
    decreases |a| - i
  {
    if i + 1 < |a| {
      PlaceAtMost(a, b, i + 1);
      PlacesIncrease(a, b, i);
    }
  }

  /** Two plans in order and of one length, one covering the other, agree place by place. */
  lemma {:induction false} CoverSame(a: seq<Planned>, b: seq<Planned>)
    requires SpansApart(a) && SpansApart(b) && Covers(a, b) && |a| == |b|
    requires forall p :: p in a ==> p.edit.oldText != []
    ensures SamePlaces(a, b)
  {
    forall i | 0 <= i < |a| ensures a[i].edit == b[i].edit && a[i].start == b[i].start {
      PlaceAtLeast(a, b, i);
      PlaceAtMost(a, b, i);
    }
  }

  lemma {:induction false} PlanCovers(source: Text, edits: seq<Edit>, others: seq<Edit>)
    requires NonEmpty(edits) && NonEmpty(others) && Plan(source, edits).Ok? && Plan(source, others).Ok?
    requires forall e :: e in edits ==> e in others
    ensures Covers(Plan(source, edits).value, Plan(source, others).value)
  {
    PlanContents(source, edits);
    PlanContents(source, others);
    var a, b := Plan(source, edits).value, Plan(source, others).value;
    forall p | p in a ensures exists q :: q in b && q.edit == p.edit && q.start == p.start {
      var q :| q in b && q.edit == p.edit;
      assert OccursAt(source, q.edit.oldText, q.start);
    }
  }

  lemma {:induction false} CountTwice(s: seq<Edit>, e: Edit)
    ensures multiset(s)[e] >= 2 ==> exists i, j :: 0 <= i < j < |s| && s[i] == e && s[j] == e
    ensures multiset(s)[e] >= 1 ==> e in s
  {
    if s != [] {
      var init, last := s[..|s| - 1], s[|s| - 1];
      assert s == init + [last];
      CountTwice(init, e);
      if multiset(s)[e] >= 2 {
        if multiset(init)[e] >= 2 {
          var i, j :| 0 <= i < j < |init| && init[i] == e && init[j] == e;
          assert s[i] == e && s[j] == e;
        } else {
          assert last == e;
          assert e in init;
          var i :| 0 <= i < |init| && init[i] == e;
          assert s[i] == e && s[|s| - 1] == e;
        }
      }
    }
  }

  lemma {:induction false} TwiceCounts(s: seq<Edit>, i: nat, j: nat)
    requires i < j < |s| && s[i] == s[j]
    ensures multiset(s)[s[i]] >= 2
  {
    assert s == s[..j] + [s[j]] + s[j + 1..];
    assert s[..j][i] == s[i];
    assert multiset(s) == multiset(s[..j]) + multiset{s[j]} + multiset(s[j + 1..]);
    assert s[i] in multiset(s[..j]);
  }

  lemma {:induction false} PermutedPlannable(source: Text, edits: seq<Edit>, others: seq<Edit>)
    requires NonEmpty(edits) && multiset(edits) == multiset(others) && Plannable(source, edits)
    ensures Plannable(source, others)
  {
    assert forall e :: e in others ==> e in multiset(others);
    forall i, j, p: nat, q: nat | 0 <= i < j < |others| && OnlyAt(source, others[i].oldText, p) && OnlyAt(source, others[j].oldText, q)
      ensures Apart(p, |others[i].oldText|, q, |others[j].oldText|)
    {
      if others[i] == others[j] {
        TwiceCounts(others, i, j);
        CountTwice(edits, others[i]);
        var k, l :| 0 <= k < l < |edits| && edits[k] == others[i] && edits[l] == others[i];
        assert Apart(p, |edits[k].oldText|, p, |edits[l].oldText|);
        assert edits[k] in edits;
      } else {
        assert others[i] in multiset(edits) && others[j] in multiset(edits);
        var k :| 0 <= k < |edits| && edits[k] == others[i];
        var l :| 0 <= l < |edits| && edits[l] == others[j];
        if k < l {
          assert Apart(p, |edits[k].oldText|, q, |edits[l].oldText|);
        } else {
          assert Apart(q, |edits[l].oldText|, p, |edits[k].oldText|);
        }
      }
    }
    assert AllUnique(source, others) by {
      assert forall e :: e in others ==> e in multiset(edits);
      assert forall e :: e in multiset(edits) ==> e in edits;
    }
  }

  lemma {:induction false} SameText(source: Text, edits: seq<Edit>, others: seq<Edit>)
    requires NonEmpty(edits) && NonEmpty(others) && Plan(source, edits).Ok? && Plan(source, others).Ok?
    requires |edits| == |others| && forall e :: e in edits ==> e in others
    ensures var a, b := Plan(source, edits).value, Plan(source, others).value;
            ValidPlan(source, a) && ValidPlan(source, b) && SpliceAll(source, a) == SpliceAll(source, b)
  {
    var a, b := Plan(source, edits).value, Plan(source, others).value;
    PlanContents(source, edits);
    PlanContents(source, others);
    PlanCovers(source, edits, others);
    CoverSame(a, b);
    SamePlacesSameText(source, a, b);
  }

  lemma {:induction false} SameElements(edits: seq<Edit>, others: seq<Edit>)
    requires multiset(edits) == multiset(others)
    ensures |edits| == |others| && forall e :: e in edits <==> e in others
  {
    assert |multiset(edits)| == |multiset(others)|;
    forall e ensures e in edits <==> e in others {
      assert e in edits <==> e in multiset(edits);
      assert e in others <==> e in multiset(others);
    }
  }

  /** The order in which the edits are listed decides neither whether the patch succeeds
      nor the text it makes. */
  lemma {:induction false} PermutationInvariant(source: Text, edits: seq<Edit>, others: seq<Edit>)
    requires NonEmpty(edits) && multiset(edits) == multiset(others)
    ensures NonEmpty(others)
    ensures Plan(source, edits).Ok? <==> Plan(source, others).Ok?
    ensures Plan(source, edits).Ok? ==>
              var a, b := Plan(source, edits).value, Plan(source, others).value;
              ValidPlan(source, a) && ValidPlan(source, b) && SpliceAll(source, a) == SpliceAll(source, b)
  {
    SameElements(edits, others);
    PlanIffPlannable(source, edits);
    PlanIffPlannable(source, others);
    if Plan(source, edits).Ok? {
      PermutedPlannable(source, edits, others);
      SameText(source, edits, others);
    } else if Plan(source, others).Ok? {
      PermutedPlannable(source, others, edits);
    }
  }
}
