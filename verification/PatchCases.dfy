/** Patches in terms of texts and bytes alone: when one can be made, what it makes, and why it is
    refused. */
module PatchCases {
  import opened Utf16
  import opened Wrappers
  import opened ExactPatch
  import opened ConditionalWrite

  /** To occur means to agree unit by unit, inside the source. */
  lemma {:induction false} OccursIs(source: Text, expected: Text, i: int)
    ensures OccursAt(source, expected, i) <==>
              0 <= i <= |source| - |expected| && forall k :: 0 <= k < |expected| ==> source[i + k] == expected[k]
  {
    if 0 <= i <= |source| - |expected| && forall k :: 0 <= k < |expected| ==> source[i + k] == expected[k] {
      assert source[i..i + |expected|] == expected;
    }
  }

  // ---- What a plan makes of a text. ----

  lemma {:induction false} SpliceBehind(source: Text, plan: seq<Planned>)
    requires ValidPlan(source, plan) && plan != []
    ensures var last, init := plan[|plan| - 1], plan[..|plan| - 1];
            && ValidPlan(source[..last.start], init) && last.End() <= |source|
            && SpliceAll(source, plan) == SpliceAll(source[..last.start], init) + last.edit.newText + source[last.End()..]
            && |SpliceAll(source[..last.start], init)| == last.start + Growth(init)
  {
    var last, init := plan[|plan| - 1], plan[..|plan| - 1];
    assert plan == init + [last];
    SpliceLast(source, init, last);
    PatchedLength(source[..last.start], init);
  }

  /** Every new text stands where its old text was, moved by what the edits before it added. */
  lemma {:induction false} NewTextStands(source: Text, plan: seq<Planned>, i: nat)
    requires ValidPlan(source, plan) && i < |plan|
    ensures OccursAt(SpliceAll(source, plan), plan[i].edit.newText, plan[i].start + Growth(plan[..i]))
    decreases |plan|
  {
    var last, init := plan[|plan| - 1], plan[..|plan| - 1];
    SpliceBehind(source, plan);
    var head := SpliceAll(source[..last.start], init);
    if i < |init| {
      NewTextStands(source[..last.start], init, i);
      assert init[..i] == plan[..i];
      StandsInFront(head, last.edit.newText + source[last.End()..], plan[i].edit.newText, plan[i].start + Growth(plan[..i]));
      assert head + (last.edit.newText + source[last.End()..]) == SpliceAll(source, plan);
    }
  }

  lemma {:induction false} StandsInFront(head: Text, tail: Text, expected: Text, i: int)
    requires OccursAt(head, expected, i)
    ensures OccursAt(head + tail, expected, i)
  {
    assert (head + tail)[i..i + |expected|] == head[i..i + |expected|];
  }

  /** The edits in front of a place. */
  ghost predicate Behind(plan: seq<Planned>, i: nat, k: nat) {
    && i <= |plan|
    && (i > 0 ==> plan[i - 1].End() <= k)
    && (i < |plan| ==> k < plan[i].start)
  }

  /** Every unit that no edit replaces is kept, moved by what the edits before it added. */
  lemma {:induction false} RestStands(source: Text, plan: seq<Planned>, i: nat, k: nat)
    requires ValidPlan(source, plan) && Behind(plan, i, k) && k < |source|
    ensures 0 <= k + Growth(plan[..i]) < |SpliceAll(source, plan)|
    ensures SpliceAll(source, plan)[k + Growth(plan[..i])] == source[k]
    decreases |plan|
  {
    if plan == [] {
      assert plan[..i] == [];
    } else {
      var last, init := plan[|plan| - 1], plan[..|plan| - 1];
      SpliceBehind(source, plan);
      if i < |plan| {
        StartsIncrease(plan, i, |plan| - 1);
        assert init[..i] == plan[..i];
        RestStands(source[..last.start], init, i, k);
      } else {
        assert plan[..i] == plan;
      }
    }
  }

  lemma {:induction false} StartsIncrease(plan: seq<Planned>, i: nat, j: nat)
    requires Sorted(plan) && i <= j < |plan|
    ensures plan[i].start <= plan[j].start
    decreases j
  {
    if i < j {
      StartsIncrease(plan, i, j - 1);
    }
  }

  // ---- Why a patch cannot be planned. ----

  ghost predicate Once(source: Text, expected: Text) {
    exists p: nat :: OnlyAt(source, expected, p)
  }

  /** Before edit i, every old text occurs exactly once. */
  ghost predicate UniqueBefore(source: Text, edits: seq<Edit>, i: nat) {
    i <= |edits| && forall j :: 0 <= j < i ==> Once(source, edits[j].oldText)
  }

  lemma {:induction false} UniqueBeforeAll(source: Text, edits: seq<Edit>, e: Edit)
    requires AllUnique(source, edits)
    ensures UniqueBefore(source, edits + [e], |edits|)
  {
    forall j | 0 <= j < |edits| ensures Once(source, (edits + [e])[j].oldText) {
      assert edits[j] in edits && (edits + [e])[j] == edits[j];
    }
  }

  /** The increasing sequence of all places of a text. */
  ghost predicate AllPlaces(source: Text, expected: Text, places: seq<nat>) {
    && (forall j, k :: 0 <= j < k < |places| ==> places[j] < places[k])
    && (forall i :: i in places <==> OccursAt(source, expected, i))
  }

  /** What each conflict says about the texts. */
  ghost predicate Explains(source: Text, edits: seq<Edit>, conflict: Conflict) {
    match conflict
    case NotFound(i) =>
      i < |edits| && UniqueBefore(source, edits, i) && forall p :: !OccursAt(source, edits[i].oldText, p)
    case Ambiguous(i, count) =>
      && i < |edits| && UniqueBefore(source, edits, i) && count > 1
      && exists places :: AllPlaces(source, edits[i].oldText, places) && |places| == count
    case Overlapping(i, j) =>
      && i < |edits| && j < |edits| && i != j && AllUnique(source, edits)
      && exists p: nat, q: nat ::
        OnlyAt(source, edits[i].oldText, p) && OnlyAt(source, edits[j].oldText, q) && q <= p < q + |edits[j].oldText|
  }

  lemma {:induction false} LocatedExplains(source: Text, edits: seq<Edit>)
    requires NonEmpty(edits) && Located(source, edits).Err?
    ensures !Located(source, edits).error.Overlapping? && Explains(source, edits, Located(source, edits).error)
  {
    var init, last := edits[..|edits| - 1], edits[|edits| - 1];
    if Located(source, init).Err? {
      LocatedExplains(source, init);
      ExplainsMore(source, init, last, Located(source, init).error);
      assert edits == init + [last];
    } else {
      LocatedExact(source, init);
      UniqueBeforeAll(source, init, last);
      assert edits == init + [last];
      LastExplains(source, edits);
    }
  }

  lemma {:induction false} LastExplains(source: Text, edits: seq<Edit>)
    requires NonEmpty(edits) && edits != [] && UniqueBefore(source, edits, |edits| - 1)
    ensures var i := |edits| - 1;
            var places := Occurrences(source, edits[i].oldText, 0);
            && (|places| == 0 ==> Explains(source, edits, NotFound(i)))
            && (|places| > 1 ==> Explains(source, edits, Ambiguous(i, |places|)))
  {
    var i := |edits| - 1;
    var places := Occurrences(source, edits[i].oldText, 0);
    OccurrencesExact(source, edits[i].oldText, 0);
    assert AllPlaces(source, edits[i].oldText, places);
    assert forall p :: OccursAt(source, edits[i].oldText, p) ==> p in places;
  }

  lemma {:induction false} ExplainsMore(source: Text, edits: seq<Edit>, e: Edit, conflict: Conflict)
    requires Explains(source, edits, conflict) && !conflict.Overlapping?
    ensures Explains(source, edits + [e], conflict)
  {
    assert (edits + [e])[conflict.index] == edits[conflict.index];
    forall j | 0 <= j < conflict.index ensures Once(source, (edits + [e])[j].oldText) {
      assert (edits + [e])[j] == edits[j];
    }
    assert UniqueBefore(source, edits + [e], conflict.index);
  }

  lemma {:induction false} OverlapIs(ordered: seq<Planned>, from: nat)
    requires 1 <= from && FirstOverlap(ordered, from).Some?
    ensures exists k :: from <= k < |ordered| && ordered[k].start < ordered[k - 1].End()
                        && FirstOverlap(ordered, from) == Some(Overlapping(ordered[k].index, ordered[k - 1].index))
    decreases |ordered| - from
  {
    if ordered[from].start >= ordered[from - 1].End() {
      OverlapIs(ordered, from + 1);
    }
  }

  lemma {:induction false} NeighboursExplain(source: Text, edits: seq<Edit>, planned: seq<Planned>, a: Planned, b: Planned)
    requires InPlace(source, edits, planned) && AllUnique(source, edits) && a in planned && b in planned
    requires Before(a, b) && b.start < a.End()
    ensures Explains(source, edits, Overlapping(b.index, a.index))
  {
    var i :| 0 <= i < |planned| && planned[i] == a;
    var j :| 0 <= j < |planned| && planned[j] == b;
    assert a.index == i && b.index == j && a.edit == edits[i] && b.edit == edits[j];
    assert OnlyAt(source, edits[i].oldText, a.start) && OnlyAt(source, edits[j].oldText, b.start);
  }

  /** A refused patch is told the first edit whose old text is missing or stands in several places,
      with their number, or two edits of which one starts inside the other. */
  lemma {:induction false} ConflictExplains(source: Text, edits: seq<Edit>)
    requires NonEmpty(edits) && Plan(source, edits).Err?
    ensures Explains(source, edits, Plan(source, edits).error)
    ensures Plan(source, edits).error.Overlapping? <==> AllUnique(source, edits)
  {
    LocatedExact(source, edits);
    if Located(source, edits).Err? {
      LocatedExplains(source, edits);
    } else {
      var planned := Located(source, edits).value;
      var ordered := SortByStart(planned);
      SortOrders(planned);
      OverlapIs(ordered, 1);
      var k :| 1 <= k < |ordered| && ordered[k].start < ordered[k - 1].End()
               && FirstOverlap(ordered, 1) == Some(Overlapping(ordered[k].index, ordered[k - 1].index));
      assert ordered[k] in planned && ordered[k - 1] in planned by {
        assert ordered[k] in ordered && ordered[k - 1] in ordered;
      }
      NeighboursExplain(source, edits, planned, ordered[k - 1], ordered[k]);
    }
  }

  // ---- When the bytes of a file can be patched. ----

  /** The edits at their places, in order: every edit once, at the only place of its old text, and
      no two of them overlap. */
  ghost predicate InOrder(text: Text, edits: seq<Edit>, plan: seq<Planned>) {
    && |plan| == |edits| && ValidPlan(text, plan) && SpansApart(plan)
    && FromEdits(text, edits, plan) && UsesAll(edits, plan)
  }

  /** The text that the edits make. */
  ghost predicate Makes(text: Text, edits: seq<Edit>, patched: Text) {
    exists plan :: InOrder(text, edits, plan) && patched == SpliceAll(text, plan)
  }

  /** No two old texts that occur once overlap. */
  ghost predicate Disjoint(text: Text, edits: seq<Edit>) {
    forall i, j, p: nat, q: nat |
      0 <= i < j < |edits| && OnlyAt(text, edits[i].oldText, p) && OnlyAt(text, edits[j].oldText, q) ::
      p + |edits[i].oldText| <= q || q + |edits[j].oldText| <= p
  }

  lemma {:induction false} PlannableIs(text: Text, edits: seq<Edit>)
    ensures Plannable(text, edits) <==> (forall e :: e in edits ==> Once(text, e.oldText)) && Disjoint(text, edits)
  {
    if Plannable(text, edits) {
      forall e | e in edits ensures Once(text, e.oldText) {
      }
      forall i, j, p: nat, q: nat |
        0 <= i < j < |edits| && OnlyAt(text, edits[i].oldText, p) && OnlyAt(text, edits[j].oldText, q)
        ensures p + |edits[i].oldText| <= q || q + |edits[j].oldText| <= p
      {
        assert Apart(p, |edits[i].oldText|, q, |edits[j].oldText|);
      }
    } else if (forall e :: e in edits ==> Once(text, e.oldText)) && Disjoint(text, edits) {
      forall e | e in edits ensures exists p: nat :: OnlyAt(text, e.oldText, p) {
        assert Once(text, e.oldText);
      }
    }
  }

  /** The bytes can be patched, and these are the patched ones: the old texts are not empty, at
      most 16 MiB are patched, they are text, every old text occurs exactly once, the spans are
      disjoint, and at most 16 MiB come out. */
  ghost predicate Fits(codec: Codec, source: Bytes, edits: seq<Edit>, bytes: Bytes) {
    && (forall e :: e in edits ==> e.oldText != [])
    && |source| <= 16777216 && codec.decode(source).Some?
    && var text := codec.decode(source).value;
       && (forall e :: e in edits ==> Once(text, e.oldText))
       && Disjoint(text, edits)
       && (exists patched :: Makes(text, edits, patched) && bytes == codec.encode(patched))
       && |bytes| <= 16777216
  }

  lemma {:induction false} OrderedSame(text: Text, edits: seq<Edit>, a: seq<Planned>, b: seq<Planned>)
    requires InOrder(text, edits, a) && InOrder(text, edits, b)
    ensures SpliceAll(text, a) == SpliceAll(text, b)
  {
    forall p | p in a ensures exists q :: q in b && q.edit == p.edit && q.start == p.start {
      var q :| q in b && q.edit == p.edit;
      assert OccursAt(text, q.edit.oldText, q.start);
    }
    CoverSame(a, b);
    SamePlacesSameText(text, a, b);
  }

  /** The text that a patch makes is the one its plan makes. */
  lemma {:induction false} MakesIs(text: Text, edits: seq<Edit>, patched: Text)
    requires NonEmpty(edits) && Plan(text, edits).Ok?
    ensures ValidPlan(text, Plan(text, edits).value)
    ensures Makes(text, edits, patched) <==> patched == SpliceAll(text, Plan(text, edits).value)
  {
    PlanContents(text, edits);
    assert InOrder(text, edits, Plan(text, edits).value);
    if Makes(text, edits, patched) {
      var plan :| InOrder(text, edits, plan) && patched == SpliceAll(text, plan);
      OrderedSame(text, edits, plan, Plan(text, edits).value);
    }
  }

  lemma {:induction false} FitsIsPatched(codec: Codec, source: Bytes, edits: seq<Edit>, bytes: Bytes)
    requires Fits(codec, source, edits, bytes)
    ensures PatchedBytes(codec, source, edits) == Some(bytes)
  {
    var text := codec.decode(source).value;
    PlannableIs(text, edits);
    PlanIffPlannable(text, edits);
    var patched :| Makes(text, edits, patched) && bytes == codec.encode(patched);
    MakesIs(text, edits, patched);
  }

  lemma {:induction false} PlanMakes(text: Text, edits: seq<Edit>)
    requires NonEmpty(edits) && Plan(text, edits).Ok?
    ensures (forall e :: e in edits ==> Once(text, e.oldText)) && Disjoint(text, edits)
    ensures ValidPlan(text, Plan(text, edits).value) && Makes(text, edits, SpliceAll(text, Plan(text, edits).value))
  {
    PlanIffPlannable(text, edits);
    PlannableIs(text, edits);
    PlanContents(text, edits);
    MakesIs(text, edits, SpliceAll(text, Plan(text, edits).value));
  }

  lemma {:induction false} PatchedFits(codec: Codec, source: Bytes, edits: seq<Edit>)
    requires PatchedBytes(codec, source, edits).Some?
    ensures Fits(codec, source, edits, PatchedBytes(codec, source, edits).value)
  {
    var text := codec.decode(source).value;
    PlanMakes(text, edits);
  }

  /** A patch comes out exactly when the source can be patched, and then as exactly those bytes. */
  lemma {:induction false} PatchedIff(codec: Codec, source: Bytes, edits: seq<Edit>, bytes: Bytes)
    ensures PatchedBytes(codec, source, edits) == Some(bytes) <==> Fits(codec, source, edits, bytes)
  {
    if Fits(codec, source, edits, bytes) {
      FitsIsPatched(codec, source, edits, bytes);
    } else if PatchedBytes(codec, source, edits).Some? {
      PatchedFits(codec, source, edits);
    }
  }

  lemma {:induction false} Decided(codec: Codec, source: Bytes, edits: seq<Edit>)
    ensures PatchedBytes(codec, source, edits).Some? ==> Fits(codec, source, edits, PatchedBytes(codec, source, edits).value)
    ensures PatchedBytes(codec, source, edits).None? ==> forall bytes :: !Fits(codec, source, edits, bytes)
  {
    if PatchedBytes(codec, source, edits).Some? {
      PatchedFits(codec, source, edits);
    }
    forall bytes ensures Fits(codec, source, edits, bytes) ==> PatchedBytes(codec, source, edits) == Some(bytes) {
      PatchedIff(codec, source, edits, bytes);
    }
  }
}
