/** What becomes of a write or a patch that nobody disturbs, by the file at its target alone, and
    of a commit or a crash, whatever happened before. */
module WriteCases {
  import opened Utf16
  import opened Wrappers
  import opened ExactPatch
  import opened ConditionalWrite
  import opened PatchCases
  import opened WriteRaces

  function Times(c: CallId, n: nat): seq<Step> {
    seq(n, _ => Advance(c))
  }

  /** A call enters the queue and takes n steps. */
  function Alone(c: CallId, t: Target, request: Request, n: nat): seq<Step> {
    [Enqueue(t, request)] + Times(c, n)
  }

  function Own(codec: Codec, u: World, c: CallId, n: nat): World
    decreases n
  {
    if n == 0 then u else Own(codec, Apply(codec, u, Advance(c)), c, n - 1)
  }

  lemma {:induction false} OwnIsRun(codec: Codec, u: World, c: CallId, n: nat)
    ensures Run(codec, u, Times(c, n)) == Own(codec, u, c, n)
    decreases n
  {
    if n > 0 {
      assert Times(c, n) == [Advance(c)] + Times(c, n - 1);
      RunConcat(codec, u, [Advance(c)], Times(c, n - 1));
      RunOne(codec, u, Advance(c));
      OwnIsRun(codec, Apply(codec, u, Advance(c)), c, n - 1);
    }
  }

  lemma {:induction false} AloneIsOwn(codec: Codec, w: World, t: Target, request: Request, n: nat)
    ensures Run(codec, w, Alone(|w.calls|, t, request, n))
         == Own(codec, With(w, Enqueued(w, t, request), Queued, w.temps), |w.calls|, n)
  {
    RunConcat(codec, w, [Enqueue(t, request)], Times(|w.calls|, n));
    RunOne(codec, w, Enqueue(t, request));
    OwnIsRun(codec, Apply(codec, w, Enqueue(t, request)), |w.calls|, n);
    assert Apply(codec, w, Enqueue(t, request)) == With(w, Enqueued(w, t, request), Queued, w.temps);
  }

  lemma {:induction false} OwnStep(codec: Codec, w: World, call: Call, point: Point, temps: map<CallId, Bytes>, next: Point, after: map<CallId, Bytes>, n: nat)
    requires n > 0 && !point.Commit? && NextPoint(codec, With(w, call, point, temps), call.(point := point)) == next
    requires NextTemps(With(w, call, point, temps), |w.calls|) == after
    ensures Own(codec, With(w, call, point, temps), |w.calls|, n) == Own(codec, With(w, call, next, after), |w.calls|, n - 1)
  {
    LastAdvances(codec, w, call, point, temps, next, after);
  }

  lemma {:induction false} SettledStays(codec: Codec, u: World, c: CallId, n: nat)
    requires c < |u.calls| && Settled(u.calls[c].point)
    ensures Own(codec, u, c, n) == u
    decreases n
  {
    if n > 0 {
      assert Moved(u, c, u.calls[c].point) == u.calls;
      SettledStays(codec, u, c, n - 1);
    }
  }

  /** The earlier calls on the target are over. */
  ghost predicate Idle(w: World, t: Target) {
    t in w.tails ==> w.tails[t] < |w.calls| && Settled(w.calls[w.tails[t]].point)
  }

  /** The call was refused: it has entered the queue, and nothing else has changed. */
  function Refused(w: World, t: Target, request: Request): World {
    World(w.files, w.temps, w.tails[t := |w.calls|],
          w.calls + [Call(t, request, if t in w.tails then Some(w.tails[t]) else None, Rejected)],
          w.log)
  }

  lemma {:induction false} GoesToStaging(codec: Codec, w: World, call: Call, content: Bytes, expected: Expected, n: nat)
    requires n > 1 && Admits(expected, At(w.files, call.target))
    ensures Own(codec, With(w, call, Inspect(content, expected), w.temps), |w.calls|, n)
         == Own(codec, With(w, call, Staging(content, expected), w.temps[|w.calls| := []]), |w.calls|, n - 2)
  {
    OwnStep(codec, w, call, Inspect(content, expected), w.temps, OpenTemp(content, expected), w.temps, n);
    OwnStep(codec, w, call, OpenTemp(content, expected), w.temps, Staging(content, expected), w.temps[|w.calls| := []], n - 1);
  }

  lemma {:induction false} GoesToCommit(codec: Codec, w: World, call: Call, content: Bytes, expected: Expected, n: nat)
    requires n > 1 && Admits(expected, At(w.files, call.target))
    ensures Own(codec, With(w, call, Staging(content, expected), w.temps[|w.calls| := []]), |w.calls|, n)
         == Own(codec, With(w, call, Commit(content, expected, At(w.files, call.target)), w.temps[|w.calls| := content]), |w.calls|, n - 2)
  {
    var empty, full := w.temps[|w.calls| := []], w.temps[|w.calls| := content];
    assert empty[|w.calls| := content] == full;
    OwnStep(codec, w, call, Staging(content, expected), empty, Recheck(content, expected), full, n);
    OwnStep(codec, w, call, Recheck(content, expected), full, Commit(content, expected, At(w.files, call.target)), full, n - 1);
  }

  /** From the first inspection on. */
  lemma {:induction false} Finishes(codec: Codec, w: World, call: Call, content: Bytes, expected: Expected, n: nat)
    requires n >= 5 && Admits(expected, At(w.files, call.target))
    requires call.predecessor == (if call.target in w.tails then Some(w.tails[call.target]) else None)
    ensures Own(codec, With(w, call, Inspect(content, expected), w.temps), |w.calls|, n)
         == Performed(w, call.target, call.request, content, expected)
  {
    GoesToStaging(codec, w, call, content, expected, n);
    GoesToCommit(codec, w, call, content, expected, n - 2);
    LastCommits(codec, w, call, content, expected);
    SettledStays(codec, Performed(w, call.target, call.request, content, expected), |w.calls|, n - 5);
  }

  lemma {:induction false} Refuses(codec: Codec, w: World, call: Call, point: Point, n: nat)
    requires n > 0 && (point.PatchInspect? || point.PatchRead? || point.Inspect?)
    requires NextPoint(codec, With(w, call, point, w.temps), call.(point := point)) == Rejected
    requires call == Enqueued(w, call.target, call.request)
    ensures Own(codec, With(w, call, point, w.temps), |w.calls|, n) == Refused(w, call.target, call.request)
  {
    OwnStep(codec, w, call, point, w.temps, Rejected, w.temps, n);
    SettledStays(codec, With(w, call, Rejected, w.temps), |w.calls|, n - 1);
  }

  // ---- Writes. ----

  /** What a write demands of the file at its target, case by case. */
  predicate Meets(expected: Expected, file: File) {
    match expected
    case Anything => file.Missing? || file.Regular?
    case Absent => file.Missing?
    case Matching(digest) => file.Regular? && file.content == digest.of
  }

  /** A write that nobody disturbs puts its content into the file iff its target is missing or a
      regular file and, if it is only to create, missing, or, if it expects a hash, a file with
      that hash. Otherwise it is refused, and no file, temporary file or log entry changes. */
  lemma {:induction false} WriteAlone(codec: Codec, w: World, t: Target, content: Bytes, expected: Expected, n: nat)
    requires Idle(w, t) && n >= 6
    ensures Run(codec, w, Alone(|w.calls|, t, Write(content, expected), n))
         == if Meets(expected, At(w.files, t)) then Performed(w, t, Write(content, expected), content, expected)
            else Refused(w, t, Write(content, expected))
  {
    var request := Write(content, expected);
    var call := Enqueued(w, t, request);
    AloneIsOwn(codec, w, t, request, n);
    OwnStep(codec, w, call, Queued, w.temps, Inspect(content, expected), w.temps, n);
    if Meets(expected, At(w.files, t)) {
      Finishes(codec, w, call, content, expected, n - 1);
    } else {
      Refuses(codec, w, call, Inspect(content, expected), n - 1);
    }
  }

  // ---- Patches. ----

  lemma {:induction false} PatchGoesOn(codec: Codec, w: World, t: Target, base: Bytes, edits: seq<Edit>, n: nat)
    requires Idle(w, t) && At(w.files, t) == Regular(base) && |base| <= 16777216 && n > 1
    ensures Run(codec, w, Alone(|w.calls|, t, Patch(Sha256(base), edits), n))
         == Own(codec, With(w, Enqueued(w, t, Patch(Sha256(base), edits)), PatchRead, w.temps), |w.calls|, n - 2)
  {
    var request := Patch(Sha256(base), edits);
    var call := Enqueued(w, t, request);
    AloneIsOwn(codec, w, t, request, n);
    OwnStep(codec, w, call, Queued, w.temps, PatchInspect, w.temps, n);
    OwnStep(codec, w, call, PatchInspect, w.temps, PatchRead, w.temps, n - 1);
  }

  /** A patch that nobody disturbs, over a file with the expected content, ends with exactly the
      patched bytes in the file if its content can be patched. */
  lemma {:induction false} PatchAlone(codec: Codec, w: World, t: Target, base: Bytes, edits: seq<Edit>, bytes: Bytes, n: nat)
    requires Idle(w, t) && At(w.files, t) == Regular(base) && Fits(codec, base, edits, bytes) && n >= 8
    ensures Run(codec, w, Alone(|w.calls|, t, Patch(Sha256(base), edits), n))
         == Performed(w, t, Patch(Sha256(base), edits), bytes, Matching(Sha256(base)))
  {
    var call := Enqueued(w, t, Patch(Sha256(base), edits));
    PatchGoesOn(codec, w, t, base, edits, n);
    PatchedIff(codec, base, edits, bytes);
    OwnStep(codec, w, call, PatchRead, w.temps, Inspect(bytes, Matching(Sha256(base))), w.temps, n - 2);
    Finishes(codec, w, call, bytes, Matching(Sha256(base)), n - 3);
  }

  /** In every other case it is refused, and no file, temporary file or log entry changes. */
  lemma {:induction false} PatchAloneRefused(codec: Codec, w: World, t: Target, base: Bytes, edits: seq<Edit>, n: nat)
    requires Idle(w, t) && n >= 8
    requires At(w.files, t) != Regular(base) || forall bytes :: !Fits(codec, base, edits, bytes)
    ensures Run(codec, w, Alone(|w.calls|, t, Patch(Sha256(base), edits), n)) == Refused(w, t, Patch(Sha256(base), edits))
  {
    var request := Patch(Sha256(base), edits);
    var call := Enqueued(w, t, request);
    if At(w.files, t) == Regular(base) && |base| <= 16777216 {
      PatchGoesOn(codec, w, t, base, edits, n);
      Decided(codec, base, edits);
      Refuses(codec, w, call, PatchRead, n - 2);
    } else {
      AloneIsOwn(codec, w, t, request, n);
      OwnStep(codec, w, call, Queued, w.temps, PatchInspect, w.temps, n);
      Refuses(codec, w, call, PatchInspect, n - 1);
    }
  }

  // ---- The last statement, and crashes. ----

  /** Whatever happened since the last inspection: the commit of a create-only call goes through iff
      its target is missing, that of any other call iff it is not a directory. */
  lemma {:induction false} CommitsIff(codec: Codec, w: World, c: CallId)
    requires c < |w.calls| && w.calls[c].point.Commit? && c in w.temps
    ensures var v, call := Apply(codec, w, Advance(c)), w.calls[c];
            var goes := if call.point.expected == Absent then At(w.files, call.target) == Missing
                        else At(w.files, call.target) != Directory;
            && v.files == (if goes then w.files[call.target := Regular(w.temps[c])] else w.files)
            && v.log == (if goes then w.log + [Entry(c, call.target, At(w.files, call.target), w.temps[c])] else w.log)
            && v.calls[c].point == (if goes then Done(call.point.content, call.point.before) else Rejected)
            && (c !in v.temps <==> goes && call.point.expected != Absent)
  {
  }

  /** A crash takes the queue and all calls that have not settled; files, temporary files and the log
      of commits stay. */
  lemma {:induction false} CrashLoses(codec: Codec, w: World)
    ensures var v := Apply(codec, w, Crash);
            && v.files == w.files && v.temps == w.temps && v.log == w.log && v.tails == map[] && |v.calls| == |w.calls|
            && forall c :: 0 <= c < |w.calls| ==>
                 v.calls[c] == (match w.calls[c].point
                                case Done(_, _) => w.calls[c]
                                case Rejected => w.calls[c]
                                case _ => w.calls[c].(point := Lost))
  {
  }
}
