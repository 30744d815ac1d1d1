/** Conditional writes and patches on the files of one service: the per-target queue, the
    staged commit by rename or link, and what other writers may do in between. */
module ConditionalWrite {
  import opened Utf16
  import opened Wrappers
  import opened ExactPatch

  type Bytes = seq<nat>
  type Target = nat

  /** SHA-256, assumed injective: a digest stands for the bytes it was made of. */
  datatype Digest = Sha256(of: Bytes)

  /** A link resolves to the content of some file, or to nothing that can be read. */
  datatype File = Missing | Regular(content: Bytes) | Link(resolved: Option<Bytes>) | Directory

  /** The decoding of text bytes (None when they are binary) and the encoding of text. */
  datatype Codec = Codec(decode: Bytes -> Option<Text>, encode: Text -> Bytes)

  datatype Expected = Anything | Absent | Matching(digest: Digest)
  datatype Request =
    | Write(content: Bytes, expected: Expected)
    | Patch(base: Digest, edits: seq<Edit>)

  const MAX_WRITE_BYTES: nat := 16 * 1024 * 1024

  /** A queue position: calls are numbered in the order in which they entered. */
  type CallId = nat

  datatype Point =
    | Queued
    | PatchInspect
    | PatchRead
    | Inspect(content: Bytes, expected: Expected)
    | OpenTemp(content: Bytes, expected: Expected)
    | Staging(content: Bytes, expected: Expected)
    | Recheck(content: Bytes, expected: Expected)
    | Commit(content: Bytes, expected: Expected, before: File)
    | Done(content: Bytes, before: File)
    | Rejected
    | Lost

  predicate Settled(point: Point) { point.Done? || point.Rejected? || point.Lost? }
  predicate Begun(point: Point) { !point.Queued? }
  predicate Active(point: Point) { Begun(point) && !Settled(point) }

  datatype Call = Call(target: Target, request: Request, predecessor: Option<CallId>, point: Point)

  /** One committed write: who, where, over what, and the new content. */
  datatype Entry = Entry(call: CallId, target: Target, before: File, after: Bytes)

  datatype World = World(
    files: map<Target, File>,
    temps: map<CallId, Bytes>,
    tails: map<Target, CallId>,
    calls: seq<Call>,
    log: seq<Entry>)

  function At(files: map<Target, File>, t: Target): File {
    if t in files then files[t] else Missing
  }

  /** The bytes a patch makes of a source, or None when it is rejected. */
  function PatchedBytes(codec: Codec, source: Bytes, edits: seq<Edit>): Option<Bytes> {
    if |source| > MAX_WRITE_BYTES || !NonEmpty(edits) then None
    else match codec.decode(source)
      case None => None
      case Some(text) =>
        match Plan(text, edits)
        case Err(_) => None
        case Ok(plan) =>
          PlanContents(text, edits);
          var bytes := codec.encode(SpliceAll(text, plan));
          if |bytes| > MAX_WRITE_BYTES then None else Some(bytes)
  }

  /** What a call is to put into its target, if its precondition holds. */
  function Payload(codec: Codec, request: Request): Option<Bytes> {
    match request
    case Write(content, _) => Some(content)
    case Patch(base, edits) => PatchedBytes(codec, base.of, edits)
  }

  function Guard(request: Request): Expected {
    match request
    case Write(_, expected) => expected
    case Patch(base, _) => Matching(base)
  }

  /** The precondition check; links and directories are refused outright. */
  predicate Admits(expected: Expected, file: File) {
    !file.Link? && !file.Directory? &&
    (match expected
     case Anything => true
     case Absent => file == Missing
     case Matching(digest) => file.Regular? && Sha256(file.content) == digest)
  }

  /** What reading a target gives; reading follows a link. */
  function ReadThrough(file: File): Option<Bytes> {
    match file
    case Regular(content) => Some(content)
    case Link(resolved) => resolved
    case _ => None
  }

  /** The previous operation on the target has settled, well or badly. */
  predicate MayBegin(calls: seq<Call>, call: Call) {
    call.predecessor.Some? && call.predecessor.value < |calls| ==> Settled(calls[call.predecessor.value].point)
  }

  /** The next point of a call, for every step but the commit. */
  function NextPoint(codec: Codec, w: World, call: Call): Point {
    var file := At(w.files, call.target);
    match call.point
    case Queued =>
      if !MayBegin(w.calls, call) then Queued
      else if call.request.Write? then Inspect(call.request.content, call.request.expected)
      else PatchInspect
    case PatchInspect =>
      if call.request.Patch? && Admits(Matching(call.request.base), file) && |file.content| <= MAX_WRITE_BYTES
      then PatchRead else Rejected
    case PatchRead =>
      var source := ReadThrough(file);
      if call.request.Patch? && source.Some? && Sha256(source.value) == call.request.base
      then
        var content := PatchedBytes(codec, source.value, call.request.edits);
        if content.Some? then Inspect(content.value, Matching(call.request.base)) else Rejected
      else Rejected
    case Inspect(content, expected) => if Admits(expected, file) then OpenTemp(content, expected) else Rejected
    case OpenTemp(content, expected) => Staging(content, expected)
    case Staging(content, expected) => Recheck(content, expected)
    case Recheck(content, expected) => if Admits(expected, file) then Commit(content, expected, file) else Rejected
    case _ => call.point
  }

  function NextTemps(w: World, c: CallId): map<CallId, Bytes>
    requires c < |w.calls|
  {
    match w.calls[c].point
    case OpenTemp(_, _) => w.temps[c := []]
    case Staging(content, _) => w.temps[c := content]
    case _ => w.temps
  }

  function Moved(w: World, c: CallId, point: Point): seq<Call>
    requires c < |w.calls|
  {
    w.calls[c := w.calls[c].(point := point)]
  }

  /** `rename` takes the temporary name away, `link` leaves it as a second one. */
  function TempsLeft(w: World, c: CallId, expected: Expected): map<CallId, Bytes> {
    if expected == Absent then w.temps else w.temps - {c}
  }

  /** `link` refuses an existing target, `rename` only a directory; both replace the
      target by the staged file at once. */
  function CommitStep(w: World, c: CallId): World
    requires c < |w.calls| && w.calls[c].point.Commit?
  {
    var call := w.calls[c];
    var file := At(w.files, call.target);
    if c !in w.temps || (if call.point.expected == Absent then file != Missing else file == Directory) then
      w.(calls := Moved(w, c, Rejected))
    else
      w.(files := w.files[call.target := Regular(w.temps[c])],
         temps := TempsLeft(w, c, call.point.expected),
         calls := Moved(w, c, Done(call.point.content, call.point.before)),
         log := w.log + [Entry(c, call.target, file, w.temps[c])])
  }

  datatype Step =
    | Enqueue(target: Target, request: Request)
    | Advance(c: CallId)
    | StageSome(c: CallId, n: nat)
    | Fail(c: CallId)
    | Unlink(c: CallId)
    | Leave(c: CallId)
    | Crash
    | External(target: Target, file: File)

  function Lose(calls: seq<Call>): seq<Call> {
    seq(|calls|, i requires 0 <= i < |calls| => if Settled(calls[i].point) then calls[i] else calls[i].(point := Lost))
  }

  /** One step: a call enters the queue, goes on, fails, removes what is left of its temporary
      file, or drops its queue entry; the process dies; or somebody else changes a file. */
  function Apply(codec: Codec, w: World, step: Step): World {
    match step
    case Enqueue(t, request) =>
      var predecessor := if t in w.tails then Some(w.tails[t]) else None;
      w.(calls := w.calls + [Call(t, request, predecessor, Queued)], tails := w.tails[t := |w.calls|])
    case Advance(c) =>
      if c >= |w.calls| then w
      else if w.calls[c].point.Commit? then CommitStep(w, c)
      else
        var point := NextPoint(codec, w, w.calls[c]);
        w.(temps := NextTemps(w, c), calls := Moved(w, c, point))
    case StageSome(c, n) =>
      if c < |w.calls| && w.calls[c].point.Staging? && n <= |w.calls[c].point.content| then
        w.(temps := w.temps[c := w.calls[c].point.content[..n]])
      else w
    case Fail(c) =>
      if c < |w.calls| && Active(w.calls[c].point) then
        w.(calls := Moved(w, c, Rejected))
      else w
    case Unlink(c) =>
      if c < |w.calls| && (w.calls[c].point.Done? || w.calls[c].point.Rejected?) then w.(temps := w.temps - {c}) else w
    case Leave(c) =>
      if c < |w.calls| && Settled(w.calls[c].point) && w.calls[c].target in w.tails && w.tails[w.calls[c].target] == c then
        w.(tails := w.tails - {w.calls[c].target})
      else w
    case Crash => w.(calls := Lose(w.calls), tails := map[])
    case External(t, file) => w.(files := w.files[t := file])
  }

  function Run(codec: Codec, w: World, steps: seq<Step>): World {
    if steps == [] then w else Apply(codec, Run(codec, w, steps[..|steps| - 1]), steps[|steps| - 1])
  }

  predicate Initial(w: World) {
    w.temps == map[] && w.tails == map[] && w.calls == [] && w.log == []
  }

  lemma {:induction false} RunAppend(codec: Codec, w: World, steps: seq<Step>, step: Step)
    ensures Run(codec, w, steps + [step]) == Apply(codec, Run(codec, w, steps), step)
  {
    assert (steps + [step])[..|steps|] == steps;
  }

  // ---- The queue. ----

  /** On one target, a call begins only when all earlier calls have settled. */
  ghost predicate OneAtATime(w: World) {
    forall i, j | 0 <= i < j < |w.calls| && w.calls[i].target == w.calls[j].target ::
      Begun(w.calls[j].point) ==> Settled(w.calls[i].point)
  }

  ghost predicate AllSettled(calls: seq<Call>, t: Target, n: nat) {
    forall i :: 0 <= i < n && i < |calls| && calls[i].target == t ==> Settled(calls[i].point)
  }

  /** p is the last call on t among the first n. */
  ghost predicate LatestOn(calls: seq<Call>, t: Target, p: nat, n: nat) {
    && p < n && p < |calls| && calls[p].target == t
    && forall k :: p < k < n && k < |calls| ==> calls[k].target != t
  }

  ghost predicate ChainSound(w: World) {
    && (forall j :: 0 <= j < |w.calls| ==>
                      match w.calls[j].predecessor
                      case Some(p) => LatestOn(w.calls, w.calls[j].target, p, j)
                      case None => AllSettled(w.calls, w.calls[j].target, j))
    && (forall t :: t in w.tails ==> LatestOn(w.calls, t, w.tails[t], |w.calls|))
    && (forall t :: t !in w.tails ==> AllSettled(w.calls, t, |w.calls|))
  }

  ghost predicate QueueInv(w: World) {
    OneAtATime(w) && ChainSound(w)
  }

  /** Calls keep their target, request and predecessor, and a settled call stays settled. */
  ghost predicate CallsGrow(a: seq<Call>, b: seq<Call>) {
    && |a| <= |b|
    && forall i :: 0 <= i < |a| ==>
                     && b[i].target == a[i].target && b[i].request == a[i].request && b[i].predecessor == a[i].predecessor
                     && (Settled(a[i].point) ==> b[i].point == a[i].point)
  }

  lemma {:induction false} EarlierSettled(w: World, j: nat)
    requires QueueInv(w) && j < |w.calls| && MayBegin(w.calls, w.calls[j])
    ensures AllSettled(w.calls, w.calls[j].target, j)
  {
    match w.calls[j].predecessor {
      case None =>
      case Some(p) =>
        forall i | 0 <= i < j && w.calls[i].target == w.calls[j].target ensures Settled(w.calls[i].point) {
          if i < p {
            assert Begun(w.calls[p].point);
          } else {
            assert !(p < i < j);
          }
        }
    }
  }

  lemma {:induction false} MovedKeepsQueue(w: World, c: CallId, point: Point)
    requires QueueInv(w) && c < |w.calls|
    requires Settled(w.calls[c].point) ==> point == w.calls[c].point
    requires Begun(w.calls[c].point) ==> Begun(point)
    requires Begun(point) && !Begun(w.calls[c].point) ==> AllSettled(w.calls, w.calls[c].target, c)
    ensures OneAtATime(w.(calls := Moved(w, c, point))) && CallsGrow(w.calls, Moved(w, c, point))
    ensures ChainSound(w.(calls := Moved(w, c, point)))
  {
    ChainGrows(w, Moved(w, c, point));
  }

  /** The predecessor links survive any change of points that unsettles nothing. */
  lemma {:induction false} ChainGrows(w: World, calls: seq<Call>)
    requires ChainSound(w) && CallsGrow(w.calls, calls) && |calls| == |w.calls|
    ensures ChainSound(w.(calls := calls))
  {
    forall j | 0 <= j < |calls|
      ensures match calls[j].predecessor
              case Some(p) => LatestOn(calls, calls[j].target, p, j)
              case None => AllSettled(calls, calls[j].target, j)
    {
      assert calls[j].predecessor == w.calls[j].predecessor;
    }
    forall t | t in w.tails ensures LatestOn(calls, t, w.tails[t], |calls|) {
    }
    forall t | t !in w.tails ensures AllSettled(calls, t, |calls|) {
    }
  }

  function Enqueued(w: World, t: Target, request: Request): Call {
    Call(t, request, if t in w.tails then Some(w.tails[t]) else None, Queued)
  }

  lemma {:induction false} EnqueueKeepsQueue(codec: Codec, w: World, t: Target, request: Request)
    requires QueueInv(w)
    ensures QueueInv(Apply(codec, w, Enqueue(t, request)))
  {
    var v := Apply(codec, w, Enqueue(t, request));
    assert v.calls == w.calls + [Enqueued(w, t, request)];
    forall j | 0 <= j < |v.calls|
      ensures match v.calls[j].predecessor
              case Some(p) => LatestOn(v.calls, v.calls[j].target, p, j)
              case None => AllSettled(v.calls, v.calls[j].target, j)
    {
      if j == |w.calls| {
        if t in w.tails {
          assert LatestOn(w.calls, t, w.tails[t], |w.calls|);
        } else {
          assert AllSettled(w.calls, t, |w.calls|);
        }
      } else {
        assert v.calls[j] == w.calls[j];
      }
    }
    EnqueueKeepsTails(codec, w, t, request);
  }

  lemma {:induction false} EnqueueKeepsTails(codec: Codec, w: World, t: Target, request: Request)
    requires QueueInv(w)
    ensures var v := Apply(codec, w, Enqueue(t, request));
            && (forall u :: u in v.tails ==> LatestOn(v.calls, u, v.tails[u], |v.calls|))
            && (forall u :: u !in v.tails ==> AllSettled(v.calls, u, |v.calls|))
  {
    var v := Apply(codec, w, Enqueue(t, request));
    forall u | u in v.tails ensures LatestOn(v.calls, u, v.tails[u], |v.calls|) {
      if u != t { assert LatestOn(w.calls, u, w.tails[u], |w.calls|); }
    }
    forall u | u !in v.tails ensures AllSettled(v.calls, u, |v.calls|) {
      assert AllSettled(w.calls, u, |w.calls|);
    }
  }

  lemma {:induction false} TailSettled(w: World, c: CallId)
    requires QueueInv(w) && c < |w.calls| && Settled(w.calls[c].point)
    requires w.calls[c].target in w.tails && w.tails[w.calls[c].target] == c
    ensures AllSettled(w.calls, w.calls[c].target, |w.calls|)
  {
    var t := w.calls[c].target;
    assert LatestOn(w.calls, t, c, |w.calls|);
    forall i | 0 <= i < |w.calls| && w.calls[i].target == t ensures Settled(w.calls[i].point) {
      assert i <= c;
    }
  }

  lemma {:induction false} DropTail(w: World, t: Target)
    requires QueueInv(w) && AllSettled(w.calls, t, |w.calls|)
    ensures QueueInv(w.(tails := w.tails - {t}))
  {
    var v := w.(tails := w.tails - {t});
    assert OneAtATime(v);
    assert forall u :: u in v.tails ==> u in w.tails && v.tails[u] == w.tails[u];
  }

  lemma {:induction false} LeaveKeepsQueue(codec: Codec, w: World, c: CallId)
    requires QueueInv(w)
    ensures QueueInv(Apply(codec, w, Leave(c)))
  {
    if Apply(codec, w, Leave(c)) != w {
      TailSettled(w, c);
      DropTail(w, w.calls[c].target);
    }
  }

  lemma {:induction false} CrashKeepsQueue(codec: Codec, w: World)
    requires QueueInv(w)
    ensures QueueInv(Apply(codec, w, Crash))
  {
    var v := Apply(codec, w, Crash);
    assert forall i :: 0 <= i < |v.calls| ==> Settled(v.calls[i].point);
    assert ChainSound(w.(calls := v.calls)) by { ChainGrows(w, v.calls); }
  }

  lemma {:induction false} AdvanceKeepsQueue(codec: Codec, w: World, c: CallId)
    requires QueueInv(w) && c < |w.calls|
    ensures QueueInv(Apply(codec, w, Advance(c)))
  {
    var v := Apply(codec, w, Advance(c));
    if w.calls[c].point.Queued? && MayBegin(w.calls, w.calls[c]) {
      EarlierSettled(w, c);
    }
    var point := v.calls[c].point;
    assert v.calls == Moved(w, c, point);
    MovedKeepsQueue(w, c, point);
    QueueFrame(w.(calls := v.calls), v);
  }

  lemma {:induction false} QueueFrame(w: World, v: World)
    requires QueueInv(w) && v.calls == w.calls && v.tails == w.tails
    ensures QueueInv(v)
  {
  }

  lemma {:induction false} StepKeepsQueue(codec: Codec, w: World, step: Step)
    requires QueueInv(w)
    ensures QueueInv(Apply(codec, w, step))
  {
    match step {
      case Enqueue(t, request) => EnqueueKeepsQueue(codec, w, t, request);
      case Advance(c) => if c < |w.calls| { AdvanceKeepsQueue(codec, w, c); }
      case Fail(c) =>
        if c < |w.calls| && Active(w.calls[c].point) {
          MovedKeepsQueue(w, c, Rejected);
        }
      case Leave(c) => LeaveKeepsQueue(codec, w, c);
      case Crash => CrashKeepsQueue(codec, w);
      case _ => QueueFrame(w, Apply(codec, w, step));
    }
  }

  // ---- What a call carries, and the log of commits. True whatever others do to the files. ----

  predicate Intends(codec: Codec, request: Request, content: Bytes, expected: Expected) {
    Payload(codec, request) == Some(content) && expected == Guard(request)
  }

  ghost predicate PointInv(codec: Codec, call: Call, temps: map<CallId, Bytes>, c: CallId) {
    match call.point
    case PatchInspect => call.request.Patch?
    case PatchRead => call.request.Patch?
    case Inspect(content, expected) => Intends(codec, call.request, content, expected)
    case OpenTemp(content, expected) => Intends(codec, call.request, content, expected)
    case Staging(content, expected) => Intends(codec, call.request, content, expected)
    case Recheck(content, expected) =>
      Intends(codec, call.request, content, expected) && c in temps && temps[c] == content
    case Commit(content, expected, before) =>
      && Intends(codec, call.request, content, expected) && c in temps && temps[c] == content
      && Admits(expected, before)
    case Done(content, before) => Intends(codec, call.request, content, Guard(call.request)) && Admits(Guard(call.request), before)
    case _ => true
  }

  ghost predicate PointsInv(codec: Codec, w: World) {
    forall c :: 0 <= c < |w.calls| ==> PointInv(codec, w.calls[c], w.temps, c)
  }

  ghost predicate EntryInv(w: World, e: Entry) {
    && e.call < |w.calls| && w.calls[e.call].target == e.target
    && w.calls[e.call].point.Done? && w.calls[e.call].point.content == e.after
    && (Guard(w.calls[e.call].request) == Absent ==> e.before == Missing)
  }

  ghost predicate LogInv(w: World) {
    && (forall i :: 0 <= i < |w.log| ==> EntryInv(w, w.log[i]))
    && (forall i, j :: 0 <= i < j < |w.log| ==> w.log[i].call != w.log[j].call)
    && (forall c :: 0 <= c < |w.calls| && w.calls[c].point.Done? ==> Logged(w.log, c))
  }

  ghost predicate Logged(log: seq<Entry>, c: CallId) {
    exists i :: 0 <= i < |log| && log[i].call == c
  }

  ghost predicate Inv(codec: Codec, w: World) {
    QueueInv(w) && PointsInv(codec, w) && LogInv(w)
  }

  lemma {:induction false} NextPointKept(codec: Codec, w: World, c: CallId)
    requires PointsInv(codec, w) && c < |w.calls| && !w.calls[c].point.Commit?
    ensures var point := NextPoint(codec, w, w.calls[c]);
            && PointInv(codec, w.calls[c].(point := point), NextTemps(w, c), c)
            && (point.Done? <==> w.calls[c].point.Done?)
  {
    assert PointInv(codec, w.calls[c], w.temps, c);
  }

  /** A change of one call's point and own temporary file leaves the others as they were. */
  lemma {:induction false} MovedKeepsPoints(codec: Codec, w: World, c: CallId, point: Point, temps: map<CallId, Bytes>)
    requires PointsInv(codec, w) && c < |w.calls|
    requires PointInv(codec, w.calls[c].(point := point), temps, c)
    requires forall d :: d != c ==> (d in temps <==> d in w.temps) && (d in temps ==> temps[d] == w.temps[d])
    ensures PointsInv(codec, w.(temps := temps, calls := Moved(w, c, point)))
  {
    var v := w.(temps := temps, calls := Moved(w, c, point));
    forall d | 0 <= d < |v.calls| ensures PointInv(codec, v.calls[d], v.temps, d) {
      if d != c { assert PointInv(codec, w.calls[d], w.temps, d); }
    }
  }

  lemma {:induction false} MovedKeepsLog(w: World, c: CallId, point: Point)
    requires LogInv(w) && c < |w.calls|
    requires point == w.calls[c].point || (!point.Done? && !w.calls[c].point.Done?)
    ensures LogInv(w.(calls := Moved(w, c, point)))
  {
    var v := w.(calls := Moved(w, c, point));
    forall i | 0 <= i < |v.log| ensures EntryInv(v, v.log[i]) {
      assert EntryInv(w, w.log[i]);
    }
  }

  lemma {:induction false} LogFrame(w: World, v: World)
    requires LogInv(w) && v.calls == w.calls && v.log == w.log
    ensures LogInv(v)
  {
    forall i | 0 <= i < |v.log| ensures EntryInv(v, v.log[i]) {
      assert EntryInv(w, w.log[i]);
    }
  }

  /** The world after a successful commit. */
  function Committed(w: World, c: CallId): World
    requires c < |w.calls| && w.calls[c].point.Commit? && c in w.temps
  {
    var call := w.calls[c];
    w.(files := w.files[call.target := Regular(w.temps[c])],
       temps := TempsLeft(w, c, call.point.expected),
       calls := Moved(w, c, Done(call.point.content, call.point.before)),
       log := w.log + [Entry(c, call.target, At(w.files, call.target), w.temps[c])])
  }

  /** Whether the commit goes through. */
  predicate Commits(w: World, c: CallId)
  {
    && c < |w.calls| && w.calls[c].point.Commit? && c in w.temps
    && var file := At(w.files, w.calls[c].target);
       if w.calls[c].point.expected == Absent then file == Missing else file != Directory
  }

  lemma {:induction false} CommittedKeepsLog(codec: Codec, w: World, c: CallId)
    requires PointsInv(codec, w) && LogInv(w) && Commits(w, c)
    ensures LogInv(Committed(w, c))
  {
    var v := Committed(w, c);
    assert PointInv(codec, w.calls[c], w.temps, c);
    forall i | 0 <= i < |v.log| ensures EntryInv(v, v.log[i]) {
      if i < |w.log| { assert EntryInv(w, w.log[i]); }
    }
    forall i | 0 <= i < |w.log| ensures w.log[i].call != c {
      assert EntryInv(w, w.log[i]);
    }
    assert v.log[|w.log|].call == c;
    forall d | 0 <= d < |v.calls| && v.calls[d].point.Done? ensures Logged(v.log, d) {
      if d != c {
        var i :| 0 <= i < |w.log| && w.log[i].call == d;
        assert v.log[i].call == d;
      }
    }
  }

  lemma {:induction false} CommittedKeepsPoints(codec: Codec, w: World, c: CallId)
    requires PointsInv(codec, w) && Commits(w, c)
    ensures PointsInv(codec, Committed(w, c))
  {
    assert PointInv(codec, w.calls[c], w.temps, c);
    var call := w.calls[c];
    MovedKeepsPoints(codec, w, c, Done(call.point.content, call.point.before), TempsLeft(w, c, call.point.expected));
    assert Committed(w, c).calls == Moved(w, c, Done(call.point.content, call.point.before));
  }

  lemma {:induction false} AdvanceKeepsContent(codec: Codec, w: World, c: CallId)
    requires PointsInv(codec, w) && LogInv(w) && c < |w.calls|
    ensures PointsInv(codec, Apply(codec, w, Advance(c))) && LogInv(Apply(codec, w, Advance(c)))
  {
    var v := Apply(codec, w, Advance(c));
    if Commits(w, c) {
      CommittedKeepsPoints(codec, w, c);
      CommittedKeepsLog(codec, w, c);
      assert v == Committed(w, c);
    } else if w.calls[c].point.Commit? {
      RejectKeepsContent(codec, w, c);
    } else {
      var point := NextPoint(codec, w, w.calls[c]);
      NextPointKept(codec, w, c);
      MovedKeepsPoints(codec, w, c, point, NextTemps(w, c));
      MovedKeepsLog(w, c, point);
      LogFrame(w.(calls := Moved(w, c, point)), v);
    }
  }

  lemma {:induction false} RejectKeepsContent(codec: Codec, w: World, c: CallId)
    requires PointsInv(codec, w) && LogInv(w) && c < |w.calls| && !w.calls[c].point.Done?
    ensures PointsInv(codec, w.(calls := Moved(w, c, Rejected)))
    ensures LogInv(w.(calls := Moved(w, c, Rejected)))
  {
    MovedKeepsPoints(codec, w, c, Rejected, w.temps);
    MovedKeepsLog(w, c, Rejected);
  }

  lemma {:induction false} UnlinkKeepsContent(codec: Codec, w: World, c: CallId)
    requires PointsInv(codec, w) && LogInv(w)
    ensures PointsInv(codec, Apply(codec, w, Unlink(c))) && LogInv(Apply(codec, w, Unlink(c)))
  {
    var v := Apply(codec, w, Unlink(c));
    LogFrame(w, v);
    forall d | 0 <= d < |v.calls| ensures PointInv(codec, v.calls[d], v.temps, d) {
      assert PointInv(codec, w.calls[d], w.temps, d);
    }
  }

  lemma {:induction false} EnqueueKeepsContent(codec: Codec, w: World, t: Target, request: Request)
    requires PointsInv(codec, w) && LogInv(w)
    ensures PointsInv(codec, Apply(codec, w, Enqueue(t, request))) && LogInv(Apply(codec, w, Enqueue(t, request)))
  {
    var v := Apply(codec, w, Enqueue(t, request));
    forall c | 0 <= c < |v.calls| ensures PointInv(codec, v.calls[c], v.temps, c) {
      if c < |w.calls| { assert PointInv(codec, w.calls[c], w.temps, c); }
    }
    forall i | 0 <= i < |v.log| ensures EntryInv(v, v.log[i]) {
      assert EntryInv(w, w.log[i]);
    }
  }

  lemma {:induction false} CrashKeepsContent(codec: Codec, w: World)
    requires PointsInv(codec, w) && LogInv(w)
    ensures PointsInv(codec, Apply(codec, w, Crash)) && LogInv(Apply(codec, w, Crash))
  {
    var v := Apply(codec, w, Crash);
    forall c | 0 <= c < |v.calls| ensures PointInv(codec, v.calls[c], v.temps, c) {
      assert PointInv(codec, w.calls[c], w.temps, c);
    }
    forall i | 0 <= i < |v.log| ensures EntryInv(v, v.log[i]) {
      assert EntryInv(w, w.log[i]);
    }
  }

  lemma {:induction false} StepKeeps(codec: Codec, w: World, step: Step)
    requires Inv(codec, w)
    ensures Inv(codec, Apply(codec, w, step))
  {
    StepKeepsQueue(codec, w, step);
    match step {
      case Enqueue(t, request) => EnqueueKeepsContent(codec, w, t, request);
      case Advance(c) => if c < |w.calls| { AdvanceKeepsContent(codec, w, c); }
      case StageSome(c, n) => StageKeepsContent(codec, w, c, n);
      case Fail(c) => if c < |w.calls| && Active(w.calls[c].point) { RejectKeepsContent(codec, w, c); }
      case Unlink(c) => UnlinkKeepsContent(codec, w, c);
      case Crash => CrashKeepsContent(codec, w);
      case _ => LogFrame(w, Apply(codec, w, step)); PointsFrame(codec, w, Apply(codec, w, step));
    }
  }

  lemma {:induction false} PointsFrame(codec: Codec, w: World, v: World)
    requires PointsInv(codec, w) && v.calls == w.calls && v.temps == w.temps
    ensures PointsInv(codec, v)
  {
  }

  lemma {:induction false} StageKeepsContent(codec: Codec, w: World, c: CallId, n: nat)
    requires PointsInv(codec, w) && LogInv(w)
    ensures PointsInv(codec, Apply(codec, w, StageSome(c, n))) && LogInv(Apply(codec, w, StageSome(c, n)))
  {
    var v := Apply(codec, w, StageSome(c, n));
    LogFrame(w, v);
    if v != w {
      assert PointInv(codec, w.calls[c], w.temps, c);
      MovedKeepsPoints(codec, w, c, w.calls[c].point, v.temps);
      assert Moved(w, c, w.calls[c].point) == w.calls;
    }
  }

  lemma {:induction false} RunKeeps(codec: Codec, w: World, steps: seq<Step>)
    requires Inv(codec, w)
    ensures Inv(codec, Run(codec, w, steps))
  {
    if steps != [] {
      RunKeeps(codec, w, steps[..|steps| - 1]);
      StepKeeps(codec, Run(codec, w, steps[..|steps| - 1]), steps[|steps| - 1]);
    }
  }

  // ---- Runs in which the files change only through the service. ----

  /** What a log makes of a target. */
  function Content(files: map<Target, File>, log: seq<Entry>, t: Target): File {
    if log == [] then At(files, t)
    else if log[|log| - 1].target == t then Regular(log[|log| - 1].after)
    else Content(files, log[..|log| - 1], t)
  }

  /** Every commit replaced what the commits before it had left. */
  ghost predicate Chained(files: map<Target, File>, log: seq<Entry>) {
    log == [] ||
    (var init, last := log[..|log| - 1], log[|log| - 1];
     Chained(files, init) && last.before == Content(files, init, last.target))
  }

  ghost predicate FilesFollow(files: map<Target, File>, w: World) {
    forall t :: At(w.files, t) == Content(files, w.log, t)
  }

  /** What a call saw when it rechecked is still there when it commits. */
  ghost predicate StillThere(w: World) {
    forall c :: 0 <= c < |w.calls| && w.calls[c].point.Commit? ==>
                  w.calls[c].point.before == At(w.files, w.calls[c].target)
  }

  ghost predicate Reports(w: World, e: Entry) {
    e.call < |w.calls| && w.calls[e.call].point.Done? && w.calls[e.call].point.before == e.before
  }

  ghost predicate InQueueOrder(log: seq<Entry>) {
    forall i, j | 0 <= i < j < |log| :: log[i].target == log[j].target ==> log[i].call < log[j].call
  }

  ghost predicate QuietInv(files: map<Target, File>, w: World) {
    && FilesFollow(files, w) && Chained(files, w.log) && StillThere(w)
    && (forall i :: 0 <= i < |w.log| ==> Reports(w, w.log[i]))
    && InQueueOrder(w.log)
  }

  lemma {:induction false} AloneOnTarget(w: World, c: CallId, d: CallId)
    requires OneAtATime(w) && c < |w.calls| && d < |w.calls| && w.calls[c].target == w.calls[d].target
    requires Active(w.calls[c].point) && Begun(w.calls[d].point)
    ensures d == c || (d < c && Settled(w.calls[d].point))
  {
  }

  lemma {:induction false} CommittedFiles(files: map<Target, File>, w: World, c: CallId)
    requires FilesFollow(files, w) && Chained(files, w.log) && Commits(w, c)
    ensures FilesFollow(files, Committed(w, c)) && Chained(files, Committed(w, c).log)
  {
    var v := Committed(w, c);
    assert v.log[..|v.log| - 1] == w.log;
    forall t ensures At(v.files, t) == Content(files, v.log, t) {
      assert At(w.files, t) == Content(files, w.log, t);
    }
  }

  lemma {:induction false} CommittedStillThere(w: World, c: CallId)
    requires OneAtATime(w) && StillThere(w) && Commits(w, c)
    ensures StillThere(Committed(w, c))
  {
    var v := Committed(w, c);
    forall d | 0 <= d < |v.calls| && v.calls[d].point.Commit?
      ensures v.calls[d].point.before == At(v.files, v.calls[d].target)
    {
      assert v.calls[d] == w.calls[d];
      if w.calls[d].target == w.calls[c].target {
        AloneOnTarget(w, c, d);
      }
    }
  }

  lemma {:induction false} CommittedInOrder(w: World, c: CallId)
    requires OneAtATime(w) && LogInv(w) && InQueueOrder(w.log) && Commits(w, c)
    ensures InQueueOrder(Committed(w, c).log)
  {
    forall i | 0 <= i < |w.log| && w.log[i].target == w.calls[c].target ensures w.log[i].call < c {
      assert EntryInv(w, w.log[i]);
      AloneOnTarget(w, c, w.log[i].call);
    }
  }

  lemma {:induction false} CommittedReports(w: World, c: CallId)
    requires StillThere(w) && LogInv(w) && Commits(w, c)
    requires forall i :: 0 <= i < |w.log| ==> Reports(w, w.log[i])
    ensures forall i :: 0 <= i < |Committed(w, c).log| ==> Reports(Committed(w, c), Committed(w, c).log[i])
  {
    var v := Committed(w, c);
    forall i | 0 <= i < |v.log| ensures Reports(v, v.log[i]) {
      if i < |w.log| {
        assert EntryInv(w, w.log[i]) && Reports(w, w.log[i]);
        assert w.log[i].call != c;
      }
    }
  }

  lemma {:induction false} CommittedQuiet(files: map<Target, File>, w: World, c: CallId)
    requires OneAtATime(w) && LogInv(w) && QuietInv(files, w) && Commits(w, c)
    ensures QuietInv(files, Committed(w, c))
  {
    CommittedFiles(files, w, c);
    CommittedStillThere(w, c);
    CommittedInOrder(w, c);
    CommittedReports(w, c);
  }

  /** Steps that commit nothing and leave the files alone. */
  lemma {:induction false} OtherQuiet(files: map<Target, File>, w: World, v: World)
    requires QuietInv(files, w) && v.files == w.files && v.log == w.log && |w.calls| <= |v.calls|
    requires forall c :: 0 <= c < |w.calls| ==> v.calls[c].target == w.calls[c].target
    requires forall c :: 0 <= c < |w.calls| && w.calls[c].point.Done? ==> v.calls[c].point == w.calls[c].point
    requires forall c :: 0 <= c < |v.calls| && v.calls[c].point.Commit? ==>
                           v.calls[c].point.before == At(w.files, v.calls[c].target)
    ensures QuietInv(files, v)
  {
    forall i | 0 <= i < |v.log| ensures Reports(v, v.log[i]) {
      assert Reports(w, w.log[i]);
    }
    forall t ensures At(v.files, t) == Content(files, v.log, t) {
      assert At(w.files, t) == Content(files, w.log, t);
    }
  }

  lemma {:induction false} MovedQuiet(files: map<Target, File>, w: World, c: CallId, point: Point, temps: map<CallId, Bytes>)
    requires QuietInv(files, w) && c < |w.calls|
    requires w.calls[c].point.Done? ==> point == w.calls[c].point
    requires point.Commit? ==> point.before == At(w.files, w.calls[c].target)
    ensures QuietInv(files, w.(temps := temps, calls := Moved(w, c, point)))
  {
    OtherQuiet(files, w, w.(temps := temps, calls := Moved(w, c, point)));
  }

  lemma {:induction false} AdvanceQuiet(codec: Codec, files: map<Target, File>, w: World, c: CallId)
    requires Inv(codec, w) && QuietInv(files, w) && c < |w.calls|
    ensures QuietInv(files, Apply(codec, w, Advance(c)))
  {
    if Commits(w, c) {
      CommittedQuiet(files, w, c);
    } else if w.calls[c].point.Commit? {
      assert PointInv(codec, w.calls[c], w.temps, c);
      MovedQuiet(files, w, c, Rejected, w.temps);
    } else {
      var point := NextPoint(codec, w, w.calls[c]);
      MovedQuiet(files, w, c, point, NextTemps(w, c));
    }
  }

  lemma {:induction false} EnqueueQuiet(codec: Codec, files: map<Target, File>, w: World, t: Target, request: Request)
    requires QuietInv(files, w)
    ensures QuietInv(files, Apply(codec, w, Enqueue(t, request)))
  {
    OtherQuiet(files, w, Apply(codec, w, Enqueue(t, request)));
  }

  lemma {:induction false} CrashQuiet(codec: Codec, files: map<Target, File>, w: World)
    requires QuietInv(files, w)
    ensures QuietInv(files, Apply(codec, w, Crash))
  {
    OtherQuiet(files, w, Apply(codec, w, Crash));
  }

  lemma {:induction false} StepQuiet(codec: Codec, files: map<Target, File>, w: World, step: Step)
    requires Inv(codec, w) && QuietInv(files, w) && !step.External?
    ensures QuietInv(files, Apply(codec, w, step))
  {
    match step {
      case Enqueue(t, request) => EnqueueQuiet(codec, files, w, t, request);
      case Advance(c) => if c < |w.calls| { AdvanceQuiet(codec, files, w, c); }
      case Fail(c) => if c < |w.calls| && Active(w.calls[c].point) { MovedQuiet(files, w, c, Rejected, w.temps); }
      case Crash => CrashQuiet(codec, files, w);
      case StageSome(c, n) => StageQuiet(codec, files, w, c, n);
      case Leave(c) => LeaveQuiet(codec, files, w, c);
      case Unlink(c) => UnlinkQuiet(codec, files, w, c);
    }
  }

  lemma {:induction false} StageQuiet(codec: Codec, files: map<Target, File>, w: World, c: CallId, n: nat)
    requires QuietInv(files, w)
    ensures QuietInv(files, Apply(codec, w, StageSome(c, n)))
  {
    OtherQuiet(files, w, Apply(codec, w, StageSome(c, n)));
  }

  lemma {:induction false} UnlinkQuiet(codec: Codec, files: map<Target, File>, w: World, c: CallId)
    requires QuietInv(files, w)
    ensures QuietInv(files, Apply(codec, w, Unlink(c)))
  {
    OtherQuiet(files, w, Apply(codec, w, Unlink(c)));
  }

  lemma {:induction false} LeaveQuiet(codec: Codec, files: map<Target, File>, w: World, c: CallId)
    requires QuietInv(files, w)
    ensures QuietInv(files, Apply(codec, w, Leave(c)))
  {
    OtherQuiet(files, w, Apply(codec, w, Leave(c)));
  }

  lemma {:induction false} RunQuiet(codec: Codec, w: World, steps: seq<Step>)
    requires Initial(w) && forall step :: step in steps ==> !step.External?
    ensures Inv(codec, Run(codec, w, steps)) && QuietInv(w.files, Run(codec, w, steps))
  {
    RunKeeps(codec, w, steps);
    if steps != [] {
      var init, last := steps[..|steps| - 1], steps[|steps| - 1];
      RunQuiet(codec, w, init);
      assert last in steps;
      StepQuiet(codec, w.files, Run(codec, w, init), last);
    }
  }

  // ---- The theorems. ----

  /** A commit is justified: its precondition held of what it replaced, and what it wrote is
      what the request asked for, for a patch the plan applied to exactly that content. */
  ghost predicate Justified(codec: Codec, w: World, e: Entry) {
    && e.call < |w.calls| && w.calls[e.call].target == e.target
    && w.calls[e.call].point == Done(e.after, e.before)
    && Admits(Guard(w.calls[e.call].request), e.before)
    && Payload(codec, w.calls[e.call].request) == Some(e.after)
  }

  lemma {:induction false} EntryJustified(codec: Codec, files: map<Target, File>, w: World, i: nat)
    requires Inv(codec, w) && QuietInv(files, w) && i < |w.log|
    ensures Justified(codec, w, w.log[i])
  {
    assert EntryInv(w, w.log[i]) && Reports(w, w.log[i]);
    assert PointInv(codec, w.calls[w.log[i].call], w.temps, w.log[i].call);
  }

  /** When the files change only through the service, the calls on a target take effect one
      at a time, in queue order, each over what the one before left; the file holds what
      the last success wrote. */
  lemma {:induction false} Serializable(codec: Codec, w: World, steps: seq<Step>)
    requires Initial(w) && forall step :: step in steps ==> !step.External?
    ensures var v := Run(codec, w, steps);
            && OneAtATime(v)
            && (forall t :: At(v.files, t) == Content(w.files, v.log, t))
            && Chained(w.files, v.log) && InQueueOrder(v.log)
            && (forall i :: 0 <= i < |v.log| ==> Justified(codec, v, v.log[i]))
  {
    RunQuiet(codec, w, steps);
    var v := Run(codec, w, steps);
    forall i | 0 <= i < |v.log| ensures Justified(codec, v, v.log[i]) {
      EntryJustified(codec, w.files, v, i);
    }
  }

  /** The text that a patch makes of its base, encoded: its plan exists and is sorted and apart. */
  ghost predicate IsPatched(codec: Codec, base: Bytes, edits: seq<Edit>, after: Bytes) {
    && NonEmpty(edits) && codec.decode(base).Some?
    && var text := codec.decode(base).value;
       && Plan(text, edits).Ok? && ValidPlan(text, Plan(text, edits).value)
       && after == codec.encode(SpliceAll(text, Plan(text, edits).value))
  }

  lemma {:induction false} PatchedIs(codec: Codec, base: Bytes, edits: seq<Edit>)
    requires PatchedBytes(codec, base, edits).Some?
    ensures IsPatched(codec, base, edits, PatchedBytes(codec, base, edits).value)
  {
    PlanContents(codec.decode(base).value, edits);
  }

  /** In every run, with any outside writers, the content that a patch commits is the encoding of
      its plan applied to the decoding of exactly the content with its expected hash. */
  lemma {:induction false} PatchedFromBase(codec: Codec, w: World, steps: seq<Step>, i: nat)
    requires Initial(w) && i < |Run(codec, w, steps).log|
    ensures var v := Run(codec, w, steps);
            && v.log[i].call < |v.calls|
            && var request := v.calls[v.log[i].call].request;
               request.Patch? ==> IsPatched(codec, request.base.of, request.edits, v.log[i].after)
  {
    RunKeeps(codec, w, steps);
    var v := Run(codec, w, steps);
    var e := v.log[i];
    assert EntryInv(v, e);
    assert PointInv(codec, v.calls[e.call], v.temps, e.call);
    if v.calls[e.call].request.Patch? {
      PatchedIs(codec, v.calls[e.call].request.base.of, v.calls[e.call].request.edits);
    }
  }

  /** When the files change only through the service, it also replaced exactly that content. */
  lemma {:induction false} PatchReplacesBase(codec: Codec, w: World, steps: seq<Step>, i: nat)
    requires Initial(w) && i < |Run(codec, w, steps).log| && forall step :: step in steps ==> !step.External?
    ensures var v := Run(codec, w, steps);
            && v.log[i].call < |v.calls|
            && var request := v.calls[v.log[i].call].request;
               request.Patch? ==> v.log[i].before == Regular(request.base.of)
  {
    Serializable(codec, w, steps);
    assert Justified(codec, Run(codec, w, steps), Run(codec, w, steps).log[i]);
  }

  /** At every step, whoever makes it, a target keeps its content, is changed by somebody
      outside, or takes the complete content of one committing call. */
  lemma {:induction false} CommitAtomic(codec: Codec, w: World, step: Step, t: Target)
    requires Inv(codec, w)
    ensures var v := Apply(codec, w, step);
            || At(v.files, t) == At(w.files, t)
            || (step.External? && step.target == t)
            || (step.Advance? && Commits(w, step.c) && w.calls[step.c].target == t
                && At(v.files, t).Regular? && Payload(codec, w.calls[step.c].request) == Some(At(v.files, t).content)
                && v.calls[step.c].point.Done?)
  {
    if step.Advance? && step.c < |w.calls| {
      assert PointInv(codec, w.calls[step.c], w.temps, step.c);
    }
  }

  /** The log has an entry of a call iff it is done: then exactly one, on its target, with its
      content, and over nothing when it was to create. */
  ghost predicate Told(w: World, c: CallId) {
    && c < |w.calls|
    && (w.calls[c].point.Done? <==> Logged(w.log, c))
    && (forall i, j :: 0 <= i < j < |w.log| ==> !(w.log[i].call == c && w.log[j].call == c))
    && (forall i :: 0 <= i < |w.log| && w.log[i].call == c ==>
          && w.log[i].target == w.calls[c].target && w.calls[c].point.Done? && w.log[i].after == w.calls[c].point.content
          && (Guard(w.calls[c].request) == Absent ==> w.log[i].before == Missing))
  }

  /** A call returns iff it committed, and it commits at most once, whatever others do. */
  lemma {:induction false} ReturnsIffCommitted(codec: Codec, w: World, steps: seq<Step>, c: CallId)
    requires Initial(w) && c < |Run(codec, w, steps).calls|
    ensures Told(Run(codec, w, steps), c)
  {
    RunKeeps(codec, w, steps);
    var v := Run(codec, w, steps);
    forall i | 0 <= i < |v.log| && v.log[i].call == c
      ensures v.log[i].target == v.calls[c].target && v.calls[c].point.Done? && v.log[i].after == v.calls[c].point.content
      ensures Guard(v.calls[c].request) == Absent ==> v.log[i].before == Missing
    {
      assert EntryInv(v, v.log[i]);
    }
  }

  /** A create-only call never overwrites anything, even when others write at any time. */
  lemma {:induction false} CreateOnlyNeverOverwrites(codec: Codec, w: World, steps: seq<Step>, i: nat)
    requires Initial(w) && i < |Run(codec, w, steps).log|
    ensures var v := Run(codec, w, steps);
            && v.log[i].call < |v.calls|
            && (Guard(v.calls[v.log[i].call].request) == Absent ==> v.log[i].before == Missing)
  {
    RunKeeps(codec, w, steps);
    assert EntryInv(Run(codec, w, steps), Run(codec, w, steps).log[i]);
  }

  /** How many of its own steps a call may still need. */
  function StepsLeft(point: Point): nat {
    match point
    case Queued => 8
    case PatchInspect => 7
    case PatchRead => 6
    case Inspect(_, _) => 5
    case OpenTemp(_, _) => 4
    case Staging(_, _) => 3
    case Recheck(_, _) => 2
    case Commit(_, _, _) => 1
    case _ => 0
  }

  /** A call whose predecessor has settled, well or badly, is never blocked: each of its own
      steps brings it closer to its end. */
  lemma {:induction false} NeverBlocked(codec: Codec, w: World, c: CallId)
    requires c < |w.calls| && !Settled(w.calls[c].point)
    requires Begun(w.calls[c].point) || MayBegin(w.calls, w.calls[c])
    ensures StepsLeft(Apply(codec, w, Advance(c)).calls[c].point) < StepsLeft(w.calls[c].point)
  {
  }

  /** Nobody else's step takes a call back. */
  lemma {:induction false} NeverPushedBack(codec: Codec, w: World, c: CallId, step: Step)
    requires c < |w.calls|
    ensures c < |Apply(codec, w, step).calls|
    ensures StepsLeft(Apply(codec, w, step).calls[c].point) <= StepsLeft(w.calls[c].point)
  {
    if step.Advance? && step.c < |w.calls| && step.c != c {
      assert Apply(codec, w, step).calls[c] == w.calls[c];
    }
  }
}
