/** Conditional writes and patches as the service runs them, statement by statement. */
module FilesystemCode {
  import opened Utf16
  import opened Wrappers
  import opened ExactPatch
  import opened ConditionalWrite
  import opened PatchCases

  datatype WriteError =
    | WriteConflict
    | SymlinkUnsupported
    | NotFile
    | WriteFailed
    | PatchConflict
    | PatchFailed
    | PatchTooLarge
    | PatchBinaryUnsupported
    | PatchRejected(conflict: ExactPatch.Conflict)

  /** The system calls of one write that may fail. */
  datatype Operation = Opening | Writing | Committing | Removing
  datatype Fault = Fault(call: CallId, operation: Operation)

  datatype Written = Written(created: bool, previousSha256: Option<Digest>, sha256: Digest, bytesWritten: nat)

  /** What a successful call reports about the file it replaced and the content it wrote. */
  function Report(content: Bytes, before: File): Written {
    Written(before == Missing, if before.Regular? then Some(Sha256(before.content)) else None, Sha256(content), |content|)
  }

  predicate TempsNumbered(w: World) {
    forall c :: c in w.temps ==> c < |w.calls|
  }

  lemma {:induction false} RunNumbersTemps(codec: Codec, w: World, steps: seq<Step>)
    requires Initial(w)
    ensures TempsNumbered(Run(codec, w, steps))
  {
    if steps != [] {
      RunNumbersTemps(codec, w, steps[..|steps| - 1]);
    }
  }

  predicate SameCall(a: Call, b: Call) {
    a.target == b.target && a.request == b.request && a.predecessor == b.predecessor
  }

  /** A result is that of a commit of this content. */
  predicate Succeeded(point: Point, content: Bytes, expected: Expected, r: Result<Written, WriteError>) {
    point.Done? && point.content == content && Admits(expected, point.before) && r == Ok(Report(content, point.before))
  }

  predicate Ended(point: Point, content: Bytes, expected: Expected, r: Result<Written, WriteError>) {
    if r.Ok? then Succeeded(point, content, expected, r) else point == Rejected
  }

  predicate Underway(point: Point, content: Bytes, expected: Expected, r: Result<Written, WriteError>) {
    if r.Ok? then Succeeded(point, content, expected, r) else Active(point)
  }

  /** The answer to a request: it committed what the request asks for over a file it admits, and says
      whether that file was missing, its hash if there was one, and the hash and the number of
      the bytes written; or it was rejected. */
  predicate Answered(codec: Codec, call: Call, r: Result<Written, WriteError>) {
    if r.Err? then call.point == Rejected
    else
      && call.point.Done? && Payload(codec, call.request) == Some(call.point.content)
      && Admits(Guard(call.request), call.point.before)
      && (r.value.created <==> call.point.before.Missing?)
      && r.value.previousSha256 == (match call.point.before case Regular(replaced) => Some(Sha256(replaced)) case _ => None)
      && r.value.sha256 == Sha256(call.point.content) && r.value.bytesWritten == |call.point.content|
  }

  /** A call that has begun has all earlier calls on its target behind it. */
  lemma {:induction false} TurnsInOrder(codec: Codec, w: World, steps: seq<Step>, c: CallId)
    requires Initial(w) && c < |Run(codec, w, steps).calls| && Begun(Run(codec, w, steps).calls[c].point)
    ensures AllSettled(Run(codec, w, steps).calls, Run(codec, w, steps).calls[c].target, c)
  {
    RunKeeps(codec, w, steps);
  }

  /** What a look at its target may refuse: a write with this precondition, or a patch. */
  datatype Demand = ForWrite(expected: Expected) | ForPatch(base: Digest, edits: seq<Edit>)

  function DemandOf(request: Request): Demand {
    match request
    case Write(_, expected) => ForWrite(expected)
    case Patch(base, edits) => ForPatch(base, edits)
  }

  /** Why a look at a file, or the commit over it, refuses a write. */
  predicate RefusesWrite(file: File, expected: Expected, error: WriteError) {
    match error
    case SymlinkUnsupported => file.Link?
    case NotFile => file.Directory?
    case WriteConflict =>
      (match expected
       case Anything => false
       case Absent => !file.Missing?
       case Matching(digest) => file.Missing? || (file.Regular? && file.content != digest.of))
    case WriteFailed => file.Directory? && expected != Absent
    case _ => false
  }

  /** Why a look at a file refuses a patch, or its content cannot be patched. */
  ghost predicate RefusesPatch(codec: Codec, file: File, base: Digest, edits: seq<Edit>, error: WriteError) {
    match error
    case SymlinkUnsupported => file.Link?
    case NotFile => ReadThrough(file).None?
    case PatchConflict => file != Regular(base.of)
    case PatchTooLarge =>
      || (ReadThrough(file).Some? && |ReadThrough(file).value| > 16777216)
      || (codec.decode(base.of).Some? && Plannable(codec.decode(base.of).value, edits) && forall bytes :: !Fits(codec, base.of, edits, bytes))
    case PatchBinaryUnsupported => codec.decode(base.of).None?
    case PatchRejected(conflict) => codec.decode(base.of).Some? && Explains(codec.decode(base.of).value, edits, conflict)
    case PatchFailed => file.Directory?
    case _ => false
  }

  ghost predicate Refuses(codec: Codec, file: File, demand: Demand, error: WriteError) {
    match demand
    case ForWrite(expected) => RefusesWrite(file, expected, error)
    case ForPatch(base, edits) => RefusesPatch(codec, file, base, edits, error)
  }

  /** What the target held before the step of this number. */
  ghost function FileAt(codec: Codec, start: World, history: seq<Step>, k: nat, t: Target): File
    requires k <= |history|
  {
    At(Run(codec, start, history[..k]).files, t)
  }

  /** At some time since a step of this number the target held such a file. */
  ghost predicate Met(codec: Codec, start: World, history: seq<Step>, from: nat, t: Target, demand: Demand, error: WriteError) {
    exists k :: from <= k <= |history| && Refuses(codec, FileAt(codec, start, history, k, t), demand, error)
  }

  /** A system call of the write has failed. */
  predicate Broke(faults: set<Fault>, c: CallId) {
    Fault(c, Opening) in faults || Fault(c, Writing) in faults || Fault(c, Committing) in faults
  }

  lemma {:induction false} MetNow(codec: Codec, start: World, history: seq<Step>, from: nat, t: Target, demand: Demand, error: WriteError)
    requires Refuses(codec, At(Run(codec, start, history).files, t), demand, error) && from <= |history|
    ensures Met(codec, start, history, from, t, demand, error)
  {
    assert history[..|history|] == history;
    assert Refuses(codec, FileAt(codec, start, history, |history|, t), demand, error);
  }

  lemma {:induction false} MetLater(codec: Codec, start: World, history: seq<Step>, more: seq<Step>, to: nat, from: nat, t: Target, demand: Demand, error: WriteError)
    requires Met(codec, start, history, from, t, demand, error) && history <= more && to <= from
    ensures Met(codec, start, more, to, t, demand, error)
  {
    var k :| from <= k <= |history| && Refuses(codec, FileAt(codec, start, history, k, t), demand, error);
    assert more[..k] == history[..k];
    assert Refuses(codec, FileAt(codec, start, more, k, t), demand, error);
  }

  /** What a patch makes of an error of its write. */
  function PatchError(error: WriteError): WriteError {
    match error
    case WriteConflict => PatchConflict
    case WriteFailed => PatchFailed
    case _ => error
  }

  lemma {:induction false} MetByPatch(codec: Codec, start: World, history: seq<Step>, from: nat, t: Target, base: Digest, edits: seq<Edit>, error: WriteError)
    requires Met(codec, start, history, from, t, ForWrite(Matching(base)), error)
    ensures Met(codec, start, history, from, t, ForPatch(base, edits), PatchError(error))
  {
    var k :| from <= k <= |history| && Refuses(codec, FileAt(codec, start, history, k, t), ForWrite(Matching(base)), error);
    assert Refuses(codec, FileAt(codec, start, history, k, t), ForPatch(base, edits), PatchError(error));
  }

  /** The service on the shared disk. `calls` holds how far each promise of the service has come;
      `log` and `history` are ghosts: what was committed, and the run of the protocol that the
      program has made so far. Between any two statements of one call, others may take any steps. */
  class FilesystemService {
    const codec: Codec
    var files: map<Target, File>
    var temps: map<CallId, Bytes>
    var writeTails: map<Target, CallId>
    var calls: seq<Call>
    ghost var log: seq<Entry>
    ghost var history: seq<Step>
    ghost const start: World
    /** The system calls that fail. */
    const faults: set<Fault>

    ghost function Now(): World
      reads this
    {
      World(files, temps, writeTails, calls, log)
    }

    ghost predicate Valid()
      reads this
    {
      Initial(start) && Now() == Run(codec, start, history)
    }

    /** An error that is explained by what the target held, or by a failed system call. */
    ghost predicate Because(from: nat, c: CallId, t: Target, demand: Demand, error: WriteError)
      reads this
    {
      || Met(codec, start, history, from, t, demand, error)
      || ((error == if demand.ForWrite? then WriteFailed else PatchFailed) && Broke(faults, c))
    }

    constructor (codec: Codec, files: map<Target, File>, faults: set<Fault>)
      ensures Valid() && history == [] && this.codec == codec && this.faults == faults && Now() == World(files, map[], map[], [], [])
    {
      this.codec, this.files, this.faults := codec, files, faults;
      temps, writeTails, calls, log, history := map[], map[], [], [], [];
      start := World(files, map[], map[], [], []);
    }

    /** Other calls, other processes and other writers; none of them touches this call's own
        temporary file, and the process is still alive when this call goes on. */
    method Others(c: CallId)
      requires Valid() && c < |calls|
      modifies this
      ensures Valid() && old(history) <= history
      ensures c < |calls| && calls[c] == old(calls[c])
      ensures (c in temps <==> c in old(temps)) && (c in temps ==> temps[c] == old(temps)[c])
    {
    }

    ghost method Follow(step: Step, before: World)
      requires Initial(start) && before == Run(codec, start, history)
      requires Apply(codec, before, step) == Now()
      modifies `history
      ensures Valid() && history == old(history) + [step]
    {
      RunAppend(codec, start, history, step);
      history := history + [step];
    }

    /** This call has come to another point; nothing else has changed. */
    method GoTo(c: CallId, point: Point)
      requires Valid() && c < |calls|
      requires Apply(codec, Now(), Advance(c)) == Now().(calls := Moved(Now(), c, point))
      modifies `calls, `history
      ensures Valid() && history == old(history) + [Advance(c)]
      ensures calls == old(calls)[c := old(calls[c]).(point := point)]
    {
      ghost var before := Now();
      calls := calls[c := calls[c].(point := point)];
      Follow(Advance(c), before);
    }

    /** `rm` of the temporary file, whose failure is swallowed. */
    method RemoveTemp(c: CallId)
      requires Valid() && c < |calls| && (calls[c].point.Done? || calls[c].point.Rejected?)
      modifies `temps, `history
      ensures Valid() && old(history) <= history
      ensures c in temps ==> Fault(c, Removing) in faults
    {
      if Fault(c, Removing) !in faults {
        ghost var before := Now();
        temps := temps - {c};
        Follow(Unlink(c), before);
      }
    }

    /** The finally block of a call that throws. */
    method GiveUp(c: CallId, tempExists: bool)
      requires Valid() && c < |calls| && Active(calls[c].point) && (c in temps ==> tempExists)
      modifies `calls, `temps, `history
      ensures Valid() && old(history) <= history
      ensures calls == old(calls)[c := old(calls[c]).(point := Rejected)]
      ensures c in temps ==> Fault(c, Removing) in faults
    {
      ghost var before := Now();
      calls := calls[c := calls[c].(point := Rejected)];
      Follow(Fail(c), before);
      if tempExists {
        RemoveTemp(c);
      }
    }

    /** The same, with the error that is thrown on. */
    method GiveUpBecause(c: CallId, tempExists: bool, ghost from: nat, ghost demand: Demand, ghost error: WriteError)
      requires Valid() && c < |calls| && Active(calls[c].point) && (c in temps ==> tempExists)
      requires Because(from, c, calls[c].target, demand, error)
      modifies `calls, `temps, `history
      ensures Valid() && old(history) <= history
      ensures calls == old(calls)[c := old(calls[c]).(point := Rejected)]
      ensures c in temps ==> Fault(c, Removing) in faults
      ensures Because(from, c, calls[c].target, demand, error)
    {
      ghost var before, t := history, calls[c].target;
      GiveUp(c, tempExists);
      if Met(codec, start, before, from, t, demand, error) {
        MetLater(codec, start, before, history, from, from, t, demand, error);
      }
    }

    /** `inspectWriteTarget` and `enforceWritePrecondition`. */
    method Inspect(t: Target, expected: Expected) returns (r: Result<File, WriteError>)
      ensures r.Ok? <==> Admits(expected, At(files, t))
      ensures r.Ok? ==> r.value == At(files, t)
      ensures r == Err(SymlinkUnsupported) <==> At(files, t).Link?
      ensures r == Err(NotFile) <==> At(files, t).Directory?
      ensures r.Err? ==> r.error in {SymlinkUnsupported, NotFile, WriteConflict}
      ensures r.Err? ==> RefusesWrite(At(files, t), expected, r.error)
    {
      var file := At(files, t);
      match file {
        case Link(_) => return Err(SymlinkUnsupported);
        case Directory => return Err(NotFile);
        case _ =>
      }
      match expected {
        case Anything => return Ok(file);
        case Absent => return if file == Missing then Ok(file) else Err(WriteConflict);
        case Matching(digest) =>
          return if file.Regular? && Sha256(file.content) == digest then Ok(file) else Err(WriteConflict);
      }
    }

    /** Open the temporary file; anything may keep it from opening. */
    method OpenTempFile(c: CallId) returns (ready: bool)
      requires Valid() && c < |calls| && calls[c].point.OpenTemp? && c !in temps
      modifies this
      ensures Valid() && old(history) <= history && c < |calls|
      ensures calls[c] == if ready then old(calls[c]).(point := Staging(old(calls[c]).point.content, old(calls[c]).point.expected)) else old(calls[c])
      ensures (c in temps <==> ready) && (ready <==> Fault(c, Opening) !in faults)
    {
      ready := Fault(c, Opening) !in faults;
      if ready {
        ghost var before := Now();
        temps := temps[c := []];
        calls := calls[c := calls[c].(point := Staging(calls[c].point.content, calls[c].point.expected))];
        Follow(Advance(c), before);
      }
    }

    /** A part of the content may be in the temporary file before all of it is. */
    method WriteSome(c: CallId, content: Bytes)
      requires Valid() && c < |calls| && calls[c].point.Staging? && c in temps && calls[c].point.content == content
      modifies this
      ensures Valid() && old(history) <= history && c < |calls| && c in temps && calls[c] == old(calls[c])
    {
      var n: int := *;
      if 0 <= n <= |content| {
        ghost var before := Now();
        temps := temps[c := content[..n]];
        Follow(StageSome(c, n), before);
      }
    }

    /** Write and sync the temporary file; a failure may leave any part of it. */
    method WriteFile(c: CallId) returns (written: bool)
      requires Valid() && c < |calls| && calls[c].point.Staging? && c in temps
      modifies this
      ensures Valid() && old(history) <= history && c < |calls| && c in temps
      ensures calls[c] == if written then old(calls[c]).(point := Recheck(old(calls[c]).point.content, old(calls[c]).point.expected)) else old(calls[c])
      ensures written ==> temps[c] == old(calls[c]).point.content
      ensures written <==> Fault(c, Writing) !in faults
    {
      var content := calls[c].point.content;
      WriteSome(c, content);
      Others(c);
      written := Fault(c, Writing) !in faults;
      if written {
        ghost var before := Now();
        temps := temps[c := content];
        calls := calls[c := calls[c].(point := Recheck(content, calls[c].point.expected))];
        Follow(Advance(c), before);
      }
    }

    /** `link` for create-only calls, which leaves the temporary name, `rename` for the others. */
    method CommitFile(c: CallId) returns (error: Option<WriteError>)
      requires Valid() && c < |calls| && calls[c].point.Commit? && c in temps && temps[c] == calls[c].point.content
      modifies this
      ensures Valid() && old(history) <= history && c < |calls|
      ensures calls[c] == if error.None? then old(calls[c]).(point := Done(old(calls[c]).point.content, old(calls[c]).point.before)) else old(calls[c])
      ensures error.None? ==> At(files, calls[c].target) == Regular(calls[c].point.content)
      ensures error.None? && old(calls[c]).point.expected == Absent ==> At(old(files), calls[c].target) == Missing
      ensures error.Some? ==> files == old(files)
      ensures error.Some? ==> c in temps
      ensures error.None? && old(calls[c]).point.expected != Absent ==> c !in temps
      ensures error.Some? ==> history == old(history)
                              && (RefusesWrite(At(files, calls[c].target), calls[c].point.expected, error.value)
                                  || (error == Some(WriteFailed) && Fault(c, Committing) in faults))
    {
      var call := calls[c];
      var file := At(files, call.target);
      if Fault(c, Committing) in faults {
        return Some(WriteFailed);
      }
      if call.point.expected == Absent {
        if file != Missing {
          return Some(WriteConflict);
        }
      } else if file == Directory {
        return Some(WriteFailed);
      }
      ghost var before := Now();
      files := files[call.target := Regular(temps[c])];
      log := log + [Entry(c, call.target, file, temps[c])];
      if call.point.expected != Absent {
        temps := temps - {c};
      }
      calls := calls[c := call.(point := Done(call.point.content, call.point.before))];
      Follow(Advance(c), before);
      return None;
    }

    /** The atomic write, under any interference. It returns having committed the whole content
        over a file that met its precondition when it looked last, or throws having been
        rejected; and its temporary file is left only if it could not be removed. */
    method WriteAtomic(c: CallId, content: Bytes, expected: Expected) returns (r: Result<Written, WriteError>)
      requires Valid() && c < |calls| && calls[c].point == Point.Inspect(content, expected) && c !in temps
      modifies this
      ensures Valid() && old(history) <= history && c < |calls|
      ensures c in temps ==> Fault(c, Removing) in faults
      ensures SameCall(calls[c], old(calls[c])) && Ended(calls[c].point, content, expected, r)
      ensures r.Err? ==> Because(|old(history)|, c, calls[c].target, ForWrite(expected), r.error)
    {
      var t := calls[c].target;
      ghost var from := |history|;
      var initial := Inspect(t, expected);
      if initial.Err? {
        MetNow(codec, start, history, from, t, ForWrite(expected), initial.error);
        GiveUpBecause(c, false, from, ForWrite(expected), initial.error);
        return Err(initial.error);
      }
      GoTo(c, OpenTemp(content, expected));
      Others(c);
      var tempExists: bool;
      r, tempExists := OpenAndCommit(c, t, content, expected, from);
      if r.Err? {
        GiveUpBecause(c, tempExists, from, ForWrite(expected), r.error);
      }
    }

    /** From opening the temporary file to the commit; when it fails, the file may exist. */
    method OpenAndCommit(c: CallId, t: Target, content: Bytes, expected: Expected, ghost from: nat)
      returns (r: Result<Written, WriteError>, tempExists: bool)
      requires from <= |history|
      requires Valid() && c < |calls| && calls[c].point == OpenTemp(content, expected) && calls[c].target == t && c !in temps
      modifies this
      ensures Valid() && old(history) <= history && c < |calls|
      ensures SameCall(calls[c], old(calls[c])) && Underway(calls[c].point, content, expected, r)
      ensures c in temps ==> if r.Err? then tempExists else Fault(c, Removing) in faults
      ensures r.Err? ==> Because(from, c, t, ForWrite(expected), r.error)
    {
      tempExists := OpenTempFile(c);
      if !tempExists {
        return Err(WriteFailed), false;
      }
      r := StageAndCommit(c, t, content, expected, from);
    }

    /** From writing the temporary file to the commit. */
    method StageAndCommit(c: CallId, t: Target, content: Bytes, expected: Expected, ghost from: nat) returns (r: Result<Written, WriteError>)
      requires from <= |history|
      requires Valid() && c < |calls| && calls[c].point == Staging(content, expected) && calls[c].target == t && c in temps
      modifies this
      ensures Valid() && old(history) <= history && c < |calls|
      ensures SameCall(calls[c], old(calls[c])) && Underway(calls[c].point, content, expected, r)
      ensures if r.Err? then c in temps else c in temps ==> Fault(c, Removing) in faults
      ensures r.Err? ==> Because(from, c, t, ForWrite(expected), r.error)
    {
      Others(c);
      var written := WriteFile(c);
      if !written {
        return Err(WriteFailed);
      }
      Others(c);
      r := RecheckAndCommit(c, t, content, expected, from);
    }

    method RecheckAndCommit(c: CallId, t: Target, content: Bytes, expected: Expected, ghost from: nat) returns (r: Result<Written, WriteError>)
      requires from <= |history|
      requires Valid() && c < |calls| && calls[c].point == Recheck(content, expected) && calls[c].target == t
      requires c in temps && temps[c] == content
      modifies this
      ensures Valid() && old(history) <= history && c < |calls|
      ensures SameCall(calls[c], old(calls[c])) && Underway(calls[c].point, content, expected, r)
      ensures if r.Err? then c in temps else c in temps ==> Fault(c, Removing) in faults
      ensures r.Err? ==> Because(from, c, t, ForWrite(expected), r.error)
    {
      var beforeCommit := Inspect(t, expected);
      if beforeCommit.Err? {
        MetNow(codec, start, history, from, t, ForWrite(expected), beforeCommit.error);
        return Err(beforeCommit.error);
      }
      GoTo(c, Commit(content, expected, beforeCommit.value));
      Others(c);
      r := CommitStaged(c, t, content, expected, beforeCommit.value, from);
    }

    method CommitStaged(c: CallId, t: Target, content: Bytes, expected: Expected, before: File, ghost from: nat) returns (r: Result<Written, WriteError>)
      requires from <= |history| && Admits(expected, before)
      requires Valid() && c < |calls| && calls[c].point == Commit(content, expected, before) && calls[c].target == t
      requires c in temps && temps[c] == content
      modifies this
      ensures Valid() && old(history) <= history && c < |calls|
      ensures SameCall(calls[c], old(calls[c])) && Underway(calls[c].point, content, expected, r)
      ensures if r.Err? then c in temps else c in temps ==> Fault(c, Removing) in faults
      ensures r.Err? ==> Because(from, c, t, ForWrite(expected), r.error)
    {
      var failure := CommitFile(c);
      if failure.Some? {
        if RefusesWrite(At(files, t), expected, failure.value) {
          MetNow(codec, start, history, from, t, ForWrite(expected), failure.value);
        }
        return Err(failure.value);
      }
      if expected == Absent {
        Others(c);
        RemoveTemp(c);
      }
      r := Ok(Report(content, before));
    }

    /** The content a patch makes of the source it has read. */
    method PatchContent(source: Bytes, edits: seq<Edit>) returns (r: Result<Bytes, WriteError>)
      requires NonEmpty(edits)
      ensures r.Ok? ==> Fits(codec, source, edits, r.value)
      ensures r.Err? ==> forall bytes :: !Fits(codec, source, edits, bytes)
      ensures |source| <= 16777216 ==>
                && (r == Err(PatchBinaryUnsupported) <==> codec.decode(source).None?)
                && (r.Err? && r.error.PatchRejected? <==>
                      codec.decode(source).Some? && !Plannable(codec.decode(source).value, edits))
      ensures r.Err? && r.error.PatchRejected? ==>
                codec.decode(source).Some? && Explains(codec.decode(source).value, edits, r.error.conflict)
      ensures r.Err? ==> r.error in {PatchTooLarge, PatchBinaryUnsupported} || r.error.PatchRejected?
      ensures |source| > 16777216 ==> r == Err(PatchTooLarge)
    {
      Decided(codec, source, edits);
      if |source| > MAX_WRITE_BYTES {
        return Err(PatchTooLarge);
      }
      var text := codec.decode(source);
      if text.None? {
        return Err(PatchBinaryUnsupported);
      }
      var planned := PlanExactPatch(text.value, edits);
      PlanIffPlannable(text.value, edits);
      if planned.Err? {
        ConflictExplains(text.value, edits);
        return Err(PatchRejected(planned.error));
      }
      PlanContents(text.value, edits);
      var patched := ApplyPlannedPatch(text.value, planned.value);
      var content := codec.encode(patched);
      return if |content| > MAX_WRITE_BYTES then Err(PatchTooLarge) else Ok(content);
    }

    /** The first look of a patch: a regular file with the expected hash, of at most 16 MiB. */
    method ComparePatch(t: Target, base: Digest) returns (error: Option<WriteError>)
      ensures error.None? <==> (match At(files, t) case Regular(content) => Sha256(content) == base && |content| <= 16777216 case _ => false)
      ensures error.Some? ==> error.value in {SymlinkUnsupported, NotFile, PatchConflict, PatchTooLarge}
      ensures error.Some? ==> forall edits :: RefusesPatch(codec, At(files, t), base, edits, error.value)
      ensures error == Some(PatchTooLarge) <==>
                (match At(files, t) case Regular(content) => Sha256(content) == base && |content| > 16777216 case _ => false)
      ensures error == Some(PatchConflict) <==>
                (match At(files, t) case Missing => true case Regular(content) => Sha256(content) != base case _ => false)
    {
      var initial := Inspect(t, Anything);
      if initial.Err? {
        return Some(initial.error);
      }
      if !initial.value.Regular? || Sha256(initial.value.content) != base {
        return Some(PatchConflict);
      }
      return if |initial.value.content| > MAX_WRITE_BYTES then Some(PatchTooLarge) else None;
    }

    /** The bytes the patch works on, which must still have the expected hash. */
    method ReadSource(t: Target, base: Digest) returns (r: Result<Bytes, WriteError>)
      ensures r.Ok? <==> ReadThrough(At(files, t)) == Some(base.of) && |base.of| <= 16777216
      ensures r.Ok? ==> r.value == base.of
      ensures r.Err? ==> r.error in {NotFile, PatchConflict, PatchTooLarge}
      ensures r.Err? ==> forall edits :: RefusesPatch(codec, At(files, t), base, edits, r.error)
    {
      var source := ReadThrough(At(files, t));
      if source.None? {
        return Err(NotFile);
      }
      if |source.value| > MAX_WRITE_BYTES {
        return Err(PatchTooLarge);
      }
      return if Sha256(source.value) != base then Err(PatchConflict) else Ok(source.value);
    }

    /** The comparison and the planning of a patch whose turn has come. */
    method PreparePatch(c: CallId, base: Digest, edits: seq<Edit>) returns (r: Result<Bytes, WriteError>)
      requires Valid() && c < |calls| && calls[c].point == PatchInspect && calls[c].request == Patch(base, edits)
      requires c !in temps && NonEmpty(edits)
      modifies this
      ensures Valid() && old(history) <= history && c < |calls| && c !in temps && SameCall(calls[c], old(calls[c]))
      ensures if r.Ok? then calls[c].point == Point.Inspect(r.value, Matching(base)) && Fits(codec, base.of, edits, r.value)
              else Active(calls[c].point)
      ensures r.Err? ==> Because(|old(history)|, c, calls[c].target, ForPatch(base, edits), r.error)
    {
      ghost var from := |history|;
      var failure := ComparePatch(calls[c].target, base);
      if failure.Some? {
        MetNow(codec, start, history, from, calls[c].target, ForPatch(base, edits), failure.value);
        return Err(failure.value);
      }
      GoTo(c, PatchRead);
      Others(c);
      r := PlanPatch(c, base, edits, from);
    }

    method PlanPatch(c: CallId, base: Digest, edits: seq<Edit>, ghost from: nat) returns (r: Result<Bytes, WriteError>)
      requires from <= |history|
      requires Valid() && c < |calls| && calls[c].point == PatchRead && calls[c].request == Patch(base, edits)
      requires c !in temps && NonEmpty(edits)
      modifies this
      ensures Valid() && old(history) <= history && c < |calls| && c !in temps && SameCall(calls[c], old(calls[c]))
      ensures if r.Ok? then calls[c].point == Point.Inspect(r.value, Matching(base)) && Fits(codec, base.of, edits, r.value)
              else Active(calls[c].point)
      ensures r.Err? ==> Because(from, c, calls[c].target, ForPatch(base, edits), r.error)
    {
      var source := ReadSource(calls[c].target, base);
      if source.Err? {
        MetNow(codec, start, history, from, calls[c].target, ForPatch(base, edits), source.error);
        return Err(source.error);
      }
      r := PatchContent(source.value, edits);
      if r.Ok? {
        PatchedIff(codec, base.of, edits, r.value);
        GoTo(c, Point.Inspect(r.value, Matching(base)));
      } else {
        MetNow(codec, start, history, from, calls[c].target, ForPatch(base, edits), r.error);
      }
    }

    /** What a patch does when its turn has come. */
    method PatchOperation(c: CallId, base: Digest, edits: seq<Edit>) returns (r: Result<Written, WriteError>)
      requires Valid() && c < |calls| && calls[c].point == PatchInspect && calls[c].request == Patch(base, edits)
      requires c !in temps && NonEmpty(edits)
      modifies this
      ensures Valid() && old(history) <= history && c < |calls| && SameCall(calls[c], old(calls[c]))
      ensures Answered(codec, calls[c], r)
      ensures r.Ok? ==> calls[c].point.Done? && Fits(codec, base.of, edits, calls[c].point.content)
      ensures r.Err? ==> Because(|old(history)|, c, calls[c].target, ForPatch(base, edits), r.error)
    {
      ghost var from := |history|;
      var content := PreparePatch(c, base, edits);
      if content.Err? {
        GiveUpBecause(c, false, from, ForPatch(base, edits), content.error);
        return Err(content.error);
      }
      PatchedIff(codec, base.of, edits, content.value);
      Others(c);
      ghost var writing := |history|;
      r := WriteAtomic(c, content.value, Matching(base));
      if r.Err? {
        Translate(c, base, edits, from, writing, r.error);
        r := Err(PatchError(r.error));
        if r.error == PatchConflict {
          r := LookAgain(c, base, edits, from);
        }
      }
    }

    /** Why the write failed is why the patch does. */
    ghost method Translate(c: CallId, base: Digest, edits: seq<Edit>, from: nat, writing: nat, error: WriteError)
      requires c < |calls| && from <= writing && Because(writing, c, calls[c].target, ForWrite(Matching(base)), error)
      ensures Because(from, c, calls[c].target, ForPatch(base, edits), PatchError(error))
    {
      if Met(codec, start, history, writing, calls[c].target, ForWrite(Matching(base)), error) {
        MetByPatch(codec, start, history, writing, calls[c].target, base, edits, error);
        MetLater(codec, start, history, history, from, writing, calls[c].target, ForPatch(base, edits), PatchError(error));
      }
    }

    /** A conflict is reported with what the target holds by then, if that can be looked at. */
    method LookAgain(c: CallId, base: Digest, edits: seq<Edit>, ghost from: nat) returns (r: Result<Written, WriteError>)
      requires Valid() && c < |calls| && from <= |history|
      requires Because(from, c, calls[c].target, ForPatch(base, edits), PatchConflict)
      modifies this
      ensures Valid() && old(history) <= history && c < |calls| && calls[c] == old(calls[c])
      ensures r.Err? && Because(from, c, calls[c].target, ForPatch(base, edits), r.error)
    {
      ghost var before := history;
      var t := calls[c].target;
      Others(c);
      var current := Inspect(t, Anything);
      if current.Err? {
        MetNow(codec, start, history, from, t, ForPatch(base, edits), current.error);
        return Err(current.error);
      }
      MetLater(codec, start, before, history, from, from, t, ForPatch(base, edits), PatchConflict);
      return Err(PatchConflict);
    }

    /** One write or patch through the queue of its target. None: the call still waits for its
        predecessor, and Resume gives it its turn. */
    method SerializeWrite(t: Target, request: Request) returns (c: CallId, r: Option<Result<Written, WriteError>>)
      requires Valid() && (request.Patch? ==> NonEmpty(request.edits))
      modifies this
      ensures Valid() && old(history) <= history && c < |calls|
      ensures c == |old(calls)| && calls[c].predecessor == if t in old(writeTails) then Some(old(writeTails)[t]) else None
      ensures calls[c].target == t && calls[c].request == request && Told(Now(), c)
      ensures if r.Some? then Answered(codec, calls[c], r.value) && AllSettled(calls, t, c) else calls[c].point == Queued && c !in temps
      ensures r.Some? && r.value.Err? ==> Because(|old(history)|, c, t, DemandOf(request), r.value.error)
    {
      ghost var from := |history|;
      c := Enter(t, request);
      Others(c);
      ghost var entered := |history|;
      r := Resume(c, t, request);
      if r.Some? && r.value.Err? {
        ExplainedSince(c, t, entered, from, DemandOf(request), r.value.error);
      }
    }

    /** A queued call looks whether its turn has come. It runs exactly when its predecessor has
        settled, well or badly; then all earlier calls on its target have. It is answered iff it ran: it
        committed exactly once what its request asks for, over a file its precondition admits,
        or it was rejected. */
    method Resume(c: CallId, t: Target, request: Request) returns (r: Option<Result<Written, WriteError>>)
      requires Valid() && c < |calls| && calls[c].point == Queued && c !in temps
      requires calls[c].target == t && calls[c].request == request && (request.Patch? ==> NonEmpty(request.edits))
      modifies this
      ensures Valid() && old(history) <= history && c < |calls|
      ensures SameCall(calls[c], old(calls[c])) && Told(Now(), c)
      ensures r.Some? <==> old(MayBegin(calls, calls[c]))
      ensures r.Some? && t in writeTails ==> writeTails[t] != c
      ensures r.Some? && r.value.Err? ==> Because(|old(history)|, c, t, DemandOf(request), r.value.error)
      ensures if r.Some? then Answered(codec, calls[c], r.value) && AllSettled(calls, t, c) else calls[c].point == Queued && c !in temps
    {
      var previous := calls[c].predecessor;
      if previous.Some? && previous.value < |calls| && !Settled(calls[previous.value].point) {
        ReturnsIffCommitted(codec, start, history, c);
        return None;
      }
      ghost var from := |history|;
      var answer := Operation(c, request);
      Leaving(c, t, request, answer, from);
      ReturnsIffCommitted(codec, start, history, c);
      TurnsInOrder(codec, start, history, c);
      return Some(answer);
    }

    /** The finally block of the queue; the reason of a failure stays what it was. */
    method Leaving(c: CallId, t: Target, request: Request, answer: Result<Written, WriteError>, ghost from: nat)
      requires Valid() && c < |calls| && Settled(calls[c].point) && calls[c].target == t
      requires answer.Err? ==> Because(from, c, t, DemandOf(request), answer.error)
      modifies this
      ensures Valid() && old(history) <= history && c < |calls| && calls[c] == old(calls[c])
      ensures t in writeTails ==> writeTails[t] != c
      ensures answer.Err? ==> Because(from, c, t, DemandOf(request), answer.error)
    {
      ghost var before := history;
      Others(c);
      Exit(c, t);
      if answer.Err? && Met(codec, start, before, from, t, DemandOf(request), answer.error) {
        MetLater(codec, start, before, history, from, from, t, DemandOf(request), answer.error);
      }
    }

    /** A new call behind the last one on its target. */
    method Enter(t: Target, request: Request) returns (c: CallId)
      requires Valid()
      modifies this
      ensures Valid() && old(history) <= history && c < |calls| && c !in temps
      ensures c == |old(calls)| && calls[c].predecessor == if t in old(writeTails) then Some(old(writeTails)[t]) else None
      ensures calls[c].target == t && calls[c].request == request && calls[c].point == Queued
    {
      RunNumbersTemps(codec, start, history);
      ghost var before := Now();
      c := |calls|;
      var previous := if t in writeTails then Some(writeTails[t]) else None;
      calls := calls + [Call(t, request, previous, Queued)];
      writeTails := writeTails[t := c];
      Follow(Enqueue(t, request), before);
    }

    /** The operation itself, once the predecessor has settled, well or badly. */
    method Operation(c: CallId, request: Request) returns (r: Result<Written, WriteError>)
      requires Valid() && c < |calls| && c !in temps && calls[c].point == Queued && calls[c].request == request
      requires MayBegin(calls, calls[c]) && (request.Patch? ==> NonEmpty(request.edits))
      modifies this
      ensures Valid() && old(history) <= history && c < |calls| && SameCall(calls[c], old(calls[c]))
      ensures Answered(codec, calls[c], r)
      ensures r.Err? ==> Because(|old(history)|, c, calls[c].target, DemandOf(request), r.error)
    {
      ghost var from, t := |history|, calls[c].target;
      match request {
        case Write(content, expected) =>
          GoTo(c, Point.Inspect(content, expected));
          ghost var writing := |history|;
          r := WriteAtomic(c, content, expected);
          if r.Err? {
            ExplainedSince(c, t, writing, from, DemandOf(request), r.error);
          }
        case Patch(base, edits) =>
          GoTo(c, PatchInspect);
          ghost var patching := |history|;
          r := PatchOperation(c, base, edits);
          if r.Err? {
            ExplainedSince(c, t, patching, from, DemandOf(request), r.error);
          }
      }
    }

    ghost method ExplainedSince(c: CallId, t: Target, from: nat, to: nat, demand: Demand, error: WriteError)
      requires to <= from && Because(from, c, t, demand, error)
      ensures Because(to, c, t, demand, error)
    {
      if Met(codec, start, history, from, t, demand, error) {
        MetLater(codec, start, history, history, to, from, t, demand, error);
      }
    }

    /** The last call on a target takes the queue with it. */
    method Exit(c: CallId, t: Target)
      requires Valid() && c < |calls| && Settled(calls[c].point) && calls[c].target == t
      modifies this
      ensures Valid() && old(history) <= history && calls == old(calls) && files == old(files) && temps == old(temps)
      ensures writeTails == if t in old(writeTails) && old(writeTails)[t] == c then old(writeTails) - {t} else old(writeTails)
    {
      if t in writeTails && writeTails[t] == c {
        ghost var before := Now();
        writeTails := writeTails - {t};
        Follow(Leave(c), before);
      }
    }
  }
}
