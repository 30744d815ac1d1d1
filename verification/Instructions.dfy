/** The stable read of an instruction file, without and with its cache. */
module StableRead {
  import opened Utf16
  import opened Wrappers

  type Path = nat
  type Bytes = seq<nat>

  /** SHA-256, assumed injective: a digest stands for the bytes it was made of. */
  datatype Digest = Sha256(of: Bytes)

  /** The numbers that make the fingerprint. */
  datatype Stats = Stats(dev: nat, ino: nat, size: nat, mtimeNs: nat, ctimeNs: nat)
  datatype Metadata = Metadata(realPath: Path, stats: Stats)

  datatype Error = TooLarge | BinaryUnsupported | ChangedDuringRead | Inaccessible | OutsideWorkspace | SourceNotFile

  /** What a probe or a read can throw: ENOENT, another errno, or an error of this service. */
  datatype Failure = Missing | Errno(code: nat) | Instructions(error: Error)

  /** What one call sees of the disk, in order. */
  datatype Event =
    | Probe(path: Path, answer: Result<Metadata, Failure>)
    | Read(realPath: Path, bytes: Result<Bytes, Failure>)

  datatype Cached = Cached(realPath: Path, stats: Stats, content: Text, sha256: Digest)
  datatype Outcome = Absent | Document(file: Cached) | Threw(failure: Failure)

  const MAX_INSTRUCTION_BYTES: nat := 256 * 1024
  const MAX_STABLE_READ_ATTEMPTS: nat := 3

  function MapReadError(f: Failure): Failure {
    match f
    case Missing => Instructions(ChangedDuringRead)
    case Errno(_) => Instructions(Inaccessible)
    case Instructions(_) => f
  }

  /** The document made of bytes just read, when they are text. */
  function Decoded(decode: Bytes -> Option<Text>, m: Metadata, bytes: Bytes): Outcome {
    match decode(bytes)
    case Some(content) => Document(Cached(m.realPath, m.stats, content, Sha256(bytes)))
    case None => Threw(Instructions(BinaryUnsupported))
  }

  /** An outcome that uses up the whole log. */
  function Final(log: seq<Event>, used: nat, outcome: Outcome): Option<Outcome> {
    if |log| == used then Some(outcome) else None
  }

  /** The attempts of a reader that has no cache; None when the log is not that of one call. */
  function Attempts(decode: Bytes -> Option<Text>, path: Path, m: Metadata, log: seq<Event>, attempt: nat): Option<Outcome>
    decreases MAX_STABLE_READ_ATTEMPTS - attempt
  {
    if attempt >= MAX_STABLE_READ_ATTEMPTS then Final(log, 0, Threw(Instructions(ChangedDuringRead)))
    else if m.stats.size > MAX_INSTRUCTION_BYTES then Final(log, 0, Threw(Instructions(TooLarge)))
    else if log == [] || !log[0].Read? || log[0].realPath != m.realPath then None
    else if log[0].bytes.Err? then Final(log, 1, Threw(MapReadError(log[0].bytes.error)))
    else if |log[0].bytes.value| > MAX_INSTRUCTION_BYTES then Final(log, 1, Threw(Instructions(TooLarge)))
    else if |log| < 2 || !log[1].Probe? || log[1].path != path then None
    else if log[1].answer.Err? then Final(log, 2, Threw(MapReadError(log[1].answer.error)))
    else if log[1].answer.value == m && m.stats.size == |log[0].bytes.value| then Final(log, 2, Decoded(decode, m, log[0].bytes.value))
    else Attempts(decode, path, log[1].answer.value, log[2..], attempt + 1)
  }

  /** What a reader without a cache answers from what it sees. */
  function Uncached(decode: Bytes -> Option<Text>, path: Path, log: seq<Event>): Option<Outcome> {
    if log == [] || !log[0].Probe? || log[0].path != path then None
    else if log[0].answer.Err? then Final(log, 1, if log[0].answer.error == Missing then Absent else Threw(log[0].answer.error))
    else Attempts(decode, path, log[0].answer.value, log[1..], 0)
  }

  /** The log ends with a read between two equal probes, of as many bytes as both say. */
  ghost predicate EndsBracketed(log: seq<Event>, path: Path, m: Metadata, bytes: Bytes) {
    && |log| >= 3
    && log[|log| - 3] == Probe(path, Ok(m))
    && log[|log| - 2] == Read(m.realPath, Ok(bytes))
    && log[|log| - 1] == Probe(path, Ok(m))
    && |bytes| == m.stats.size <= 262144
  }

  lemma {:induction false} BracketedAttempts(decode: Bytes -> Option<Text>, path: Path, m: Metadata, log: seq<Event>, attempt: nat, file: Cached)
      returns (bytes: Bytes)
    requires log != [] && log[0] == Probe(path, Ok(m))
    requires Attempts(decode, path, m, log[1..], attempt) == Some(Document(file))
    ensures EndsBracketed(log, path, Metadata(file.realPath, file.stats), bytes)
    ensures decode(bytes) == Some(file.content) && file.sha256 == Sha256(bytes)
    ensures |log| <= 1 + 2 * (MAX_STABLE_READ_ATTEMPTS - attempt)
    decreases MAX_STABLE_READ_ATTEMPTS - attempt
  {
    var rest := log[1..];
    bytes := rest[0].bytes.value;
    var after := rest[1].answer.value;
    if !(after == m && m.stats.size == |bytes|) {
      assert rest[2..] == log[2..][1..];
      bytes := BracketedAttempts(decode, path, after, log[2..], attempt + 1, file);
    }
  }

  /** A document that is returned is the decoding of bytes read in this call, between two equal
      probes that agree with their number; the call made at most three attempts. */
  lemma {:induction false} BracketedRead(decode: Bytes -> Option<Text>, path: Path, log: seq<Event>, file: Cached) returns (bytes: Bytes)
    requires Uncached(decode, path, log) == Some(Document(file))
    ensures EndsBracketed(log, path, Metadata(file.realPath, file.stats), bytes)
    ensures decode(bytes) == Some(file.content) && file.sha256 == Sha256(bytes)
    ensures |log| <= 7
  {
    bytes := BracketedAttempts(decode, path, log[0].answer.value, log, 0, file);
  }

  /** After these events the reader goes on with attempt number `attempt` at this metadata. */
  ghost predicate Continues(decode: Bytes -> Option<Text>, path: Path, log: seq<Event>, m: Metadata, attempt: nat) {
    forall more :: Uncached(decode, path, log + more) == Attempts(decode, path, m, more, attempt)
  }

  lemma {:induction false} FirstAttempt(decode: Bytes -> Option<Text>, path: Path, log: seq<Event>, m: Metadata)
    requires log == [Probe(path, Ok(m))]
    ensures Continues(decode, path, log, m, 0)
  {
    forall more ensures Uncached(decode, path, log + more) == Attempts(decode, path, m, more, 0) {
      assert (log + more)[1..] == more;
    }
  }

  lemma {:induction false} NextAttempt(decode: Bytes -> Option<Text>, path: Path, log: seq<Event>, m: Metadata, attempt: nat, bytes: Bytes, after: Metadata)
    requires Continues(decode, path, log, m, attempt) && attempt < MAX_STABLE_READ_ATTEMPTS
    requires m.stats.size <= MAX_INSTRUCTION_BYTES && |bytes| <= MAX_INSTRUCTION_BYTES
    requires after != m || m.stats.size != |bytes|
    ensures Continues(decode, path, log + [Read(m.realPath, Ok(bytes))] + [Probe(path, Ok(after))], after, attempt + 1)
  {
    var two := [Read(m.realPath, Ok(bytes))] + [Probe(path, Ok(after))];
    var longer := log + [Read(m.realPath, Ok(bytes))] + [Probe(path, Ok(after))];
    forall more ensures Uncached(decode, path, longer + more) == Attempts(decode, path, after, more, attempt + 1) {
      assert longer + more == log + (two + more);
      assert (two + more)[2..] == more;
    }
  }

  lemma {:induction false} Stops(decode: Bytes -> Option<Text>, path: Path, log: seq<Event>, m: Metadata, attempt: nat, more: seq<Event>)
    requires Continues(decode, path, log, m, attempt)
    ensures Uncached(decode, path, log + more) == Attempts(decode, path, m, more, attempt)
  {
  }

  /** No document exactly when the first probe says that there is no file. */
  lemma {:induction false} AbsentIff(decode: Bytes -> Option<Text>, path: Path, log: seq<Event>)
    ensures Uncached(decode, path, log) == Some(Absent) <==> log == [Probe(path, Err(Missing))]
  {
    if log != [] && log[0].Probe? && log[0].path == path && log[0].answer.Ok? {
      NeverAbsent(decode, path, log[0].answer.value, log[1..], 0);
    }
  }

  lemma {:induction false} NeverAbsent(decode: Bytes -> Option<Text>, path: Path, m: Metadata, log: seq<Event>, attempt: nat)
    ensures Attempts(decode, path, m, log, attempt) != Some(Absent)
    decreases MAX_STABLE_READ_ATTEMPTS - attempt
  {
    if attempt < MAX_STABLE_READ_ATTEMPTS && |log| >= 2 && log[1].Probe? && log[1].answer.Ok? {
      NeverAbsent(decode, path, log[1].answer.value, log[2..], attempt + 1);
    }
  }

  /** A text file that looks the same at all probes and reads of a call is read at once. */
  lemma {:induction false} StillFileIsRead(decode: Bytes -> Option<Text>, path: Path, log: seq<Event>, m: Metadata, bytes: Bytes)
    requires |bytes| == m.stats.size <= 262144 && decode(bytes).Some?
    requires forall e :: e in log && e.Probe? ==> e.answer == Ok(m)
    requires forall e :: e in log && e.Read? ==> e.bytes == Ok(bytes)
    requires Uncached(decode, path, log).Some?
    ensures Uncached(decode, path, log) == Some(Document(Cached(m.realPath, m.stats, decode(bytes).value, Sha256(bytes))))
    ensures |log| == 3
  {
    assert log[0] in log;
    var rest := log[1..];
    assert Attempts(decode, path, m, rest, 0).Some?;
    assert rest[0] == log[1] && log[1] in log;
    assert rest[1] == log[2] && log[2] in log;
  }

  // ---- Files that change, and reads that fail. ----

  /** What an attempt reads, and what the probe after it says. */
  datatype Try = Try(bytes: Bytes, after: Metadata)

  function MetadataAfter(m: Metadata, tries: seq<Try>): Metadata {
    if tries == [] then m else tries[|tries| - 1].after
  }

  function Seen(path: Path, m: Metadata, tries: seq<Try>): seq<Event> {
    if tries == [] then [Probe(path, Ok(m))]
    else
      var init, last := tries[..|tries| - 1], tries[|tries| - 1];
      Seen(path, m, init) + [Read(MetadataAfter(m, init).realPath, Ok(last.bytes))] + [Probe(path, Ok(last.after))]
  }

  /** Within the limit, but not of the size that the probe before it said, or with another answer of
      the probe after it. */
  predicate Unsettled(before: Metadata, attempt: Try) {
    && before.stats.size <= 262144 && |attempt.bytes| <= 262144
    && (attempt.after != before || before.stats.size != |attempt.bytes|)
  }

  ghost predicate AllUnsettled(m: Metadata, tries: seq<Try>) {
    forall i :: 0 <= i < |tries| ==> Unsettled(MetadataAfter(m, tries[..i]), tries[i])
  }

  lemma {:induction false} GoesOn(decode: Bytes -> Option<Text>, path: Path, m: Metadata, tries: seq<Try>)
    requires AllUnsettled(m, tries) && |tries| <= 3
    ensures Continues(decode, path, Seen(path, m, tries), MetadataAfter(m, tries), |tries|)
  {
    if tries == [] {
      FirstAttempt(decode, path, Seen(path, m, []), m);
    } else {
      var init, last := tries[..|tries| - 1], tries[|tries| - 1];
      forall i | 0 <= i < |init| ensures Unsettled(MetadataAfter(m, init[..i]), init[i]) {
        assert init[..i] == tries[..i];
      }
      GoesOn(decode, path, m, init);
      assert Unsettled(MetadataAfter(m, init), last);
      NextAttempt(decode, path, Seen(path, m, init), MetadataAfter(m, init), |init|, last.bytes, last.after);
    }
  }

  /** A text file that changes during at most two attempts and then stays the same for one is read. */
  lemma {:induction false} SettlesAndIsRead(decode: Bytes -> Option<Text>, path: Path, m: Metadata, tries: seq<Try>, bytes: Bytes)
    requires AllUnsettled(m, tries) && |tries| <= 2
    requires |bytes| == MetadataAfter(m, tries).stats.size <= 262144 && decode(bytes).Some?
    ensures var still := MetadataAfter(m, tries);
            Uncached(decode, path, Seen(path, m, tries + [Try(bytes, still)]))
            == Some(Document(Cached(still.realPath, still.stats, decode(bytes).value, Sha256(bytes))))
  {
    var still := MetadataAfter(m, tries);
    var more := [Read(still.realPath, Ok(bytes))] + [Probe(path, Ok(still))];
    GoesOn(decode, path, m, tries);
    Stops(decode, path, Seen(path, m, tries), still, |tries|, more);
    assert (tries + [Try(bytes, still)])[..|tries|] == tries;
    assert Seen(path, m, tries + [Try(bytes, still)]) == Seen(path, m, tries) + more;
  }

  /** One that changes during three attempts is given up. */
  lemma {:induction false} NeverSettles(decode: Bytes -> Option<Text>, path: Path, m: Metadata, tries: seq<Try>)
    requires AllUnsettled(m, tries) && |tries| == 3
    ensures Uncached(decode, path, Seen(path, m, tries)) == Some(Threw(Instructions(ChangedDuringRead)))
  {
    GoesOn(decode, path, m, tries);
    Stops(decode, path, Seen(path, m, tries), MetadataAfter(m, tries), 3, []);
    assert Seen(path, m, tries) + [] == Seen(path, m, tries);
  }

  /** A failed look that is not the first: a file that is gone has changed, another errno makes it
      inaccessible, and errors of the service itself stay what they are. */
  predicate Mapped(cause: Failure, failure: Failure) {
    match cause
    case Missing => failure == Instructions(ChangedDuringRead)
    case Errno(_) => failure == Instructions(Inaccessible)
    case Instructions(_) => failure == cause
  }

  /** What the last event of a failed call must have been. */
  ghost predicate FailsBy(decode: Bytes -> Option<Text>, path: Path, log: seq<Event>, failure: Failure) {
    log != [] &&
    match log[|log| - 1]
    case Read(_, bytes) =>
      if bytes.Err? then Mapped(bytes.error, failure) else failure == Instructions(TooLarge) && |bytes.value| > 262144
    case Probe(_, answer) =>
      if answer.Err? then (if |log| == 1 then failure == answer.error && failure != Missing else Mapped(answer.error, failure))
      else
        || (failure == Instructions(TooLarge) && answer.value.stats.size > 262144 && |log| < 7)
        || (failure == Instructions(ChangedDuringRead) && |log| == 7)
        || (failure == Instructions(BinaryUnsupported) && EndsWithBinary(decode, path, log))
  }

  ghost predicate EndsWithBinary(decode: Bytes -> Option<Text>, path: Path, log: seq<Event>) {
    exists m, bytes :: EndsBracketed(log, path, m, bytes) && decode(bytes).None?
  }

  lemma {:induction false} AttemptsFailBy(decode: Bytes -> Option<Text>, path: Path, m: Metadata, seen: seq<Event>, log: seq<Event>, attempt: nat, failure: Failure)
    requires seen != [] && seen[|seen| - 1] == Probe(path, Ok(m)) && |seen| == 1 + 2 * attempt && attempt <= 3
    requires Attempts(decode, path, m, log, attempt) == Some(Threw(failure))
    ensures FailsBy(decode, path, seen + log, failure)
    decreases MAX_STABLE_READ_ATTEMPTS - attempt
  {
    if log == [] {
      assert seen + log == seen;
    } else if |log| >= 2 && log[1].Probe? && log[1].answer.Ok? {
      var after := log[1].answer.value;
      if after == m && m.stats.size == |log[0].bytes.value| {
        assert EndsBracketed(seen + log, path, m, log[0].bytes.value);
      } else {
        AttemptsFailBy(decode, path, after, seen + log[..2], log[2..], attempt + 1, failure);
        assert seen + log[..2] + log[2..] == seen + log;
      }
    }
  }

  /** Why a call fails, by the last thing it saw: a failed first probe is thrown as it is; a failed
      read or later probe is mapped; otherwise a size is over the limit, the bytes of a stable
      read are not text, or all three attempts are used up. */
  lemma {:induction false} FailureMeans(decode: Bytes -> Option<Text>, path: Path, log: seq<Event>, failure: Failure)
    requires Uncached(decode, path, log) == Some(Threw(failure))
    ensures FailsBy(decode, path, log, failure)
  {
    if log[0].answer.Ok? {
      AttemptsFailBy(decode, path, log[0].answer.value, [log[0]], log[1..], 0, failure);
      assert [log[0]] + log[1..] == log;
    }
  }
}

module InstructionsCode {
  import opened Utf16
  import opened Wrappers
  import opened StableRead

  /** One call's view of the disk, which may change in any way between two looks. The log says
      what the call has seen. */
  class Disk {
    ghost var log: seq<Event>

    constructor ()
      ensures log == []
    {
      log := [];
    }

    method InstructionFileMetadata(path: Path) returns (answer: Result<Metadata, Failure>)
      modifies this
      ensures log == old(log) + [Probe(path, answer)]
    {
      answer := *;
      log := log + [Probe(path, answer)];
    }

    method ReadFile(realPath: Path) returns (bytes: Result<Bytes, Failure>)
      modifies this
      ensures log == old(log) + [Read(realPath, bytes)]
    {
      bytes := *;
      log := log + [Read(realPath, bytes)];
    }
  }

  class InstructionsService {
    const decode: Bytes -> Option<Text>
    var fileCache: map<Path, Cached>

    /** Every cached content is the decoding of the bytes that its digest stands for. */
    ghost predicate Valid()
      reads this
    {
      forall path :: path in fileCache ==> decode(fileCache[path].sha256.of) == Some(fileCache[path].content)
    }

    constructor (decode: Bytes -> Option<Text>)
      ensures Valid() && this.decode == decode && fileCache == map[]
    {
      this.decode := decode;
      fileCache := map[];
    }

    /** Other calls of this service may run while this one waits; each of them keeps Valid. */
    method Others()
      requires Valid()
      modifies this
      ensures Valid()
    {
    }

    /** The read answers exactly what a reader without a cache would answer from what this call
        saw, whatever the cache held and whatever other calls do to it meanwhile. */
    method ReadInstructionFile(candidate: Path, disk: Disk) returns (r: Outcome)
      requires Valid() && disk.log == []
      modifies this, disk
      ensures Valid()
      ensures Uncached(decode, candidate, disk.log) == Some(r)
      ensures r.Absent? ==> candidate !in fileCache
      ensures r.Document? ==> candidate in fileCache && fileCache[candidate] == r.file
    {
      Others();
      var probed := disk.InstructionFileMetadata(candidate);
      if probed.Err? {
        if probed.error == Missing {
          fileCache := fileCache - {candidate};
          return Absent;
        }
        return Threw(probed.error);
      }
      var metadata := probed.value;
      var cached := if candidate in fileCache then Some(fileCache[candidate]) else None;
      var attempt := 0;
      FirstAttempt(decode, candidate, disk.log, metadata);
      while attempt < MAX_STABLE_READ_ATTEMPTS
        invariant Valid() && attempt <= MAX_STABLE_READ_ATTEMPTS
        invariant Honest(cached) && Continues(decode, candidate, disk.log, metadata, attempt)
      {
        var outcome;
        outcome, metadata := AttemptRead(candidate, disk, metadata, cached, attempt);
        if outcome.Some? {
          return outcome.value;
        }
        attempt := attempt + 1;
      }
      Stops(decode, candidate, disk.log, metadata, attempt, []);
      assert disk.log + [] == disk.log;
      return Threw(Instructions(ChangedDuringRead));
    }

    ghost predicate Honest(cached: Option<Cached>) {
      cached.Some? ==> decode(cached.value.sha256.of) == Some(cached.value.content)
    }

    /** One attempt between two probes; None when the file has changed meanwhile. */
    method AttemptRead(candidate: Path, disk: Disk, metadata: Metadata, cached: Option<Cached>, ghost attempt: nat)
        returns (r: Option<Outcome>, after: Metadata)
      requires Valid() && Honest(cached) && attempt < MAX_STABLE_READ_ATTEMPTS
      requires Continues(decode, candidate, disk.log, metadata, attempt)
      modifies this, disk
      ensures Valid()
      ensures if r.Some? then Uncached(decode, candidate, disk.log) == r else Continues(decode, candidate, disk.log, after, attempt + 1)
      ensures r.Some? ==> !r.value.Absent?
      ensures r.Some? && r.value.Document? ==> candidate in fileCache && fileCache[candidate] == r.value.file
    {
      after := metadata;
      ghost var before := disk.log;
      if metadata.stats.size > MAX_INSTRUCTION_BYTES {
        Stops(decode, candidate, before, metadata, attempt, []);
        assert before + [] == before;
        return Some(Threw(Instructions(TooLarge))), after;
      }
      Others();
      var buffer := disk.ReadFile(metadata.realPath);
      ghost var read := [Read(metadata.realPath, buffer)];
      if buffer.Err? {
        Stops(decode, candidate, before, metadata, attempt, read);
        return Some(Threw(MapReadError(buffer.error))), after;
      }
      if |buffer.value| > MAX_INSTRUCTION_BYTES {
        Stops(decode, candidate, before, metadata, attempt, read);
        return Some(Threw(Instructions(TooLarge))), after;
      }
      Others();
      var again := disk.InstructionFileMetadata(candidate);
      ghost var both := read + [Probe(candidate, again)];
      assert disk.log == before + both;
      Stops(decode, candidate, before, metadata, attempt, both);
      if again.Err? {
        return Some(Threw(MapReadError(again.error))), after;
      }
      after := again.value;
      if after.realPath != metadata.realPath || after.stats != metadata.stats || after.stats.size != |buffer.value| {
        NextAttempt(decode, candidate, before, metadata, attempt, buffer.value, after);
        return None, after;
      }
      var outcome := Keep(candidate, metadata, cached, buffer.value);
      return Some(outcome), after;
    }

    /** A stable read is decoded, unless the cached content is of the same bytes, and kept. */
    method Keep(candidate: Path, metadata: Metadata, cached: Option<Cached>, bytes: Bytes) returns (r: Outcome)
      requires Valid() && Honest(cached)
      modifies this
      ensures Valid() && r == Decoded(decode, metadata, bytes)
      ensures r.Document? ==> candidate in fileCache && fileCache[candidate] == r.file
    {
      var sha256 := Sha256(bytes);
      var content := if cached.Some? && cached.value.sha256 == sha256 then Some(cached.value.content) else decode(bytes);
      if content.None? {
        return Threw(Instructions(BinaryUnsupported));
      }
      var stable := Cached(metadata.realPath, metadata.stats, content.value, sha256);
      fileCache := fileCache[candidate := stable];
      return Document(stable);
    }
  }
}
