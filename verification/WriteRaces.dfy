/** Calls that compete for one target, and the progress of the queue they stand in. */
module WriteRaces {
  import opened Utf16
  import opened Wrappers
  import opened ExactPatch
  import opened ConditionalWrite

  // ---- Which content a commit replaces. ----

  /** The files change only through the service. */
  ghost predicate NoExternal(steps: seq<Step>) {
    forall step :: step in steps ==> !step.External?
  }

  lemma {:induction false} ChainedAt(files: map<Target, File>, log: seq<Entry>, j: nat)
    requires Chained(files, log) && j < |log|
    ensures log[j].before == Content(files, log[..j], log[j].target)
  {
    if j < |log| - 1 {
      ChainedAt(files, log[..|log| - 1], j);
      assert log[..|log| - 1][..j] == log[..j];
    }
  }

  /** k is the last of the first n commits on its target. */
  ghost predicate LastOn(log: seq<Entry>, t: Target, k: nat, n: nat) {
    k < n <= |log| && log[k].target == t && forall m :: k < m < n ==> log[m].target != t
  }

  lemma {:induction false} LastLeaves(files: map<Target, File>, log: seq<Entry>, t: Target, i: nat) returns (k: nat)
    requires i < |log| && log[i].target == t
    ensures i <= k && LastOn(log, t, k, |log|) && Content(files, log, t) == Regular(log[k].after)
  {
    var n := |log| - 1;
    if log[n].target == t {
      k := n;
    } else {
      k := LastLeaves(files, log[..n], t, i);
    }
  }

  /** The commit before a commit on the same target: it left what the later one replaced. */
  lemma {:induction false} CommitBefore(files: map<Target, File>, log: seq<Entry>, i: nat, j: nat) returns (k: nat)
    requires Chained(files, log) && i < j < |log| && log[i].target == log[j].target
    ensures i <= k && LastOn(log, log[j].target, k, j) && log[j].before == Regular(log[k].after)
  {
    ChainedAt(files, log, j);
    k := LastLeaves(files, log[..j], log[j].target, i);
  }

  /** From a commit that leaves another content on, and as long as none makes this content, every
      commit on the target replaces something else, and something else is what it holds. */
  lemma {:induction false} OneLocksOut(files: map<Target, File>, log: seq<Entry>, t: Target, base: Bytes, i: nat)
    requires Chained(files, log) && i < |log| && log[i].target == t
    requires forall k :: i <= k < |log| && log[k].target == t ==> log[k].after != base
    ensures forall j :: i < j < |log| && log[j].target == t ==> log[j].before != Regular(base)
    ensures Content(files, log, t).Regular? && Content(files, log, t).content != base
  {
    forall j | i < j < |log| && log[j].target == t ensures log[j].before != Regular(base) {
      var k := CommitBefore(files, log, i, j);
    }
    var k := LastLeaves(files, log, t, i);
  }

  /** This content is what the last commit on the target before j left. */
  ghost predicate BaseIsBack(log: seq<Entry>, t: Target, base: Bytes, i: nat, j: nat) {
    exists k :: i <= k && LastOn(log, t, k, j) && log[k].after == base
  }

  lemma {:induction false} BackIff(files: map<Target, File>, log: seq<Entry>, base: Bytes, i: nat, j: nat)
    requires Chained(files, log) && i < j < |log| && log[i].target == log[j].target
    ensures log[j].before == Regular(base) <==> BaseIsBack(log, log[j].target, base, i, j)
  {
    var k := CommitBefore(files, log, i, j);
    if BaseIsBack(log, log[j].target, base, i, j) {
      var m :| i <= m && LastOn(log, log[j].target, m, j) && log[m].after == base;
      assert m == k;
    }
  }

  /** Some commit on the target between the two left this content. */
  ghost predicate BackBetween(log: seq<Entry>, t: Target, base: Bytes, i: nat, j: nat) {
    exists k :: i < k < j && k < |log| && log[k].target == t && log[k].after == base
  }

  lemma {:induction false} BackIsBetween(log: seq<Entry>, t: Target, base: Bytes, i: nat, j: nat)
    requires i < |log| && BaseIsBack(log, t, base, i, j) && log[i].after != base
    ensures BackBetween(log, t, base, i, j)
  {
    var k :| i <= k && LastOn(log, t, k, j) && log[k].after == base;
    assert i < k < j && k < |log|;
  }

  /** When the files change only through the service: of two commits on one target, the later one
      replaced a content iff the last commit before it had left that content. So a call that
      demands it can follow a commit that left another one only if some commit between the two
      has written it back. No other call on the target is restricted. */
  lemma {:induction false} BaseComesBack(codec: Codec, w: World, steps: seq<Step>, i: nat, j: nat, base: Bytes)
    requires Initial(w) && NoExternal(steps)
    requires var v := Run(codec, w, steps); i < j < |v.log| && v.log[i].target == v.log[j].target
    ensures var v := Run(codec, w, steps);
            v.log[j].before == Regular(base) <==> BaseIsBack(v.log, v.log[j].target, base, i, j)
    ensures var v := Run(codec, w, steps);
            && v.log[j].call < |v.calls|
            && (Guard(v.calls[v.log[j].call].request) == Matching(Sha256(base)) && v.log[i].after != base ==>
                  BackBetween(v.log, v.log[j].target, base, i, j))
  {
    var v := Run(codec, w, steps);
    Serializable(codec, w, steps);
    BackIff(w.files, v.log, base, i, j);
    assert Justified(codec, v, v.log[j]);
    if Guard(v.calls[v.log[j].call].request) == Matching(Sha256(base)) && v.log[i].after != base {
      BackIsBetween(v.log, v.log[j].target, base, i, j);
    }
  }

  // ---- Calls that race. ----

  /** Calls on the target that expect this content and do not produce it. */
  ghost predicate Racing(codec: Codec, calls: seq<Call>, t: Target, base: Bytes, racers: set<CallId>) {
    forall c :: c in racers ==>
                  && c < |calls| && calls[c].target == t
                  && Guard(calls[c].request) == Matching(Sha256(base)) && Payload(codec, calls[c].request) != Some(base)
  }

  /** No call on the target that entered between two of them produces it. */
  ghost predicate NoneRestores(codec: Codec, calls: seq<Call>, t: Target, base: Bytes, racers: set<CallId>) {
    forall c, d, e :: c in racers && d in racers && c < e < d && e < |calls| && calls[e].target == t ==>
                        Payload(codec, calls[e].request) != Some(base)
  }

  lemma {:induction false} RestoredBetween(codec: Codec, w: World, steps: seq<Step>, t: Target, base: Bytes, racers: set<CallId>, i: nat, j: nat)
    requires Initial(w) && NoExternal(steps)
    requires var v := Run(codec, w, steps);
             && Racing(codec, v.calls, t, base, racers)
             && i < j < |v.log| && v.log[i].call in racers && v.log[j].call in racers
    ensures !NoneRestores(codec, Run(codec, w, steps).calls, t, base, racers)
  {
    var v := Run(codec, w, steps);
    Serializable(codec, w, steps);
    assert Justified(codec, v, v.log[i]) && Justified(codec, v, v.log[j]);
    BaseComesBack(codec, w, steps, i, j, base);
    var k :| i < k < j && k < |v.log| && v.log[k].target == t && v.log[k].after == base;
    assert Justified(codec, v, v.log[k]);
    assert v.log[i].call < v.log[k].call < v.log[j].call;
  }

  /** Among any calls on a target that expect the same content and do not produce it, at most one
      succeeds, unless a call on the target that entered between two of them produces it.
      Whatever came before them or comes between them may have written anything else. */
  lemma {:induction false} AtMostOneWins(codec: Codec, w: World, steps: seq<Step>, t: Target, base: Bytes, racers: set<CallId>, c: CallId, d: CallId)
    requires Initial(w) && NoExternal(steps)
    requires var v := Run(codec, w, steps);
             && Racing(codec, v.calls, t, base, racers) && NoneRestores(codec, v.calls, t, base, racers)
             && c in racers && d in racers && v.calls[c].point.Done? && v.calls[d].point.Done?
    ensures c == d
  {
    var v := Run(codec, w, steps);
    ReturnsIffCommitted(codec, w, steps, c);
    ReturnsIffCommitted(codec, w, steps, d);
    var i :| 0 <= i < |v.log| && v.log[i].call == c;
    var j :| 0 <= j < |v.log| && v.log[j].call == d;
    if i < j {
      RestoredBetween(codec, w, steps, t, base, racers, i, j);
    } else if j < i {
      RestoredBetween(codec, w, steps, t, base, racers, j, i);
    }
  }

  // ---- The condition is needed. ----

  lemma {:induction false} RunConcat(codec: Codec, w: World, steps: seq<Step>, more: seq<Step>)
    ensures Run(codec, w, steps + more) == Run(codec, Run(codec, w, steps), more)
  {
    if more == [] {
      assert steps + more == steps;
    } else {
      var init := more[..|more| - 1];
      assert (steps + more)[..|steps + more| - 1] == steps + init;
      RunConcat(codec, w, steps, init);
    }
  }

  /** The steps of one write that nobody disturbs. */
  function WriteSteps(c: CallId, t: Target, content: Bytes, expected: Expected): seq<Step> {
    [Enqueue(t, Write(content, expected))] + [Advance(c), Advance(c), Advance(c)] + [Advance(c), Advance(c), Advance(c)]
  }

  /** What a call that nobody disturbs makes of the world when it puts this content into its target. */
  function Performed(w: World, t: Target, request: Request, content: Bytes, expected: Expected): World {
    var c, file := |w.calls|, At(w.files, t);
    World(w.files[t := Regular(content)],
          if expected == Absent then w.temps[c := content] else w.temps[c := content] - {c},
          w.tails[t := c],
          w.calls + [Call(t, request, if t in w.tails then Some(w.tails[t]) else None, Done(content, file))],
          w.log + [Entry(c, t, file, content)])
  }

  function Wrote(w: World, t: Target, content: Bytes, expected: Expected): World {
    Performed(w, t, Write(content, expected), content, expected)
  }

  lemma {:induction false} RunThree(codec: Codec, w: World, a: Step, b: Step, c: Step)
    ensures Run(codec, w, [a, b, c]) == Apply(codec, Apply(codec, Apply(codec, w, a), b), c)
  {
    RunAppend(codec, w, [a, b], c);
    RunAppend(codec, w, [a], b);
    RunAppend(codec, w, [], a);
    assert [a, b] + [c] == [a, b, c] && [a] + [b] == [a, b] && [] + [a] == [a];
    assert Run(codec, w, []) == w;
  }

  /** With this call at this point, and this temporary file. */
  function With(w: World, call: Call, point: Point, temps: map<CallId, Bytes>): World {
    w.(calls := w.calls + [call.(point := point)], tails := w.tails[call.target := |w.calls|], temps := temps)
  }

  /** One step of the call that entered last. */
  lemma {:induction false} LastAdvances(codec: Codec, w: World, call: Call, point: Point, temps: map<CallId, Bytes>, next: Point, after: map<CallId, Bytes>)
    requires !point.Commit? && NextPoint(codec, With(w, call, point, temps), call.(point := point)) == next
    requires NextTemps(With(w, call, point, temps), |w.calls|) == after
    ensures Apply(codec, With(w, call, point, temps), Advance(|w.calls|)) == With(w, call, next, after)
  {
    var u := With(w, call, point, temps);
    assert u.calls[|w.calls|] == call.(point := point);
    assert u.calls[|w.calls| := call.(point := next)] == w.calls + [call.(point := next)];
  }

  lemma {:induction false} LastCommits(codec: Codec, w: World, call: Call, content: Bytes, expected: Expected)
    requires call.predecessor == (if call.target in w.tails then Some(w.tails[call.target]) else None)
    requires Admits(expected, At(w.files, call.target))
    ensures Apply(codec, With(w, call, Commit(content, expected, At(w.files, call.target)), w.temps[|w.calls| := content]), Advance(|w.calls|))
         == Performed(w, call.target, call.request, content, expected)
  {
    var c := |w.calls|;
    var file := At(w.files, call.target);
    var u := With(w, call, Commit(content, expected, file), w.temps[c := content]);
    assert u.calls[c] == call.(point := Commit(content, expected, file));
    assert u.calls[c := call.(point := Done(content, file))] == w.calls + [call.(point := Done(content, file))];
    assert call.(point := Done(content, file)) == Call(call.target, call.request, call.predecessor, Done(content, file));
  }

  lemma {:induction false} WriteBegins(codec: Codec, w: World, call: Call, content: Bytes, expected: Expected)
    requires call.request == Write(content, expected) && Admits(expected, At(w.files, call.target))
    requires call.predecessor.Some? ==> call.predecessor.value < |w.calls| && Settled(w.calls[call.predecessor.value].point)
    ensures Run(codec, With(w, call, Queued, w.temps), [Advance(|w.calls|), Advance(|w.calls|), Advance(|w.calls|)])
         == With(w, call, Staging(content, expected), w.temps[|w.calls| := []])
  {
    var c := |w.calls|;
    RunThree(codec, With(w, call, Queued, w.temps), Advance(c), Advance(c), Advance(c));
    LastAdvances(codec, w, call, Queued, w.temps, Inspect(content, expected), w.temps);
    LastAdvances(codec, w, call, Inspect(content, expected), w.temps, OpenTemp(content, expected), w.temps);
    LastAdvances(codec, w, call, OpenTemp(content, expected), w.temps, Staging(content, expected), w.temps[c := []]);
  }

  lemma {:induction false} WriteEnds(codec: Codec, w: World, call: Call, content: Bytes, expected: Expected)
    requires Admits(expected, At(w.files, call.target))
    requires call.predecessor == (if call.target in w.tails then Some(w.tails[call.target]) else None)
    ensures Run(codec, With(w, call, Staging(content, expected), w.temps[|w.calls| := []]), [Advance(|w.calls|), Advance(|w.calls|), Advance(|w.calls|)])
         == Performed(w, call.target, call.request, content, expected)
  {
    var c := |w.calls|;
    var empty, full := w.temps[c := []], w.temps[c := content];
    assert empty[c := content] == full;
    RunThree(codec, With(w, call, Staging(content, expected), empty), Advance(c), Advance(c), Advance(c));
    LastAdvances(codec, w, call, Staging(content, expected), empty, Recheck(content, expected), full);
    LastAdvances(codec, w, call, Recheck(content, expected), full, Commit(content, expected, At(w.files, call.target)), full);
    LastCommits(codec, w, call, content, expected);
  }

  /** A write that nobody disturbs and whose precondition holds commits. */
  lemma {:induction false} UndisturbedWrites(codec: Codec, w: World, t: Target, content: Bytes, expected: Expected)
    requires Admits(expected, At(w.files, t))
    requires t in w.tails ==> w.tails[t] < |w.calls| && Settled(w.calls[w.tails[t]].point)
    ensures Run(codec, w, WriteSteps(|w.calls|, t, content, expected)) == Wrote(w, t, content, expected)
  {
    var c := |w.calls|;
    var call := Call(t, Write(content, expected), if t in w.tails then Some(w.tails[t]) else None, Queued);
    var enter, three := [Enqueue(t, Write(content, expected))], [Advance(c), Advance(c), Advance(c)];
    RunAppend(codec, w, [], enter[0]);
    assert [] + enter == enter && Run(codec, w, []) == w;
    assert Run(codec, w, enter) == With(w, call, Queued, w.temps);
    RunConcat(codec, w, enter, three);
    WriteBegins(codec, w, call, content, expected);
    RunConcat(codec, w, enter + three, three);
    WriteEnds(codec, w, call, content, expected);
  }

  const OLD: Bytes := [1]
  const FIRST: Bytes := [2]
  const SECOND: Bytes := [3]

  function OldFile(): World {
    World(map[0 := Regular(OLD)], map[], map[], [], [])
  }

  const ON_OLD: Expected := Matching(Sha256(OLD))

  /** One write over the old content, one that writes it back, and one over it again. */
  function ThreeWrites(): World {
    Wrote(Wrote(Wrote(OldFile(), 0, FIRST, ON_OLD), 0, OLD, Anything), 0, SECOND, ON_OLD)
  }

  ghost predicate MayWrite(w: World, t: Target, expected: Expected) {
    && Admits(expected, At(w.files, t))
    && (t in w.tails ==> w.tails[t] < |w.calls| && Settled(w.calls[w.tails[t]].point))
  }

  lemma {:induction false} MayWriteAgain(w: World, t: Target, content: Bytes, expected: Expected)
    ensures MayWrite(Wrote(w, t, content, expected), t, Anything)
    ensures MayWrite(Wrote(w, t, content, expected), t, Matching(Sha256(content)))
  {
  }

  /** A run goes on with one more undisturbed write. */
  lemma {:induction false} ThenWrites(codec: Codec, start: World, steps: seq<Step>, w: World, t: Target, content: Bytes, expected: Expected)
      returns (more: seq<Step>)
    requires Run(codec, start, steps) == w && NoExternal(steps) && MayWrite(w, t, expected)
    ensures Run(codec, start, more) == Wrote(w, t, content, expected) && NoExternal(more)
  {
    UndisturbedWrites(codec, w, t, content, expected);
    more := steps + WriteSteps(|w.calls|, t, content, expected);
    RunConcat(codec, start, steps, WriteSteps(|w.calls|, t, content, expected));
  }

  lemma {:induction false} ThreeWritesRun(codec: Codec) returns (steps: seq<Step>)
    ensures Run(codec, OldFile(), steps) == ThreeWrites() && NoExternal(steps)
  {
    var w := OldFile();
    var w1 := Wrote(w, 0, FIRST, ON_OLD);
    var w2 := Wrote(w1, 0, OLD, Anything);
    assert Run(codec, w, []) == w && MayWrite(w, 0, ON_OLD);
    steps := ThenWrites(codec, w, [], w, 0, FIRST, ON_OLD);
    MayWriteAgain(w, 0, FIRST, ON_OLD);
    steps := ThenWrites(codec, w, steps, w1, 0, OLD, Anything);
    MayWriteAgain(w1, 0, OLD, Anything);
    steps := ThenWrites(codec, w, steps, w2, 0, SECOND, ON_OLD);
  }

  lemma {:induction false} ThreeWritesRace(codec: Codec)
    ensures Racing(codec, ThreeWrites().calls, 0, OLD, {0, 2}) && !NoneRestores(codec, ThreeWrites().calls, 0, OLD, {0, 2})
  {
    var calls := ThreeWrites().calls;
    assert |calls| == 3 && calls[1].target == 0 && calls[1].request == Write(OLD, Anything);
    assert Payload(codec, calls[1].request) == Some(OLD);
    assert 0 in {0, 2} && 2 in {0, 2} && 0 < 1 < 2;
  }

  /** Two writes that expect the old content and do not make it both succeed when a third one, in
      between, writes it back: there the condition of AtMostOneWins fails. */
  lemma {:induction false} BothWin(codec: Codec) returns (steps: seq<Step>)
    ensures Initial(OldFile()) && NoExternal(steps)
    ensures var v := Run(codec, OldFile(), steps);
            && |v.calls| == 3 && v.calls[0].point.Done? && v.calls[2].point.Done?
            && Racing(codec, v.calls, 0, OLD, {0, 2}) && !NoneRestores(codec, v.calls, 0, OLD, {0, 2})
  {
    steps := ThreeWritesRun(codec);
    ThreeWritesRace(codec);
  }

  // ---- The queue drains. ----

  lemma {:induction false} RunKeepsQueue(codec: Codec, w: World, steps: seq<Step>)
    requires QueueInv(w)
    ensures QueueInv(Run(codec, w, steps))
  {
    if steps != [] {
      RunKeepsQueue(codec, w, steps[..|steps| - 1]);
      StepKeepsQueue(codec, Run(codec, w, steps[..|steps| - 1]), steps[|steps| - 1]);
    }
  }

  /** A step of a call on the target that entered no later than c. */
  predicate UpTo(calls: seq<Call>, t: Target, c: CallId, step: Step) {
    step.Advance? && step.c <= c && step.c < |calls| && calls[step.c].target == t
  }

  /** The calls stay who they are, and those behind c stay where they are. */
  ghost predicate SameBehind(a: seq<Call>, b: seq<Call>, c: CallId) {
    && |b| == |a|
    && (forall d :: 0 <= d < |a| ==> b[d].target == a[d].target && b[d].request == a[d].request && b[d].predecessor == a[d].predecessor)
    && (forall d :: c < d < |a| ==> b[d] == a[d])
    && (forall d :: 0 <= d < |a| && Settled(a[d].point) ==> Settled(b[d].point))
  }

  lemma {:induction false} AdvanceBehind(codec: Codec, w: World, c: CallId)
    requires c < |w.calls|
    ensures SameBehind(w.calls, Apply(codec, w, Advance(c)).calls, c)
  {
  }

  /** A call that may run gets to its end by its own steps. */
  lemma {:induction false} CallEnds(codec: Codec, w: World, c: CallId) returns (more: seq<Step>)
    requires c < |w.calls| && (Begun(w.calls[c].point) || MayBegin(w.calls, w.calls[c]))
    ensures forall step :: step in more ==> step == Advance(c)
    ensures SameBehind(w.calls, Run(codec, w, more).calls, c) && Settled(Run(codec, w, more).calls[c].point)
    decreases StepsLeft(w.calls[c].point)
  {
    if Settled(w.calls[c].point) {
      more := [];
    } else {
      NeverBlocked(codec, w, c);
      AdvanceBehind(codec, w, c);
      var u := Apply(codec, w, Advance(c));
      BegunNow(codec, w, c);
      var rest := CallEnds(codec, u, c);
      more := [Advance(c)] + rest;
      RunConcat(codec, w, [Advance(c)], rest);
      RunOne(codec, w, Advance(c));
    }
  }

  lemma {:induction false} RunOne(codec: Codec, w: World, step: Step)
    ensures Run(codec, w, [step]) == Apply(codec, w, step)
  {
    RunAppend(codec, w, [], step);
    assert [] + [step] == [step] && Run(codec, w, []) == w;
  }

  lemma {:induction false} BegunNow(codec: Codec, w: World, c: CallId)
    requires c < |w.calls| && (Begun(w.calls[c].point) || MayBegin(w.calls, w.calls[c]))
    ensures Begun(Apply(codec, w, Advance(c)).calls[c].point)
  {
  }

  /** Steps of the calls on its target, up to itself, bring any call to its end: first those of its
      predecessor, then its own. */
  lemma {:induction false} CallDrains(codec: Codec, w: World, c: CallId) returns (more: seq<Step>)
    requires QueueInv(w) && c < |w.calls|
    ensures forall step :: step in more ==> UpTo(w.calls, w.calls[c].target, c, step)
    ensures SameBehind(w.calls, Run(codec, w, more).calls, c) && Settled(Run(codec, w, more).calls[c].point)
    decreases c
  {
    if Begun(w.calls[c].point) || MayBegin(w.calls, w.calls[c]) {
      more := CallEnds(codec, w, c);
    } else {
      var p := w.calls[c].predecessor.value;
      assert LatestOn(w.calls, w.calls[c].target, p, c);
      var first := CallDrains(codec, w, p);
      var u := Run(codec, w, first);
      assert MayBegin(u.calls, u.calls[c]);
      var own := CallEnds(codec, u, c);
      more := first + own;
      RunConcat(codec, w, first, own);
    }
  }

  /** No call is stuck: from every reachable state, whatever failed, crashed or was changed
      before, steps of calls on its target numbered up to it settle it. */
  lemma {:induction false} QueueDrains(codec: Codec, w: World, steps: seq<Step>, c: CallId) returns (more: seq<Step>)
    requires Initial(w) && c < |Run(codec, w, steps).calls|
    ensures var v := Run(codec, w, steps);
            && (forall step :: step in more ==> UpTo(v.calls, v.calls[c].target, c, step))
            && c < |Run(codec, v, more).calls| && Settled(Run(codec, v, more).calls[c].point)
  {
    RunKeeps(codec, w, steps);
    more := CallDrains(codec, Run(codec, w, steps), c);
  }
}
