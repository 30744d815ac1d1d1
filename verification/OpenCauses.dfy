/** Why an open ends as it does: in every run, whatever all the others do, each error of an open is
    explained by states that it has met, or by a call that failed, and each result by a directory
    that was there. */
module OpenCauses {
  import opened Wrappers
  import opened WorkspaceTables
  import opened WorktreeProtocol
  import opened WorktreeSafety
  import opened OpenCases

  /** What a state may show of one key and its target. */
  datatype Cause =
    | RowRetired
    | DirectoryLost
    | DirectoryStands
    | TargetDenied
    | TargetExists
    | TargetUnresolved
    | ResolvesTo(canonical: Path)
    | DirectoryIs(canonical: Path, identity: Identity)
    | NoDirectory(canonical: Path)
    | NoOwnRecord(canonical: Path)
    | BranchTaken
    | Intended
    | NotIntended
    | Clash(candidate: WorkspaceId, canonical: Path, identity: Identity)

  ghost predicate Holds(w: World, key: Key, root: nat, cause: Cause) {
    var target := Managed(root, key);
    match cause
    case RowRetired => key in w.tables.managed && w.tables.managed[key].status == CleanupRequired
    case DirectoryLost =>
      && key in w.tables.managed && w.tables.managed[key].workspace in w.tables.registry
      && var ws := w.tables.registry[w.tables.managed[key].workspace];
         !Stands(w.nodes, ws.canonical, ws.identity)
    case DirectoryStands =>
      && key in w.tables.managed && w.tables.managed[key].workspace in w.tables.registry
      && var ws := w.tables.registry[w.tables.managed[key].workspace];
         Stands(w.nodes, ws.canonical, ws.identity)
    case TargetDenied => target in w.nodes && w.nodes[target] == Denied
    case TargetExists => target in w.nodes
    case TargetUnresolved => !(target in w.nodes && w.nodes[target].Real?)
    case ResolvesTo(canonical) => target in w.nodes && w.nodes[target].Real? && w.nodes[target].canonical == canonical
    case DirectoryIs(canonical, identity) => Stands(w.nodes, canonical, identity)
    case NoDirectory(canonical) => forall identity :: !Stands(w.nodes, canonical, identity)
    case NoOwnRecord(canonical) => forall record :: !OwnRecord(w, key, canonical, record)
    case BranchTaken => key in w.branches
    case Intended => Entered(w.tables.journal, key, CreateIntent)
    case NotIntended => !Entered(w.tables.journal, key, CreateIntent)
    case Clash(candidate, canonical, identity) => key in w.tables.managed || Clashes(w.tables, candidate, canonical, identity)
  }

  /** The error of an open, by what was met, whether one of its calls failed, and the id it drew. */
  ghost predicate Explained(met: Cause -> bool, broke: bool, candidate: WorkspaceId, error: Error) {
    match error
    case CleanupIsRequired => met(RowRetired) || met(DirectoryLost) || (met(BranchTaken) && met(Intended))
    case PathOccupied => met(TargetExists) && Unowned(met)
    case BranchOccupied => met(BranchTaken) && met(NotIntended)
    case PathInaccessible => met(TargetDenied)
    case CreateRejected => broke || met(BranchTaken) || met(TargetExists)
    case Infrastructure => broke || met(TargetUnresolved) || Unregistered(met, candidate)
  }

  /** The registered directory of the key's row was there, or the target resolved to one. */
  ghost predicate Stood(met: Cause -> bool) {
    || met(DirectoryStands)
    || exists canonical, identity :: met(ResolvesTo(canonical)) && met(DirectoryIs(canonical, identity))
  }

  /** The target was not the key's own worktree. */
  ghost predicate Unowned(met: Cause -> bool) {
    || met(NotIntended) || met(TargetUnresolved)
    || exists canonical :: met(ResolvesTo(canonical)) && met(NoOwnRecord(canonical))
  }

  /** The target was no directory, or a row stood in the way of its registration. */
  ghost predicate Unregistered(met: Cause -> bool, candidate: WorkspaceId) {
    || (exists canonical :: met(ResolvesTo(canonical)) && met(NoDirectory(canonical)))
    || (exists canonical, identity ::
          met(ResolvesTo(canonical)) && met(DirectoryIs(canonical, identity)) && met(Clash(candidate, canonical, identity)))
  }

  // ---- What an opener has met when it comes to a point. ----

  ghost predicate CalledFrom(met: Cause -> bool, caller: Caller, git: Git) {
    match caller
    case Probing => met(TargetExists)
    case AfterFailure => git.Broken?
    case Waiting(_) => met(BranchTaken) && met(Intended)
  }

  ghost predicate Knows(met: Cause -> bool, me: Opener, broke: bool, candidate: WorkspaceId) {
    && (me.git.Broken? ==> broke || met(BranchTaken) || met(TargetExists))
    && (match me.point
        case MarkCleanup(_) => met(DirectoryLost)
        case Touch(_) => met(DirectoryStands)
        case ReadBack(_) => Stood(met)
        case Done(_) => Stood(met)
        case CheckIntent(_) => met(BranchTaken)
        case CheckFailed => met(BranchTaken) && met(Intended)
        case CheckCleanup => met(BranchTaken) && met(Intended)
        case WaitCheckFailed(_) => met(BranchTaken) && met(Intended)
        case WaitCheckCleanup(_) => met(BranchTaken) && met(Intended)
        case OrphanCheck => met(BranchTaken) && met(Intended)
        case OrphanAppend => met(BranchTaken) && met(Intended)
        case FindIntent(caller) => CalledFrom(met, caller, me.git)
        case Canonicalize(caller) => CalledFrom(met, caller, me.git)
        case ListWorktrees(caller, canonical) => CalledFrom(met, caller, me.git) && met(ResolvesTo(canonical))
        case AppendFailed => me.git.Broken?
        case StatDirectory(_, canonical) => met(ResolvesTo(canonical))
        case RegisterRow(_, canonical, identity) => met(ResolvesTo(canonical)) && met(DirectoryIs(canonical, identity))
        case Failed(error) => Explained(met, broke, candidate, error)
        case _ => true)
  }

  /** What it has read of its workspace is what is registered. */
  ghost predicate Reading(t: Tables, me: Opener) {
    match me.point
    case ReadIdentity(id, canonical) => id in t.registry && t.registry[id].canonical == canonical
    case InspectPath(id, canonical, identity) =>
      id in t.registry && t.registry[id].canonical == canonical && t.registry[id].identity == identity
    case _ => true
  }

  lemma {:induction false} ReadingStays(t: Tables, u: Tables, me: Opener)
    requires Reading(t, me) && Extends(t, u)
    ensures Reading(u, me)
  {
  }

  /** All that was met, and all that this state shows. */
  ghost predicate MetMore(met: Cause -> bool, later: Cause -> bool, w: World, key: Key, root: nat) {
    forall cause :: met(cause) || Holds(w, key, root, cause) ==> later(cause)
  }

  lemma {:induction false} ShownNow(met: Cause -> bool, later: Cause -> bool, w: World, key: Key, root: nat, cause: Cause)
    requires MetMore(met, later, w, key, root) && Holds(w, key, root, cause)
    ensures later(cause)
  {
  }

  lemma {:induction false} KnowsMore(met: Cause -> bool, later: Cause -> bool, me: Opener, broke: bool, candidate: WorkspaceId)
    requires Knows(met, me, broke, candidate) && forall cause :: met(cause) ==> later(cause)
    ensures Knows(later, me, broke, candidate)
  {
    if me.point.Failed? {
      ExplainedMore(met, later, broke, candidate, me.point.error);
    }
  }

  lemma {:induction false} ExplainedMore(met: Cause -> bool, later: Cause -> bool, broke: bool, candidate: WorkspaceId, error: Error)
    requires Explained(met, broke, candidate, error) && forall cause :: met(cause) ==> later(cause)
    ensures Explained(later, broke, candidate, error)
  {
  }

  // ---- The statements of an open. ----

  /** After a statement at this point. */
  ghost predicate Moves(w: World, me: Opener, met: Cause -> bool, later: Cause -> bool, broke: bool, candidate: WorkspaceId) {
    && TablesInv(w.tables) && OpenerInv(w.tables, me) && Reading(w.tables, me)
    && Knows(met, me, broke, candidate) && MetMore(met, later, w, me.key, me.root)
  }

  function After(w: World, me: Opener, candidate: WorkspaceId): Opener {
    var (t, point, git) := Next(w, me, candidate);
    me.(point := point, git := git)
  }

  lemma {:induction false} RowMoves(w: World, me: Opener, met: Cause -> bool, later: Cause -> bool, broke: bool, candidate: WorkspaceId)
    requires Moves(w, me, met, later, broke, candidate)
    requires me.point.ReadRow? || me.point.ReadWorkspace? || me.point.ReadIdentity?
    ensures Knows(later, After(w, me, candidate), broke, candidate)
  {
    if me.point.ReadRow? && Holds(w, me.key, me.root, RowRetired) {
      ShownNow(met, later, w, me.key, me.root, RowRetired);
    }
  }

  lemma {:induction false} InspectMoves(w: World, me: Opener, met: Cause -> bool, later: Cause -> bool, broke: bool, candidate: WorkspaceId)
    requires Moves(w, me, met, later, broke, candidate) && me.point.InspectPath?
    ensures Knows(later, After(w, me, candidate), broke, candidate)
  {
    InspectIs(w.nodes, me.point.canonical, me.point.identity);
    ShownNow(met, later, w, me.key, me.root,
             if Stands(w.nodes, me.point.canonical, me.point.identity) then DirectoryStands else DirectoryLost);
  }

  lemma {:induction false} PathMoves(w: World, me: Opener, met: Cause -> bool, later: Cause -> bool, broke: bool, candidate: WorkspaceId)
    requires Moves(w, me, met, later, broke, candidate) && me.point.ProbePath?
    ensures Knows(later, After(w, me, candidate), broke, candidate)
  {
    if Holds(w, me.key, me.root, TargetDenied) { ShownNow(met, later, w, me.key, me.root, TargetDenied); }
    if Holds(w, me.key, me.root, TargetExists) { ShownNow(met, later, w, me.key, me.root, TargetExists); }
  }

  lemma {:induction false} BranchMoves(w: World, me: Opener, met: Cause -> bool, later: Cause -> bool, broke: bool, candidate: WorkspaceId)
    requires Moves(w, me, met, later, broke, candidate) && me.point.ProbeBranch?
    ensures Knows(later, After(w, me, candidate), broke, candidate)
  {
    if Holds(w, me.key, me.root, BranchTaken) { ShownNow(met, later, w, me.key, me.root, BranchTaken); }
  }

  lemma {:induction false} CheckMoves(w: World, me: Opener, met: Cause -> bool, later: Cause -> bool, broke: bool, candidate: WorkspaceId)
    requires Moves(w, me, met, later, broke, candidate) && me.point.CheckIntent?
    ensures Knows(later, After(w, me, candidate), broke, candidate)
  {
    EnteredIs(w.tables.journal, me.key);
    ShownNow(met, later, w, me.key, me.root, if HasIntent(w.tables.journal, me.key) then Intended else NotIntended);
  }

  /** Where the partial-worktree check returns without a worktree of its own. */
  lemma {:induction false} ReturnsKnow(me: Opener, later: Cause -> bool, caller: Caller, broke: bool, candidate: WorkspaceId)
    requires me.git.Broken? ==> broke || later(BranchTaken) || later(TargetExists)
    requires CalledFrom(later, caller, me.git) && Unowned(later)
    ensures Knows(later, me.(point := Unreconciled(caller)), broke, candidate)
  {
  }

  lemma {:induction false} IntentMoves(w: World, me: Opener, met: Cause -> bool, later: Cause -> bool, broke: bool, candidate: WorkspaceId)
    requires Moves(w, me, met, later, broke, candidate) && me.point.FindIntent?
    ensures Knows(later, After(w, me, candidate), broke, candidate)
  {
    EnteredIs(w.tables.journal, me.key);
    if Holds(w, me.key, me.root, NotIntended) {
      ShownNow(met, later, w, me.key, me.root, NotIntended);
      ReturnsKnow(me, later, me.point.caller, broke, candidate);
    }
  }

  lemma {:induction false} CanonicalMoves(w: World, me: Opener, met: Cause -> bool, later: Cause -> bool, broke: bool, candidate: WorkspaceId)
    requires Moves(w, me, met, later, broke, candidate) && me.point.Canonicalize?
    ensures Knows(later, After(w, me, candidate), broke, candidate)
  {
    var found := RealPath(w.nodes, me.Target());
    if found.Some? {
      ShownNow(met, later, w, me.key, me.root, ResolvesTo(found.value));
    } else {
      ShownNow(met, later, w, me.key, me.root, TargetUnresolved);
      ReturnsKnow(me, later, me.point.caller, broke, candidate);
    }
  }

  lemma {:induction false} ListMoves(w: World, me: Opener, met: Cause -> bool, later: Cause -> bool, broke: bool, candidate: WorkspaceId)
    requires Moves(w, me, met, later, broke, candidate) && me.point.ListWorktrees?
    ensures Knows(later, After(w, me, candidate), broke, candidate)
  {
    var expected := me.point.expected;
    if !Proven(w, me.key, expected) {
      forall record ensures !OwnRecord(w, me.key, expected, record) {
        if OwnRecord(w, me.key, expected, record) {
          assert Proves(w, record, me.key, expected);
        }
      }
      ShownNow(met, later, w, me.key, me.root, NoOwnRecord(expected));
      assert later(ResolvesTo(expected));
      ReturnsKnow(me, later, me.point.caller, broke, candidate);
    }
  }

  predicate Waits(point: Point) {
    || point.CheckFailed? || point.CheckCleanup? || point.WaitCheckFailed? || point.WaitCheckCleanup?
    || point.OrphanCheck? || point.OrphanAppend?
  }

  lemma {:induction false} WaitMoves(w: World, me: Opener, met: Cause -> bool, later: Cause -> bool, broke: bool, candidate: WorkspaceId)
    requires Moves(w, me, met, later, broke, candidate) && Waits(me.point)
    ensures Knows(later, After(w, me, candidate), broke, candidate)
  {
  }

  lemma {:induction false} TableMoves(w: World, me: Opener, met: Cause -> bool, later: Cause -> bool, broke: bool, candidate: WorkspaceId)
    requires Moves(w, me, met, later, broke, candidate) && (me.point.Touch? || me.point.MarkCleanup? || me.point.ReadBack?)
    ensures Knows(later, After(w, me, candidate), broke, candidate)
  {
  }

  lemma {:induction false} CreateMoves(w: World, me: Opener, met: Cause -> bool, later: Cause -> bool, broke: bool, candidate: WorkspaceId)
    requires Moves(w, me, met, later, broke, candidate) && (me.point.AppendIntent? || me.point.Creating? || me.point.AppendFailed?)
    ensures Knows(later, After(w, me, candidate), broke, candidate)
  {
  }

  lemma {:induction false} ResolveMoves(w: World, me: Opener, met: Cause -> bool, later: Cause -> bool, broke: bool, candidate: WorkspaceId)
    requires Moves(w, me, met, later, broke, candidate) && me.point.ResolveDirectory?
    ensures Knows(later, After(w, me, candidate), broke, candidate)
  {
    var found := RealPath(w.nodes, me.Target());
    ShownNow(met, later, w, me.key, me.root, if found.Some? then ResolvesTo(found.value) else TargetUnresolved);
  }

  lemma {:induction false} StatMoves(w: World, me: Opener, met: Cause -> bool, later: Cause -> bool, broke: bool, candidate: WorkspaceId)
    requires Moves(w, me, met, later, broke, candidate) && me.point.StatDirectory?
    ensures Knows(later, After(w, me, candidate), broke, candidate)
  {
    var canonical := me.point.canonical;
    var found := DirectoryAt(w.nodes, canonical);
    ShownNow(met, later, w, me.key, me.root, if found.Some? then DirectoryIs(canonical, found.value) else NoDirectory(canonical));
    assert later(ResolvesTo(canonical));
  }

  lemma {:induction false} RegisterMoves(w: World, me: Opener, met: Cause -> bool, later: Cause -> bool, broke: bool, candidate: WorkspaceId)
    requires Moves(w, me, met, later, broke, candidate) && me.point.RegisterRow?
    ensures Knows(later, After(w, me, candidate), broke, candidate)
  {
    var canonical, identity := me.point.canonical, me.point.identity;
    var r := RegisterTx(w.tables, me.key, candidate, canonical, identity, me.point.action).1;
    ClashesIs(w.tables, candidate, canonical, identity);
    if r.Err? {
      ShownNow(met, later, w, me.key, me.root, Clash(candidate, canonical, identity));
    }
    assert later(ResolvesTo(canonical)) && later(DirectoryIs(canonical, identity));
  }

  lemma {:induction false} StaysThere(w: World, me: Opener, met: Cause -> bool, later: Cause -> bool, broke: bool, candidate: WorkspaceId)
    requires Moves(w, me, met, later, broke, candidate) && me.Finished()
    ensures After(w, me, candidate) == me && Knows(later, me, broke, candidate)
  {
    KnowsMore(met, later, me, broke, candidate);
  }

  lemma {:induction false} NextKnows(w: World, me: Opener, met: Cause -> bool, later: Cause -> bool, broke: bool, candidate: WorkspaceId)
    requires Moves(w, me, met, later, broke, candidate)
    ensures Knows(later, After(w, me, candidate), broke, candidate)
  {
    match me.point {
      case InspectPath(_, _, _) => InspectMoves(w, me, met, later, broke, candidate);
      case ProbePath => PathMoves(w, me, met, later, broke, candidate);
      case ProbeBranch => BranchMoves(w, me, met, later, broke, candidate);
      case CheckIntent(_) => CheckMoves(w, me, met, later, broke, candidate);
      case FindIntent(_) => IntentMoves(w, me, met, later, broke, candidate);
      case Canonicalize(_) => CanonicalMoves(w, me, met, later, broke, candidate);
      case ListWorktrees(_, _) => ListMoves(w, me, met, later, broke, candidate);
      case _ => LaterKnow(w, me, met, later, broke, candidate);
    }
  }

  predicate Later(point: Point) {
    !(point.InspectPath? || point.ProbePath? || point.ProbeBranch? || point.CheckIntent? || point.FindIntent? || point.Canonicalize?
      || point.ListWorktrees?)
  }

  lemma {:induction false} LaterKnow(w: World, me: Opener, met: Cause -> bool, later: Cause -> bool, broke: bool, candidate: WorkspaceId)
    requires Moves(w, me, met, later, broke, candidate) && Later(me.point)
    ensures Knows(later, After(w, me, candidate), broke, candidate)
  {
    if me.point.ResolveDirectory? {
      ResolveMoves(w, me, met, later, broke, candidate);
    } else if me.point.StatDirectory? {
      StatMoves(w, me, met, later, broke, candidate);
    } else if me.point.RegisterRow? {
      RegisterMoves(w, me, met, later, broke, candidate);
    } else {
      OthersKnow(w, me, met, later, broke, candidate);
    }
  }

  predicate Otherwise(point: Point) {
    Later(point) && !(point.ResolveDirectory? || point.StatDirectory? || point.RegisterRow?)
  }

  lemma {:induction false} OthersKnow(w: World, me: Opener, met: Cause -> bool, later: Cause -> bool, broke: bool, candidate: WorkspaceId)
    requires Moves(w, me, met, later, broke, candidate) && Otherwise(me.point)
    ensures Knows(later, After(w, me, candidate), broke, candidate)
  {
    if me.Finished() {
      StaysThere(w, me, met, later, broke, candidate);
    } else if Waits(me.point) {
      WaitMoves(w, me, met, later, broke, candidate);
    } else if me.point.Touch? || me.point.MarkCleanup? || me.point.ReadBack? {
      TableMoves(w, me, met, later, broke, candidate);
    } else if me.point.AppendIntent? || me.point.Creating? || me.point.AppendFailed? {
      CreateMoves(w, me, met, later, broke, candidate);
    } else {
      RowMoves(w, me, met, later, broke, candidate);
    }
  }

  lemma {:induction false} NextReads(w: World, me: Opener, candidate: WorkspaceId)
    requires TablesInv(w.tables) && OpenerInv(w.tables, me) && Reading(w.tables, me)
    ensures Reading(Next(w, me, candidate).0, After(w, me, candidate))
  {
  }

  // ---- Runs. ----

  /** Some state of the run, the first and the last included, shows it. */
  ghost predicate MetBy(w: World, steps: seq<Step>, key: Key, root: nat, cause: Cause) {
    exists k :: 0 <= k <= |steps| && Holds(Run(w, steps[..k]), key, root, cause)
  }

  ghost function Met(w: World, steps: seq<Step>, key: Key, root: nat): Cause -> bool {
    cause => MetBy(w, steps, key, root, cause)
  }

  /** A call of this open, or a step of its Git child, has failed. */
  ghost predicate BrokeIn(steps: seq<Step>, o: OpenerId) {
    exists step :: step in steps && (step == Throw(o) || (step.GitAdvance? && step.o == o && !step.succeeds))
  }

  /** The id that the open would give a new workspace. */
  ghost predicate Draws(steps: seq<Step>, o: OpenerId, candidate: WorkspaceId) {
    forall step :: step in steps && step.Advance? && step.o == o ==> step.candidate == candidate
  }

  lemma {:induction false} MetGrows(w: World, steps: seq<Step>, step: Step, key: Key, root: nat)
    ensures MetMore(Met(w, steps, key, root), Met(w, steps + [step], key, root), Run(w, steps), key, root)
  {
    var more := steps + [step];
    forall cause | MetBy(w, steps, key, root, cause) || Holds(Run(w, steps), key, root, cause) ensures MetBy(w, more, key, root, cause) {
      if MetBy(w, steps, key, root, cause) {
        var k :| 0 <= k <= |steps| && Holds(Run(w, steps[..k]), key, root, cause);
        assert more[..k] == steps[..k];
      } else {
        assert more[..|steps|] == steps;
      }
    }
  }

  /** Its own statement keeps what it knows. */
  lemma {:induction false} AdvanceKnows(w: World, o: OpenerId, met: Cause -> bool, later: Cause -> bool, broke: bool, candidate: WorkspaceId)
    requires o in w.openers && Moves(w, w.openers[o], met, later, broke, candidate)
    ensures var v := Apply(w, Advance(o, candidate));
            o in v.openers && Knows(later, v.openers[o], broke, candidate) && Reading(v.tables, v.openers[o])
  {
    var me := w.openers[o];
    NextKnows(w, me, met, later, broke, candidate);
    NextReads(w, me, candidate);
    AdvanceIs(w, o, candidate);
  }

  lemma {:induction false} AdvanceIs(w: World, o: OpenerId, candidate: WorkspaceId)
    requires o in w.openers
    ensures var v := Apply(w, Advance(o, candidate));
            o in v.openers && v.openers[o] == After(w, w.openers[o], candidate) && v.tables == Next(w, w.openers[o], candidate).0
  {
  }

  /** And so does its end by an exception or a crash. */
  lemma {:induction false} StopKnows(w: World, o: OpenerId, step: Step, met: Cause -> bool, later: Cause -> bool, broke: bool, candidate: WorkspaceId)
    requires o in w.openers && Moves(w, w.openers[o], met, later, broke, candidate)
    requires (step == Throw(o) && broke) || step == Crash(o)
    ensures var v := Apply(w, step);
            o in v.openers && Knows(later, v.openers[o], broke, candidate) && Reading(v.tables, v.openers[o])
  {
    KnowsMore(met, later, w.openers[o], broke, candidate);
    StopIs(w, o, step);
    StoppedKnows(later, w.openers[o], broke, candidate);
  }

  lemma {:induction false} StopIs(w: World, o: OpenerId, step: Step)
    requires o in w.openers && (step == Throw(o) || step == Crash(o))
    ensures var v := Apply(w, step);
            && v.tables == w.tables && o in v.openers
            && v.openers[o] == if w.openers[o].Finished() then w.openers[o]
                               else w.openers[o].(point := if step.Throw? then Failed(Infrastructure) else Crashed)
  {
  }

  lemma {:induction false} StoppedKnows(met: Cause -> bool, me: Opener, broke: bool, candidate: WorkspaceId)
    requires Knows(met, me, broke, candidate)
    ensures broke ==> Knows(met, me.(point := Failed(Infrastructure)), broke, candidate)
    ensures Knows(met, me.(point := Crashed), broke, candidate)
  {
  }

  lemma {:induction false} ChildStepKnows(w: World, o: OpenerId, succeeds: bool, identity: Identity, met: Cause -> bool, later: Cause -> bool, broke: bool, candidate: WorkspaceId)
    requires o in w.openers && Moves(w, w.openers[o], met, later, broke, candidate) && (succeeds || broke)
    ensures var v := GitNext(w, o, succeeds, identity);
            o in v.openers && Knows(later, v.openers[o], broke, candidate) && Reading(v.tables, v.openers[o])
  {
    var me := w.openers[o];
    KnowsMore(met, later, me, broke, candidate);
    ChildPoint(w, o, succeeds, identity);
    ChildMet(w, me, met, later);
    ChildKnows(later, me, GitNext(w, o, succeeds, identity).openers[o].git, broke, candidate);
  }

  lemma {:induction false} ChildMet(w: World, me: Opener, met: Cause -> bool, later: Cause -> bool)
    requires MetMore(met, later, w, me.key, me.root)
    ensures me.key in w.branches ==> later(BranchTaken)
    ensures me.Target() in w.nodes ==> later(TargetExists)
  {
    if Holds(w, me.key, me.root, BranchTaken) { ShownNow(met, later, w, me.key, me.root, BranchTaken); }
    if Holds(w, me.key, me.root, TargetExists) { ShownNow(met, later, w, me.key, me.root, TargetExists); }
  }

  lemma {:induction false} ChildKnows(met: Cause -> bool, me: Opener, git: Git, broke: bool, candidate: WorkspaceId)
    requires Knows(met, me, broke, candidate)
    requires me.git.Broken? ==> git == me.git
    requires git.Broken? && !me.git.Broken? ==> broke || met(BranchTaken) || met(TargetExists)
    ensures Knows(met, me.(git := git), broke, candidate)
  {
  }

  lemma {:induction false} ChildPoint(w: World, o: OpenerId, succeeds: bool, identity: Identity)
    requires o in w.openers
    ensures var v := GitNext(w, o, succeeds, identity);
            && v.tables == w.tables && v.openers.Keys == w.openers.Keys
            && v.openers[o] == w.openers[o].(git := v.openers[o].git)
            && (w.openers[o].git.Broken? ==> v.openers[o].git == w.openers[o].git)
            && (v.openers[o].git.Broken? && !w.openers[o].git.Broken? ==>
                  !succeeds || w.openers[o].key in w.branches || w.openers[o].Target() in w.nodes)
  {
  }

  predicate Concerns(step: Step, o: OpenerId) {
    match step
    case Start(p, _, _) => p == o
    case Advance(p, _) => p == o
    case GitAdvance(p, _, _) => p == o
    case Throw(p) => p == o
    case Crash(p) => p == o
    case _ => false
  }

  /** Other steps leave the opener where it is, and only extend the tables. */
  lemma {:induction false} OtherStepKnows(w: World, o: OpenerId, step: Step, met: Cause -> bool, later: Cause -> bool, broke: bool, candidate: WorkspaceId)
    requires Inv(w) && o in w.openers && Moves(w, w.openers[o], met, later, broke, candidate) && (!Concerns(step, o) || step.Start?)
    ensures var v := Apply(w, step);
            o in v.openers && v.openers[o] == w.openers[o] && Knows(later, v.openers[o], broke, candidate) && Reading(v.tables, v.openers[o])
  {
    StepKeeps(w, step);
    SameOpener(w, o, step);
    KnowsMore(met, later, w.openers[o], broke, candidate);
    ReadingStays(w.tables, Apply(w, step).tables, w.openers[o]);
  }

  lemma {:induction false} SameOpener(w: World, o: OpenerId, step: Step)
    requires o in w.openers && (!Concerns(step, o) || step.Start?)
    ensures o in Apply(w, step).openers && Apply(w, step).openers[o] == w.openers[o]
  {
  }

  lemma {:induction false} StepKnows(w: World, o: OpenerId, step: Step, met: Cause -> bool, later: Cause -> bool, broke: bool, candidate: WorkspaceId)
    requires Inv(w) && o in w.openers && Moves(w, w.openers[o], met, later, broke, candidate)
    requires BrokeIn([step], o) ==> broke
    requires Draws([step], o, candidate)
    ensures var v := Apply(w, step);
            o in v.openers && Knows(later, v.openers[o], broke, candidate) && Reading(v.tables, v.openers[o])
  {
    assert step in [step];
    if !Concerns(step, o) || step.Start? {
      OtherStepKnows(w, o, step, met, later, broke, candidate);
    } else if step.GitAdvance? {
      ChildStepKnows(w, o, step.succeeds, step.identity, met, later, broke, candidate);
    } else if step.Advance? {
      AdvanceKnows(w, o, met, later, broke, candidate);
    } else {
      StopKnows(w, o, step, met, later, broke, candidate);
    }
  }

  lemma {:induction false} KeyStays(w: World, step: Step, o: OpenerId)
    requires o in w.openers
    ensures o in Apply(w, step).openers
    ensures Apply(w, step).openers[o].key == w.openers[o].key && Apply(w, step).openers[o].root == w.openers[o].root
  {
  }

  lemma {:induction false} Starts(w: World, step: Step, o: OpenerId)
    requires o !in w.openers && o in Apply(w, step).openers
    ensures Apply(w, step).openers[o].point == ReadRow && Apply(w, step).openers[o].git == Idle
  {
  }

  lemma {:induction false} KnowsAlong(w: World, steps: seq<Step>, o: OpenerId, broke: bool, candidate: WorkspaceId)
    requires Inv(w) && o !in w.openers && (BrokeIn(steps, o) ==> broke) && Draws(steps, o, candidate)
    ensures var v := Run(w, steps);
            o in v.openers ==>
              && Knows(Met(w, steps, v.openers[o].key, v.openers[o].root), v.openers[o], broke, candidate)
              && Reading(v.tables, v.openers[o])
  {
    if steps != [] {
      var init, step := steps[..|steps| - 1], steps[|steps| - 1];
      var u := Run(w, init);
      assert steps == init + [step];
      KnowsAlong(w, init, o, broke, candidate);
      RunKeeps(w, init);
      if o in u.openers {
        var me := u.openers[o];
        MetGrows(w, init, step, me.key, me.root);
        StepKnows(u, o, step, Met(w, init, me.key, me.root), Met(w, steps, me.key, me.root), broke, candidate);
        KeyStays(u, step, o);
      } else if o in Apply(u, step).openers {
        Starts(u, step, o);
      }
    }
  }

  /** In every run, whatever all the others do, an open that has failed with an error has met what
      explains it, or a call of its own or of its Git child has failed. */
  lemma {:induction false} FailsForCause(w: World, steps: seq<Step>, o: OpenerId, broke: bool, candidate: WorkspaceId)
    requires Inv(w) && o !in w.openers && (BrokeIn(steps, o) ==> broke) && Draws(steps, o, candidate)
    requires o in Run(w, steps).openers && Run(w, steps).openers[o].point.Failed?
    ensures var me := Run(w, steps).openers[o];
            Explained(Met(w, steps, me.key, me.root), broke, candidate, me.point.error)
  {
    KnowsAlong(w, steps, o, broke, candidate);
  }

  /** And one that has returned a workspace has met a directory for it. */
  lemma {:induction false} ReturnsForCause(w: World, steps: seq<Step>, o: OpenerId, candidate: WorkspaceId)
    requires Inv(w) && o !in w.openers && Draws(steps, o, candidate)
    requires o in Run(w, steps).openers && Run(w, steps).openers[o].point.Done?
    ensures var me := Run(w, steps).openers[o]; Stood(Met(w, steps, me.key, me.root))
  {
    KnowsAlong(w, steps, o, true, candidate);
  }
}
