/** What every interleaving of openers, Git children, crashes and outside changes keeps. */
module WorktreeSafety {
  import opened Wrappers
  import opened WorkspaceTables
  import opened WorktreeProtocol

  /** What an opener may rely on at its program point, whatever the others do. */
  ghost predicate OpenerInv(t: Tables, me: Opener) {
    && (me.git != Idle ==> HasIntent(t.journal, me.key))
    && (match me.point
        case ReadWorkspace(id) => Owns(t, me.key, id)
        case ReadIdentity(id, _) => Owns(t, me.key, id)
        case InspectPath(id, _, _) => Owns(t, me.key, id)
        case Touch(id) => Owns(t, me.key, id)
        case MarkCleanup(id) => Owns(t, me.key, id)
        case ReadBack(id) => Owns(t, me.key, id)
        case Done(id) => Owns(t, me.key, id)
        case Canonicalize(_) => HasIntent(t.journal, me.key)
        case ListWorktrees(_, _) => HasIntent(t.journal, me.key)
        case ReadRow => me.git == Idle
        case ProbePath => me.git == Idle
        case ProbeBranch => me.git == Idle
        case AppendIntent => me.git == Idle
        case Creating => me.git != Idle
        case ResolveDirectory(action) => IsRegistration(action) && HasIntent(t.journal, me.key)
        case StatDirectory(action, _) => IsRegistration(action) && HasIntent(t.journal, me.key)
        case RegisterRow(action, _, _) => IsRegistration(action) && HasIntent(t.journal, me.key)
        case _ => true)
  }

  ghost predicate Owns(t: Tables, key: Key, id: WorkspaceId) {
    key in t.managed && t.managed[key].workspace == id
  }

  /** The Git child has got past creating the branch. */
  predicate PastBranch(git: Git) {
    git == Branched || git == Placed || git == Added || git == Broken(true)
  }

  ghost predicate GitInv(w: World) {
    && (forall o :: o in w.openers && PastBranch(w.openers[o].git) ==> w.openers[o].key in w.branches)
    && (forall o, p | o in w.openers && p in w.openers && PastBranch(w.openers[o].git) && PastBranch(w.openers[p].git) ::
          w.openers[o].key == w.openers[p].key ==> o == p)
  }

  ghost predicate OpenersInv(w: World) {
    forall o :: o in w.openers ==> OpenerInv(w.tables, w.openers[o])
  }

  ghost predicate Inv(w: World) {
    TablesInv(w.tables) && OpenersInv(w) && GitInv(w)
  }

  lemma {:induction false} OpenerMonotone(t: Tables, u: Tables, me: Opener)
    requires OpenerInv(t, me) && Extends(t, u)
    ensures OpenerInv(u, me)
  {
    JournalMonotone(t, u, me.key);
  }

  /** The statement an opener runs keeps the tables sound and deletes nothing. */
  lemma {:induction false} TablesKept(w: World, me: Opener, candidate: WorkspaceId)
    requires TablesInv(w.tables) && OpenerInv(w.tables, me)
    ensures TablesInv(Next(w, me, candidate).0) && Extends(w.tables, Next(w, me, candidate).0)
  {
    var t, key := w.tables, me.key;
    match me.point {
      case Touch(id) => TouchKeeps(t, id);
      case MarkCleanup(id) => MarkCleanupKeeps(t, key, id);
      case OrphanAppend => AppendKeeps(t, key, None, CleanupIntent(OrphanedBranch));
      case AppendIntent => AppendKeeps(t, key, None, CreateIntent);
      case AppendFailed => AppendKeeps(t, key, None, CreateFailed);
      case RegisterRow(action, canonical, identity) => RegisterKeeps(t, key, candidate, canonical, identity, action);
      case _ =>
    }
  }

  /** The points whose statement only reads. */
  predicate Reads(point: Point) {
    !(point.Touch? || point.MarkCleanup? || point.OrphanAppend? || point.AppendIntent? || point.AppendFailed? || point.RegisterRow?)
  }

  ghost predicate ResultInv(me: Opener, result: (Tables, Point, Git)) {
    && OpenerInv(result.0, me.(point := result.1, git := result.2))
    && (PastBranch(result.2) <==> PastBranch(me.git))
  }

  lemma {:induction false} ReaderKept(w: World, me: Opener, candidate: WorkspaceId)
    requires OpenerInv(w.tables, me) && Reads(me.point)
    ensures ResultInv(me, Next(w, me, candidate))
  {
  }

  /** The statement an opener runs leaves it with what its next statement relies on. */
  lemma {:induction false} PointKept(w: World, me: Opener, candidate: WorkspaceId)
    requires OpenerInv(w.tables, me) && Extends(w.tables, Next(w, me, candidate).0)
    ensures ResultInv(me, Next(w, me, candidate))
  {
    var t := Next(w, me, candidate).0;
    if Reads(me.point) {
      ReaderKept(w, me, candidate);
    } else {
      OpenerMonotone(w.tables, t, me);
      match me.point {
        case AppendIntent =>
          assert Event(me.key, None, CreateIntent) in t.journal;
        case RegisterRow(action, canonical, identity) =>
          RegisterResult(w.tables, me.key, candidate, canonical, identity, action);
        case _ =>
      }
    }
  }

  lemma {:induction false} AdvanceKeeps(w: World, o: OpenerId, candidate: WorkspaceId)
    requires Inv(w) && o in w.openers
    ensures Inv(Apply(w, Advance(o, candidate))) && Extends(w.tables, Apply(w, Advance(o, candidate)).tables)
  {
    var v := Apply(w, Advance(o, candidate));
    TablesKept(w, w.openers[o], candidate);
    PointKept(w, w.openers[o], candidate);
    assert OpenersInv(v) by {
      forall p | p in v.openers ensures OpenerInv(v.tables, v.openers[p]) {
        if p != o { OpenerMonotone(w.tables, v.tables, w.openers[p]); }
      }
    }
  }

  lemma {:induction false} GitAddsBranch(w: World, o: OpenerId)
    requires Inv(w) && o in w.openers && w.openers[o].git == Adding && w.openers[o].key !in w.branches
    ensures var me := w.openers[o];
            Inv(w.(branches := w.branches[me.key := me.key.base], openers := w.openers[o := me.(git := Branched)]))
  {
  }

  /** The child of an opener that is past its branch stays past it, and its failure
      before that leaves it before. */
  lemma {:induction false} GitMoves(w: World, o: OpenerId, git: Git, worktrees: set<Record>, nodes: map<Path, Node>)
    requires Inv(w) && o in w.openers && w.openers[o].git != Idle && git != Idle
    requires PastBranch(git) <==> PastBranch(w.openers[o].git)
    ensures Inv(w.(worktrees := worktrees, nodes := nodes, openers := w.openers[o := w.openers[o].(git := git)]))
  {
  }

  lemma {:induction false} GitAdvanceKeeps(w: World, o: OpenerId, succeeds: bool, identity: Identity)
    requires Inv(w) && o in w.openers
    ensures Inv(GitNext(w, o, succeeds, identity)) && GitNext(w, o, succeeds, identity).tables == w.tables
  {
    var v := GitNext(w, o, succeeds, identity);
    if v != w {
      if v.openers[o].git == Branched {
        GitAddsBranch(w, o);
      } else {
        GitMoves(w, o, v.openers[o].git, v.worktrees, v.nodes);
      }
    }
  }

  lemma {:induction false} TablesOnlyKeeps(w: World, t: Tables)
    requires Inv(w) && TablesInv(t) && Extends(w.tables, t)
    ensures Inv(w.(tables := t))
  {
    forall p | p in w.openers ensures OpenerInv(t, w.openers[p]) {
      OpenerMonotone(w.tables, t, w.openers[p]);
    }
  }

  lemma {:induction false} OpenerOnlyKeeps(w: World, o: OpenerId, me: Opener)
    requires Inv(w) && OpenerInv(w.tables, me)
    requires PastBranch(me.git) ==> o in w.openers && w.openers[o].key == me.key && w.openers[o].git == me.git
    ensures Inv(w.(openers := w.openers[o := me]))
  {
  }

  predicate Outside(step: Step) {
    step.SetNode? || step.SetBranch? || step.SetWorktrees?
  }

  lemma {:induction false} OutsideKeeps(w: World, step: Step)
    requires Inv(w) && Outside(step)
    ensures Inv(Apply(w, step)) && Apply(w, step).tables == w.tables
  {
  }

  lemma {:induction false} OpenCheckoutKeeps(w: World, candidate: WorkspaceId, canonical: Path, identity: Identity)
    requires Inv(w)
    ensures var v := Apply(w, OpenCheckout(candidate, canonical, identity)); Inv(v) && Extends(w.tables, v.tables)
  {
    CheckoutKeeps(w.tables, candidate, canonical, identity);
    TablesOnlyKeeps(w, CheckoutTx(w.tables, candidate, canonical, identity).0);
  }

  lemma {:induction false} ExtendsSelf(t: Tables)
    ensures Extends(t, t)
  {
  }

  /** Every step keeps the invariant, and no step deletes or rebinds anything durable. */
  lemma {:induction false} StepKeeps(w: World, step: Step)
    requires Inv(w)
    ensures Inv(Apply(w, step)) && Extends(w.tables, Apply(w, step).tables)
  {
    ExtendsSelf(w.tables);
    match step {
      case Advance(o, candidate) => if o in w.openers { AdvanceKeeps(w, o, candidate); }
      case GitAdvance(o, succeeds, identity) => if o in w.openers { GitAdvanceKeeps(w, o, succeeds, identity); }
      case Start(o, key, root) => OpenerOnlyKeeps(w, o, Opener(key, root, ReadRow, Idle));
      case Throw(o) =>
        if o in w.openers { OpenerOnlyKeeps(w, o, w.openers[o].(point := Failed(Infrastructure))); }
      case Crash(o) =>
        if o in w.openers { OpenerOnlyKeeps(w, o, w.openers[o].(point := Crashed)); }
      case OpenCheckout(candidate, canonical, identity) => OpenCheckoutKeeps(w, candidate, canonical, identity);
      case Revalidate(id, status) =>
        RevalidateKeeps(w.tables, id, status);
        TablesOnlyKeeps(w, RevalidateTx(w.tables, id, status));
      case _ => OutsideKeeps(w, step);
    }
  }

  lemma {:induction false} RunKeeps(w: World, steps: seq<Step>)
    requires Inv(w)
    ensures Inv(Run(w, steps)) && Extends(w.tables, Run(w, steps).tables)
  {
    if steps != [] {
      var init := steps[..|steps| - 1];
      RunKeeps(w, init);
      StepKeeps(Run(w, init), steps[|steps| - 1]);
      ExtendsTransitive(w.tables, Run(w, init).tables, Run(w, steps).tables);
    }
  }

  lemma {:induction false} InitialInv(w: World)
    requires Initial(w)
    ensures Inv(w)
  {
  }

  // ---- The theorems, over every run from an empty database. ----

  lemma {:induction false} DoneOwns(w: World, o: OpenerId)
    requires Inv(w) && o in w.openers && w.openers[o].point.Done?
    ensures Owns(w.tables, w.openers[o].key, w.openers[o].point.workspace)
    ensures w.openers[o].point.workspace in w.tables.registry
  {
    assert OpenerInv(w.tables, w.openers[o]);
  }

  /** All successful opens of one key return the workspace of its one row. */
  lemma {:induction false} SameWorkspace(w: World, steps: seq<Step>, o: OpenerId, p: OpenerId)
    requires Initial(w)
    requires o in Run(w, steps).openers && Run(w, steps).openers[o].point.Done?
    requires p in Run(w, steps).openers && Run(w, steps).openers[p].point.Done?
    requires Run(w, steps).openers[o].key == Run(w, steps).openers[p].key
    ensures Run(w, steps).openers[o].point.workspace == Run(w, steps).openers[p].point.workspace
    ensures Owns(Run(w, steps).tables, Run(w, steps).openers[o].key, Run(w, steps).openers[o].point.workspace)
    ensures Run(w, steps).openers[o].point.workspace in Run(w, steps).tables.registry
  {
    InitialInv(w);
    RunKeeps(w, steps);
    DoneOwns(Run(w, steps), o);
    DoneOwns(Run(w, steps), p);
  }

  /** At most one `git worktree add` of a key gets past creating its branch, so at
      most one succeeds, and then the branch is there. */
  lemma {:induction false} OneWorktreeAdd(w: World, steps: seq<Step>, o: OpenerId, p: OpenerId)
    requires Initial(w)
    requires var v := Run(w, steps);
             && o in v.openers && PastBranch(v.openers[o].git)
             && p in v.openers && PastBranch(v.openers[p].git)
             && v.openers[o].key == v.openers[p].key
    ensures o == p && Run(w, steps).openers[o].key in Run(w, steps).branches
  {
    InitialInv(w);
    RunKeeps(w, steps);
  }

  /** In every reachable state a key has a row iff the journal holds a registration
      entry of it; then it holds exactly one, which carries the row's workspace and
      comes after a create-intent. The row is retired iff the journal holds exactly
      one path-unavailable entry of it. */
  lemma {:induction false} JournalAgrees(w: World, steps: seq<Step>, key: Key)
    requires Initial(w)
    ensures var t := Run(w, steps).tables;
            && (key in t.managed <==> Registrations(t.journal, key) != [])
            && (key in t.managed ==> Registrations(t.journal, key) == [Some(t.managed[key].workspace)])
            && (key in t.managed && t.managed[key].status == CleanupRequired <==> Retirements(t.journal, key) != [])
            && |Retirements(t.journal, key)| <= 1
            && (forall i | 0 <= i < |t.journal| && IsRegistration(t.journal[i].action) ::
                  exists j :: 0 <= j < i && t.journal[j].key == t.journal[i].key && t.journal[j].action == CreateIntent)
  {
    InitialInv(w);
    RunKeeps(w, steps);
    var t := Run(w, steps).tables;
    assert MatchesFor(t, key);
    forall i | 0 <= i < |t.journal| && IsRegistration(t.journal[i].action)
      ensures exists j :: 0 <= j < i && t.journal[j].key == t.journal[i].key && t.journal[j].action == CreateIntent
    {
      IntentBefore(t.journal, i);
    }
  }

  /** Nothing durable is taken back: later in the run a row still has its workspace
      and path, a retired row is still retired, and the journal only grew. */
  lemma {:induction false} OnlyForward(w: World, steps: seq<Step>, more: seq<Step>)
    requires Initial(w)
    ensures Extends(Run(w, steps).tables, Run(w, steps + more).tables)
  {
    InitialInv(w);
    RunKeeps(w, steps);
    RunConcat(w, steps, more);
    RunKeeps(Run(w, steps), more);
  }

  predicate RefusedBy(me: Opener) {
    me.git == Idle &&
    (me.point == ReadRow || me.point == Failed(CleanupIsRequired) || me.point == Failed(Infrastructure) || me.point == Crashed)
  }

  ghost predicate IsRetired(t: Tables, key: Key) {
    key in t.managed && t.managed[key].status == CleanupRequired
  }

  lemma {:induction false} RefusedStays(w: World, step: Step, o: OpenerId)
    requires o in w.openers && IsRetired(w.tables, w.openers[o].key) && RefusedBy(w.openers[o])
    ensures RefusedBy(Apply(w, step).openers[o])
  {
  }

  /** Once a row is retired, every open that starts afterwards fails before it does anything. */
  lemma {:induction false} RetiredStaysClosed(w: World, steps: seq<Step>, o: OpenerId)
    requires Inv(w) && o !in w.openers
    requires o in Run(w, steps).openers && IsRetired(w.tables, Run(w, steps).openers[o].key)
    ensures RefusedBy(Run(w, steps).openers[o])
  {
    if steps != [] {
      var init, last := steps[..|steps| - 1], steps[|steps| - 1];
      var u := Run(w, init);
      if o in u.openers {
        KeyStays(u, last, o);
        RetiredStaysClosed(w, init, o);
        assert IsRetired(u.tables, u.openers[o].key) by { RunKeeps(w, init); }
        RefusedStays(u, last, o);
      } else {
        StartsReading(u, last, o);
      }
    }
  }

  lemma {:induction false} StartsReading(w: World, step: Step, o: OpenerId)
    requires o !in w.openers && o in Apply(w, step).openers
    ensures Apply(w, step).openers[o].point == ReadRow && Apply(w, step).openers[o].git == Idle
  {
  }

  lemma {:induction false} KeyStays(w: World, step: Step, o: OpenerId)
    requires o in w.openers
    ensures o in Apply(w, step).openers
    ensures Apply(w, step).openers[o].key == w.openers[o].key && Apply(w, step).openers[o].root == w.openers[o].root
  {
  }
}
