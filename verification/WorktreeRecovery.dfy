/** What one undisturbed open does, from any state; and what it does after another
    opener crashed at any point. */
module WorktreeRecovery {
  import opened Wrappers
  import opened WorkspaceTables
  import opened WorktreeProtocol
  import opened WorktreeSafety

  /** An opener, the workspace id it would draw and the identity a directory created
      by its Git child would get. */
  datatype Solo = Solo(o: OpenerId, candidate: WorkspaceId, identity: Identity)

  /** The only step there is when the opener is alone and nothing breaks. */
  ghost function Move(w: World, s: Solo): Step {
    if s.o in w.openers && w.openers[s.o].point == Creating && w.openers[s.o].git in {Adding, Branched, Placed}
    then GitAdvance(s.o, true, s.identity)
    else Advance(s.o, s.candidate)
  }

  ghost function Once(w: World, s: Solo): World {
    Apply(w, Move(w, s))
  }

  ghost function Alone(w: World, s: Solo, n: nat): World
    decreases n
  {
    if n == 0 then w else Alone(Once(w, s), s, n - 1)
  }

  /** Left alone, the opener gets from w to v. */
  ghost predicate Reaches(w: World, v: World, s: Solo) {
    exists n: nat :: Alone(w, s, n) == v
  }

  lemma {:induction false} ReachesHere(w: World, s: Solo)
    ensures Reaches(w, w, s)
  {
    assert Alone(w, s, 0) == w;
  }

  lemma {:induction false} ReachesBy(w: World, v: World, s: Solo)
    requires Reaches(Once(w, s), v, s)
    ensures Reaches(w, v, s)
  {
    var n: nat :| Alone(Once(w, s), s, n) == v;
    assert Alone(w, s, n + 1) == v;
  }

  /** Being alone is a run of the protocol in which only this opener and its child move. */
  lemma {:induction false} AloneIsRun(w: World, s: Solo, n: nat) returns (steps: seq<Step>)
    ensures Run(w, steps) == Alone(w, s, n)
    ensures forall step :: step in steps ==> OwnStep(step, s.o)
    decreases n
  {
    if n == 0 {
      steps := [];
    } else {
      var rest := AloneIsRun(Once(w, s), s, n - 1);
      steps := [Move(w, s)] + rest;
      RunConcat(w, [Move(w, s)], rest);
      assert Run(w, [Move(w, s)]) == Apply(Run(w, []), Move(w, s));
    }
  }

  predicate OwnStep(step: Step, o: OpenerId) {
    match step
    case Advance(p, _) => p == o
    case GitAdvance(p, _, _) => p == o
    case Throw(p) => p == o
    case Crash(p) => p == o
    case _ => false
  }

  ghost function At(w: World, s: Solo, key: Key, root: nat, point: Point, git: Git): World {
    w.(openers := w.openers[s.o := Opener(key, root, point, git)])
  }

  function Partial(root: nat, key: Key): Record {
    Record(Managed(root, key), None, Some(key), Some(key))
  }

  function Complete(root: nat, key: Key): Record {
    Record(Managed(root, key), Some(key.base), Some(key), Some(key))
  }

  /** Everything but the opener after a `git worktree add` on free names. */
  function WithWorktree(w: World, root: nat, key: Key, identity: Identity): World {
    w.(branches := w.branches[key := key.base],
       worktrees := w.worktrees + {Partial(root, key)} - {Partial(root, key)} + {Complete(root, key)},
       nodes := w.nodes[Managed(root, key) := Real(Managed(root, key), Directory(identity))])
  }

  ghost function Registered(w: World, s: Solo, key: Key, root: nat, canonical: Path, identity: Identity, action: Action, git: Git): World {
    var (t, r) := RegisterTx(w.tables, key, s.candidate, canonical, identity, action);
    At(w.(tables := t), s, key, root, if r.Ok? then Done(r.value) else Failed(Infrastructure), git)
  }

  /** The outcome of an undisturbed open of a key that has no row. */
  ghost function OutcomeWithoutRow(w: World, s: Solo, key: Key, root: nat): World {
    var t, target := w.tables, Managed(root, key);
    if target in w.nodes then
      if w.nodes[target] == Denied then At(w, s, key, root, Failed(PathInaccessible), Idle)
      else if HasIntent(t.journal, key) && w.nodes[target].Real? && Proven(w, key, w.nodes[target].canonical) then
        match DirectoryAt(w.nodes, w.nodes[target].canonical)
        case Some(identity) => Registered(w, s, key, root, w.nodes[target].canonical, identity, Reconciled, Idle)
        case None => At(w, s, key, root, Failed(Infrastructure), Idle)
      else At(w, s, key, root, Failed(PathOccupied), Idle)
    else if key in w.branches then
      if !HasIntent(t.journal, key) then At(w, s, key, root, Failed(BranchOccupied), Idle)
      else if HasCleanup(t.journal, key) then At(w, s, key, root, Failed(CleanupIsRequired), Idle)
      else At(w.(tables := Append(t, key, None, CleanupIntent(OrphanedBranch))), s, key, root, Failed(CleanupIsRequired), Idle)
    else
      Registered(WithWorktree(w, root, key, s.identity).(tables := Append(t, key, None, CreateIntent)),
                 s, key, root, target, s.identity, Created, Added)
  }

  /** The outcome of an undisturbed open. */
  ghost function Outcome(w: World, s: Solo, key: Key, root: nat): World
    requires RowsSound(w.tables)
  {
    var t := w.tables;
    if key !in t.managed then OutcomeWithoutRow(w, s, key, root)
    else if t.managed[key].status == CleanupRequired then At(w, s, key, root, Failed(CleanupIsRequired), Idle)
    else
      var id := t.managed[key].workspace;
      if Inspect(w.nodes, t.registry[id].canonical, t.registry[id].identity) == Available then
        At(w.(tables := TouchTx(t, id)), s, key, root, Done(id), Idle)
      else At(w.(tables := MarkCleanupTx(t, key, id)), s, key, root, Failed(CleanupIsRequired), Idle)
  }


  /** One statement of the opener, read backwards: if it gets to v from the next point, it
      gets there from this one. */
  lemma {:induction false} Back(w: World, v: World, s: Solo, key: Key, root: nat, point: Point, git: Git)
    requires point == Creating ==> git !in {Adding, Branched, Placed}
    requires var (t, p, g) := Next(At(w, s, key, root, point, git), Opener(key, root, point, git), s.candidate);
             Reaches(At(w.(tables := t), s, key, root, p, g), v, s)
    ensures Reaches(At(w, s, key, root, point, git), v, s)
  {
    var u := At(w, s, key, root, point, git);
    var (t, p, g) := Next(u, Opener(key, root, point, git), s.candidate);
    assert u.openers[s.o := u.openers[s.o].(point := p, git := g)] == w.openers[s.o := Opener(key, root, p, g)];
    assert Once(u, s) == At(w.(tables := t), s, key, root, p, g);
    ReachesBy(u, v, s);
  }

  /** One step of the opener's Git child, read backwards. */
  lemma {:induction false} GitBack(w: World, x: World, v: World, s: Solo, key: Key, root: nat, git: Git, after: Git)
    requires git in {Adding, Branched, Placed}
    requires GitNext(At(w, s, key, root, Creating, git), s.o, true, s.identity) == At(x, s, key, root, Creating, after)
    requires Reaches(At(x, s, key, root, Creating, after), v, s)
    ensures Reaches(At(w, s, key, root, Creating, git), v, s)
  {
    ReachesBy(At(w, s, key, root, Creating, git), v, s);
  }

  // ---- One lemma per statement, read backwards: each names the next point of its statement, so
  // that a proof about several statements never unfolds Next. ----

  lemma {:induction false} BackReadRow(w: World, v: World, s: Solo, key: Key, root: nat)
    requires Reaches(At(w, s, key, root, if key !in w.tables.managed then ProbePath
                           else if w.tables.managed[key].status == CleanupRequired then Failed(CleanupIsRequired)
                           else ReadWorkspace(w.tables.managed[key].workspace), Idle), v, s)
    ensures Reaches(At(w, s, key, root, ReadRow, Idle), v, s)
  {
    Back(w, v, s, key, root, ReadRow, Idle);
  }

  lemma {:induction false} BackReadWorkspace(w: World, v: World, s: Solo, key: Key, root: nat, id: WorkspaceId)
    requires id in w.tables.registry
    requires Reaches(At(w, s, key, root, ReadIdentity(id, w.tables.registry[id].canonical), Idle), v, s)
    ensures Reaches(At(w, s, key, root, ReadWorkspace(id), Idle), v, s)
  {
    Back(w, v, s, key, root, ReadWorkspace(id), Idle);
  }

  lemma {:induction false} BackReadIdentity(w: World, v: World, s: Solo, key: Key, root: nat, id: WorkspaceId, canonical: Path)
    requires id in w.tables.registry
    requires Reaches(At(w, s, key, root, InspectPath(id, canonical, w.tables.registry[id].identity), Idle), v, s)
    ensures Reaches(At(w, s, key, root, ReadIdentity(id, canonical), Idle), v, s)
  {
    Back(w, v, s, key, root, ReadIdentity(id, canonical), Idle);
  }

  lemma {:induction false} BackInspectPath(w: World, v: World, s: Solo, key: Key, root: nat, id: WorkspaceId, canonical: Path, identity: Identity)
    requires Reaches(At(w, s, key, root, if Inspect(w.nodes, canonical, identity) == Available then Touch(id) else MarkCleanup(id), Idle), v, s)
    ensures Reaches(At(w, s, key, root, InspectPath(id, canonical, identity), Idle), v, s)
  {
    Back(w, v, s, key, root, InspectPath(id, canonical, identity), Idle);
  }

  lemma {:induction false} BackTouch(w: World, v: World, s: Solo, key: Key, root: nat, id: WorkspaceId)
    requires Reaches(At(w.(tables := TouchTx(w.tables, id)), s, key, root, ReadBack(id), Idle), v, s)
    ensures Reaches(At(w, s, key, root, Touch(id), Idle), v, s)
  {
    Back(w, v, s, key, root, Touch(id), Idle);
  }

  lemma {:induction false} BackMarkCleanup(w: World, v: World, s: Solo, key: Key, root: nat, id: WorkspaceId)
    requires Reaches(At(w.(tables := MarkCleanupTx(w.tables, key, id)), s, key, root, Failed(CleanupIsRequired), Idle), v, s)
    ensures Reaches(At(w, s, key, root, MarkCleanup(id), Idle), v, s)
  {
    Back(w, v, s, key, root, MarkCleanup(id), Idle);
  }

  lemma {:induction false} BackReadBack(w: World, v: World, s: Solo, key: Key, root: nat, id: WorkspaceId, git: Git)
    requires id in w.tables.registry
    requires Reaches(At(w, s, key, root, Done(id), git), v, s)
    ensures Reaches(At(w, s, key, root, ReadBack(id), git), v, s)
  {
    Back(w, v, s, key, root, ReadBack(id), git);
  }

  lemma {:induction false} BackProbePath(w: World, v: World, s: Solo, key: Key, root: nat)
    requires Reaches(At(w, s, key, root, if Managed(root, key) !in w.nodes then ProbeBranch
                           else if w.nodes[Managed(root, key)] == Denied then Failed(PathInaccessible)
                           else FindIntent(Probing), Idle), v, s)
    ensures Reaches(At(w, s, key, root, ProbePath, Idle), v, s)
  {
    Back(w, v, s, key, root, ProbePath, Idle);
  }

  lemma {:induction false} BackProbeBranch(w: World, v: World, s: Solo, key: Key, root: nat)
    requires Reaches(At(w, s, key, root, if key in w.branches then CheckIntent(w.branches[key]) else AppendIntent, Idle), v, s)
    ensures Reaches(At(w, s, key, root, ProbeBranch, Idle), v, s)
  {
    Back(w, v, s, key, root, ProbeBranch, Idle);
  }

  lemma {:induction false} BackCheckIntent(w: World, v: World, s: Solo, key: Key, root: nat, commit: Commit)
    requires Reaches(At(w, s, key, root, if !HasIntent(w.tables.journal, key) then Failed(BranchOccupied)
                           else if commit == key.base then CheckFailed else OrphanCheck, Idle), v, s)
    ensures Reaches(At(w, s, key, root, CheckIntent(commit), Idle), v, s)
  {
    Back(w, v, s, key, root, CheckIntent(commit), Idle);
  }

  lemma {:induction false} BackCheckFailed(w: World, v: World, s: Solo, key: Key, root: nat)
    requires Reaches(At(w, s, key, root, if HasFailure(w.tables.journal, key) then OrphanCheck else CheckCleanup, Idle), v, s)
    ensures Reaches(At(w, s, key, root, CheckFailed, Idle), v, s)
  {
    Back(w, v, s, key, root, CheckFailed, Idle);
  }

  lemma {:induction false} BackCheckCleanup(w: World, v: World, s: Solo, key: Key, root: nat)
    requires Reaches(At(w, s, key, root, if HasCleanup(w.tables.journal, key) then OrphanCheck else FindIntent(Waiting(0)), Idle), v, s)
    ensures Reaches(At(w, s, key, root, CheckCleanup, Idle), v, s)
  {
    Back(w, v, s, key, root, CheckCleanup, Idle);
  }

  lemma {:induction false} BackFindIntent(w: World, v: World, s: Solo, key: Key, root: nat, caller: Caller, git: Git)
    requires Reaches(At(w, s, key, root, if HasIntent(w.tables.journal, key) then Canonicalize(caller) else Unreconciled(caller), git), v, s)
    ensures Reaches(At(w, s, key, root, FindIntent(caller), git), v, s)
  {
    Back(w, v, s, key, root, FindIntent(caller), git);
  }

  lemma {:induction false} BackCanonicalize(w: World, v: World, s: Solo, key: Key, root: nat, caller: Caller, git: Git)
    requires Reaches(At(w, s, key, root, if RealPath(w.nodes, Managed(root, key)).Some?
                           then ListWorktrees(caller, RealPath(w.nodes, Managed(root, key)).value) else Unreconciled(caller), git), v, s)
    ensures Reaches(At(w, s, key, root, Canonicalize(caller), git), v, s)
  {
    Back(w, v, s, key, root, Canonicalize(caller), git);
  }

  lemma {:induction false} BackListWorktrees(w: World, v: World, s: Solo, key: Key, root: nat, caller: Caller, expected: Path, git: Git)
    requires Reaches(At(w, s, key, root, if Proven(w, key, expected) then ResolveDirectory(Reconciled) else Unreconciled(caller), git), v, s)
    ensures Reaches(At(w, s, key, root, ListWorktrees(caller, expected), git), v, s)
  {
    var u := At(w, s, key, root, ListWorktrees(caller, expected), git);
    assert Proven(u, key, expected) <==> Proven(w, key, expected) by {
      assert forall record :: Proves(u, record, key, expected) <==> Proves(w, record, key, expected);
    }
    Back(w, v, s, key, root, ListWorktrees(caller, expected), git);
  }

  lemma {:induction false} BackWaitCheckFailed(w: World, v: World, s: Solo, key: Key, root: nat, attempt: nat)
    requires Reaches(At(w, s, key, root, if HasFailure(w.tables.journal, key) then OrphanCheck else WaitCheckCleanup(attempt), Idle), v, s)
    ensures Reaches(At(w, s, key, root, WaitCheckFailed(attempt), Idle), v, s)
  {
    Back(w, v, s, key, root, WaitCheckFailed(attempt), Idle);
  }

  lemma {:induction false} BackWaitCheckCleanup(w: World, v: World, s: Solo, key: Key, root: nat, attempt: nat)
    requires Reaches(At(w, s, key, root, if HasCleanup(w.tables.journal, key) then OrphanCheck else FindIntent(Waiting(attempt + 1)), Idle), v, s)
    ensures Reaches(At(w, s, key, root, WaitCheckCleanup(attempt), Idle), v, s)
  {
    Back(w, v, s, key, root, WaitCheckCleanup(attempt), Idle);
  }

  lemma {:induction false} BackOrphanCheck(w: World, v: World, s: Solo, key: Key, root: nat)
    requires Reaches(At(w, s, key, root, if HasCleanup(w.tables.journal, key) then Failed(CleanupIsRequired) else OrphanAppend, Idle), v, s)
    ensures Reaches(At(w, s, key, root, OrphanCheck, Idle), v, s)
  {
    Back(w, v, s, key, root, OrphanCheck, Idle);
  }

  lemma {:induction false} BackOrphanAppend(w: World, v: World, s: Solo, key: Key, root: nat)
    requires Reaches(At(w.(tables := Append(w.tables, key, None, CleanupIntent(OrphanedBranch))), s, key, root, Failed(CleanupIsRequired), Idle), v, s)
    ensures Reaches(At(w, s, key, root, OrphanAppend, Idle), v, s)
  {
    Back(w, v, s, key, root, OrphanAppend, Idle);
  }

  lemma {:induction false} BackAppendIntent(w: World, v: World, s: Solo, key: Key, root: nat)
    requires Reaches(At(w.(tables := Append(w.tables, key, None, CreateIntent)), s, key, root, Creating, Adding), v, s)
    ensures Reaches(At(w, s, key, root, AppendIntent, Idle), v, s)
  {
    Back(w, v, s, key, root, AppendIntent, Idle);
  }

  lemma {:induction false} BackCreating(w: World, v: World, s: Solo, key: Key, root: nat)
    requires Reaches(At(w, s, key, root, ResolveDirectory(Created), Added), v, s)
    ensures Reaches(At(w, s, key, root, Creating, Added), v, s)
  {
    Back(w, v, s, key, root, Creating, Added);
  }

  lemma {:induction false} BackResolveDirectory(w: World, v: World, s: Solo, key: Key, root: nat, action: Action, canonical: Path, git: Git)
    requires RealPath(w.nodes, Managed(root, key)) == Some(canonical)
    requires Reaches(At(w, s, key, root, StatDirectory(action, canonical), git), v, s)
    ensures Reaches(At(w, s, key, root, ResolveDirectory(action), git), v, s)
  {
    Back(w, v, s, key, root, ResolveDirectory(action), git);
  }

  lemma {:induction false} BackStatDirectory(w: World, v: World, s: Solo, key: Key, root: nat, action: Action, canonical: Path, git: Git)
    requires var found := DirectoryAt(w.nodes, canonical);
             Reaches(At(w, s, key, root, if found.Some? then RegisterRow(action, canonical, found.value) else Failed(Infrastructure), git), v, s)
    ensures Reaches(At(w, s, key, root, StatDirectory(action, canonical), git), v, s)
  {
    Back(w, v, s, key, root, StatDirectory(action, canonical), git);
  }

  lemma {:induction false} BackRegisterRow(w: World, v: World, s: Solo, key: Key, root: nat, action: Action, canonical: Path, identity: Identity, git: Git)
    requires var (t, r) := RegisterTx(w.tables, key, s.candidate, canonical, identity, action);
             Reaches(At(w.(tables := t), s, key, root, if r.Ok? then ReadBack(r.value) else Failed(Infrastructure), git), v, s)
    ensures Reaches(At(w, s, key, root, RegisterRow(action, canonical, identity), git), v, s)
  {
    Back(w, v, s, key, root, RegisterRow(action, canonical, identity), git);
  }

  // ---- Each part of an undisturbed open. ----

  lemma {:induction false} BackAdding(w: World, v: World, s: Solo, key: Key, root: nat)
    requires key !in w.branches
    requires Reaches(At(w.(branches := w.branches[key := key.base]), s, key, root, Creating, Branched), v, s)
    ensures Reaches(At(w, s, key, root, Creating, Adding), v, s)
  {
    GitBack(w, w.(branches := w.branches[key := key.base]), v, s, key, root, Adding, Branched);
  }

  ghost function WithPartial(w: World, root: nat, key: Key, identity: Identity): World {
    w.(worktrees := w.worktrees + {Partial(root, key)},
       nodes := w.nodes[Managed(root, key) := Real(Managed(root, key), Directory(identity))])
  }

  lemma {:induction false} BackBranched(w: World, v: World, s: Solo, key: Key, root: nat)
    requires Managed(root, key) !in w.nodes
    requires Reaches(At(WithPartial(w, root, key, s.identity), s, key, root, Creating, Placed), v, s)
    ensures Reaches(At(w, s, key, root, Creating, Branched), v, s)
  {
    GitBack(w, WithPartial(w, root, key, s.identity), v, s, key, root, Branched, Placed);
  }

  lemma {:induction false} BackPlaced(w: World, v: World, s: Solo, key: Key, root: nat)
    requires Reaches(At(w.(worktrees := w.worktrees - {Partial(root, key)} + {Complete(root, key)}), s, key, root, Creating, Added), v, s)
    ensures Reaches(At(w, s, key, root, Creating, Placed), v, s)
  {
    GitBack(w, w.(worktrees := w.worktrees - {Partial(root, key)} + {Complete(root, key)}), v, s, key, root, Placed, Added);
  }

  /** From a directory at the target to the end of the registration. */
  lemma {:induction false} SoloRegisters(w: World, s: Solo, key: Key, root: nat, canonical: Path, identity: Identity, action: Action, git: Git)
    requires key !in w.tables.managed
    requires RealPath(w.nodes, Managed(root, key)) == Some(canonical) && DirectoryAt(w.nodes, canonical) == Some(identity)
    ensures Reaches(At(w, s, key, root, ResolveDirectory(action), git),
                    Registered(w, s, key, root, canonical, identity, action, git), s)
  {
    var v := Registered(w, s, key, root, canonical, identity, action, git);
    var (t, r) := RegisterTx(w.tables, key, s.candidate, canonical, identity, action);
    ReachesHere(v, s);
    if r.Ok? {
      BackReadBack(w.(tables := t), v, s, key, root, r.value, git);
    }
    BackRegisterRow(w, v, s, key, root, action, canonical, identity, git);
    BackStatDirectory(w, v, s, key, root, action, canonical, git);
    BackResolveDirectory(w, v, s, key, root, action, canonical, git);
  }

  /** An open of a key whose path and branch are free creates and registers. */
  lemma {:induction false} SoloCreates(w: World, s: Solo, key: Key, root: nat)
    requires key !in w.tables.managed && Managed(root, key) !in w.nodes && key !in w.branches
    ensures Reaches(At(w, s, key, root, ProbeBranch, Idle), OutcomeWithoutRow(w, s, key, root), s)
  {
    var v := OutcomeWithoutRow(w, s, key, root);
    var w0 := w.(tables := Append(w.tables, key, None, CreateIntent));
    var w1 := w0.(branches := w.branches[key := key.base]);
    var w2 := WithPartial(w1, root, key, s.identity);
    var w3 := WithWorktree(w, root, key, s.identity).(tables := w0.tables);
    SoloRegisters(w3, s, key, root, Managed(root, key), s.identity, Created, Added);
    BackCreating(w3, v, s, key, root);
    BackPlaced(w2, v, s, key, root);
    BackBranched(w1, v, s, key, root);
    BackAdding(w0, v, s, key, root);
    BackAppendIntent(w, v, s, key, root);
    BackProbeBranch(w, v, s, key, root);
  }

  ghost function Orphaned(w: World, s: Solo, key: Key, root: nat): World {
    var t := w.tables;
    At(w.(tables := if HasCleanup(t.journal, key) then t else Append(t, key, None, CleanupIntent(OrphanedBranch))),
       s, key, root, Failed(CleanupIsRequired), Idle)
  }

  lemma {:induction false} SoloOrphans(w: World, s: Solo, key: Key, root: nat)
    ensures Reaches(At(w, s, key, root, OrphanCheck, Idle), Orphaned(w, s, key, root), s)
  {
    var v := Orphaned(w, s, key, root);
    ReachesHere(v, s);
    if !HasCleanup(w.tables.journal, key) {
      BackOrphanAppend(w, v, s, key, root);
    }
    BackOrphanCheck(w, v, s, key, root);
  }

  /** Waiting for an in-flight creator that never comes: all attempts find nothing. */
  lemma {:induction false} SoloWaits(w: World, s: Solo, key: Key, root: nat, attempt: nat)
    requires Managed(root, key) !in w.nodes && HasIntent(w.tables.journal, key)
    requires !HasFailure(w.tables.journal, key) && !HasCleanup(w.tables.journal, key)
    requires attempt <= INFLIGHT_ATTEMPTS
    ensures Reaches(At(w, s, key, root, FindIntent(Waiting(attempt)), Idle), Orphaned(w, s, key, root), s)
    decreases INFLIGHT_ATTEMPTS - attempt
  {
    var v := Orphaned(w, s, key, root);
    if attempt == INFLIGHT_ATTEMPTS {
      SoloOrphans(w, s, key, root);
    } else {
      SoloWaits(w, s, key, root, attempt + 1);
      BackWaitCheckCleanup(w, v, s, key, root, attempt);
      BackWaitCheckFailed(w, v, s, key, root, attempt);
    }
    SoloMisses(w, v, s, key, root, Waiting(attempt));
  }

  lemma {:induction false} SoloMisses(w: World, v: World, s: Solo, key: Key, root: nat, caller: Caller)
    requires Managed(root, key) !in w.nodes && HasIntent(w.tables.journal, key)
    requires Reaches(At(w, s, key, root, Unreconciled(caller), Idle), v, s)
    ensures Reaches(At(w, s, key, root, FindIntent(caller), Idle), v, s)
  {
    BackCanonicalize(w, v, s, key, root, caller, Idle);
    BackFindIntent(w, v, s, key, root, caller, Idle);
  }

  lemma {:induction false} SoloFindsBranch(w: World, s: Solo, key: Key, root: nat)
    requires key !in w.tables.managed && Managed(root, key) !in w.nodes && key in w.branches
    ensures Reaches(At(w, s, key, root, ProbeBranch, Idle), OutcomeWithoutRow(w, s, key, root), s)
  {
    var v := OutcomeWithoutRow(w, s, key, root);
    var journal := w.tables.journal;
    if !HasIntent(journal, key) {
      ReachesHere(v, s);
    } else {
      assert v == Orphaned(w, s, key, root);
      SoloOrphans(w, s, key, root);
      if w.branches[key] == key.base {
        if !HasFailure(journal, key) {
          if !HasCleanup(journal, key) {
            SoloWaits(w, s, key, root, 0);
          }
          BackCheckCleanup(w, v, s, key, root);
        }
        BackCheckFailed(w, v, s, key, root);
      }
    }
    BackCheckIntent(w, v, s, key, root, w.branches[key]);
    BackProbeBranch(w, v, s, key, root);
  }

  lemma {:induction false} SoloFindsPath(w: World, s: Solo, key: Key, root: nat)
    requires key !in w.tables.managed && Managed(root, key) in w.nodes
    ensures Reaches(At(w, s, key, root, ProbePath, Idle), OutcomeWithoutRow(w, s, key, root), s)
  {
    var v := OutcomeWithoutRow(w, s, key, root);
    var node := w.nodes[Managed(root, key)];
    ReachesHere(v, s);
    if node != Denied {
      if HasIntent(w.tables.journal, key) {
        if node.Real? {
          SoloLists(w, s, key, root);
        }
        BackCanonicalize(w, v, s, key, root, Probing, Idle);
      }
      BackFindIntent(w, v, s, key, root, Probing, Idle);
    }
    BackProbePath(w, v, s, key, root);
  }

  lemma {:induction false} SoloLists(w: World, s: Solo, key: Key, root: nat)
    requires key !in w.tables.managed && HasIntent(w.tables.journal, key)
    requires Managed(root, key) in w.nodes && w.nodes[Managed(root, key)].Real?
    ensures Reaches(At(w, s, key, root, ListWorktrees(Probing, w.nodes[Managed(root, key)].canonical), Idle),
                    OutcomeWithoutRow(w, s, key, root), s)
  {
    var v := OutcomeWithoutRow(w, s, key, root);
    var node := w.nodes[Managed(root, key)];
    ReachesHere(v, s);
    var u := At(w, s, key, root, ListWorktrees(Probing, node.canonical), Idle);
    assert Proven(u, key, node.canonical) <==> Proven(w, key, node.canonical) by {
      assert forall record :: Proves(u, record, key, node.canonical) <==> Proves(w, record, key, node.canonical);
    }
    if Proven(w, key, node.canonical) {
      var found := DirectoryAt(w.nodes, node.canonical);
      if found.Some? {
        SoloRegisters(w, s, key, root, node.canonical, found.value, Reconciled, Idle);
      } else {
        BackStatDirectory(w, v, s, key, root, Reconciled, node.canonical, Idle);
        BackResolveDirectory(w, v, s, key, root, Reconciled, node.canonical, Idle);
      }
    }
    BackListWorktrees(w, v, s, key, root, Probing, node.canonical, Idle);
  }

  lemma {:induction false} SoloReuses(w: World, s: Solo, key: Key, root: nat)
    requires RowsSound(w.tables) && key in w.tables.managed
    ensures Reaches(At(w, s, key, root, ReadRow, Idle), Outcome(w, s, key, root), s)
  {
    var v, t := Outcome(w, s, key, root), w.tables;
    ReachesHere(v, s);
    if t.managed[key].status == Active {
      var id := t.managed[key].workspace;
      var canonical, identity := t.registry[id].canonical, t.registry[id].identity;
      if Inspect(w.nodes, canonical, identity) == Available {
        BackReadBack(w.(tables := TouchTx(t, id)), v, s, key, root, id, Idle);
        BackTouch(w, v, s, key, root, id);
      } else {
        BackMarkCleanup(w, v, s, key, root, id);
      }
      BackInspectPath(w, v, s, key, root, id, canonical, identity);
      BackReadIdentity(w, v, s, key, root, id, canonical);
      BackReadWorkspace(w, v, s, key, root, id);
    }
    BackReadRow(w, v, s, key, root);
  }

  lemma {:induction false} SoloRuns(w: World, s: Solo, key: Key, root: nat)
    requires RowsSound(w.tables)
    ensures Reaches(At(w, s, key, root, ReadRow, Idle), Outcome(w, s, key, root), s)
  {
    var v := Outcome(w, s, key, root);
    if key in w.tables.managed {
      SoloReuses(w, s, key, root);
    } else {
      if Managed(root, key) in w.nodes {
        SoloFindsPath(w, s, key, root);
      } else {
        if key in w.branches {
          SoloFindsBranch(w, s, key, root);
        } else {
          SoloCreates(w, s, key, root);
        }
        BackProbePath(w, v, s, key, root);
      }
      BackReadRow(w, v, s, key, root);
    }
  }

  lemma {:induction false} StartIs(w: World, s: Solo, key: Key, root: nat)
    requires s.o !in w.openers
    ensures Apply(w, Start(s.o, key, root)) == At(w, s, key, root, ReadRow, Idle)
  {
  }

  lemma {:induction false} FinishedRests(w: World, s: Solo)
    requires s.o in w.openers && w.openers[s.o].Finished()
    ensures Once(w, s) == w
  {
    assert w.openers[s.o := w.openers[s.o]] == w.openers;
  }

  ghost predicate Ended(v: World, s: Solo) {
    s.o in v.openers && v.openers[s.o].Finished()
  }

  lemma {:induction false} OutcomeWithoutRowEnds(w: World, s: Solo, key: Key, root: nat)
    ensures Ended(OutcomeWithoutRow(w, s, key, root), s)
  {
  }

  lemma {:induction false} OutcomeFinished(w: World, s: Solo, key: Key, root: nat)
    requires RowsSound(w.tables)
    ensures Ended(Outcome(w, s, key, root), s)
  {
    if key !in w.tables.managed {
      OutcomeWithoutRowEnds(w, s, key, root);
    }
  }

  /** An undisturbed open always ends, and ends in its Outcome: recovery is total. */
  lemma {:induction false} SoloOpen(w: World, s: Solo, key: Key, root: nat)
    requires RowsSound(w.tables) && s.o !in w.openers
    ensures Reaches(Apply(w, Start(s.o, key, root)), Outcome(w, s, key, root), s)
    ensures Once(Outcome(w, s, key, root), s) == Outcome(w, s, key, root)
  {
    StartIs(w, s, key, root);
    SoloRuns(w, s, key, root);
    OutcomeFinished(w, s, key, root);
    FinishedRests(Outcome(w, s, key, root), s);
  }

  // ---- One opener that crashes, and the next open. ----

  datatype Leftover = Nothing | BranchOnly | HalfBuilt | Unregistered | FullyRegistered

  /** No record proves a worktree of the key. */
  ghost predicate Unproven(w: World, key: Key) {
    forall record :: record in w.worktrees && record.branch == Some(key) ==> record.head != Some(key.base)
  }

  predicate OwnDirectory(w: World, key: Key, root: nat) {
    && Managed(root, key) in w.nodes
    && w.nodes[Managed(root, key)].Real?
    && w.nodes[Managed(root, key)].canonical == Managed(root, key)
    && w.nodes[Managed(root, key)].kind.Directory?
  }

  /** The row of the key describes the directory that is there. */
  ghost predicate RowFits(w: World, key: Key, root: nat) {
    && OwnDirectory(w, key, root)
    && key in w.tables.managed
    && w.tables.managed[key].status == Active
    && w.tables.managed[key].workspace in w.tables.registry
    && w.tables.registry[w.tables.managed[key].workspace].canonical == Managed(root, key)
    && w.tables.registry[w.tables.managed[key].workspace].identity == w.nodes[Managed(root, key)].kind.identity
  }

  ghost predicate Leaves(w: World, key: Key, root: nat, leftover: Leftover) {
    match leftover
    case Nothing => key !in w.tables.managed && key !in w.branches && Managed(root, key) !in w.nodes
    case BranchOnly =>
      && key !in w.tables.managed && HasIntent(w.tables.journal, key)
      && key in w.branches && Managed(root, key) !in w.nodes
    case HalfBuilt =>
      && key !in w.tables.managed && HasIntent(w.tables.journal, key)
      && key in w.branches && OwnDirectory(w, key, root) && Unproven(w, key)
    case Unregistered =>
      && key !in w.tables.managed && HasIntent(w.tables.journal, key)
      && key in w.branches && OwnDirectory(w, key, root) && Complete(root, key) in w.worktrees
    case FullyRegistered => RowFits(w, key, root)
  }

  /** Nothing of the key is there yet. Journal entries of earlier attempts may be. */
  ghost predicate Untouched(w: World, key: Key, root: nat) {
    && key !in w.tables.managed && key !in w.branches && Managed(root, key) !in w.nodes
    && forall record :: record in w.worktrees ==> record.branch != Some(key)
  }

  function LeftBy(w: World, me: Opener): Leftover {
    if me.key in w.tables.managed then FullyRegistered
    else match me.git
      case Branched => BranchOnly
      case Placed => HalfBuilt
      case Added => Unregistered
      case Broken(branched) =>
        if !branched then Nothing else if me.Target() in w.nodes then HalfBuilt else BranchOnly
      case _ => Nothing
  }

  /** Where a first opener of an untouched key can be. */
  predicate FirstPoint(me: Opener) {
    match me.point
    case ReadRow => me.git == Idle
    case ProbePath => me.git == Idle
    case ProbeBranch => me.git == Idle
    case AppendIntent => me.git == Idle
    case Creating => true
    case FindIntent(caller) => caller == AfterFailure && me.git.Broken?
    case Canonicalize(caller) => caller == AfterFailure && me.git.Broken?
    case ListWorktrees(caller, _) => caller == AfterFailure && me.git.Broken?
    case AppendFailed => me.git.Broken?
    case ResolveDirectory(_) => me.git == Added
    case StatDirectory(_, _) => me.git == Added
    case RegisterRow(_, _, _) => me.git == Added
    case ReadBack(_) => me.git == Added
    case Done(_) => me.git == Added
    case Failed(_) => true
    case Crashed => true
    case _ => false
  }

  /** What holds of the world and of the first opener of an untouched key. */
  ghost predicate FirstInv(w: World, me: Opener) {
    && FirstPoint(me)
    && Leaves(w, me.key, me.root, LeftBy(w, me))
    && (me.git != Added ==> Unproven(w, me.key))
    && (me.key in w.tables.managed ==> me.git == Added && (me.point.ReadBack? || me.Finished()))
    && (me.point.StatDirectory? ==> me.point.canonical == me.Target())
    && (me.point.RegisterRow? ==>
          && me.point.canonical == me.Target()
          && me.point.identity == w.nodes[me.Target()].kind.identity)
  }

  function Advanced(w: World, me: Opener, candidate: WorkspaceId): Opener {
    var (_, point, git) := Next(w, me, candidate);
    me.(point := point, git := git)
  }

  lemma {:induction false} FirstReads(w: World, me: Opener, candidate: WorkspaceId)
    requires FirstInv(w, me) && Reads(me.point)
    ensures Next(w, me, candidate).0 == w.tables && Advanced(w, me, candidate).git == me.git
    ensures FirstInv(w, Advanced(w, me, candidate))
  {
    if me.point.ListWorktrees? {
      assert !Proven(w, me.key, me.point.expected);
    }
  }

  lemma {:induction false} FirstAppends(w: World, me: Opener, candidate: WorkspaceId)
    requires FirstInv(w, me) && (me.point.AppendIntent? || me.point.AppendFailed?)
    ensures FirstInv(w.(tables := Next(w, me, candidate).0), Advanced(w, me, candidate))
  {
    JournalMonotone(w.tables, Next(w, me, candidate).0, me.key);
  }

  lemma {:induction false} FirstRegisters(w: World, me: Opener, candidate: WorkspaceId)
    requires FirstInv(w, me) && me.point.RegisterRow?
    ensures FirstInv(w.(tables := Next(w, me, candidate).0), Advanced(w, me, candidate))
  {
  }

  lemma {:induction false} FirstFrame(w: World, me: Opener, openers: map<OpenerId, Opener>)
    requires FirstInv(w, me)
    ensures FirstInv(w.(openers := openers), me)
  {
  }

  lemma {:induction false} FirstAdds(w: World, o: OpenerId, succeeds: bool, identity: Identity)
    requires o in w.openers && FirstInv(w, w.openers[o]) && w.openers[o].git == Adding && HasIntent(w.tables.journal, w.openers[o].key)
    ensures var v := GitNext(w, o, succeeds, identity); FirstInv(v, v.openers[o])
  {
  }

  lemma {:induction false} FirstPlaces(w: World, o: OpenerId, succeeds: bool, identity: Identity)
    requires o in w.openers && FirstInv(w, w.openers[o]) && w.openers[o].git == Branched
    ensures var v := GitNext(w, o, succeeds, identity); FirstInv(v, v.openers[o])
  {
  }

  lemma {:induction false} FirstCompletes(w: World, o: OpenerId, succeeds: bool, identity: Identity)
    requires o in w.openers && FirstInv(w, w.openers[o]) && w.openers[o].git == Placed
    ensures var v := GitNext(w, o, succeeds, identity); FirstInv(v, v.openers[o])
  {
  }

  lemma {:induction false} FirstAdvances(w: World, o: OpenerId, candidate: WorkspaceId)
    requires o in w.openers && FirstInv(w, w.openers[o])
    ensures var v := Apply(w, Advance(o, candidate)); FirstInv(v, v.openers[o])
  {
    var me := w.openers[o];
    var u := w.(tables := Next(w, me, candidate).0);
    if Reads(me.point) {
      FirstReads(w, me, candidate);
    } else if me.point.RegisterRow? {
      FirstRegisters(w, me, candidate);
    } else {
      FirstAppends(w, me, candidate);
    }
    FirstFrame(u, Advanced(w, me, candidate), Apply(w, Advance(o, candidate)).openers);
  }

  lemma {:induction false} FirstStops(w: World, o: OpenerId, point: Point)
    requires o in w.openers && FirstInv(w, w.openers[o]) && (point == Crashed || point.Failed?)
    ensures FirstInv(w.(openers := w.openers[o := w.openers[o].(point := point)]), w.openers[o].(point := point))
  {
  }

  /** Every step of the first opener and of its Git child, and every way to break off. */
  lemma {:induction false} FirstStep(w: World, o: OpenerId, step: Step)
    requires Inv(w) && o in w.openers && FirstInv(w, w.openers[o]) && OwnStep(step, o)
    ensures var v := Apply(w, step); o in v.openers && FirstInv(v, v.openers[o])
  {
    match step {
      case Advance(_, candidate) => FirstAdvances(w, o, candidate);
      case GitAdvance(_, succeeds, identity) =>
        assert OpenerInv(w.tables, w.openers[o]);
        match w.openers[o].git {
          case Adding => FirstAdds(w, o, succeeds, identity);
          case Branched => FirstPlaces(w, o, succeeds, identity);
          case Placed => FirstCompletes(w, o, succeeds, identity);
          case _ =>
        }
      case Throw(_) => FirstStops(w, o, Failed(Infrastructure));
      case Crash(_) => FirstStops(w, o, Crashed);
      case _ =>
    }
  }

  /** Whatever a first opener of an untouched key did before it broke off, and wherever
      its Git child stopped, it leaves the key in one of the five states. */
  lemma {:induction false} CrashLeaves(w: World, o: OpenerId, key: Key, root: nat, steps: seq<Step>)
    requires Inv(w) && Untouched(w, key, root) && o !in w.openers
    requires forall step :: step in steps ==> OwnStep(step, o)
    ensures var v := Run(Apply(w, Start(o, key, root)), steps);
            && Inv(v) && o in v.openers && v.openers[o].key == key && v.openers[o].root == root
            && FirstInv(v, v.openers[o])
            && Leaves(v, key, root, LeftBy(v, v.openers[o]))
  {
    var u := Apply(w, Start(o, key, root));
    StepKeeps(w, Start(o, key, root));
    if steps == [] {
      FirstStarts(w, o, key, root);
    } else {
      var init, last := steps[..|steps| - 1], steps[|steps| - 1];
      CrashLeaves(w, o, key, root, init);
      assert last in steps;
      FirstStep(Run(u, init), o, last);
      KeyStays(Run(u, init), last, o);
      StepKeeps(Run(u, init), last);
    }
  }

  lemma {:induction false} FirstStarts(w: World, o: OpenerId, key: Key, root: nat)
    requires Untouched(w, key, root) && o !in w.openers
    ensures FirstInv(Apply(w, Start(o, key, root)), Opener(key, root, ReadRow, Idle))
    ensures Apply(w, Start(o, key, root)).openers[o] == Opener(key, root, ReadRow, Idle)
  {
  }

  /** A workspace id nobody has, and a target path no other row holds. */
  ghost predicate Free(t: Tables, candidate: WorkspaceId, target: Path) {
    && candidate !in t.registry && !PathTaken(t, target)
    && forall identity :: !RegistryHas(t, target, identity, Worktree)
  }

  /** What the next undisturbed open makes of each leftover: it creates, fails closed,
      fails closed, adopts, or reuses. */
  ghost predicate Recovers(w: World, v: World, s: Solo, key: Key, root: nat, leftover: Leftover)
  {
    var t, u := w.tables, v.tables;
    && s.o in v.openers
    && (match leftover
        case Nothing =>
          && v.openers[s.o].point == Done(s.candidate)
          && u.journal == t.journal + [Event(key, None, CreateIntent), Event(key, Some(s.candidate), Created)]
          && u.managed == t.managed[key := Row(s.candidate, Managed(root, key), Active)]
          && Leaves(v, key, root, FullyRegistered)
        case BranchOnly =>
          && v.openers[s.o].point == Failed(CleanupIsRequired)
          && u == (if HasCleanup(t.journal, key) then t else Append(t, key, None, CleanupIntent(OrphanedBranch)))
          && v == w.(tables := u, openers := v.openers)
        case HalfBuilt =>
          && v.openers[s.o].point == Failed(PathOccupied)
          && v == w.(openers := v.openers)
        case Unregistered =>
          && v.openers[s.o].point == Done(s.candidate)
          && u.journal == t.journal + [Event(key, Some(s.candidate), Reconciled)]
          && u.managed == t.managed[key := Row(s.candidate, Managed(root, key), Active)]
          && v == w.(tables := u, openers := v.openers)
          && Leaves(v, key, root, FullyRegistered)
        case FullyRegistered =>
          && key in t.managed && v.openers[s.o].point == Done(t.managed[key].workspace)
          && u.journal == t.journal && u.managed == t.managed
          && v == w.(tables := u, openers := v.openers))
  }

  lemma {:induction false} RecoversNothing(w: World, s: Solo, key: Key, root: nat)
    requires Free(w.tables, s.candidate, Managed(root, key)) && Leaves(w, key, root, Nothing)
    ensures Recovers(w, OutcomeWithoutRow(w, s, key, root), s, key, root, Nothing)
  {
    var t := w.tables;
    var t1 := Append(t, key, None, CreateIntent);
    assert RegistryHas(t1, Managed(root, key), s.identity, Worktree) == RegistryHas(t, Managed(root, key), s.identity, Worktree);
    assert PathTaken(t1, Managed(root, key)) == PathTaken(t, Managed(root, key));
    assert RegisterTx(t1, key, s.candidate, Managed(root, key), s.identity, Created)
        == (Inserted(t1, key, s.candidate, Managed(root, key), s.identity, Created), Ok(s.candidate));
    assert t.journal + [Event(key, None, CreateIntent)] + [Event(key, Some(s.candidate), Created)]
        == t.journal + [Event(key, None, CreateIntent), Event(key, Some(s.candidate), Created)];
  }

  lemma {:induction false} RecoversUnregistered(w: World, s: Solo, key: Key, root: nat)
    requires Free(w.tables, s.candidate, Managed(root, key)) && Leaves(w, key, root, Unregistered)
    ensures Recovers(w, OutcomeWithoutRow(w, s, key, root), s, key, root, Unregistered)
  {
    assert Proves(w, Complete(root, key), key, Managed(root, key));
  }

  lemma {:induction false} RecoversHalfBuilt(w: World, s: Solo, key: Key, root: nat)
    requires Leaves(w, key, root, HalfBuilt)
    ensures Recovers(w, OutcomeWithoutRow(w, s, key, root), s, key, root, HalfBuilt)
  {
    assert !Proven(w, key, Managed(root, key));
  }

  lemma {:induction false} RecoversRegistered(w: World, s: Solo, key: Key, root: nat)
    requires RowsSound(w.tables) && Leaves(w, key, root, FullyRegistered)
    ensures Recovers(w, Outcome(w, s, key, root), s, key, root, FullyRegistered)
  {
  }

  lemma {:induction false} Recovered(w: World, s: Solo, key: Key, root: nat, leftover: Leftover)
    requires RowsSound(w.tables) && Leaves(w, key, root, leftover)
    requires leftover == Nothing || leftover == Unregistered ==> Free(w.tables, s.candidate, Managed(root, key))
    ensures Recovers(w, Outcome(w, s, key, root), s, key, root, leftover)
  {
    match leftover {
      case Nothing => RecoversNothing(w, s, key, root);
      case BranchOnly =>
      case HalfBuilt => RecoversHalfBuilt(w, s, key, root);
      case Unregistered => RecoversUnregistered(w, s, key, root);
      case FullyRegistered => RecoversRegistered(w, s, key, root);
    }
  }

  /** Crash recovery is total: after a first opener of the key broke off anywhere, the
      next undisturbed open ends, and ends as its leftover demands. */
  lemma {:induction false} CrashRecovery(w: World, o: OpenerId, key: Key, root: nat, steps: seq<Step>, s: Solo)
    requires Inv(w) && Untouched(w, key, root) && o !in w.openers
    requires forall step :: step in steps ==> OwnStep(step, o)
    requires var v := Run(Apply(w, Start(o, key, root)), steps);
             && s.o !in v.openers
             && (key !in v.tables.managed ==> Free(v.tables, s.candidate, Managed(root, key)))
    ensures var v := Run(Apply(w, Start(o, key, root)), steps);
            && o in v.openers && RowsSound(v.tables)
            && Reaches(Apply(v, Start(s.o, key, root)), Outcome(v, s, key, root), s)
            && Once(Outcome(v, s, key, root), s) == Outcome(v, s, key, root)
            && Recovers(v, Outcome(v, s, key, root), s, key, root, LeftBy(v, v.openers[o]))
  {
    var v := Run(Apply(w, Start(o, key, root)), steps);
    CrashLeaves(w, o, key, root, steps);
    SoloOpen(v, s, key, root);
    Recovered(v, s, key, root, LeftBy(v, v.openers[o]));
  }
}
