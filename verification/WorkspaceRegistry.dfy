/** The registry as a program: the statements of an open in the source's own order, on the shared
    tables, branches, worktree records and files. */
module WorkspaceRegistryCode {
  import opened Wrappers
  import opened WorkspaceTables
  import opened WorktreeProtocol
  import WorktreeSafety
  import opened OpenCases
  import opened OpenCauses

  /** What an open is about: its ownership key and the managed root of its process. */
  datatype Registration = Registration(key: Key, root: nat) {
    function WorktreePath(): Path { Managed(root, key) }
  }

  /** A row of that checkout is returned, made available and with one more version; or, when there is
      none, a new row with the candidate id, unless that is taken. No other row changes. */
  ghost predicate Upserted(before: map<WorkspaceId, Workspace>, registry: map<WorkspaceId, Workspace>, canonical: Path, identity: Identity,
                           candidate: WorkspaceId, r: Result<WorkspaceId, SqlError>) {
    if exists id :: id in before && before[id].canonical == canonical && before[id].identity == identity && before[id].mode == Checkout then
      && r.Ok? && r.value in before && before[r.value].canonical == canonical && before[r.value].identity == identity
      && before[r.value].mode == Checkout
      && registry == before[r.value := Workspace(canonical, identity, Checkout, Available, before[r.value].version + 1)]
    else if candidate in before then r.Err? && registry == before
    else r == Ok(candidate) && registry == before[candidate := Workspace(canonical, identity, Checkout, Available, 1)]
  }

  /** Only the calls of a faulty opener fail, and every open draws its own id. */
  ghost predicate Lawful(step: Step, faulty: set<OpenerId>, drawn: OpenerId -> WorkspaceId) {
    match step
    case Advance(o, candidate) => candidate == drawn(o)
    case GitAdvance(o, succeeds, _) => succeeds || o in faulty
    case Throw(o) => o in faulty
    case _ => true
  }

  /** The registries of all processes together. `openers` and `history` are ghosts: they say which
      run of the protocol the programs have made so far. Between any two statements of one open,
      others may take any steps. */
  class WorkspaceRegistry {
    var registry: map<WorkspaceId, Workspace>
    var managed: map<Key, Row>
    var journal: seq<Event>
    var branches: map<Key, Commit>
    var worktrees: set<Record>
    var nodes: map<Path, Node>
    ghost var openers: map<OpenerId, Opener>
    ghost var history: seq<Step>
    ghost const start: World
    /** The opens of which some call into Git or the file system fails. */
    const faulty: set<OpenerId>
    /** The random id that an open would give a new workspace. */
    const drawn: OpenerId -> WorkspaceId

    function Db(): Tables
      reads this
    {
      Tables(registry, managed, journal)
    }

    ghost function Now(): World
      reads this
    {
      World(Db(), branches, worktrees, nodes, openers)
    }

    ghost predicate Valid()
      reads this
    {
      && Initial(start) && Now() == Run(start, history)
      && forall step :: step in history ==> Lawful(step, faulty, drawn)
    }

    /** The opener is about to run the statement at this point. */
    ghost predicate Is(o: OpenerId, m: Registration, point: Point, git: Git)
      reads this
    {
      o in openers && openers[o] == Opener(m.key, m.root, point, git)
    }

    /** The open has returned this result. */
    ghost predicate Ended(o: OpenerId, m: Registration, r: Result<WorkspaceId, Error>)
      reads this
    {
      && o in openers && openers[o].key == m.key && openers[o].root == m.root
      && openers[o].point == if r.Ok? then Done(r.value) else Failed(r.error)
    }

    constructor (branches: map<Key, Commit>, worktrees: set<Record>, nodes: map<Path, Node>, faulty: set<OpenerId>, drawn: OpenerId -> WorkspaceId)
      ensures Valid() && history == [] && this.faulty == faulty && this.drawn == drawn && Now() == World(EMPTY_TABLES, branches, worktrees, nodes, map[])
    {
      registry, managed, journal := map[], map[], [];
      this.branches, this.worktrees, this.nodes := branches, worktrees, nodes;
      openers, history := map[], [];
      this.faulty, this.drawn := faulty, drawn;
      start := World(EMPTY_TABLES, branches, worktrees, nodes, map[]);
    }

    /** Anything other openers, other processes and the surroundings may do meanwhile. */
    method Others(o: OpenerId)
      requires Valid() && o in openers
      modifies this
      ensures Valid() && old(history) <= history
      ensures o in openers && openers[o] == old(openers[o])
    {
    }

    ghost method Follow(step: Step, before: World)
      requires Initial(start) && before == Run(start, history)
      requires Lawful(step, faulty, drawn) && forall earlier :: earlier in history ==> Lawful(earlier, faulty, drawn)
      requires Apply(before, step) == Now().(openers := Apply(before, step).openers)
      modifies `openers, `history
      ensures Valid() && history == old(history) + [step] && openers == Apply(before, step).openers
    {
      RunConcat(start, history, [step]);
      assert Run(Run(start, history), [step]) == Apply(Run(start, history), step) by {
        assert [step][..0] == [];
      }
      openers := Apply(before, step).openers;
      history := history + [step];
    }

    /** A statement that only reads has brought the opener to its next point. */
    ghost method Observe(o: OpenerId, m: Registration, point: Point, git: Git, next: Point)
      requires Valid() && Is(o, m, point, git)
      requires WorktreeProtocol.Next(Now(), Opener(m.key, m.root, point, git), drawn(o)) == (Db(), next, git)
      modifies `openers, `history
      ensures Valid() && old(history) <= history && Is(o, m, next, git)
    {
      Follow(Advance(o, drawn(o)), Now());
    }

    /** A statement or transaction has changed the tables. */
    ghost method Wrote(o: OpenerId, m: Registration, point: Point, git: Git, next: Point, after: Git, before: World)
      requires Initial(start) && before == Run(start, history)
      requires forall earlier :: earlier in history ==> Lawful(earlier, faulty, drawn)
      requires o in before.openers && before.openers[o] == Opener(m.key, m.root, point, git) && before.openers == openers
      requires WorktreeProtocol.Next(before, Opener(m.key, m.root, point, git), drawn(o)) == (Db(), next, after)
      requires branches == before.branches && worktrees == before.worktrees && nodes == before.nodes
      modifies `openers, `history
      ensures Valid() && old(history) <= history && Is(o, m, next, after)
    {
      Follow(Advance(o, drawn(o)), before);
    }

    /** A call into Git or the file system may throw instead of answering, if the open is faulty. */
    method MayThrow(m: Registration, ghost point: Point, o: OpenerId, ghost git: Git) returns (threw: bool)
      requires Valid() && Is(o, m, point, git) && !openers[o].Finished()
      modifies this
      ensures Valid() && old(history) <= history
      ensures Is(o, m, if threw then Failed(Infrastructure) else point, git)
      ensures threw ==> o in faulty
    {
      Others(o);
      var fails: bool := *;
      threw := fails && o in faulty;
      if threw {
        Follow(Throw(o), Now());
      }
    }

    /** The last read of every successful open. */
    method ReadRequired(m: Registration, id: WorkspaceId, o: OpenerId, ghost git: Git) returns (r: Result<WorkspaceId, Error>)
      requires Valid() && Is(o, m, ReadBack(id), git)
      modifies this
      ensures Valid() && old(history) <= history
      ensures Is(o, m, if r.Ok? then Done(r.value) else Failed(r.error), git)
    {
      Others(o);
      r := if id in registry then Ok(id) else Err(Infrastructure);
      Observe(o, m, ReadBack(id), git, if r.Ok? then Done(id) else Failed(Infrastructure));
    }

    /** Whether the workspace of an active row still has its directory. */
    method CheckRow(m: Registration, id: WorkspaceId, o: OpenerId, ghost git: Git) returns (r: Result<bool, Error>)
      requires Valid() && Is(o, m, ReadWorkspace(id), git)
      modifies this
      ensures Valid() && old(history) <= history
      ensures Is(o, m, if r.Err? then Failed(r.error) else if r.value then Touch(id) else MarkCleanup(id), git)
    {
      Others(o);
      if id !in registry {
        Observe(o, m, ReadWorkspace(id), git, MarkCleanup(id));
        return Ok(false);
      }
      var canonical := registry[id].canonical;
      Observe(o, m, ReadWorkspace(id), git, ReadIdentity(id, canonical));
      r := CheckWorkspace(m, id, canonical, o, git);
    }

    /** The identity on record and the `stat` it is compared with. */
    method CheckWorkspace(m: Registration, id: WorkspaceId, canonical: Path, o: OpenerId, ghost git: Git)
        returns (r: Result<bool, Error>)
      requires Valid() && Is(o, m, ReadIdentity(id, canonical), git)
      modifies this
      ensures Valid() && old(history) <= history
      ensures Is(o, m, if r.Err? then Failed(r.error) else if r.value then Touch(id) else MarkCleanup(id), git)
    {
      Others(o);
      if id !in registry {
        Observe(o, m, ReadIdentity(id, canonical), git, Failed(Infrastructure));
        return Err(Infrastructure);
      }
      var identity := registry[id].identity;
      Observe(o, m, ReadIdentity(id, canonical), git, InspectPath(id, canonical, identity));
      var threw := MayThrow(m, InspectPath(id, canonical, identity), o, git);
      if threw {
        return Err(Infrastructure);
      }
      var status := Inspect(nodes, canonical, identity);
      Observe(o, m, InspectPath(id, canonical, identity), git, if status == Available then Touch(id) else MarkCleanup(id));
      return Ok(status == Available);
    }

    method TouchRow(m: Registration, id: WorkspaceId, o: OpenerId, ghost git: Git)
      requires Valid() && Is(o, m, Touch(id), git)
      modifies this
      ensures Valid() && old(history) <= history && Is(o, m, ReadBack(id), git)
    {
      Others(o);
      ghost var before := Now();
      if id in registry {
        var w := registry[id];
        registry := registry[id := w.(status := Available, version := w.version + 1)];
      }
      Wrote(o, m, Touch(id), git, ReadBack(id), git, before);
    }

    /** The transaction that retires a row whose directory is gone. */
    method RetireRow(m: Registration, id: WorkspaceId, o: OpenerId, ghost git: Git)
      requires Valid() && Is(o, m, MarkCleanup(id), git)
      modifies this
      ensures Valid() && old(history) <= history && Is(o, m, Failed(CleanupIsRequired), git)
    {
      Others(o);
      ghost var before := Now();
      if m.key in managed && managed[m.key].status == Active {
        managed := managed[m.key := managed[m.key].(status := CleanupRequired)];
        journal := journal + [Event(m.key, Some(id), CleanupIntent(PathUnavailable))];
      }
      Wrote(o, m, MarkCleanup(id), git, Failed(CleanupIsRequired), git, before);
    }

    /** What an open does with an active row. */
    method ReuseRow(m: Registration, id: WorkspaceId, o: OpenerId, ghost git: Git) returns (r: Result<WorkspaceId, Error>)
      requires Valid() && Is(o, m, ReadWorkspace(id), git)
      modifies this
      ensures Valid() && old(history) <= history
      ensures Is(o, m, if r.Ok? then Done(r.value) else Failed(r.error), git)
    {
      var checked := CheckRow(m, id, o, git);
      if checked.Err? {
        return Err(checked.error);
      }
      if checked.value {
        TouchRow(m, id, o, git);
        r := ReadRequired(m, id, o, git);
        return;
      }
      RetireRow(m, id, o, git);
      return Err(CleanupIsRequired);
    }

    /** Both inserts and the journal entry in one transaction; a constraint violation undoes all. */
    method Register(m: Registration, candidate: WorkspaceId, canonical: Path, identity: Identity, action: Action,
                    o: OpenerId, ghost git: Git) returns (r: Result<WorkspaceId, SqlError>)
      requires Valid() && Is(o, m, RegisterRow(action, canonical, identity), git) && candidate == drawn(o)
      modifies this
      ensures Valid() && old(history) <= history
      ensures (Db(), r) == RegisterTx(old(Db()), m.key, candidate, canonical, identity, action)
      ensures Is(o, m, if r.Ok? then ReadBack(r.value) else Failed(Infrastructure), git)
    {
      ghost var before := Now();
      if m.key in managed && managed[m.key].status == Active {
        r := Ok(managed[m.key].workspace);
      } else if candidate in registry || RegistryHas(Db(), canonical, identity, Worktree) {
        r := Err(ConstraintViolation);
      } else {
        var rollback := registry;
        registry := registry[candidate := Workspace(canonical, identity, Worktree, Available, 1)];
        if m.key in managed || PathTaken(Db(), canonical) {
          registry := rollback;
          r := Err(ConstraintViolation);
        } else {
          managed := managed[m.key := Row(candidate, canonical, Active)];
          journal := journal + [Event(m.key, Some(candidate), action)];
          r := Ok(candidate);
        }
      }
      Wrote(o, m, RegisterRow(action, canonical, identity), git,
            if r.Ok? then ReadBack(r.value) else Failed(Infrastructure), git, before);
    }

    method RegisterManagedWorktree(m: Registration, action: Action, o: OpenerId, ghost git: Git) returns (r: Result<WorkspaceId, Error>)
      requires Valid() && Is(o, m, ResolveDirectory(action), git)
      modifies this
      ensures Valid() && old(history) <= history
      ensures Is(o, m, if r.Ok? then Done(r.value) else Failed(r.error), git)
    {
      Others(o);
      var canonical := RealPath(nodes, m.WorktreePath());
      if canonical.None? {
        Observe(o, m, ResolveDirectory(action), git, Failed(Infrastructure));
        return Err(Infrastructure);
      }
      Observe(o, m, ResolveDirectory(action), git, StatDirectory(action, canonical.value));
      r := RegisterDirectory(m, action, canonical.value, o, git);
    }

    /** The `stat` of the resolved directory, and its registration. */
    method RegisterDirectory(m: Registration, action: Action, canonical: Path, o: OpenerId, ghost git: Git)
        returns (r: Result<WorkspaceId, Error>)
      requires Valid() && Is(o, m, StatDirectory(action, canonical), git)
      modifies this
      ensures Valid() && old(history) <= history
      ensures Is(o, m, if r.Ok? then Done(r.value) else Failed(r.error), git)
    {
      Others(o);
      var found := DirectoryAt(nodes, canonical);
      if found.None? {
        Observe(o, m, StatDirectory(action, canonical), git, Failed(Infrastructure));
        return Err(Infrastructure);
      }
      var identity := found.value;
      Observe(o, m, StatDirectory(action, canonical), git, RegisterRow(action, canonical, identity));
      r := RegisterAndRead(m, action, canonical, identity, o, git);
    }

    /** The transaction and the read that follows it. */
    method RegisterAndRead(m: Registration, action: Action, canonical: Path, identity: Identity, o: OpenerId, ghost git: Git)
        returns (r: Result<WorkspaceId, Error>)
      requires Valid() && Is(o, m, RegisterRow(action, canonical, identity), git)
      modifies this
      ensures Valid() && old(history) <= history
      ensures Is(o, m, if r.Ok? then Done(r.value) else Failed(r.error), git)
    {
      Others(o);
      var registered := Register(m, drawn(o), canonical, identity, action, o, git);
      if registered.Err? {
        return Err(Infrastructure);
      }
      r := ReadRequired(m, registered.value, o, git);
    }

    /** The loop over the listed worktrees: whether one of them proves the key's ownership. */
    method FindOwned(m: Registration, expected: Path) returns (found: bool)
      requires Valid()
      ensures found <==> Proven(Now(), m.key, expected)
    {
      var rest := worktrees;
      while rest != {}
        invariant rest <= worktrees
        invariant forall record :: record in worktrees - rest ==> !Proves(Now(), record, m.key, expected)
        decreases |rest|
      {
        var record :| record in rest;
        if RealPath(nodes, record.path) == Some(expected) && record.head == Some(m.key.base)
           && record.branch == Some(m.key) && record.lock == Some(m.key) {
          assert Proves(Now(), record, m.key, expected);
          return true;
        }
        rest := rest - {record};
      }
      return false;
    }

    /** None: nothing was found, and the caller goes on. */
    method TryReconcilePartialWorktree(m: Registration, ghost caller: Caller, o: OpenerId, ghost git: Git)
        returns (r: Option<Result<WorkspaceId, Error>>)
      requires Valid() && Is(o, m, FindIntent(caller), git)
      modifies this
      ensures Valid() && old(history) <= history
      ensures Is(o, m, if r.None? then Unreconciled(caller) else if r.value.Ok? then Done(r.value.value) else Failed(r.value.error), git)
    {
      Others(o);
      if !HasIntent(journal, m.key) {
        Observe(o, m, FindIntent(caller), git, Unreconciled(caller));
        return None;
      }
      Observe(o, m, FindIntent(caller), git, Canonicalize(caller));
      Others(o);
      var canonical := RealPath(nodes, m.WorktreePath());
      if canonical.None? {
        Observe(o, m, Canonicalize(caller), git, Unreconciled(caller));
        return None;
      }
      Observe(o, m, Canonicalize(caller), git, ListWorktrees(caller, canonical.value));
      r := ReconcileListed(m, canonical.value, caller, o, git);
    }

    method ReconcileListed(m: Registration, expected: Path, ghost caller: Caller, o: OpenerId, ghost git: Git)
        returns (r: Option<Result<WorkspaceId, Error>>)
      requires Valid() && Is(o, m, ListWorktrees(caller, expected), git)
      modifies this
      ensures Valid() && old(history) <= history
      ensures Is(o, m, if r.None? then Unreconciled(caller) else if r.value.Ok? then Done(r.value.value) else Failed(r.value.error), git)
    {
      var threw := MayThrow(m, ListWorktrees(caller, expected), o, git);
      if threw {
        return Some(Err(Infrastructure));
      }
      var found := FindOwned(m, expected);
      if !found {
        Observe(o, m, ListWorktrees(caller, expected), git, Unreconciled(caller));
        return None;
      }
      Observe(o, m, ListWorktrees(caller, expected), git, ResolveDirectory(Reconciled));
      var registered := RegisterManagedWorktree(m, Reconciled, o, git);
      return Some(registered);
    }

    /** Waiting for another opener that may still be creating the worktree. */
    method WaitForInflightWorktree(m: Registration, o: OpenerId, ghost git: Git)
        returns (r: Option<Result<WorkspaceId, Error>>)
      requires Valid() && Is(o, m, FindIntent(Waiting(0)), git)
      modifies this
      ensures Valid() && old(history) <= history
      ensures Is(o, m, if r.None? then OrphanCheck else if r.value.Ok? then Done(r.value.value) else Failed(r.value.error), git)
    {
      var attempt := 0;
      while attempt < INFLIGHT_ATTEMPTS
        invariant attempt <= INFLIGHT_ATTEMPTS && Valid() && old(history) <= history
        invariant Is(o, m, FindIntent(Waiting(attempt)), git)
      {
        r := TryReconcilePartialWorktree(m, Waiting(attempt), o, git);
        if r.Some? {
          return;
        }
        var over := InflightIsOver(m, attempt, o, git);
        if over {
          return None;
        }
        attempt := attempt + 1;
      }
      r := TryReconcilePartialWorktree(m, Waiting(attempt), o, git);
    }

    method InflightIsOver(m: Registration, ghost attempt: nat, o: OpenerId, ghost git: Git) returns (over: bool)
      requires Valid() && Is(o, m, WaitCheckFailed(attempt), git)
      modifies this
      ensures Valid() && old(history) <= history
      ensures Is(o, m, if over then OrphanCheck else FindIntent(Waiting(attempt + 1)), git)
    {
      Others(o);
      if HasFailure(journal, m.key) {
        Observe(o, m, WaitCheckFailed(attempt), git, OrphanCheck);
        return true;
      }
      Observe(o, m, WaitCheckFailed(attempt), git, WaitCheckCleanup(attempt));
      Others(o);
      over := HasCleanup(journal, m.key);
      Observe(o, m, WaitCheckCleanup(attempt), git, if over then OrphanCheck else FindIntent(Waiting(attempt + 1)));
    }

    /** One step of the Git child of this opener. */
    ghost method ChildStepped(o: OpenerId, m: Registration, git: Git, succeeds: bool, identity: Identity, after: Git, before: World)
      requires Initial(start) && before == Run(start, history) && before.openers == openers && Db() == before.tables
      requires (succeeds || o in faulty) && forall earlier :: earlier in history ==> Lawful(earlier, faulty, drawn)
      requires Is(o, m, Creating, git)
      requires GitNext(before, o, succeeds, identity)
               == World(Db(), branches, worktrees, nodes, openers[o := openers[o].(git := after)])
      modifies `openers, `history
      ensures Valid() && old(history) <= history && Is(o, m, Creating, after)
    {
      Follow(GitAdvance(o, succeeds, identity), before);
    }

    /** The branch of a `git worktree add`, unless it exists. */
    method AddBranch(m: Registration, o: OpenerId) returns (ok: bool)
      requires Valid() && Is(o, m, Creating, Adding)
      modifies this
      ensures Valid() && old(history) <= history && Is(o, m, Creating, if ok then Branched else Broken(false))
    {
      Others(o);
      var fails: bool := *;
      var succeeds := !(fails && o in faulty);
      ok := succeeds && m.key !in branches;
      ghost var before := Now();
      if ok {
        branches := branches[m.key := m.key.base];
      }
      ChildStepped(o, m, Adding, succeeds, 0, if ok then Branched else Broken(false), before);
    }

    /** Its directory and locked record, unless the path exists. */
    method AddLockedPath(m: Registration, o: OpenerId) returns (ok: bool)
      requires Valid() && Is(o, m, Creating, Branched)
      modifies this
      ensures Valid() && old(history) <= history && Is(o, m, Creating, if ok then Placed else Broken(true))
    {
      Others(o);
      var fails: bool := *;
      var succeeds := !(fails && o in faulty);
      var identity: Identity := *;
      var target := m.WorktreePath();
      ok := succeeds && target !in nodes;
      ghost var before := Now();
      if ok {
        worktrees := worktrees + {Record(target, None, Some(m.key), Some(m.key))};
        nodes := nodes[target := Real(target, Directory(identity))];
      }
      ChildStepped(o, m, Branched, succeeds, identity, if ok then Placed else Broken(true), before);
    }

    /** Its head. */
    method WriteHead(m: Registration, o: OpenerId) returns (ok: bool)
      requires Valid() && Is(o, m, Creating, Placed)
      modifies this
      ensures Valid() && old(history) <= history && Is(o, m, Creating, if ok then Added else Broken(true))
    {
      Others(o);
      var fails: bool := *;
      ok := !(fails && o in faulty);
      ghost var before := Now();
      if ok {
        var partial := Record(m.WorktreePath(), None, Some(m.key), Some(m.key));
        worktrees := worktrees - {partial} + {partial.(head := Some(m.key.base))};
      }
      ChildStepped(o, m, Placed, ok, 0, if ok then Added else Broken(true), before);
    }

    /** `git worktree add --lock -b`, step by step; true iff all steps succeeded. */
    method CreateLockedWorktree(m: Registration, o: OpenerId) returns (ok: bool, ghost git: Git)
      requires Valid() && Is(o, m, Creating, Adding)
      modifies this
      ensures Valid() && old(history) <= history && Is(o, m, Creating, git)
      ensures if ok then git == Added else git.Broken?
    {
      ok := AddBranch(m, o);
      if !ok {
        return false, Broken(false);
      }
      ok := AddLockedPath(m, o);
      if !ok {
        return false, Broken(true);
      }
      ok := WriteHead(m, o);
      git := if ok then Added else Broken(true);
    }

    /** The creation, once its intent is in the journal. */
    method CreateWorktree(m: Registration, o: OpenerId) returns (r: Result<WorkspaceId, Error>)
      requires Valid() && Is(o, m, Creating, Adding)
      modifies this
      ensures Valid() && old(history) <= history && Ended(o, m, r)
    {
      var created, git := CreateLockedWorktree(m, o);
      if created {
        r := RegisterCreated(m, o);
      } else {
        r := CreationThrew(m, o, git);
      }
    }

    method RegisterCreated(m: Registration, o: OpenerId) returns (r: Result<WorkspaceId, Error>)
      requires Valid() && Is(o, m, Creating, Added)
      modifies this
      ensures Valid() && old(history) <= history && Ended(o, m, r)
    {
      Others(o);
      Observe(o, m, Creating, Added, ResolveDirectory(Created));
      r := RegisterManagedWorktree(m, Created, o, Added);
    }

    /** The catch of a creation that failed. */
    method CreationThrew(m: Registration, o: OpenerId, ghost git: Git) returns (r: Result<WorkspaceId, Error>)
      requires Valid() && Is(o, m, Creating, git) && git.Broken?
      modifies this
      ensures Valid() && old(history) <= history && Ended(o, m, r)
    {
      Others(o);
      Observe(o, m, Creating, git, FindIntent(AfterFailure));
      var reconciled := TryReconcilePartialWorktree(m, AfterFailure, o, git);
      if reconciled.Some? {
        return reconciled.value;
      }
      AppendJournal(m, CreateFailed, o, AppendFailed, git, Failed(CreateRejected), git);
      return Err(CreateRejected);
    }

    method AppendJournal(m: Registration, action: Action, o: OpenerId, ghost point: Point, ghost git: Git, ghost next: Point, ghost after: Git)
      requires Valid() && Is(o, m, point, git)
      requires || (point == AppendIntent && action == CreateIntent && next == Creating && after == Adding)
               || (point == AppendFailed && action == CreateFailed && next == Failed(CreateRejected) && after == git)
               || (point == OrphanAppend && action == CleanupIntent(OrphanedBranch) && next == Failed(CleanupIsRequired) && after == git)
      modifies this
      ensures Valid() && old(history) <= history && Is(o, m, next, after)
    {
      Others(o);
      ghost var before := Now();
      journal := journal + [Event(m.key, None, action)];
      Wrote(o, m, point, git, next, after, before);
    }

    /** What an open does when the key's branch already exists. */
    method FindBranch(m: Registration, commit: Commit, o: OpenerId) returns (r: Result<WorkspaceId, Error>)
      requires Valid() && Is(o, m, CheckIntent(commit), Idle)
      modifies this
      ensures Valid() && old(history) <= history && Ended(o, m, r)
    {
      Others(o);
      if !HasIntent(journal, m.key) {
        Observe(o, m, CheckIntent(commit), Idle, Failed(BranchOccupied));
        return Err(BranchOccupied);
      }
      Observe(o, m, CheckIntent(commit), Idle, if commit == m.key.base then CheckFailed else OrphanCheck);
      if commit == m.key.base {
        var inflight := MayBeInFlight(m, o);
        if inflight {
          var reconciled := WaitForInflightWorktree(m, o, Idle);
          if reconciled.Some? {
            return reconciled.value;
          }
        }
      }
      RequireCleanup(m, o);
      return Err(CleanupIsRequired);
    }

    /** The orphaned branch is journalled, unless a cleanup entry is already there. */
    method RequireCleanup(m: Registration, o: OpenerId)
      requires Valid() && Is(o, m, OrphanCheck, Idle)
      modifies this
      ensures Valid() && old(history) <= history && Is(o, m, Failed(CleanupIsRequired), Idle)
    {
      Others(o);
      if HasCleanup(journal, m.key) {
        Observe(o, m, OrphanCheck, Idle, Failed(CleanupIsRequired));
      } else {
        Observe(o, m, OrphanCheck, Idle, OrphanAppend);
        AppendJournal(m, CleanupIntent(OrphanedBranch), o, OrphanAppend, Idle, Failed(CleanupIsRequired), Idle);
      }
    }

    method MayBeInFlight(m: Registration, o: OpenerId) returns (maybe: bool)
      requires Valid() && Is(o, m, CheckFailed, Idle)
      modifies this
      ensures Valid() && old(history) <= history
      ensures Is(o, m, if maybe then FindIntent(Waiting(0)) else OrphanCheck, Idle)
    {
      Others(o);
      if HasFailure(journal, m.key) {
        Observe(o, m, CheckFailed, Idle, OrphanCheck);
        return false;
      }
      Observe(o, m, CheckFailed, Idle, CheckCleanup);
      Others(o);
      maybe := !HasCleanup(journal, m.key);
      Observe(o, m, CheckCleanup, Idle, if maybe then FindIntent(Waiting(0)) else OrphanCheck);
    }

    /** An open whose key has no row: the probes of the path and of the branch, then the creation. */
    method OpenWithoutRow(m: Registration, o: OpenerId) returns (r: Result<WorkspaceId, Error>)
      requires Valid() && Is(o, m, ProbePath, Idle)
      modifies this
      ensures Valid() && old(history) <= history && Ended(o, m, r)
    {
      var threw := MayThrow(m, ProbePath, o, Idle);
      if threw {
        return Err(Infrastructure);
      }
      r := OpenProbedPath(m, o);
    }

    /** The three answers of the probe. */
    method OpenProbedPath(m: Registration, o: OpenerId) returns (r: Result<WorkspaceId, Error>)
      requires Valid() && Is(o, m, ProbePath, Idle)
      modifies this
      ensures Valid() && old(history) <= history && Ended(o, m, r)
    {
      if m.WorktreePath() !in nodes {
        Observe(o, m, ProbePath, Idle, ProbeBranch);
        r := OpenFreePath(m, o);
      } else if nodes[m.WorktreePath()] == Denied {
        Observe(o, m, ProbePath, Idle, Failed(PathInaccessible));
        r := Err(PathInaccessible);
      } else {
        Observe(o, m, ProbePath, Idle, FindIntent(Probing));
        var reconciled := TryReconcilePartialWorktree(m, Probing, o, Idle);
        r := if reconciled.Some? then reconciled.value else Err(PathOccupied);
      }
    }

    method OpenFreePath(m: Registration, o: OpenerId) returns (r: Result<WorkspaceId, Error>)
      requires Valid() && Is(o, m, ProbeBranch, Idle)
      modifies this
      ensures Valid() && old(history) <= history && Ended(o, m, r)
    {
      var threw := MayThrow(m, ProbeBranch, o, Idle);
      if threw {
        return Err(Infrastructure);
      }
      r := OpenProbedBranch(m, o);
    }

    /** The two answers of the probe. */
    method OpenProbedBranch(m: Registration, o: OpenerId) returns (r: Result<WorkspaceId, Error>)
      requires Valid() && Is(o, m, ProbeBranch, Idle)
      modifies this
      ensures Valid() && old(history) <= history && Ended(o, m, r)
    {
      if m.key in branches {
        var commit := branches[m.key];
        Observe(o, m, ProbeBranch, Idle, CheckIntent(commit));
        r := FindBranch(m, commit, o);
      } else {
        Observe(o, m, ProbeBranch, Idle, AppendIntent);
        r := IntendAndCreate(m, o);
      }
    }

    /** The intent is journalled before Git is run. */
    method IntendAndCreate(m: Registration, o: OpenerId) returns (r: Result<WorkspaceId, Error>)
      requires Valid() && Is(o, m, AppendIntent, Idle)
      modifies this
      ensures Valid() && old(history) <= history && Ended(o, m, r)
    {
      AppendJournal(m, CreateIntent, o, AppendIntent, Idle, Creating, Adding);
      r := CreateWorktree(m, o);
    }

    /** The whole open. Whatever the others do in between, it is a run of the protocol; it returns
        the workspace of the key's one row or throws; and when it throws, states that were met since
        it began, or a call that failed, explain why. What it returns had a directory since it began. */
    method OpenWorktree(m: Registration, o: OpenerId) returns (r: Result<WorkspaceId, Error>)
      requires Valid() && o !in openers
      modifies this
      ensures Valid() && old(history) <= history && Ended(o, m, r)
      ensures r.Ok? ==> m.key in managed && managed[m.key].workspace == r.value && r.value in registry
      ensures r.Ok? ==> DirectoryStood(start, old(history), history, m)
      ensures r.Err? ==> FailedBecause(start, old(history), history, m, o in faulty, drawn(o), r.error)
    {
      ghost var began := history;
      Follow(Start(o, m.key, m.root), Now());
      Others(o);
      if m.key !in managed {
        Observe(o, m, ReadRow, Idle, ProbePath);
        r := OpenWithoutRow(m, o);
      } else if managed[m.key].status == CleanupRequired {
        Observe(o, m, ReadRow, Idle, Failed(CleanupIsRequired));
        r := Err(CleanupIsRequired);
      } else {
        var id := managed[m.key].workspace;
        Observe(o, m, ReadRow, Idle, ReadWorkspace(id));
        r := ReuseRow(m, id, o, Idle);
      }
      if r.Ok? {
        DoneIsOwned(start, history, Now(), o);
        WhyReturned(start, began, history, m, o, faulty, drawn);
      } else {
        WhyFailed(start, began, history, m, o, faulty, drawn);
      }
    }

    /** The upsert of a checkout open. */
    method OpenCheckout(canonical: Path, identity: Identity, candidate: WorkspaceId) returns (r: Result<WorkspaceId, SqlError>)
      requires Valid()
      modifies this
      ensures Valid() && history == old(history) + [Step.OpenCheckout(candidate, canonical, identity)]
      ensures managed == old(managed) && journal == old(journal)
      ensures Upserted(old(registry), registry, canonical, identity, candidate, r)
    {
      if RegistryHas(Db(), canonical, identity, Checkout) {
        var id :| id in registry && Collides(registry[id], canonical, identity, Checkout);
        ReuseCheckout(id, canonical, identity, candidate);
        r := Ok(id);
      } else {
        r := InsertCheckout(canonical, identity, candidate);
      }
    }

    /** ON CONFLICT DO UPDATE. */
    method ReuseCheckout(id: WorkspaceId, canonical: Path, identity: Identity, ghost candidate: WorkspaceId)
      requires Valid() && id in registry && Collides(registry[id], canonical, identity, Checkout)
      modifies `registry, `openers, `history
      ensures Valid() && history == old(history) + [Step.OpenCheckout(candidate, canonical, identity)]
      ensures registry == old(registry)[id := old(registry)[id].(status := Available, version := old(registry)[id].version + 1)]
    {
      ghost var before := Now();
      OneOf(start, history, before, candidate, canonical, identity, id);
      registry := registry[id := registry[id].(status := Available, version := registry[id].version + 1)];
      Follow(Step.OpenCheckout(candidate, canonical, identity), before);
    }

    method InsertCheckout(canonical: Path, identity: Identity, candidate: WorkspaceId) returns (r: Result<WorkspaceId, SqlError>)
      requires Valid() && !RegistryHas(Db(), canonical, identity, Checkout)
      modifies `registry, `openers, `history
      ensures Valid() && history == old(history) + [Step.OpenCheckout(candidate, canonical, identity)]
      ensures r == if candidate in old(registry) then Err(ConstraintViolation) else Ok(candidate)
      ensures registry == if r.Ok? then old(registry)[candidate := Workspace(canonical, identity, Checkout, Available, 1)] else old(registry)
    {
      ghost var before := Now();
      r := Err(ConstraintViolation);
      if candidate !in registry {
        registry := registry[candidate := Workspace(canonical, identity, Checkout, Available, 1)];
        r := Ok(candidate);
      }
      Follow(Step.OpenCheckout(candidate, canonical, identity), before);
    }

    /** Anything that anybody may do between two statements of a `get`. */
    method Everybody()
      requires Valid()
      modifies this
      ensures Valid() && old(history) <= history
    {
    }

    /** `get` answers for every workspace that was registered when it began: no registration is
        ever taken back, so the read after the update cannot fail. The status it answers with is
        what the files gave the registered directory at some point of the call. */
    method Get(id: WorkspaceId) returns (r: Option<Workspace>)
      requires Valid()
      modifies this
      ensures Valid() && old(history) <= history
      ensures r.Some? <==> id in old(registry)
      ensures r.Some? ==> && id in registry && r.value.canonical == registry[id].canonical == old(registry[id].canonical)
                          && r.value.identity == registry[id].identity == old(registry[id].identity)
                          && SeenBetween(start, history, |old(history)|, r.value)
      ensures r.Some? ==> if r.value.status == old(registry[id].status) then r.value == old(registry[id]) else registry[id] == r.value
    {
      if id !in registry {
        return None;
      }
      var existing := registry[id];
      ghost var began := history;
      var status := Look(existing);
      ghost var looked := history;
      var found := existing;
      if status != existing.status {
        found := Revalidate(id, status, began);
      }
      SeenLater(start, looked, history, |began|, existing.(status := status), found);
      StillRegistered(start, began, history, id);
      r := Some(found);
    }

    /** The `stat` of a registered directory. */
    method Look(existing: Workspace) returns (status: Availability)
      requires Valid()
      modifies this
      ensures Valid() && old(history) <= history
      ensures SeenBetween(start, history, |old(history)|, existing.(status := status))
    {
      ghost var n := |history|;
      Everybody();
      status := Inspect(nodes, existing.canonical, existing.identity);
      SeenHere(start, history, n, existing.(status := status));
    }

    /** The status update and the read that follows it. */
    method Revalidate(id: WorkspaceId, status: Availability, ghost began: seq<Step>) returns (found: Workspace)
      requires Valid() && began <= history && id in Run(start, began).tables.registry
      modifies this
      ensures Valid() && old(history) <= history
      ensures id in registry && found == registry[id] && found.status == status
      ensures var before := Run(start, began).tables.registry[id];
              found.canonical == before.canonical && found.identity == before.identity
    {
      Everybody();
      StillRegistered(start, began, history, id);
      ghost var before := Now();
      registry := registry[id := registry[id].(status := status, version := registry[id].version + 1)];
      Follow(Step.Revalidate(id, status), before);
      found := registry[id];
    }
  }

  /** The error of an open is explained by the states since it began. */
  ghost predicate FailedBecause(start: World, began: seq<Step>, history: seq<Step>, m: Registration, broke: bool, candidate: WorkspaceId, error: Error) {
    && began <= history
    && Explained(Met(Run(start, began), history[|began|..], m.key, m.root), broke, candidate, error)
  }

  /** Since it began, the registered directory of the key's row was there, or its target was one. */
  ghost predicate DirectoryStood(start: World, began: seq<Step>, history: seq<Step>, m: Registration) {
    began <= history && Stood(Met(Run(start, began), history[|began|..], m.key, m.root))
  }

  lemma {:induction false} SinceBegan(start: World, began: seq<Step>, history: seq<Step>, faulty: set<OpenerId>, drawn: OpenerId -> WorkspaceId)
      returns (rest: seq<Step>)
    requires Initial(start) && began <= history && forall step :: step in history ==> Lawful(step, faulty, drawn)
    ensures rest == history[|began|..] && Run(start, history) == Run(Run(start, began), rest)
    ensures WorktreeSafety.Inv(Run(start, began)) && forall step :: step in rest ==> Lawful(step, faulty, drawn)
  {
    rest := history[|began|..];
    assert history == began + rest;
    RunConcat(start, began, rest);
    WorktreeSafety.InitialInv(start);
    WorktreeSafety.RunKeeps(start, began);
  }

  lemma {:induction false} WhyReturned(start: World, began: seq<Step>, history: seq<Step>, m: Registration, o: OpenerId,
                                       faulty: set<OpenerId>, drawn: OpenerId -> WorkspaceId)
    requires Initial(start) && began <= history && forall step :: step in history ==> Lawful(step, faulty, drawn)
    requires o !in Run(start, began).openers && o in Run(start, history).openers
    requires var me := Run(start, history).openers[o]; me.key == m.key && me.root == m.root && me.point.Done?
    ensures DirectoryStood(start, began, history, m)
  {
    var rest := SinceBegan(start, began, history, faulty, drawn);
    ReturnsForCause(Run(start, began), rest, o, drawn(o));
  }

  lemma {:induction false} WhyFailed(start: World, began: seq<Step>, history: seq<Step>, m: Registration, o: OpenerId,
                                     faulty: set<OpenerId>, drawn: OpenerId -> WorkspaceId)
    requires Initial(start) && began <= history && forall step :: step in history ==> Lawful(step, faulty, drawn)
    requires o !in Run(start, began).openers && o in Run(start, history).openers
    requires var me := Run(start, history).openers[o]; me.key == m.key && me.root == m.root && me.point.Failed?
    ensures FailedBecause(start, began, history, m, o in faulty, drawn(o), Run(start, history).openers[o].point.error)
  {
    var rest := SinceBegan(start, began, history, faulty, drawn);
    FailsForCause(Run(start, began), rest, o, o in faulty, drawn(o));
  }

  /** The files gave the workspace's directory its status in a state of this run, from the n-th on. */
  ghost predicate SeenBetween(start: World, history: seq<Step>, n: nat, ws: Workspace) {
    exists k :: n <= k <= |history| && IsStatus(Run(start, history[..k]).nodes, ws.canonical, ws.identity, ws.status)
  }

  lemma {:induction false} SeenHere(start: World, history: seq<Step>, n: nat, ws: Workspace)
    requires n <= |history| && ws.status == Inspect(Run(start, history).nodes, ws.canonical, ws.identity)
    ensures SeenBetween(start, history, n, ws)
  {
    assert history[..|history|] == history;
    InspectIs(Run(start, history).nodes, ws.canonical, ws.identity);
  }

  lemma {:induction false} SeenLater(start: World, looked: seq<Step>, history: seq<Step>, n: nat, seen: Workspace, ws: Workspace)
    requires looked <= history && SeenBetween(start, looked, n, seen)
    requires ws.canonical == seen.canonical && ws.identity == seen.identity && ws.status == seen.status
    ensures SeenBetween(start, history, n, ws)
  {
    var k :| n <= k <= |looked| && IsStatus(Run(start, looked[..k]).nodes, seen.canonical, seen.identity, seen.status);
    assert history[..k] == looked[..k];
  }

  lemma {:induction false} StillRegistered(start: World, began: seq<Step>, history: seq<Step>, id: WorkspaceId)
    requires Initial(start) && began <= history && id in Run(start, began).tables.registry
    ensures var before, now := Run(start, began).tables.registry, Run(start, history).tables.registry;
            id in now && now[id].canonical == before[id].canonical && now[id].identity == before[id].identity
  {
    assert began + history[|began|..] == history;
    WorktreeSafety.OnlyForward(start, began, history[|began|..]);
  }

  /** A finished open's workspace is that of its key's row, in every reachable state. */
  lemma {:induction false} DoneIsOwned(start: World, history: seq<Step>, now: World, o: OpenerId)
    requires Initial(start) && now == Run(start, history) && o in now.openers && now.openers[o].point.Done?
    ensures WorktreeSafety.Owns(now.tables, now.openers[o].key, now.openers[o].point.workspace)
    ensures now.openers[o].point.workspace in now.tables.registry
  {
    WorktreeSafety.InitialInv(start);
    WorktreeSafety.RunKeeps(start, history);
    WorktreeSafety.DoneOwns(now, o);
  }

  /** Only one row can stand for a directory, so the upsert touches the row that was found. */
  lemma {:induction false} OneOf(start: World, history: seq<Step>, now: World, candidate: WorkspaceId, canonical: Path, identity: Identity, id: WorkspaceId)
    requires Initial(start) && now == Run(start, history)
    requires id in now.tables.registry && Collides(now.tables.registry[id], canonical, identity, Checkout)
    ensures CheckoutTx(now.tables, candidate, canonical, identity).0 == TouchTx(now.tables, id)
  {
    WorktreeSafety.InitialInv(start);
    WorktreeSafety.RunKeeps(start, history);
    assert RegistrySound(now.tables);
    assert RegistryHas(now.tables, canonical, identity, Checkout);
  }
}
