/** What an undisturbed open does, case by case, in terms of the rows, the journal entries, the
    branches, the worktree records and the files alone. */
module OpenCases {
  import opened Wrappers
  import opened WorkspaceTables
  import opened WorktreeProtocol
  import opened WorktreeSafety
  import opened WorktreeRecovery

  /** The world in which the open has ended like this, with these tables. */
  ghost function EndsAt(w: World, s: Solo, key: Key, root: nat, tables: Tables, point: Point): World {
    w.(tables := tables, openers := w.openers[s.o := Opener(key, root, point, Idle)])
  }

  /** Started in w and left alone, the open gets to v and stays there. */
  ghost predicate Opens(w: World, v: World, s: Solo, key: Key, root: nat) {
    Reaches(Apply(w, Start(s.o, key, root)), v, s) && Once(v, s) == v && s.o in v.openers && v.openers[s.o].Finished()
  }

  lemma {:induction false} OpensTo(w: World, v: World, s: Solo, key: Key, root: nat)
    requires RowsSound(w.tables) && s.o !in w.openers && v == Outcome(w, s, key, root)
    ensures Opens(w, v, s, key, root)
  {
    SoloOpen(w, s, key, root);
    OutcomeFinished(w, s, key, root);
  }

  // ---- A key with a row. ----

  /** A retired row refuses. */
  lemma {:induction false} RetiredRow(w: World, s: Solo, key: Key, root: nat)
    requires RowsSound(w.tables) && s.o !in w.openers
    requires key in w.tables.managed && w.tables.managed[key].status == CleanupRequired
    ensures Opens(w, EndsAt(w, s, key, root, w.tables, Failed(CleanupIsRequired)), s, key, root)
  {
    OpensTo(w, Outcome(w, s, key, root), s, key, root);
  }

  /** There is a directory at the path, and it is the one with this identity. */
  ghost predicate Stands(nodes: map<Path, Node>, path: Path, identity: Identity) {
    path in nodes && nodes[path].Real? && nodes[path].kind == Directory(identity)
  }

  /** The row of an active key is reused while its registered directory stands. */
  lemma {:induction false} ActiveRowReused(w: World, s: Solo, key: Key, root: nat, row: Row, ws: Workspace)
    requires RowsSound(w.tables) && s.o !in w.openers
    requires key in w.tables.managed && w.tables.managed[key] == row && row.status == Active
    requires row.workspace in w.tables.registry && w.tables.registry[row.workspace] == ws
    requires Stands(w.nodes, ws.canonical, ws.identity)
    ensures var used := ws.(status := Available, version := ws.version + 1);
            Opens(w, EndsAt(w, s, key, root, Tables(w.tables.registry[row.workspace := used], w.tables.managed, w.tables.journal),
                            Done(row.workspace)), s, key, root)
  {
    OpensTo(w, Outcome(w, s, key, root), s, key, root);
  }

  /** Otherwise the row is retired, with one entry in the journal, and the open is refused. */
  lemma {:induction false} ActiveRowRetired(w: World, s: Solo, key: Key, root: nat, row: Row, ws: Workspace)
    requires RowsSound(w.tables) && s.o !in w.openers
    requires key in w.tables.managed && w.tables.managed[key] == row && row.status == Active
    requires row.workspace in w.tables.registry && w.tables.registry[row.workspace] == ws
    requires !Stands(w.nodes, ws.canonical, ws.identity)
    ensures Opens(w, EndsAt(w, s, key, root,
                            Tables(w.tables.registry, w.tables.managed[key := Row(row.workspace, row.path, CleanupRequired)],
                                   w.tables.journal + [Event(key, Some(row.workspace), CleanupIntent(PathUnavailable))]),
                            Failed(CleanupIsRequired)), s, key, root)
  {
    OpensTo(w, Outcome(w, s, key, root), s, key, root);
  }

  // ---- A key without a row whose target exists. ----

  ghost predicate Entered(journal: seq<Event>, key: Key, action: Action) {
    exists i :: 0 <= i < |journal| && journal[i].key == key && journal[i].action == action
  }

  ghost predicate CleanupEntered(journal: seq<Event>, key: Key) {
    exists i :: 0 <= i < |journal| && journal[i].key == key && journal[i].action.CleanupIntent?
  }

  lemma {:induction false} EnteredIs(journal: seq<Event>, key: Key)
    ensures HasIntent(journal, key) <==> Entered(journal, key, CreateIntent)
    ensures HasFailure(journal, key) <==> Entered(journal, key, CreateFailed)
    ensures HasCleanup(journal, key) <==> CleanupEntered(journal, key)
  {
    if HasIntent(journal, key) {
      var e :| e in journal && e.key == key && e.action == CreateIntent;
      var i :| 0 <= i < |journal| && journal[i] == e;
    }
    if HasFailure(journal, key) {
      var e :| e in journal && e.key == key && e.action == CreateFailed;
      var i :| 0 <= i < |journal| && journal[i] == e;
    }
    if HasCleanup(journal, key) {
      var e :| e in journal && e.key == key && e.action.CleanupIntent?;
      var i :| 0 <= i < |journal| && journal[i] == e;
    }
    if Entered(journal, key, CreateIntent) {
      var i :| 0 <= i < |journal| && journal[i].key == key && journal[i].action == CreateIntent;
      assert journal[i] in journal;
    }
    if Entered(journal, key, CreateFailed) {
      var i :| 0 <= i < |journal| && journal[i].key == key && journal[i].action == CreateFailed;
      assert journal[i] in journal;
    }
    if CleanupEntered(journal, key) {
      var i :| 0 <= i < |journal| && journal[i].key == key && journal[i].action.CleanupIntent?;
      assert journal[i] in journal;
    }
  }

  /** A listed record of the key: at its commit, on its branch, locked for it, and at a path that
      resolves to this one. */
  ghost predicate OwnRecord(w: World, key: Key, canonical: Path, record: Record) {
    && record in w.worktrees && record.head == Some(key.base) && record.branch == Some(key) && record.lock == Some(key)
    && record.path in w.nodes && w.nodes[record.path].Real? && w.nodes[record.path].canonical == canonical
  }

  /** The target resolves to this path, an intent of the key was journalled, and a record is its own. */
  ghost predicate Owned(w: World, key: Key, root: nat, canonical: Path) {
    && Managed(root, key) in w.nodes && w.nodes[Managed(root, key)].Real? && w.nodes[Managed(root, key)].canonical == canonical
    && Entered(w.tables.journal, key, CreateIntent)
    && exists record :: OwnRecord(w, key, canonical, record)
  }

  lemma {:induction false} OwnedIs(w: World, key: Key, root: nat)
    requires Managed(root, key) in w.nodes && w.nodes[Managed(root, key)].Real?
    ensures var canonical := w.nodes[Managed(root, key)].canonical;
            HasIntent(w.tables.journal, key) && Proven(w, key, canonical) <==> Owned(w, key, root, canonical)
  {
    var canonical := w.nodes[Managed(root, key)].canonical;
    EnteredIs(w.tables.journal, key);
    if Proven(w, key, canonical) {
      var record :| record in w.worktrees && Proves(w, record, key, canonical);
      assert OwnRecord(w, key, canonical, record);
    }
    if record :| OwnRecord(w, key, canonical, record) {
      assert Proves(w, record, key, canonical);
    }
  }

  /** A target that cannot be looked at. */
  lemma {:induction false} DeniedTarget(w: World, s: Solo, key: Key, root: nat)
    requires RowsSound(w.tables) && s.o !in w.openers && key !in w.tables.managed
    requires Managed(root, key) in w.nodes && w.nodes[Managed(root, key)] == Denied
    ensures Opens(w, EndsAt(w, s, key, root, w.tables, Failed(PathInaccessible)), s, key, root)
  {
    OpensTo(w, Outcome(w, s, key, root), s, key, root);
  }

  /** A target that is not the key's own worktree is occupied. */
  lemma {:induction false} OccupiedTarget(w: World, s: Solo, key: Key, root: nat)
    requires RowsSound(w.tables) && s.o !in w.openers && key !in w.tables.managed
    requires Managed(root, key) in w.nodes && w.nodes[Managed(root, key)] != Denied
    requires forall canonical :: !Owned(w, key, root, canonical)
    ensures Opens(w, EndsAt(w, s, key, root, w.tables, Failed(PathOccupied)), s, key, root)
  {
    if w.nodes[Managed(root, key)].Real? { OwnedIs(w, key, root); }
    OpensTo(w, Outcome(w, s, key, root), s, key, root);
  }

  /** Some row already stands for the directory, or holds the path, or the id is taken. */
  ghost predicate Clashes(t: Tables, candidate: WorkspaceId, canonical: Path, identity: Identity) {
    || candidate in t.registry
    || (exists id :: id in t.registry && t.registry[id].canonical == canonical && t.registry[id].identity == identity
                     && t.registry[id].mode == Worktree)
    || (exists k :: k in t.managed && t.managed[k].path == canonical)
  }

  lemma {:induction false} ClashesIs(t: Tables, candidate: WorkspaceId, canonical: Path, identity: Identity)
    ensures Clashes(t, candidate, canonical, identity)
            <==> candidate in t.registry || RegistryHas(t, canonical, identity, Worktree) || PathTaken(t, canonical)
  {
    if RegistryHas(t, canonical, identity, Worktree) {
      var id :| id in t.registry && Collides(t.registry[id], canonical, identity, Worktree);
      assert t.registry[id].canonical == canonical;
    }
    if id :| id in t.registry && t.registry[id].canonical == canonical && t.registry[id].identity == identity && t.registry[id].mode == Worktree {
      assert Collides(t.registry[id], canonical, identity, Worktree);
    }
  }

  /** The two rows and the entry of a registration. */
  function WithRows(t: Tables, key: Key, id: WorkspaceId, canonical: Path, identity: Identity, action: Action): Tables {
    Tables(t.registry[id := Workspace(canonical, identity, Worktree, Available, 1)],
           t.managed[key := Row(id, canonical, Active)],
           t.journal + [Event(key, Some(id), action)])
  }

  /** The key's own worktree is adopted, unless a row stands in the way. */
  lemma {:induction false} OwnedTarget(w: World, s: Solo, key: Key, root: nat, canonical: Path, identity: Identity)
    requires RowsSound(w.tables) && s.o !in w.openers && key !in w.tables.managed
    requires Owned(w, key, root, canonical) && Stands(w.nodes, canonical, identity)
    ensures !Clashes(w.tables, s.candidate, canonical, identity) ==>
              Opens(w, EndsAt(w, s, key, root, WithRows(w.tables, key, s.candidate, canonical, identity, Reconciled), Done(s.candidate)), s, key, root)
    ensures Clashes(w.tables, s.candidate, canonical, identity) ==>
              Opens(w, EndsAt(w, s, key, root, w.tables, Failed(Infrastructure)), s, key, root)
  {
    OwnedIs(w, key, root);
    ClashesIs(w.tables, s.candidate, canonical, identity);
    OpensTo(w, Outcome(w, s, key, root), s, key, root);
  }

  /** A target that resolves to something that is no directory. */
  lemma {:induction false} OwnedNoDirectory(w: World, s: Solo, key: Key, root: nat, canonical: Path)
    requires RowsSound(w.tables) && s.o !in w.openers && key !in w.tables.managed
    requires Owned(w, key, root, canonical) && forall identity :: !Stands(w.nodes, canonical, identity)
    ensures Opens(w, EndsAt(w, s, key, root, w.tables, Failed(Infrastructure)), s, key, root)
  {
    OwnedIs(w, key, root);
    assert DirectoryAt(w.nodes, canonical).Some? ==> Stands(w.nodes, canonical, DirectoryAt(w.nodes, canonical).value);
    OpensTo(w, Outcome(w, s, key, root), s, key, root);
  }

  // ---- A key without a row whose target does not exist. ----

  /** A branch that no entry of the journal explains. */
  lemma {:induction false} ForeignBranch(w: World, s: Solo, key: Key, root: nat)
    requires RowsSound(w.tables) && s.o !in w.openers && key !in w.tables.managed
    requires Managed(root, key) !in w.nodes && key in w.branches && !Entered(w.tables.journal, key, CreateIntent)
    ensures Opens(w, EndsAt(w, s, key, root, w.tables, Failed(BranchOccupied)), s, key, root)
  {
    EnteredIs(w.tables.journal, key);
    OpensTo(w, Outcome(w, s, key, root), s, key, root);
  }

  /** A branch that an intent explains is an orphan, which is journalled once. */
  lemma {:induction false} OrphanedBranchOpen(w: World, s: Solo, key: Key, root: nat)
    requires RowsSound(w.tables) && s.o !in w.openers && key !in w.tables.managed
    requires Managed(root, key) !in w.nodes && key in w.branches && Entered(w.tables.journal, key, CreateIntent)
    ensures CleanupEntered(w.tables.journal, key) ==>
              Opens(w, EndsAt(w, s, key, root, w.tables, Failed(CleanupIsRequired)), s, key, root)
    ensures !CleanupEntered(w.tables.journal, key) ==>
              Opens(w, EndsAt(w, s, key, root,
                              Tables(w.tables.registry, w.tables.managed, w.tables.journal + [Event(key, None, CleanupIntent(OrphanedBranch))]),
                              Failed(CleanupIsRequired)), s, key, root)
  {
    EnteredIs(w.tables.journal, key);
    OpensTo(w, Outcome(w, s, key, root), s, key, root);
  }

  /** Everything but tables and openers after the creation: the branch at the base commit, the
      directory, and its locked record. */
  function Built(w: World, key: Key, root: nat, identity: Identity): World {
    var half, whole := Record(Managed(root, key), None, Some(key), Some(key)), Record(Managed(root, key), Some(key.base), Some(key), Some(key));
    World(w.tables, w.branches[key := key.base], w.worktrees - {half} + {whole},
          w.nodes[Managed(root, key) := Real(Managed(root, key), Directory(identity))], w.openers)
  }

  /** Free names: the worktree is created and registered, with an intent before and an entry after;
      a row that stands in the way leaves it unregistered. */
  lemma {:induction false} FreeTarget(w: World, s: Solo, key: Key, root: nat)
    requires RowsSound(w.tables) && s.o !in w.openers && key !in w.tables.managed
    requires Managed(root, key) !in w.nodes && key !in w.branches
    ensures var intended := Tables(w.tables.registry, w.tables.managed, w.tables.journal + [Event(key, None, CreateIntent)]);
            var clash := Clashes(w.tables, s.candidate, Managed(root, key), s.identity);
            var tables := if clash then intended else WithRows(intended, key, s.candidate, Managed(root, key), s.identity, Created);
            Opens(w, Built(w, key, root, s.identity).(
                    tables := tables,
                    openers := w.openers[s.o := Opener(key, root, if clash then Failed(Infrastructure) else Done(s.candidate), Added)]), s, key, root)
  {
    var intended := Tables(w.tables.registry, w.tables.managed, w.tables.journal + [Event(key, None, CreateIntent)]);
    ClashesIs(intended, s.candidate, Managed(root, key), s.identity);
    ClashesIs(w.tables, s.candidate, Managed(root, key), s.identity);
    assert Clashes(intended, s.candidate, Managed(root, key), s.identity) == Clashes(w.tables, s.candidate, Managed(root, key), s.identity);
    assert w.worktrees + {Partial(root, key)} - {Partial(root, key)} == w.worktrees - {Partial(root, key)};
    OpensTo(w, Outcome(w, s, key, root), s, key, root);
  }

  // ---- A Git child that broke off. ----

  /** What a broken child has left is not the key's own: the failure is journalled and thrown. */
  lemma {:induction false} BrokenChildFails(w: World, s: Solo, key: Key, root: nat, branched: bool)
    requires forall canonical :: !Owned(w, key, root, canonical)
    ensures var t := w.tables;
            Reaches(At(w, s, key, root, Creating, Broken(branched)),
                    At(w.(tables := Tables(t.registry, t.managed, t.journal + [Event(key, None, CreateFailed)])),
                       s, key, root, Failed(CreateRejected), Broken(branched)), s)
  {
    var t, git := w.tables, Broken(branched);
    var v := At(w.(tables := Tables(t.registry, t.managed, t.journal + [Event(key, None, CreateFailed)])), s, key, root, Failed(CreateRejected), git);
    ReachesHere(v, s);
    BackAppendFailed(w, v, s, key, root, git);
    NotReconciled(w, v, s, key, root, git);
    BackBroken(w, v, s, key, root, branched);
  }

  lemma {:induction false} BackAppendFailed(w: World, v: World, s: Solo, key: Key, root: nat, git: Git)
    requires var failed := w.tables.(journal := w.tables.journal + [Event(key, None, CreateFailed)]);
             Reaches(At(w.(tables := failed), s, key, root, Failed(CreateRejected), git), v, s)
    ensures Reaches(At(w, s, key, root, AppendFailed, git), v, s)
  {
    Back(w, v, s, key, root, AppendFailed, git);
  }

  lemma {:induction false} BackBroken(w: World, v: World, s: Solo, key: Key, root: nat, branched: bool)
    requires Reaches(At(w, s, key, root, FindIntent(AfterFailure), Broken(branched)), v, s)
    ensures Reaches(At(w, s, key, root, Creating, Broken(branched)), v, s)
  {
    Back(w, v, s, key, root, Creating, Broken(branched));
  }

  lemma {:induction false} NotReconciled(w: World, v: World, s: Solo, key: Key, root: nat, git: Git)
    requires forall canonical :: !Owned(w, key, root, canonical)
    requires Reaches(At(w, s, key, root, AppendFailed, git), v, s)
    ensures Reaches(At(w, s, key, root, FindIntent(AfterFailure), git), v, s)
  {
    if HasIntent(w.tables.journal, key) {
      var found := RealPath(w.nodes, Managed(root, key));
      if found.Some? {
        OwnedIs(w, key, root);
        BackListWorktrees(w, v, s, key, root, AfterFailure, found.value, git);
      }
      BackCanonicalize(w, v, s, key, root, AfterFailure, git);
    }
    BackFindIntent(w, v, s, key, root, AfterFailure, git);
  }

  // ---- Waiting. ----

  lemma {:induction false} AloneTwice(w: World, s: Solo, m: nat, n: nat)
    ensures Alone(w, s, m + n) == Alone(Alone(w, s, m), s, n)
    decreases m
  {
    if m > 0 { AloneTwice(Once(w, s), s, m - 1, n); }
  }

  /** Left alone, the opener gets from w to v in n steps. */
  ghost predicate GetsIn(w: World, s: Solo, n: nat, v: World) {
    Alone(w, s, n) == v
  }

  lemma {:induction false} GetsTwice(w: World, u: World, v: World, s: Solo, m: nat, n: nat, total: nat)
    requires GetsIn(w, s, m, u) && GetsIn(u, s, n, v) && total == m + n
    ensures GetsIn(w, s, total, v)
  {
    AloneTwice(w, s, m, n);
  }

  /** One waiting round in which nothing has come: four statements. */
  lemma {:induction false} WaitsOnce(w: World, s: Solo, key: Key, root: nat, attempt: nat, next: nat, round: nat)
    requires Managed(root, key) !in w.nodes && Entered(w.tables.journal, key, CreateIntent) && attempt < 40 && next == attempt + 1 && round == 4
    requires !Entered(w.tables.journal, key, CreateFailed) && !CleanupEntered(w.tables.journal, key)
    ensures GetsIn(At(w, s, key, root, FindIntent(Waiting(attempt)), Idle), s, round, At(w, s, key, root, FindIntent(Waiting(next)), Idle))
  {
    EnteredIs(w.tables.journal, key);
    FindsIntent(w, s, key, root, attempt);
    FindsNoTarget(w, s, key, root, attempt);
    FindsNoFailure(w, s, key, root, attempt);
    FindsNoCleanup(w, s, key, root, attempt);
    FourMoves(At(w, s, key, root, FindIntent(Waiting(attempt)), Idle), s);
  }

  lemma {:induction false} FindsIntent(w: World, s: Solo, key: Key, root: nat, attempt: nat)
    requires HasIntent(w.tables.journal, key)
    ensures Once(At(w, s, key, root, FindIntent(Waiting(attempt)), Idle), s) == At(w, s, key, root, Canonicalize(Waiting(attempt)), Idle)
  {
    MovesTo(w, s, key, root, FindIntent(Waiting(attempt)), Canonicalize(Waiting(attempt)));
  }

  lemma {:induction false} FindsNoTarget(w: World, s: Solo, key: Key, root: nat, attempt: nat)
    requires Managed(root, key) !in w.nodes && attempt < 40
    ensures Once(At(w, s, key, root, Canonicalize(Waiting(attempt)), Idle), s) == At(w, s, key, root, WaitCheckFailed(attempt), Idle)
  {
    MovesTo(w, s, key, root, Canonicalize(Waiting(attempt)), WaitCheckFailed(attempt));
  }

  lemma {:induction false} FindsNoFailure(w: World, s: Solo, key: Key, root: nat, attempt: nat)
    requires !HasFailure(w.tables.journal, key)
    ensures Once(At(w, s, key, root, WaitCheckFailed(attempt), Idle), s) == At(w, s, key, root, WaitCheckCleanup(attempt), Idle)
  {
    MovesTo(w, s, key, root, WaitCheckFailed(attempt), WaitCheckCleanup(attempt));
  }

  lemma {:induction false} FindsNoCleanup(w: World, s: Solo, key: Key, root: nat, attempt: nat)
    requires !HasCleanup(w.tables.journal, key)
    ensures Once(At(w, s, key, root, WaitCheckCleanup(attempt), Idle), s) == At(w, s, key, root, FindIntent(Waiting(attempt + 1)), Idle)
  {
    MovesTo(w, s, key, root, WaitCheckCleanup(attempt), FindIntent(Waiting(attempt + 1)));
  }

  lemma {:induction false} FourMoves(w: World, s: Solo)
    ensures Alone(w, s, 4) == Once(Once(Once(Once(w, s), s), s), s)
  {
    assert Alone(w, s, 4) == Alone(Once(w, s), s, 3);
    assert Alone(Once(w, s), s, 3) == Alone(Once(Once(w, s), s), s, 2);
    assert Alone(Once(Once(w, s), s), s, 2) == Alone(Once(Once(Once(w, s), s), s), s, 1);
    assert Alone(Once(Once(Once(w, s), s), s), s, 1) == Alone(Once(Once(Once(Once(w, s), s), s), s), s, 0);
  }

  /** A statement that only reads brings the opener from one point to the next. */
  lemma {:induction false} MovesTo(w: World, s: Solo, key: Key, root: nat, point: Point, next: Point)
    requires point != Creating
    requires Next(At(w, s, key, root, point, Idle), Opener(key, root, point, Idle), s.candidate) == (w.tables, next, Idle)
    ensures Once(At(w, s, key, root, point, Idle), s) == At(w, s, key, root, next, Idle)
  {
    var u := At(w, s, key, root, point, Idle);
    assert u.openers[s.o := u.openers[s.o].(point := next, git := Idle)] == w.openers[s.o := Opener(key, root, next, Idle)];
  }

  /** Rounds of equal length follow each other. */
  lemma {:induction false} Rounds(at: nat -> World, s: Solo, n: nat, round: nat, total: nat)
    requires forall k: nat :: k < n ==> GetsIn(at(k), s, round, at(k + 1))
    requires total == 4 * n && round == 4
    ensures GetsIn(at(0), s, total, at(n))
    decreases n
  {
    if n > 0 {
      Rounds(at, s, n - 1, round, total - round);
      GetsTwice(at(0), at(n - 1), at(n), s, total - round, round, total);
    }
  }

  /** A wait in which nothing comes takes forty rounds of four statements and one last look of two,
      and then demands cleanup. */
  lemma {:induction false} WaitsForty(w: World, s: Solo, key: Key, root: nat, statements: nat)
    requires Managed(root, key) !in w.nodes && Entered(w.tables.journal, key, CreateIntent)
    requires !Entered(w.tables.journal, key, CreateFailed) && !CleanupEntered(w.tables.journal, key)
    requires statements == 162
    ensures GetsIn(At(w, s, key, root, FindIntent(Waiting(0)), Idle), s, statements, At(w, s, key, root, OrphanCheck, Idle))
  {
    ghost var at := (k: nat) => At(w, s, key, root, FindIntent(Waiting(k)), Idle);
    var n: nat, round: nat := 40, 4;
    forall k: nat | k < n ensures GetsIn(at(k), s, round, at(k + 1)) {
      WaitsOnce(w, s, key, root, k, k + 1, round);
    }
    Rounds(at, s, n, round, statements - 2);
    LastLook(w, s, key, root);
    GetsTwice(at(0), at(n), At(w, s, key, root, OrphanCheck, Idle), s, statements - 2, 2, statements);
  }

  lemma {:induction false} LastLook(w: World, s: Solo, key: Key, root: nat)
    requires Managed(root, key) !in w.nodes && Entered(w.tables.journal, key, CreateIntent)
    ensures GetsIn(At(w, s, key, root, FindIntent(Waiting(40)), Idle), s, 2, At(w, s, key, root, OrphanCheck, Idle))
  {
    EnteredIs(w.tables.journal, key);
    var w0 := At(w, s, key, root, FindIntent(Waiting(40)), Idle);
    MovesTo(w, s, key, root, FindIntent(Waiting(40)), Canonicalize(Waiting(40)));
    MovesTo(w, s, key, root, Canonicalize(Waiting(40)), OrphanCheck);
    assert Alone(w0, s, 2) == Alone(Once(w0, s), s, 1);
    assert Alone(Once(w0, s), s, 1) == Alone(Once(Once(w0, s), s), s, 0);
  }

  /** Whether to wait at all, and to go on waiting, is read off the journal each time: no wait after
      a failure or a cleanup was entered. */
  lemma {:induction false} NoWaitAfterFailure(w: World, me: Opener, candidate: WorkspaceId, attempt: nat)
    ensures Next(w, me.(point := CheckFailed), candidate).1
            == if Entered(w.tables.journal, me.key, CreateFailed) then OrphanCheck else CheckCleanup
    ensures Next(w, me.(point := CheckCleanup), candidate).1
            == if CleanupEntered(w.tables.journal, me.key) then OrphanCheck else FindIntent(Waiting(0))
    ensures Next(w, me.(point := WaitCheckFailed(attempt)), candidate).1
            == if Entered(w.tables.journal, me.key, CreateFailed) then OrphanCheck else WaitCheckCleanup(attempt)
    ensures Next(w, me.(point := WaitCheckCleanup(attempt)), candidate).1
            == if CleanupEntered(w.tables.journal, me.key) then OrphanCheck else FindIntent(Waiting(attempt + 1))
  {
    EnteredIs(w.tables.journal, me.key);
  }

  // ---- The status of a workspace. ----

  /** The status that files give a registered directory. */
  ghost predicate IsStatus(nodes: map<Path, Node>, path: Path, identity: Identity, status: Availability) {
    match status
    case Missing => path !in nodes || nodes[path] == Dangling
    case Inaccessible => path in nodes && nodes[path] == Denied
    case Invalid =>
      path in nodes && nodes[path].Real?
      && (nodes[path].kind == NotDirectory || (nodes[path].kind.Directory? && nodes[path].kind.identity != identity))
    case Available => Stands(nodes, path, identity)
  }

  lemma {:induction false} InspectIs(nodes: map<Path, Node>, path: Path, identity: Identity)
    ensures forall status :: IsStatus(nodes, path, identity, status) <==> status == Inspect(nodes, path, identity)
  {
  }
}
