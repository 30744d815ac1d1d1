/** The fail-closed states: exactly those in which no later open of a key changes anything, and
    what they keep while everybody else goes on. */
module WorktreeClosure {
  import opened Wrappers
  import opened WorkspaceTables
  import opened WorktreeProtocol
  import opened WorktreeSafety
  import opened WorktreeRecovery

  /** A proven worktree at the target, and no row that its directory would collide with. */
  ghost predicate Adoptable(w: World, key: Key, root: nat) {
    var t, target := w.tables, Managed(root, key);
    && HasIntent(t.journal, key)
    && target in w.nodes && w.nodes[target].Real?
    && var canonical := w.nodes[target].canonical;
       && Proven(w, key, canonical)
       && DirectoryAt(w.nodes, canonical).Some?
       && !RegistryHas(t, canonical, DirectoryAt(w.nodes, canonical).value, Worktree)
       && !PathTaken(t, canonical)
  }

  /** No open of the key with this managed root can succeed or change anything but the list of
      openers. Other roots of the same key have targets of their own. */
  ghost predicate FailClosed(w: World, key: Key, root: nat) {
    if key in w.tables.managed then w.tables.managed[key].status == CleanupRequired
    else if Managed(root, key) in w.nodes then !Adoptable(w, key, root)
    else key in w.branches && (HasIntent(w.tables.journal, key) ==> HasCleanup(w.tables.journal, key))
  }

  ghost predicate AllClosed(w: World, key: Key, roots: set<nat>) {
    forall root :: root in roots ==> FailClosed(w, key, root)
  }

  /** Where an open of a fail-closed key can be. */
  predicate ClosedPoint(point: Point) {
    match point
    case ReadRow => true
    case ProbePath => true
    case ProbeBranch => true
    case CheckIntent(_) => true
    case CheckFailed => true
    case CheckCleanup => true
    case FindIntent(caller) => caller == Probing
    case Canonicalize(caller) => caller == Probing
    case ListWorktrees(caller, _) => caller == Probing
    case ResolveDirectory(_) => true
    case StatDirectory(_, _) => true
    case RegisterRow(_, _, _) => true
    case OrphanCheck => true
    case Failed(_) => true
    case Crashed => true
    case _ => false
  }

  predicate OnPath(point: Point) {
    point.FindIntent? || point.Canonicalize? || point.ListWorktrees? || point.ResolveDirectory? || point.StatDirectory? || point.RegisterRow?
  }

  predicate OnBranch(point: Point) {
    point.ProbeBranch? || point.CheckIntent? || point.CheckFailed? || point.CheckCleanup? || point.OrphanCheck?
  }

  /** The target resolves to this path, and a listed record proves it. */
  ghost predicate Adopting(w: World, me: Opener, canonical: Path) {
    RealPath(w.nodes, me.Target()) == Some(canonical) && Proven(w, me.key, canonical)
  }

  ghost predicate ClosedAt(w: World, me: Opener) {
    && me.git == Idle && ClosedPoint(me.point)
    && (me.key in w.tables.managed ==> me.point == ReadRow || me.Finished())
    && (OnPath(me.point) ==> me.Target() in w.nodes)
    && (OnBranch(me.point) ==> me.Target() !in w.nodes)
    && (match me.point
        case CheckFailed => HasIntent(w.tables.journal, me.key)
        case CheckCleanup => HasIntent(w.tables.journal, me.key)
        case OrphanCheck => HasIntent(w.tables.journal, me.key)
        case Canonicalize(_) => HasIntent(w.tables.journal, me.key)
        case ListWorktrees(_, expected) =>
          HasIntent(w.tables.journal, me.key) && RealPath(w.nodes, me.Target()) == Some(expected)
        case ResolveDirectory(_) =>
          HasIntent(w.tables.journal, me.key) && w.nodes[me.Target()].Real? && Adopting(w, me, w.nodes[me.Target()].canonical)
        case StatDirectory(_, canonical) => HasIntent(w.tables.journal, me.key) && Adopting(w, me, canonical)
        case RegisterRow(_, canonical, identity) =>
          HasIntent(w.tables.journal, me.key) && Adopting(w, me, canonical) && DirectoryAt(w.nodes, canonical) == Some(identity)
        case _ => true)
  }

  lemma {:induction false} ClosedNext(w: World, me: Opener, candidate: WorkspaceId)
    requires FailClosed(w, me.key, me.root) && ClosedAt(w, me)
    ensures Next(w, me, candidate).0 == w.tables && Next(w, me, candidate).2 == Idle
    ensures ClosedAt(w, Advanced(w, me, candidate))
  {
    if me.point.RegisterRow? {
      ClosedRegisters(w, me, candidate);
    } else if OnPath(me.point) {
      ClosedOnPath(w, me, candidate);
    }
  }

  /** A closed key's registration violates a constraint. */
  lemma {:induction false} ClosedRegisters(w: World, me: Opener, candidate: WorkspaceId)
    requires FailClosed(w, me.key, me.root) && ClosedAt(w, me) && me.point.RegisterRow?
    ensures Next(w, me, candidate) == (w.tables, Failed(Infrastructure), Idle)
  {
    assert RegistryHas(w.tables, me.point.canonical, me.point.identity, Worktree) || PathTaken(w.tables, me.point.canonical);
  }

  lemma {:induction false} ClosedOnPath(w: World, me: Opener, candidate: WorkspaceId)
    requires FailClosed(w, me.key, me.root) && ClosedAt(w, me) && OnPath(me.point) && !me.point.RegisterRow?
    ensures Next(w, me, candidate).0 == w.tables && Next(w, me, candidate).2 == Idle
    ensures ClosedAt(w, Advanced(w, me, candidate))
  {
  }

  // ---- Later opens of the key, and nobody else. ----

  /** A step of an open with one of these roots, made by an opener that was not there before. */
  predicate LateStep(w: World, step: Step, key: Key, roots: set<nat>) {
    match step
    case Start(p, k, root) => p !in w.openers && k == key && root in roots
    case Advance(p, _) => p !in w.openers
    case GitAdvance(p, _, _) => p !in w.openers
    case Throw(p) => p !in w.openers
    case Crash(p) => p !in w.openers
    case _ => false
  }

  ghost predicate AllLate(w: World, steps: seq<Step>, key: Key, roots: set<nat>) {
    forall step :: step in steps ==> LateStep(w, step, key, roots)
  }

  /** v is w plus late openers of the key, none of which got anywhere. */
  ghost predicate OnlyRefused(w: World, v: World, key: Key, roots: set<nat>) {
    && v.(openers := w.openers) == w
    && (forall p :: p in v.openers && p !in w.openers ==>
                      v.openers[p].key == key && v.openers[p].root in roots && ClosedAt(w, v.openers[p]))
  }

  /** What is closed depends on no opener. */
  lemma {:induction false} ClosedFrame(w: World, openers: map<OpenerId, Opener>, key: Key, root: nat)
    ensures FailClosed(w.(openers := openers), key, root) <==> FailClosed(w, key, root)
  {
    ProvenFrame(w, openers, key);
  }

  lemma {:induction false} ProvenFrame(w: World, openers: map<OpenerId, Opener>, key: Key)
    ensures forall p :: Proven(w.(openers := openers), key, p) <==> Proven(w, key, p)
  {
    var v := w.(openers := openers);
    assert forall p, record :: Proves(v, record, key, p) <==> Proves(w, record, key, p);
  }

  lemma {:induction false} ClosedAdvance(w: World, v: World, o: OpenerId, candidate: WorkspaceId, key: Key, roots: set<nat>)
    requires AllClosed(w, key, roots) && OnlyRefused(w, v, key, roots) && o !in w.openers
    ensures OnlyRefused(w, Apply(v, Advance(o, candidate)), key, roots)
  {
    if o in v.openers {
      var me := v.openers[o];
      assert v == w.(openers := v.openers);
      ClosedFrame(w, v.openers, key, me.root);
      ProvenFrame(w, v.openers, key);
      assert ClosedAt(v, me);
      ClosedNext(v, me, candidate);
      assert ClosedAt(w, Advanced(v, me, candidate));
    }
  }

  lemma {:induction false} ClosedOpener(w: World, v: World, o: OpenerId, me: Opener, roots: set<nat>)
    requires OnlyRefused(w, v, me.key, roots) && me.root in roots && o !in w.openers && ClosedAt(w, me)
    ensures OnlyRefused(w, v.(openers := v.openers[o := me]), me.key, roots)
  {
  }

  lemma {:induction false} ClosedStep(w: World, v: World, step: Step, key: Key, roots: set<nat>)
    requires AllClosed(w, key, roots) && OnlyRefused(w, v, key, roots) && LateStep(w, step, key, roots)
    ensures OnlyRefused(w, Apply(v, step), key, roots)
  {
    match step {
      case Start(o, _, root) => ClosedOpener(w, v, o, Opener(key, root, ReadRow, Idle), roots);
      case Advance(o, candidate) => ClosedAdvance(w, v, o, candidate, key, roots);
      case GitAdvance(o, _, _) => assert o in v.openers ==> v.openers[o].git == Idle;
      case Throw(o) => if o in v.openers { ClosedOpener(w, v, o, v.openers[o].(point := Failed(Infrastructure)), roots); }
      case Crash(o) => if o in v.openers { ClosedOpener(w, v, o, v.openers[o].(point := Crashed), roots); }
      case _ =>
    }
  }

  /** Any number of later opens with any of these roots, interleaved in any way, change no row, no
      journal entry, no branch, no worktree and no file, and none succeeds. */
  lemma {:induction false} FailClosedIsFixed(w: World, key: Key, roots: set<nat>, steps: seq<Step>)
    requires AllClosed(w, key, roots) && AllLate(w, steps, key, roots)
    ensures OnlyRefused(w, Run(w, steps), key, roots)
    ensures forall p :: p in Run(w, steps).openers && p !in w.openers ==> !Run(w, steps).openers[p].point.Done?
  {
    if steps != [] {
      var init, last := steps[..|steps| - 1], steps[|steps| - 1];
      FailClosedIsFixed(w, key, roots, init);
      assert last in steps;
      ClosedStep(w, Run(w, init), last, key, roots);
    }
  }

  // ---- The condition is exact. ----

  /** Where the key is not closed for a root, one undisturbed open with that root changes
      something. */
  lemma {:induction false} OpenChanges(w: World, s: Solo, key: Key, root: nat)
    requires RowsSound(w.tables) && s.candidate !in w.tables.registry && !FailClosed(w, key, root)
    ensures Outcome(w, s, key, root).(openers := w.openers) != w
  {
    var t, v := w.tables, Outcome(w, s, key, root);
    if key in t.managed {
      var id := t.managed[key].workspace;
      assert v.tables == TouchTx(t, id) || v.tables.managed[key].status == CleanupRequired;
    } else if Managed(root, key) in w.nodes {
      var canonical := w.nodes[Managed(root, key)].canonical;
      var identity := DirectoryAt(w.nodes, canonical).value;
      assert RegisterTx(t, key, s.candidate, canonical, identity, Reconciled)
          == (Inserted(t, key, s.candidate, canonical, identity, Reconciled), Ok(s.candidate));
      assert key in v.tables.managed;
    } else if key in w.branches {
      assert |v.tables.journal| == |t.journal| + 1;
    } else {
      assert key in v.branches;
    }
  }

  lemma {:induction false} RunFirst(w: World, step: Step, rest: seq<Step>)
    ensures Run(w, [step] + rest) == Run(Apply(w, step), rest)
  {
    RunConcat(w, [step], rest);
    assert [step][..0] == [];
    assert Run(w, [step]) == Apply(Run(w, []), step);
  }

  lemma {:induction false} OwnIsLate(w: World, o: OpenerId, key: Key, root: nat, rest: seq<Step>)
    requires o !in w.openers && forall step :: step in rest ==> OwnStep(step, o)
    ensures AllLate(w, [Start(o, key, root)] + rest, key, {root})
  {
    forall step | step in [Start(o, key, root)] + rest ensures LateStep(w, step, key, {root}) {
      assert step == Start(o, key, root) || step in rest;
    }
  }

  /** An undisturbed open is a run of late steps. */
  lemma {:induction false} SoloIsLate(w: World, s: Solo, key: Key, root: nat) returns (steps: seq<Step>)
    requires RowsSound(w.tables) && s.o !in w.openers
    ensures AllLate(w, steps, key, {root}) && Run(w, steps) == Outcome(w, s, key, root)
  {
    SoloOpen(w, s, key, root);
    var u := Apply(w, Start(s.o, key, root));
    var n: nat :| Alone(u, s, n) == Outcome(w, s, key, root);
    var rest := AloneIsRun(u, s, n);
    steps := [Start(s.o, key, root)] + rest;
    RunFirst(w, Start(s.o, key, root), rest);
    OwnIsLate(w, s.o, key, root, rest);
  }

  lemma {:induction false} Above(s: set<nat>) returns (n: nat)
    ensures forall m :: m in s ==> m < n
    decreases |s|
  {
    if s == {} {
      n := 0;
    } else {
      var x :| x in s;
      n := Above(s - {x});
      if n <= x { n := x + 1; }
      forall m | m in s ensures m < n {
        if m != x { assert m in s - {x}; }
      }
    }
  }

  ghost predicate NothingChanges(w: World, key: Key, roots: set<nat>) {
    forall steps :: AllLate(w, steps, key, roots) ==> Run(w, steps).(openers := w.openers) == w
  }

  /** Later opens of a key with these roots can change nothing, in any number and interleaving,
      iff the key is fail-closed for each of the roots. */
  lemma {:induction false} FixedIffClosed(w: World, key: Key, roots: set<nat>)
    requires RowsSound(w.tables)
    ensures NothingChanges(w, key, roots) <==> AllClosed(w, key, roots)
  {
    if AllClosed(w, key, roots) {
      forall steps | AllLate(w, steps, key, roots) ensures Run(w, steps).(openers := w.openers) == w {
        FailClosedIsFixed(w, key, roots, steps);
      }
    } else {
      var root :| root in roots && !FailClosed(w, key, root);
      var o := Above(w.openers.Keys);
      var candidate := Above(w.tables.registry.Keys);
      var s := Solo(o, candidate, 0);
      OpenChanges(w, s, key, root);
      var steps := SoloIsLate(w, s, key, root);
      assert AllLate(w, steps, key, roots);
    }
  }

  /** The two leftovers that fail closed are closed for that root for good after the next open. */
  lemma {:induction false} LeftoversClose(w: World, s: Solo, key: Key, root: nat, leftover: Leftover)
    requires RowsSound(w.tables) && Leaves(w, key, root, leftover) && leftover in {BranchOnly, HalfBuilt}
    ensures FailClosed(Outcome(w, s, key, root), key, root)
  {
    var v := Outcome(w, s, key, root);
    if leftover == HalfBuilt {
      RecoversHalfBuilt(w, s, key, root);
      assert !Proven(w, key, Managed(root, key));
      ClosedFrame(w, v.openers, key, root);
    } else if !HasCleanup(w.tables.journal, key) {
      assert Event(key, None, CleanupIntent(OrphanedBranch)) in v.tables.journal;
    }
  }

  /** One root is not enough: a half-built leftover is closed for its own root, yet an open with
      another root, whose target is free, finds the branch and journals that it is orphaned. */
  lemma {:induction false} OtherRootJournals(w: World, s: Solo, key: Key, root: nat, other: nat)
    requires Leaves(w, key, root, HalfBuilt) && RowsSound(w.tables)
    requires Managed(other, key) !in w.nodes && !HasCleanup(w.tables.journal, key)
    ensures FailClosed(w, key, root) && !FailClosed(w, key, other)
    ensures Outcome(w, s, key, other).tables == Append(w.tables, key, None, CleanupIntent(OrphanedBranch))
  {
    assert !Proven(w, key, Managed(root, key));
  }

  // ---- Later opens of the key while everybody else goes on. ----

  /** A step of anybody but the openers of this key that were already there, and of the
      surroundings as far as they leave files, worktree records and the key's branch alone. */
  predicate OpenStep(w: World, step: Step, key: Key, roots: set<nat>) {
    match step
    case Start(_, k, root) => k == key ==> root in roots
    case Advance(p, _) => p in w.openers ==> w.openers[p].key != key
    case GitAdvance(p, _, _) => p in w.openers ==> w.openers[p].key != key
    case Throw(p) => p in w.openers ==> w.openers[p].key != key
    case Crash(p) => p in w.openers ==> w.openers[p].key != key
    case SetBranch(k, _) => k != key
    case OpenCheckout(_, _, _) => true
    case Revalidate(_, _) => true
    case _ => false
  }

  /** The key's row is what it was, and every entry added since is of another key. */
  ghost predicate TablesFrozen(t: Tables, u: Tables, key: Key) {
    && (key in u.managed <==> key in t.managed)
    && (key in t.managed ==> u.managed[key] == t.managed[key])
    && t.journal <= u.journal
    && (forall i :: |t.journal| <= i < |u.journal| ==> u.journal[i].key != key)
  }

  /** Files are kept, and every new one is a worktree of another key. */
  ghost predicate NodesFrozen(nodes: map<Path, Node>, after: map<Path, Node>, key: Key) {
    && (forall p :: p in nodes ==> p in after && after[p] == nodes[p])
    && (forall p :: p in after && p !in nodes ==> p.Managed? && p.key != key && after[p].Real? && after[p].canonical == p)
  }

  ghost predicate RecordsFrozen(records: set<Record>, after: set<Record>, key: Key) {
    forall record: Record :: record.branch == Some(key) ==> (record in after <==> record in records)
  }

  /** Nothing of the key has changed: its row, its journal entries, its branch, its targets and
      its worktree records. */
  ghost predicate KeyFrozen(w: World, v: World, key: Key) {
    && TablesFrozen(w.tables, v.tables, key)
    && (key in v.branches <==> key in w.branches) && (key in w.branches ==> v.branches[key] == w.branches[key])
    && NodesFrozen(w.nodes, v.nodes, key)
    && RecordsFrozen(w.worktrees, v.worktrees, key)
  }

  /** Nobody who was there before has changed key, and the late openers of the key are refused. */
  ghost predicate OpenersFrozen(w: World, v: World, key: Key, roots: set<nat>) {
    && (forall p :: p in w.openers ==> p in v.openers && v.openers[p].key == w.openers[p].key)
    && (forall p :: p in v.openers && p !in w.openers && v.openers[p].key == key ==>
                      v.openers[p].root in roots && ClosedAt(v, v.openers[p]))
  }

  lemma {:induction false} FrozenAgain(w: World, v: World, u: World, key: Key)
    requires KeyFrozen(w, v, key) && KeyFrozen(v, u, key)
    ensures KeyFrozen(w, u, key)
  {
  }

  /** The statement of an opener of another key. */
  lemma {:induction false} OtherTables(w: World, me: Opener, candidate: WorkspaceId, key: Key)
    requires me.key != key
    ensures TablesFrozen(w.tables, Next(w, me, candidate).0, key)
  {
    var t := w.tables;
    if Reads(me.point) {
      assert Next(w, me, candidate).0 == t by { ReadsOnly(w, me, candidate); }
    } else {
      match me.point {
        case Touch(id) => assert Next(w, me, candidate).0 == TouchTx(t, id);
        case MarkCleanup(id) => assert Next(w, me, candidate).0 == MarkCleanupTx(t, me.key, id);
        case RegisterRow(action, canonical, identity) =>
          OtherRegisters(t, me.key, candidate, canonical, identity, action, key);
        case _ =>
      }
    }
  }

  lemma {:induction false} ReadsOnly(w: World, me: Opener, candidate: WorkspaceId)
    requires Reads(me.point)
    ensures Next(w, me, candidate).0 == w.tables
  {
  }

  lemma {:induction false} OtherRegisters(t: Tables, other: Key, candidate: WorkspaceId, canonical: Path, identity: Identity, action: Action, key: Key)
    requires other != key
    ensures TablesFrozen(t, RegisterTx(t, other, candidate, canonical, identity, action).0, key)
  {
  }

  lemma {:induction false} OtherGit(w: World, o: OpenerId, succeeds: bool, identity: Identity, key: Key)
    requires o in w.openers && (w.openers[o].key != key || w.openers[o].git == Idle)
    ensures KeyFrozen(w, GitNext(w, o, succeeds, identity), key)
  {
  }

  /** `realpath` of the target names a path that exists. */
  predicate TargetResolves(w: World, key: Key, root: nat) {
    var target := Managed(root, key);
    target in w.nodes && w.nodes[target].Real? ==> w.nodes[target].canonical in w.nodes
  }

  lemma {:induction false} IntentFrozen(t: Tables, u: Tables, key: Key)
    requires TablesFrozen(t, u, key)
    ensures HasIntent(u.journal, key) <==> HasIntent(t.journal, key)
    ensures HasCleanup(t.journal, key) ==> HasCleanup(u.journal, key)
  {
    if HasIntent(u.journal, key) {
      var e :| e in u.journal && e.key == key && e.action == CreateIntent;
      var i :| 0 <= i < |u.journal| && u.journal[i] == e;
      assert t.journal[i] == e;
    }
    JournalMonotone(t, u, key);
  }

  lemma {:induction false} NotProvenLater(w: World, v: World, key: Key, canonical: Path)
    requires KeyFrozen(w, v, key) && canonical in w.nodes && Proven(v, key, canonical)
    ensures Proven(w, key, canonical)
  {
    var record :| record in v.worktrees && Proves(v, record, key, canonical);
    assert record in w.worktrees && Proves(w, record, key, canonical);
  }

  lemma {:induction false} CollidesLater(t: Tables, u: Tables, canonical: Path, identity: Identity)
    requires Extends(t, u)
    ensures RegistryHas(t, canonical, identity, Worktree) ==> RegistryHas(u, canonical, identity, Worktree)
    ensures PathTaken(t, canonical) ==> PathTaken(u, canonical)
  {
    if RegistryHas(t, canonical, identity, Worktree) {
      var id :| id in t.registry && Collides(t.registry[id], canonical, identity, Worktree);
      assert Collides(u.registry[id], canonical, identity, Worktree);
    }
    if PathTaken(t, canonical) {
      var k :| k in t.managed && t.managed[k].path == canonical;
      assert k in u.managed && u.managed[k].path == canonical;
    }
  }

  /** A closed key stays closed while nothing of it changes. */
  lemma {:induction false} StillClosed(w: World, v: World, key: Key, root: nat)
    requires KeyFrozen(w, v, key) && Extends(w.tables, v.tables)
    requires FailClosed(w, key, root) && TargetResolves(w, key, root)
    ensures FailClosed(v, key, root)
  {
    var target := Managed(root, key);
    IntentFrozen(w.tables, v.tables, key);
    if key !in w.tables.managed && target in w.nodes && Adoptable(v, key, root) {
      var canonical := w.nodes[target].canonical;
      NotProvenLater(w, v, key, canonical);
      CollidesLater(w.tables, v.tables, canonical, DirectoryAt(w.nodes, canonical).value);
      assert Adoptable(w, key, root);
    }
  }

  lemma {:induction false} ProvenLater(w: World, v: World, key: Key, canonical: Path)
    requires KeyFrozen(w, v, key) && Proven(w, key, canonical)
    ensures Proven(v, key, canonical)
  {
    var record :| record in w.worktrees && Proves(w, record, key, canonical);
    assert record in v.worktrees && Proves(v, record, key, canonical);
  }

  /** A refused opener relies on nothing that may change. */
  lemma {:induction false} ClosedLater(w: World, v: World, me: Opener)
    requires KeyFrozen(w, v, me.key) && ClosedAt(w, me)
    ensures ClosedAt(v, me)
  {
    IntentFrozen(w.tables, v.tables, me.key);
    match me.point {
      case ResolveDirectory(_) => ProvenLater(w, v, me.key, w.nodes[me.Target()].canonical);
      case StatDirectory(_, canonical) => ProvenLater(w, v, me.key, canonical);
      case RegisterRow(_, canonical, _) => ProvenLater(w, v, me.key, canonical);
      case _ =>
    }
  }

  /** The opener that a step moves, if it moves one. */
  function Mover(step: Step): Option<OpenerId> {
    match step
    case Start(o, _, _) => Some(o)
    case Advance(o, _) => Some(o)
    case GitAdvance(o, _, _) => Some(o)
    case Throw(o) => Some(o)
    case Crash(o) => Some(o)
    case _ => None
  }

  /** No step of the interleaving touches the key. */
  lemma {:induction false} StepFreezes(w: World, v: World, step: Step, key: Key, roots: set<nat>)
    requires Inv(v) && OpenersFrozen(w, v, key, roots) && AllClosed(v, key, roots) && OpenStep(w, step, key, roots)
    ensures KeyFrozen(v, Apply(v, step), key)
  {
    match step {
      case Advance(o, candidate) =>
        if o in v.openers {
          if v.openers[o].key == key {
            ClosedNext(v, v.openers[o], candidate);
          } else {
            OtherTables(v, v.openers[o], candidate, key);
          }
        }
      case GitAdvance(o, succeeds, identity) => if o in v.openers { OtherGit(v, o, succeeds, identity, key); }
      case OpenCheckout(candidate, canonical, identity) => CheckoutKeeps(v.tables, candidate, canonical, identity);
      case _ =>
    }
  }

  lemma {:induction false} Unmoved(v: World, step: Step, o: OpenerId)
    requires o in v.openers && Mover(step) != Some(o)
    ensures Apply(v, step).openers[o] == v.openers[o]
  {
  }

  lemma {:induction false} AdvanceClosed(v: World, o: OpenerId, candidate: WorkspaceId)
    requires o in v.openers && FailClosed(v, v.openers[o].key, v.openers[o].root) && ClosedAt(v, v.openers[o])
    requires KeyFrozen(v, Apply(v, Advance(o, candidate)), v.openers[o].key)
    ensures ClosedAt(Apply(v, Advance(o, candidate)), Apply(v, Advance(o, candidate)).openers[o])
  {
    var u := Apply(v, Advance(o, candidate));
    ClosedNext(v, v.openers[o], candidate);
    ClosedLater(v, u, Advanced(v, v.openers[o], candidate));
  }

  lemma {:induction false} RestingClosed(v: World, step: Step, o: OpenerId)
    requires o in v.openers && Mover(step) == Some(o) && !step.Advance? && ClosedAt(v, v.openers[o])
    requires KeyFrozen(v, Apply(v, step), v.openers[o].key)
    ensures ClosedAt(Apply(v, step), Apply(v, step).openers[o])
  {
    var me := Apply(v, step).openers[o];
    assert me == v.openers[o] || me.Finished();
    ClosedLater(v, Apply(v, step), me);
  }

  lemma {:induction false} NewClosed(v: World, step: Step, o: OpenerId)
    requires o !in v.openers && o in Apply(v, step).openers
    ensures step.Start? && step.o == o && step.key == Apply(v, step).openers[o].key && step.root == Apply(v, step).openers[o].root
    ensures ClosedAt(Apply(v, step), Apply(v, step).openers[o])
  {
  }

  /** The opener that moves is refused as before; the others did not move. */
  lemma {:induction false} MoverClosed(w: World, v: World, step: Step, key: Key, roots: set<nat>, o: OpenerId)
    requires OpenersFrozen(w, v, key, roots) && AllClosed(v, key, roots) && OpenStep(w, step, key, roots)
    requires KeyFrozen(v, Apply(v, step), key)
    requires o in Apply(v, step).openers && o !in w.openers && Apply(v, step).openers[o].key == key
    ensures Apply(v, step).openers[o].root in roots && ClosedAt(Apply(v, step), Apply(v, step).openers[o])
  {
    if o !in v.openers {
      NewClosed(v, step, o);
    } else {
      KeyStays(v, step, o);
      if Mover(step) != Some(o) {
        Unmoved(v, step, o);
        ClosedLater(v, Apply(v, step), v.openers[o]);
      } else if step.Advance? {
        AdvanceClosed(v, o, step.candidate);
      } else {
        RestingClosed(v, step, o);
      }
    }
  }

  lemma {:induction false} OpenersStay(w: World, v: World, step: Step, key: Key, roots: set<nat>)
    requires OpenersFrozen(w, v, key, roots) && AllClosed(v, key, roots) && OpenStep(w, step, key, roots)
    requires KeyFrozen(v, Apply(v, step), key)
    ensures OpenersFrozen(w, Apply(v, step), key, roots)
  {
    var u := Apply(v, step);
    forall p | p in w.openers ensures p in u.openers && u.openers[p].key == w.openers[p].key {
      KeyStays(v, step, p);
    }
    forall p | p in u.openers && p !in w.openers && u.openers[p].key == key
      ensures u.openers[p].root in roots && ClosedAt(u, u.openers[p])
    {
      MoverClosed(w, v, step, key, roots, p);
    }
  }

  /** The key as it was in w: frozen, closed, and its late openers refused. */
  ghost predicate Held(w: World, v: World, key: Key, roots: set<nat>) {
    KeyFrozen(w, v, key) && OpenersFrozen(w, v, key, roots) && AllClosed(v, key, roots)
  }

  ghost predicate AllOpen(w: World, steps: seq<Step>, key: Key, roots: set<nat>) {
    forall step :: step in steps ==> OpenStep(w, step, key, roots)
  }

  ghost predicate AllResolve(w: World, key: Key, roots: set<nat>) {
    forall root :: root in roots ==> TargetResolves(w, key, root)
  }

  lemma {:induction false} StillAllClosed(w: World, v: World, key: Key, roots: set<nat>)
    requires KeyFrozen(w, v, key) && Extends(w.tables, v.tables) && AllClosed(w, key, roots) && AllResolve(w, key, roots)
    ensures AllClosed(v, key, roots)
  {
    forall root | root in roots ensures FailClosed(v, key, root) {
      StillClosed(w, v, key, root);
    }
  }

  lemma {:induction false} HeldStep(w: World, v: World, step: Step, key: Key, roots: set<nat>)
    requires Inv(v) && AllClosed(w, key, roots) && AllResolve(w, key, roots)
    requires Held(w, v, key, roots) && OpenStep(w, step, key, roots) && Extends(w.tables, Apply(v, step).tables)
    ensures Held(w, Apply(v, step), key, roots)
  {
    StepFreezes(w, v, step, key, roots);
    OpenersStay(w, v, step, key, roots);
    FrozenAgain(w, v, Apply(v, step), key);
    StillAllClosed(w, Apply(v, step), key, roots);
  }

  lemma {:induction false} HeldHere(w: World, key: Key, roots: set<nat>)
    requires AllClosed(w, key, roots)
    ensures Held(w, w, key, roots)
  {
  }

  lemma {:induction false} HeldRun(w: World, key: Key, roots: set<nat>, steps: seq<Step>)
    requires Inv(w) && AllClosed(w, key, roots) && AllResolve(w, key, roots) && AllOpen(w, steps, key, roots)
    ensures Held(w, Run(w, steps), key, roots)
  {
    if steps == [] {
      HeldHere(w, key, roots);
    } else {
      var init, last := steps[..|steps| - 1], steps[|steps| - 1];
      HeldRun(w, key, roots, init);
      RunKeeps(w, init);
      RunKeeps(w, steps);
      assert last in steps;
      HeldStep(w, Run(w, init), last, key, roots);
    }
  }

  /** A closed key while later opens of it, opens of other keys, checkouts and revalidations
      interleave in any way: no later open of it succeeds, nothing of it changes, and it stays
      closed. */
  lemma {:induction false} ClosedAmongOthers(w: World, key: Key, roots: set<nat>, steps: seq<Step>)
    requires Inv(w) && AllClosed(w, key, roots) && AllResolve(w, key, roots) && AllOpen(w, steps, key, roots)
    ensures KeyFrozen(w, Run(w, steps), key) && AllClosed(Run(w, steps), key, roots)
    ensures forall p :: p in Run(w, steps).openers && p !in w.openers && Run(w, steps).openers[p].key == key ==>
                          !Run(w, steps).openers[p].point.Done?
  {
    HeldRun(w, key, roots, steps);
  }
}
