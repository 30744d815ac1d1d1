/** The managed-worktree protocol: any number of openers share one database, one Git
    repository and one file system, and take their steps in any order. */
module WorktreeProtocol {
  import opened Wrappers
  import opened WorkspaceTables

  type OpenerId = nat

  /** What a path resolves to. */
  datatype Kind = NotDirectory | Directory(identity: Identity)
  datatype Node = Dangling | Denied | Real(canonical: Path, kind: Kind)

  /** One record of `git worktree list`. Only branches and lock reasons that belong
      to an ownership key matter; anything else is None. */
  datatype Record = Record(path: Path, head: Option<Commit>, branch: Option<Key>, lock: Option<Key>)

  datatype Error =
    | CleanupIsRequired
    | PathOccupied
    | BranchOccupied
    | PathInaccessible
    | CreateRejected
    | Infrastructure

  /** From where the partial-worktree check was called. */
  datatype Caller = Probing | AfterFailure | Waiting(attempt: nat)

  /** The program point of an opener: which statement it runs next. */
  datatype Point =
    | ReadRow
    | ReadWorkspace(workspace: WorkspaceId)
    | ReadIdentity(workspace: WorkspaceId, canonical: Path)
    | InspectPath(workspace: WorkspaceId, canonical: Path, identity: Identity)
    | Touch(workspace: WorkspaceId)
    | MarkCleanup(workspace: WorkspaceId)
    | ProbePath
    | ProbeBranch
    | CheckIntent(commit: Commit)
    | CheckFailed
    | CheckCleanup
    | FindIntent(caller: Caller)
    | Canonicalize(caller: Caller)
    | ListWorktrees(caller: Caller, expected: Path)
    | WaitCheckFailed(attempt: nat)
    | WaitCheckCleanup(attempt: nat)
    | OrphanCheck
    | OrphanAppend
    | AppendIntent
    | Creating
    | AppendFailed
    | ResolveDirectory(action: Action)
    | StatDirectory(action: Action, canonical: Path)
    | RegisterRow(action: Action, canonical: Path, identity: Identity)
    | ReadBack(workspace: WorkspaceId)
    | Done(workspace: WorkspaceId)
    | Failed(error: Error)
    | Crashed

  /** The `git worktree add` child of an opener. It is a process of its own: it may
      go on after its opener has crashed, and may break off after any step. */
  datatype Git = Idle | Adding | Branched | Placed | Added | Broken(branched: bool)

  datatype Opener = Opener(key: Key, root: nat, point: Point, git: Git) {
    function Target(): Path { Managed(root, key) }

    predicate Finished() { point.Done? || point.Failed? || point.Crashed? }
  }

  datatype World = World(
    tables: Tables,
    branches: map<Key, Commit>,
    worktrees: set<Record>,
    nodes: map<Path, Node>,
    openers: map<OpenerId, Opener>)

  /** One reconciliation attempt every 25 ms for a second. */
  const INFLIGHT_ATTEMPTS: nat := 40

  /** What `stat` of a persisted path says. */
  function Inspect(nodes: map<Path, Node>, path: Path, identity: Identity): Availability {
    if path !in nodes then Missing
    else match nodes[path]
      case Dangling => Missing
      case Denied => Inaccessible
      case Real(_, NotDirectory) => Invalid
      case Real(_, Directory(found)) => if found == identity then Available else Invalid
  }

  /** `realpath`, when it succeeds. */
  function RealPath(nodes: map<Path, Node>, path: Path): Option<Path> {
    if path in nodes && nodes[path].Real? then Some(nodes[path].canonical) else None
  }

  /** `stat` of a path, when it is a directory. */
  function DirectoryAt(nodes: map<Path, Node>, path: Path): Option<Identity> {
    if path in nodes && nodes[path].Real? && nodes[path].kind.Directory? then Some(nodes[path].kind.identity) else None
  }

  /** A listed record that proves the worktree at `expected` is the key's own. */
  predicate Proves(w: World, record: Record, key: Key, expected: Path) {
    && RealPath(w.nodes, record.path) == Some(expected)
    && record.head == Some(key.base)
    && record.branch == Some(key)
    && record.lock == Some(key)
  }

  predicate Proven(w: World, key: Key, expected: Path) {
    exists record :: record in w.worktrees && Proves(w, record, key, expected)
  }

  /** Where the partial-worktree check returns when it finds nothing. */
  function Unreconciled(caller: Caller): Point {
    match caller
    case Probing => Failed(PathOccupied)
    case AfterFailure => AppendFailed
    case Waiting(attempt) => if attempt < INFLIGHT_ATTEMPTS then WaitCheckFailed(attempt) else OrphanCheck
  }

  /** The next statement of an opener: the new tables, point and Git child. */
  function Next(w: World, me: Opener, candidate: WorkspaceId): (Tables, Point, Git) {
    var t, key := w.tables, me.key;
    match me.point
    case ReadRow =>
      (t,
       if key !in t.managed then ProbePath
       else if t.managed[key].status == CleanupRequired then Failed(CleanupIsRequired)
       else ReadWorkspace(t.managed[key].workspace), me.git)
    case ReadWorkspace(id) =>
      (t, if id in t.registry then ReadIdentity(id, t.registry[id].canonical) else MarkCleanup(id), me.git)
    case ReadIdentity(id, canonical) =>
      (t,
       if id in t.registry then InspectPath(id, canonical, t.registry[id].identity)
       else Failed(Infrastructure), me.git)
    case InspectPath(id, canonical, identity) =>
      (t, if Inspect(w.nodes, canonical, identity) == Available then Touch(id) else MarkCleanup(id), me.git)
    case Touch(id) => (TouchTx(t, id), ReadBack(id), me.git)
    case MarkCleanup(id) => (MarkCleanupTx(t, key, id), Failed(CleanupIsRequired), me.git)
    case ProbePath =>
      (t,
       if me.Target() !in w.nodes then ProbeBranch
       else if w.nodes[me.Target()] == Denied then Failed(PathInaccessible)
       else FindIntent(Probing), me.git)
    case ProbeBranch =>
      (t, if key in w.branches then CheckIntent(w.branches[key]) else AppendIntent, me.git)
    case CheckIntent(commit) =>
      (t,
       if !HasIntent(t.journal, key) then Failed(BranchOccupied)
       else if commit == key.base then CheckFailed
       else OrphanCheck, me.git)
    case CheckFailed => (t, if HasFailure(t.journal, key) then OrphanCheck else CheckCleanup, me.git)
    case CheckCleanup =>
      (t, if HasCleanup(t.journal, key) then OrphanCheck else FindIntent(Waiting(0)), me.git)
    case FindIntent(caller) =>
      (t, if HasIntent(t.journal, key) then Canonicalize(caller) else Unreconciled(caller), me.git)
    case Canonicalize(caller) =>
      var found := RealPath(w.nodes, me.Target());
      (t, if found.Some? then ListWorktrees(caller, found.value) else Unreconciled(caller), me.git)
    case ListWorktrees(caller, expected) =>
      (t, if Proven(w, key, expected) then ResolveDirectory(Reconciled) else Unreconciled(caller), me.git)
    case WaitCheckFailed(attempt) =>
      (t, if HasFailure(t.journal, key) then OrphanCheck else WaitCheckCleanup(attempt), me.git)
    case WaitCheckCleanup(attempt) =>
      (t, if HasCleanup(t.journal, key) then OrphanCheck else FindIntent(Waiting(attempt + 1)), me.git)
    case OrphanCheck =>
      (t, if HasCleanup(t.journal, key) then Failed(CleanupIsRequired) else OrphanAppend, me.git)
    case OrphanAppend =>
      (Append(t, key, None, CleanupIntent(OrphanedBranch)), Failed(CleanupIsRequired), me.git)
    case AppendIntent => (Append(t, key, None, CreateIntent), Creating, Adding)
    case Creating =>
      (t,
       match me.git
       case Added => ResolveDirectory(Created)
       case Broken(_) => FindIntent(AfterFailure)
       case _ => Creating, me.git)
    case AppendFailed => (Append(t, key, None, CreateFailed), Failed(CreateRejected), me.git)
    case ResolveDirectory(action) =>
      var found := RealPath(w.nodes, me.Target());
      (t, if found.Some? then StatDirectory(action, found.value) else Failed(Infrastructure), me.git)
    case StatDirectory(action, canonical) =>
      var found := DirectoryAt(w.nodes, canonical);
      (t, if found.Some? then RegisterRow(action, canonical, found.value) else Failed(Infrastructure), me.git)
    case RegisterRow(action, canonical, identity) =>
      var (u, r) := RegisterTx(t, key, candidate, canonical, identity, action);
      (u, if r.Ok? then ReadBack(r.value) else Failed(Infrastructure), me.git)
    case ReadBack(id) =>
      (t, if id in t.registry then Done(id) else Failed(Infrastructure), me.git)
    case _ => (t, me.point, me.git)
  }

  datatype Step =
    | Start(o: OpenerId, key: Key, root: nat)
    | Advance(o: OpenerId, candidate: WorkspaceId)
    | GitAdvance(o: OpenerId, succeeds: bool, identity: Identity)
    | Throw(o: OpenerId)
    | Crash(o: OpenerId)
    | SetNode(path: Path, node: Option<Node>)
    | SetBranch(key: Key, commit: Commit)
    | SetWorktrees(records: set<Record>)
    | OpenCheckout(candidate: WorkspaceId, canonical: Path, identity: Identity)
    | Revalidate(workspace: WorkspaceId, status: Availability)

  /** The next step of a `git worktree add`: create the branch unless it exists, then
      the locked worktree unless its path exists, then its head. */
  function GitNext(w: World, o: OpenerId, succeeds: bool, identity: Identity): World
    requires o in w.openers
  {
    var me := w.openers[o];
    var partial := Record(me.Target(), None, Some(me.key), Some(me.key));
    match me.git
    case Adding =>
      if succeeds && me.key !in w.branches then
        w.(branches := w.branches[me.key := me.key.base], openers := w.openers[o := me.(git := Branched)])
      else w.(openers := w.openers[o := me.(git := Broken(false))])
    case Branched =>
      if succeeds && me.Target() !in w.nodes then
        w.(worktrees := w.worktrees + {partial},
           nodes := w.nodes[me.Target() := Real(me.Target(), Directory(identity))],
           openers := w.openers[o := me.(git := Placed)])
      else w.(openers := w.openers[o := me.(git := Broken(true))])
    case Placed =>
      if succeeds then
        w.(worktrees := w.worktrees - {partial} + {partial.(head := Some(me.key.base))},
           openers := w.openers[o := me.(git := Added)])
      else w.(openers := w.openers[o := me.(git := Broken(true))])
    case _ => w
  }

  function Without<K, V>(m: map<K, V>, k: K): map<K, V> {
    m - {k}
  }

  /** One step of any opener, of any Git child, or of the surroundings, which may
      change the file system and Git's records at will but never delete a branch. */
  ghost function Apply(w: World, step: Step): World {
    match step
    case Start(o, key, root) =>
      if o in w.openers then w else w.(openers := w.openers[o := Opener(key, root, ReadRow, Idle)])
    case Advance(o, candidate) =>
      if o !in w.openers then w else
      var (t, point, git) := Next(w, w.openers[o], candidate);
      w.(tables := t, openers := w.openers[o := w.openers[o].(point := point, git := git)])
    case GitAdvance(o, succeeds, identity) =>
      if o in w.openers then GitNext(w, o, succeeds, identity) else w
    case Throw(o) =>
      if o !in w.openers || w.openers[o].Finished() then w
      else w.(openers := w.openers[o := w.openers[o].(point := Failed(Infrastructure))])
    case Crash(o) =>
      if o !in w.openers || w.openers[o].Finished() then w
      else w.(openers := w.openers[o := w.openers[o].(point := Crashed)])
    case SetNode(path, node) =>
      w.(nodes := if node.Some? then w.nodes[path := node.value] else Without(w.nodes, path))
    case SetBranch(key, commit) => w.(branches := w.branches[key := commit])
    case SetWorktrees(records) => w.(worktrees := records)
    case OpenCheckout(candidate, canonical, identity) =>
      w.(tables := CheckoutTx(w.tables, candidate, canonical, identity).0)
    case Revalidate(id, status) => w.(tables := RevalidateTx(w.tables, id, status))
  }

  ghost function Run(w: World, steps: seq<Step>): World {
    if steps == [] then w else Apply(Run(w, steps[..|steps| - 1]), steps[|steps| - 1])
  }

  /** An empty database; any branches, worktrees and files may already be there. */
  ghost predicate Initial(w: World) {
    w.tables == EMPTY_TABLES && w.openers == map[]
  }

  lemma {:induction false} RunConcat(w: World, steps: seq<Step>, more: seq<Step>)
    ensures Run(w, steps + more) == Run(Run(w, steps), more)
  {
    if more == [] {
      assert steps + more == steps;
    } else {
      var init := more[..|more| - 1];
      assert (steps + more)[..|steps + more| - 1] == steps + init;
      RunConcat(w, steps, init);
    }
  }
}
