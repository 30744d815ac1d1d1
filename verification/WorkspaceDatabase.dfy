/** The durable tables of the workspace registry and the SQL statements and
    transactions issued on them, as functions from one table state to the next. */
module WorkspaceTables {
  import opened Wrappers

  /** The `dev:ino:birthtimeNs` identity of a directory. */
  type Identity = nat
  type Commit = nat
  type WorkspaceId = nat

  /** The ownership key. The 20-hex digest of (source identity, base commit) is
      assumed injective, so the key is that pair. The branch name is a function
      of the key alone. */
  datatype Key = Key(source: Identity, base: Commit)

  /** `Managed(root, key)` is `join(managedRoot, ownershipKey)`. */
  datatype Path = Managed(root: nat, key: Key) | Elsewhere(id: nat)

  datatype Mode = Checkout | Worktree
  datatype Availability = Available | Missing | Inaccessible | Invalid
  datatype Workspace = Workspace(
    canonical: Path, identity: Identity, mode: Mode, status: Availability, version: nat)

  datatype RowStatus = Active | CleanupRequired
  datatype Row = Row(workspace: WorkspaceId, path: Path, status: RowStatus)

  datatype Reason = PathUnavailable | OrphanedBranch
  datatype Action =
    | CreateIntent
    | Created
    | CreateFailed
    | CleanupIntent(reason: Reason)
    | Reconciled
    | Cleaned
    | CleanupFailed
  datatype Event = Event(key: Key, workspace: Option<WorkspaceId>, action: Action)

  /** workspace_registry, managed_worktrees and worktree_cleanup_journal. */
  datatype Tables = Tables(
    registry: map<WorkspaceId, Workspace>, managed: map<Key, Row>, journal: seq<Event>)

  const EMPTY_TABLES := Tables(map[], map[], [])

  predicate HasIntent(journal: seq<Event>, key: Key) {
    exists e :: e in journal && e.key == key && e.action == CreateIntent
  }

  predicate HasFailure(journal: seq<Event>, key: Key) {
    exists e :: e in journal && e.key == key && e.action == CreateFailed
  }

  predicate HasCleanup(journal: seq<Event>, key: Key) {
    exists e :: e in journal && e.key == key && e.action.CleanupIntent?
  }

  function Append(t: Tables, key: Key, workspace: Option<WorkspaceId>, action: Action): Tables {
    t.(journal := t.journal + [Event(key, workspace, action)])
  }

  /** UNIQUE(canonical_path, filesystem_identity, mode) of workspace_registry. */
  predicate Collides(w: Workspace, canonical: Path, identity: Identity, mode: Mode) {
    w.canonical == canonical && w.identity == identity && w.mode == mode
  }

  predicate RegistryHas(t: Tables, canonical: Path, identity: Identity, mode: Mode) {
    exists id :: id in t.registry && Collides(t.registry[id], canonical, identity, mode)
  }

  predicate PathTaken(t: Tables, path: Path) {
    exists k :: k in t.managed && t.managed[k].path == path
  }

  datatype SqlError = ConstraintViolation

  /** Both inserts and the journal entry of a registration. */
  function Inserted(t: Tables, key: Key, candidate: WorkspaceId, canonical: Path, identity: Identity, action: Action): Tables {
    Tables(t.registry[candidate := Workspace(canonical, identity, Worktree, Available, 1)],
           t.managed[key := Row(candidate, canonical, Active)],
           t.journal + [Event(key, Some(candidate), action)])
  }

  /** The registration transaction: an active row is reused, otherwise both
      inserts and the journal entry happen, or none of them. A row that is
      already cleanup-required makes the second insert violate its primary key. */
  function RegisterTx(
    t: Tables, key: Key, candidate: WorkspaceId, canonical: Path, identity: Identity, action: Action
  ): (Tables, Result<WorkspaceId, SqlError>)
  {
    if key in t.managed && t.managed[key].status == Active then
      (t, Ok(t.managed[key].workspace))
    else if candidate in t.registry || RegistryHas(t, canonical, identity, Worktree) then
      (t, Err(ConstraintViolation))
    else if key in t.managed || PathTaken(t, canonical) then
      (t, Err(ConstraintViolation))
    else
      (Inserted(t, key, candidate, canonical, identity, action), Ok(candidate))
  }

  function Retired(t: Tables, key: Key, workspace: WorkspaceId): Tables
    requires key in t.managed
  {
    Append(t.(managed := t.managed[key := t.managed[key].(status := CleanupRequired)]),
           key, Some(workspace), CleanupIntent(PathUnavailable))
  }

  /** The transaction that moves an active row to cleanup-required. */
  function MarkCleanupTx(t: Tables, key: Key, workspace: WorkspaceId): Tables {
    if key in t.managed && t.managed[key].status == Active then
      Retired(t, key, workspace)
    else t
  }

  /** The update that records a reuse. */
  function TouchTx(t: Tables, id: WorkspaceId): Tables {
    if id in t.registry then
      var w := t.registry[id];
      t.(registry := t.registry[id := w.(status := Available, version := w.version + 1)])
    else t
  }

  /** The status update of `get`; it compares with what it read earlier, not with the row. */
  function RevalidateTx(t: Tables, id: WorkspaceId, status: Availability): Tables {
    if id in t.registry then
      var w := t.registry[id];
      t.(registry := t.registry[id := w.(status := status, version := w.version + 1)])
    else t
  }

  /** The upsert of a checkout open. */
  ghost function CheckoutTx(t: Tables, candidate: WorkspaceId, canonical: Path, identity: Identity)
    : (r: (Tables, Result<WorkspaceId, SqlError>))
  {
    if RegistryHas(t, canonical, identity, Checkout) then
      var id :| id in t.registry && Collides(t.registry[id], canonical, identity, Checkout);
      (TouchTx(t, id), Ok(id))
    else if candidate in t.registry then
      (t, Err(ConstraintViolation))
    else
      (t.(registry := t.registry[candidate := Workspace(canonical, identity, Checkout, Available, 1)]),
       Ok(candidate))
  }

  predicate IsRegistration(a: Action) {
    a == Created || a == Reconciled
  }

  /** The workspace ids of the key's `created` and `reconciled` entries, oldest first. */
  function Registrations(journal: seq<Event>, key: Key): seq<Option<WorkspaceId>> {
    if journal == [] then []
    else
      var last := journal[|journal| - 1];
      Registrations(journal[..|journal| - 1], key)
      + if last.key == key && IsRegistration(last.action) then [last.workspace] else []
  }

  /** The workspace ids of the key's path-unavailable cleanup entries, oldest first. */
  function Retirements(journal: seq<Event>, key: Key): seq<Option<WorkspaceId>> {
    if journal == [] then []
    else
      var last := journal[|journal| - 1];
      Retirements(journal[..|journal| - 1], key)
      + if last.key == key && last.action == CleanupIntent(PathUnavailable) then [last.workspace] else []
  }

  lemma {:induction false} AppendCounts(journal: seq<Event>, e: Event, key: Key)
    ensures Registrations(journal + [e], key) == Registrations(journal, key)
                                                 + if e.key == key && IsRegistration(e.action) then [e.workspace] else []
    ensures Retirements(journal + [e], key) == Retirements(journal, key)
                                               + if e.key == key && e.action == CleanupIntent(PathUnavailable) then [e.workspace] else []
  {
    assert (journal + [e])[..|journal|] == journal;
  }

  /** A registration entry is preceded by an intent of the same key. */
  ghost predicate IntentFirst(journal: seq<Event>) {
    journal == [] ||
    (var init, last := journal[..|journal| - 1], journal[|journal| - 1];
     IntentFirst(init) && (IsRegistration(last.action) ==> HasIntent(init, last.key)))
  }

  lemma {:induction false} IntentBefore(journal: seq<Event>, i: nat)
    requires IntentFirst(journal) && i < |journal| && IsRegistration(journal[i].action)
    ensures exists j :: 0 <= j < i && journal[j].key == journal[i].key && journal[j].action == CreateIntent
  {
    var init := journal[..|journal| - 1];
    if i < |init| {
      IntentBefore(init, i);
    } else {
      var e :| e in init && e.key == journal[i].key && e.action == CreateIntent;
    }
  }

  /** The actions that no code path writes. */
  ghost predicate NoForeignActions(journal: seq<Event>) {
    forall e :: e in journal ==> e.action != Cleaned && e.action != CleanupFailed
  }

  ghost predicate RegistrySound(t: Tables) {
    forall a, b :: a in t.registry && b in t.registry
                   && Collides(t.registry[a], t.registry[b].canonical, t.registry[b].identity, t.registry[b].mode)
                   ==> a == b
  }

  ghost predicate RowsSound(t: Tables) {
    && (forall k :: k in t.managed ==>
                      && t.managed[k].workspace in t.registry
                      && t.registry[t.managed[k].workspace].mode == Worktree
                      && t.registry[t.managed[k].workspace].canonical == t.managed[k].path)
    && (forall k, l :: k in t.managed && l in t.managed
                       && (t.managed[k].workspace == t.managed[l].workspace || t.managed[k].path == t.managed[l].path)
                       ==> k == l)
  }

  /** The agreement of journal and rows for one key. */
  ghost predicate MatchesFor(t: Tables, k: Key) {
    && Registrations(t.journal, k) == (if k in t.managed then [Some(t.managed[k].workspace)] else [])
    && Retirements(t.journal, k) == (if k in t.managed && t.managed[k].status == CleanupRequired
                                     then [Some(t.managed[k].workspace)] else [])
  }

  /** The journal and the rows agree: one registration entry per row, carrying its
      workspace, and one path-unavailable entry per retired row. */
  ghost predicate JournalMatches(t: Tables) {
    forall k :: MatchesFor(t, k)
  }

  ghost predicate TablesInv(t: Tables) {
    && RegistrySound(t)
    && RowsSound(t)
    && JournalMatches(t)
    && IntentFirst(t.journal)
    && NoForeignActions(t.journal)
  }

  /** What every statement keeps: nothing is deleted, a row keeps its workspace and
      path, a retired row stays retired, the journal only grows. */
  ghost predicate Extends(t: Tables, u: Tables) {
    && (forall id :: id in t.registry ==>
                       && id in u.registry
                       && u.registry[id].canonical == t.registry[id].canonical
                       && u.registry[id].identity == t.registry[id].identity
                       && u.registry[id].mode == t.registry[id].mode
                       && u.registry[id].version >= t.registry[id].version)
    && (forall k :: k in t.managed ==>
                      && k in u.managed
                      && u.managed[k].workspace == t.managed[k].workspace
                      && u.managed[k].path == t.managed[k].path
                      && (t.managed[k].status == CleanupRequired ==> u.managed[k].status == CleanupRequired))
    && t.journal <= u.journal
  }

  lemma {:induction false} ExtendsTransitive(t: Tables, u: Tables, v: Tables)
    requires Extends(t, u) && Extends(u, v)
    ensures Extends(t, v)
  {
  }

  lemma {:induction false} JournalMonotone(t: Tables, u: Tables, key: Key)
    requires t.journal <= u.journal
    ensures HasIntent(t.journal, key) ==> HasIntent(u.journal, key)
    ensures HasFailure(t.journal, key) ==> HasFailure(u.journal, key)
    ensures HasCleanup(t.journal, key) ==> HasCleanup(u.journal, key)
  {
    assert forall e :: e in t.journal ==> e in u.journal;
  }

  /** Every entry but a registration or retirement may be appended at any time. */
  lemma {:induction false} AppendKeeps(t: Tables, key: Key, workspace: Option<WorkspaceId>, action: Action)
    requires TablesInv(t)
    requires action in {CreateIntent, CreateFailed, CleanupIntent(OrphanedBranch)}
    ensures TablesInv(Append(t, key, workspace, action)) && Extends(t, Append(t, key, workspace, action))
  {
    var e := Event(key, workspace, action);
    forall k ensures MatchesFor(Append(t, key, workspace, action), k) {
      assert MatchesFor(t, k);
      AppendCounts(t.journal, e, k);
      NothingAppended(t.journal, k);
    }
    JournalAppend(t.journal, e);
  }

  lemma {:induction false} JournalAppend(journal: seq<Event>, e: Event)
    requires IntentFirst(journal) && NoForeignActions(journal)
    requires IsRegistration(e.action) ==> HasIntent(journal, e.key)
    requires e.action != Cleaned && e.action != CleanupFailed
    ensures IntentFirst(journal + [e]) && NoForeignActions(journal + [e])
  {
    assert (journal + [e])[..|journal|] == journal;
  }

  /** Inserting a workspace that collides with none keeps the registry's uniqueness. */
  lemma {:induction false} InsertKeepsRegistry(t: Tables, id: WorkspaceId, w: Workspace)
    requires RegistrySound(t) && id !in t.registry && !RegistryHas(t, w.canonical, w.identity, w.mode)
    ensures RegistrySound(t.(registry := t.registry[id := w]))
  {
    forall a | a in t.registry
      ensures !Collides(t.registry[a], w.canonical, w.identity, w.mode)
      ensures !Collides(w, t.registry[a].canonical, t.registry[a].identity, t.registry[a].mode)
    {
    }
  }

  lemma {:induction false} InsertKeepsRows(t: Tables, key: Key, id: WorkspaceId, w: Workspace)
    requires RowsSound(t) && id !in t.registry && key !in t.managed && !PathTaken(t, w.canonical) && w.mode == Worktree
    ensures RowsSound(t.(registry := t.registry[id := w], managed := t.managed[key := Row(id, w.canonical, Active)]))
  {
    forall k | k in t.managed
      ensures t.managed[k].path != w.canonical && t.managed[k].workspace != id
    {
    }
  }

  /** An entry for one key leaves the agreement of journal and rows of the others. */
  lemma {:induction false} JournalMatchesStep(t: Tables, u: Tables, e: Event)
    requires JournalMatches(t) && u.journal == t.journal + [e]
    requires forall k :: k != e.key ==> (k in u.managed <==> k in t.managed) && (k in t.managed ==> u.managed[k] == t.managed[k])
    requires
      var registered := Registrations(t.journal, e.key) + if IsRegistration(e.action) then [e.workspace] else [];
      var retired := Retirements(t.journal, e.key) + if e.action == CleanupIntent(PathUnavailable) then [e.workspace] else [];
      && registered == (if e.key in u.managed then [Some(u.managed[e.key].workspace)] else [])
      && retired == (if e.key in u.managed && u.managed[e.key].status == CleanupRequired
                     then [Some(u.managed[e.key].workspace)] else [])
    ensures JournalMatches(u)
  {
    forall k ensures MatchesFor(u, k) {
      assert MatchesFor(t, k);
      AppendCounts(t.journal, e, k);
      NothingAppended(t.journal, k);
    }
  }

  lemma {:induction false} NothingAppended(journal: seq<Event>, k: Key)
    ensures Registrations(journal, k) + [] == Registrations(journal, k) && Retirements(journal, k) + [] == Retirements(journal, k)
  {
  }

  lemma {:induction false} InsertedKeeps(t: Tables, key: Key, candidate: WorkspaceId, canonical: Path, identity: Identity, action: Action)
    requires TablesInv(t) && HasIntent(t.journal, key) && IsRegistration(action)
    requires candidate !in t.registry && !RegistryHas(t, canonical, identity, Worktree)
    requires key !in t.managed && !PathTaken(t, canonical)
    ensures TablesInv(Inserted(t, key, candidate, canonical, identity, action))
  {
    var u := Inserted(t, key, candidate, canonical, identity, action);
    var e := Event(key, Some(candidate), action);
    var w := Workspace(canonical, identity, Worktree, Available, 1);
    assert RegistrySound(u) by { InsertKeepsRegistry(t, candidate, w); }
    assert RowsSound(u) by { InsertKeepsRows(t, key, candidate, w); }
    assert JournalMatches(u) by {
      assert MatchesFor(t, key);
      JournalMatchesStep(t, u, e);
    }
    assert IntentFirst(u.journal) && NoForeignActions(u.journal) by { JournalAppend(t.journal, e); }
  }

  lemma {:induction false} InsertedExtends(t: Tables, key: Key, candidate: WorkspaceId, canonical: Path, identity: Identity, action: Action)
    requires candidate !in t.registry && key !in t.managed
    ensures Extends(t, Inserted(t, key, candidate, canonical, identity, action))
  {
  }

  lemma {:induction false} RegisterKeeps(t: Tables, key: Key, candidate: WorkspaceId, canonical: Path, identity: Identity, action: Action)
    requires TablesInv(t) && HasIntent(t.journal, key) && IsRegistration(action)
    ensures TablesInv(RegisterTx(t, key, candidate, canonical, identity, action).0)
    ensures Extends(t, RegisterTx(t, key, candidate, canonical, identity, action).0)
  {
    if RegisterTx(t, key, candidate, canonical, identity, action).0 != t {
      InsertedKeeps(t, key, candidate, canonical, identity, action);
      InsertedExtends(t, key, candidate, canonical, identity, action);
    }
  }

  /** A registration returns the workspace of the key's active row, or changes nothing. */
  lemma {:induction false} RegisterResult(t: Tables, key: Key, candidate: WorkspaceId, canonical: Path, identity: Identity, action: Action)
    ensures var (u, r) := RegisterTx(t, key, candidate, canonical, identity, action);
            if r.Ok? then key in u.managed && u.managed[key].workspace == r.value && u.managed[key].status == Active
            else u == t
  {
  }

  lemma {:induction false} RetiredKeepsRows(t: Tables, key: Key, workspace: WorkspaceId)
    requires RegistrySound(t) && RowsSound(t) && key in t.managed
    ensures RegistrySound(Retired(t, key, workspace)) && RowsSound(Retired(t, key, workspace))
  {
  }

  lemma {:induction false} RetiredExtends(t: Tables, key: Key, workspace: WorkspaceId)
    requires key in t.managed
    ensures Extends(t, Retired(t, key, workspace))
  {
  }

  lemma {:induction false} RetiredKeepsJournal(t: Tables, key: Key, workspace: WorkspaceId)
    requires JournalMatches(t) && key in t.managed && t.managed[key].workspace == workspace && t.managed[key].status == Active
    ensures JournalMatches(Retired(t, key, workspace))
  {
    assert MatchesFor(t, key);
    JournalMatchesStep(t, Retired(t, key, workspace), Event(key, Some(workspace), CleanupIntent(PathUnavailable)));
  }

  lemma {:induction false} RetiredKeeps(t: Tables, key: Key, workspace: WorkspaceId)
    requires TablesInv(t) && key in t.managed && t.managed[key].workspace == workspace && t.managed[key].status == Active
    ensures TablesInv(Retired(t, key, workspace))
  {
    var u := Retired(t, key, workspace);
    assert RegistrySound(u) && RowsSound(u) by { RetiredKeepsRows(t, key, workspace); }
    assert JournalMatches(u) by { RetiredKeepsJournal(t, key, workspace); }
    assert IntentFirst(u.journal) && NoForeignActions(u.journal) by {
      JournalAppend(t.journal, Event(key, Some(workspace), CleanupIntent(PathUnavailable)));
    }
  }

  lemma {:induction false} MarkCleanupKeeps(t: Tables, key: Key, workspace: WorkspaceId)
    requires TablesInv(t)
    requires key in t.managed && t.managed[key].workspace == workspace
    ensures TablesInv(MarkCleanupTx(t, key, workspace)) && Extends(t, MarkCleanupTx(t, key, workspace))
    ensures key in MarkCleanupTx(t, key, workspace).managed
    ensures MarkCleanupTx(t, key, workspace).managed[key].status == CleanupRequired
  {
    if t.managed[key].status == Active {
      RetiredKeeps(t, key, workspace);
      RetiredExtends(t, key, workspace);
    }
  }

  /** A later version of a workspace: the same directory and mode. */
  predicate Updates(w: Workspace, v: Workspace) {
    v.canonical == w.canonical && v.identity == w.identity && v.mode == w.mode && v.version >= w.version
  }

  lemma {:induction false} UpdateKeepsRegistry(t: Tables, id: WorkspaceId, v: Workspace)
    requires RegistrySound(t) && id in t.registry && Updates(t.registry[id], v)
    ensures RegistrySound(t.(registry := t.registry[id := v]))
  {
  }

  lemma {:induction false} UpdateKeepsRows(t: Tables, id: WorkspaceId, v: Workspace)
    requires RowsSound(t) && id in t.registry && Updates(t.registry[id], v)
    ensures RowsSound(t.(registry := t.registry[id := v]))
  {
  }

  /** The agreement does not depend on the registry. */
  lemma {:induction false} JournalFrame(t: Tables, u: Tables)
    requires JournalMatches(t) && u.managed == t.managed && u.journal == t.journal
    ensures JournalMatches(u)
  {
    forall k ensures MatchesFor(u, k) {
      assert MatchesFor(t, k);
    }
  }

  lemma {:induction false} UpdateKeeps(t: Tables, id: WorkspaceId, v: Workspace)
    requires TablesInv(t) && id in t.registry && Updates(t.registry[id], v)
    ensures TablesInv(t.(registry := t.registry[id := v])) && Extends(t, t.(registry := t.registry[id := v]))
  {
    var u := t.(registry := t.registry[id := v]);
    assert RegistrySound(u) by { UpdateKeepsRegistry(t, id, v); }
    assert RowsSound(u) by { UpdateKeepsRows(t, id, v); }
    assert JournalMatches(u) by { JournalFrame(t, u); }
  }

  lemma {:induction false} TouchKeeps(t: Tables, id: WorkspaceId)
    requires TablesInv(t)
    ensures TablesInv(TouchTx(t, id)) && Extends(t, TouchTx(t, id))
  {
    if id in t.registry {
      UpdateKeeps(t, id, t.registry[id].(status := Available, version := t.registry[id].version + 1));
    }
  }

  lemma {:induction false} RevalidateKeeps(t: Tables, id: WorkspaceId, status: Availability)
    requires TablesInv(t)
    ensures TablesInv(RevalidateTx(t, id, status)) && Extends(t, RevalidateTx(t, id, status))
  {
    if id in t.registry {
      UpdateKeeps(t, id, t.registry[id].(status := status, version := t.registry[id].version + 1));
    }
  }

  lemma {:induction false} CheckoutKeeps(t: Tables, candidate: WorkspaceId, canonical: Path, identity: Identity)
    requires TablesInv(t)
    ensures var (u, r) := CheckoutTx(t, candidate, canonical, identity);
            && TablesInv(u) && Extends(t, u)
            && u.managed == t.managed && u.journal == t.journal
            && (r.Ok? ==> r.value in u.registry && Collides(u.registry[r.value], canonical, identity, Checkout))
  {
    var (u, r) := CheckoutTx(t, candidate, canonical, identity);
    if RegistryHas(t, canonical, identity, Checkout) {
      TouchKeeps(t, r.value);
    } else if u != t {
      InsertKeepsRegistry(t, candidate, Workspace(canonical, identity, Checkout, Available, 1));
      assert RowsSound(u);
      JournalFrame(t, u);
    }
  }
}
