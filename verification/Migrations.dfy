/** The migration runner: any number of processes apply lists of migrations to one database.
    The existence check runs outside the transaction that applies and records. */
module MigrationProtocol {
  import opened Wrappers

  type Sql = nat
  type ProcessId = nat

  datatype Migration = Migration(id: string, sql: Sql)

  /** SHA-256 of the statement text, assumed injective. */
  datatype Checksum = Sha256(sql: Sql)

  /** One committed execution of a migration's statements. */
  datatype Effect = Effect(id: string, sql: Sql, owner: ProcessId)

  datatype Database = Database(records: map<string, Checksum>, effects: seq<Effect>)

  datatype Point = Checking | Transacting | Finished | Threw | Crashed

  datatype Process = Process(migrations: seq<Migration>, next: nat, point: Point, applied: seq<string>, skipped: seq<string>)

  datatype World = World(db: Database, processes: map<ProcessId, Process>)

  /** The transaction: the statements, then the record; a failing statement or a record that is
      already there rolls both back. */
  function ApplyTx(db: Database, m: Migration, owner: ProcessId, executes: bool): Option<Database> {
    if !executes || m.id in db.records then None
    else Some(Database(db.records[m.id := Sha256(m.sql)], db.effects + [Effect(m.id, m.sql, owner)]))
  }

  function Next(db: Database, p: ProcessId, me: Process, executes: bool): (Database, Process) {
    if me.next >= |me.migrations| then
      (db, if me.point == Checking then me.(point := Finished) else me)
    else
      var m := me.migrations[me.next];
      match me.point
      case Checking =>
        (db,
         if m.id == "" then me.(point := Threw)
         else if m.id !in db.records then me.(point := Transacting)
         else if db.records[m.id] != Sha256(m.sql) then me.(point := Threw)
         else me.(next := me.next + 1, skipped := me.skipped + [m.id]))
      case Transacting =>
        var after := ApplyTx(db, m, p, executes);
        if after.Some? then (after.value, me.(next := me.next + 1, point := Checking, applied := me.applied + [m.id]))
        else (db, me.(point := Threw))
      case _ => (db, me)
  }

  datatype Step =
    | Start(p: ProcessId, migrations: seq<Migration>)
    | Advance(p: ProcessId, executes: bool)
    | Crash(p: ProcessId)

  function Apply(w: World, step: Step): World {
    match step
    case Start(p, migrations) =>
      if p in w.processes then w
      else w.(processes := w.processes[p := Process(migrations, 0, Checking, [], [])])
    case Advance(p, executes) =>
      if p !in w.processes then w else
      var (db, me) := Next(w.db, p, w.processes[p], executes);
      World(db, w.processes[p := me])
    case Crash(p) =>
      if p in w.processes && w.processes[p].point in {Checking, Transacting}
      then w.(processes := w.processes[p := w.processes[p].(point := Crashed)]) else w
  }

  function Run(w: World, steps: seq<Step>): World {
    if steps == [] then w else Apply(Run(w, steps[..|steps| - 1]), steps[|steps| - 1])
  }

  const EMPTY := World(Database(map[], []), map[])

  /** The executions of one id, oldest first. */
  function EffectsOf(effects: seq<Effect>, id: string): seq<Effect> {
    if effects == [] then []
    else
      EffectsOf(effects[..|effects| - 1], id)
      + if effects[|effects| - 1].id == id then [effects[|effects| - 1]] else []
  }

  /** Effect and record appear together or not at all, and never twice. */
  ghost predicate DatabaseInv(db: Database) {
    forall id ::
      if id in db.records then |EffectsOf(db.effects, id)| == 1 && db.records[id] == Sha256(EffectsOf(db.effects, id)[0].sql)
      else EffectsOf(db.effects, id) == []
  }

  ghost predicate Extends(db: Database, after: Database) {
    && (forall id :: id in db.records ==> id in after.records && after.records[id] == db.records[id])
    && db.effects <= after.effects
  }

  predicate Recorded(db: Database, m: Migration) {
    m.id in db.records && db.records[m.id] == Sha256(m.sql)
  }

  /** Everything a process has passed is recorded with its checksum, and is either listed as
      skipped or listed as applied; what it lists as applied it executed itself. */
  ghost predicate ProcessInv(db: Database, p: ProcessId, me: Process) {
    && me.next <= |me.migrations|
    && (me.point == Finished ==> me.next == |me.migrations|)
    && (me.point == Transacting ==> me.next < |me.migrations| && me.migrations[me.next].id != "")
    && (forall i :: 0 <= i < me.next ==>
                      && me.migrations[i].id != "" && Recorded(db, me.migrations[i])
                      && (me.migrations[i].id in me.applied || me.migrations[i].id in me.skipped))
    && |me.applied| + |me.skipped| == me.next
    && (forall id :: id in me.applied ==> id in db.records && EffectsOf(db.effects, id) != [] && EffectsOf(db.effects, id)[0].owner == p)
  }

  ghost predicate Inv(w: World) {
    && DatabaseInv(w.db)
    && forall p :: p in w.processes ==> ProcessInv(w.db, p, w.processes[p])
  }

  lemma {:induction false} EffectsAppend(effects: seq<Effect>, e: Effect, id: string)
    ensures EffectsOf(effects + [e], id) == EffectsOf(effects, id) + if e.id == id then [e] else []
  {
    assert (effects + [e])[..|effects|] == effects;
  }

  lemma {:induction false} ApplyTxKeeps(db: Database, m: Migration, owner: ProcessId)
    requires DatabaseInv(db) && m.id !in db.records
    ensures var after := ApplyTx(db, m, owner, true).value;
            && DatabaseInv(after) && Extends(db, after) && Recorded(after, m)
            && EffectsOf(after.effects, m.id) == [Effect(m.id, m.sql, owner)]
            && (forall id :: id != m.id ==> EffectsOf(after.effects, id) == EffectsOf(db.effects, id))
  {
    var after := ApplyTx(db, m, owner, true).value;
    var e := Effect(m.id, m.sql, owner);
    EffectsAppend(db.effects, e, m.id);
    forall id | id != m.id ensures EffectsOf(after.effects, id) == EffectsOf(db.effects, id) {
      EffectsAppend(db.effects, e, id);
    }
    forall id
      ensures if id in after.records then |EffectsOf(after.effects, id)| == 1 && after.records[id] == Sha256(EffectsOf(after.effects, id)[0].sql)
              else EffectsOf(after.effects, id) == []
    {
      assert if id in db.records then |EffectsOf(db.effects, id)| == 1 && db.records[id] == Sha256(EffectsOf(db.effects, id)[0].sql)
             else EffectsOf(db.effects, id) == [];
    }
  }

  /** Only executions of new ids were added. */
  ghost predicate OldEffectsStay(db: Database, after: Database) {
    Extends(db, after) && forall id :: id in db.records ==> EffectsOf(after.effects, id) == EffectsOf(db.effects, id)
  }

  lemma {:induction false} ProcessMonotone(db: Database, after: Database, p: ProcessId, me: Process)
    requires ProcessInv(db, p, me) && OldEffectsStay(db, after)
    ensures ProcessInv(after, p, me)
  {
  }

  /** Whether the next statement of a process is a transaction that commits. */
  predicate Commits(db: Database, me: Process, executes: bool) {
    me.next < |me.migrations| && me.point == Transacting && executes && me.migrations[me.next].id !in db.records
  }

  lemma {:induction false} NextChanges(db: Database, p: ProcessId, me: Process, executes: bool)
    ensures Next(db, p, me, executes).0 ==
            if Commits(db, me, executes) then ApplyTx(db, me.migrations[me.next], p, true).value else db
  {
  }

  lemma {:induction false} CommitKeeps(db: Database, m: Migration, p: ProcessId)
    requires DatabaseInv(db) && m.id !in db.records
    ensures DatabaseInv(ApplyTx(db, m, p, true).value) && OldEffectsStay(db, ApplyTx(db, m, p, true).value)
  {
    ApplyTxKeeps(db, m, p);
  }

  lemma {:induction false} NextDatabase(db: Database, p: ProcessId, me: Process, executes: bool)
    requires DatabaseInv(db)
    ensures DatabaseInv(Next(db, p, me, executes).0) && OldEffectsStay(db, Next(db, p, me, executes).0)
  {
    NextChanges(db, p, me, executes);
    if Commits(db, me, executes) {
      CommitKeeps(db, me.migrations[me.next], p);
    } else {
      assert Next(db, p, me, executes).0 == db;
    }
  }

  lemma {:induction false} NextProcess(db: Database, p: ProcessId, me: Process, executes: bool)
    requires DatabaseInv(db) && ProcessInv(db, p, me)
    ensures ProcessInv(Next(db, p, me, executes).0, p, Next(db, p, me, executes).1)
  {
    var (after, moved) := Next(db, p, me, executes);
    NextDatabase(db, p, me, executes);
    ProcessMonotone(db, after, p, me);
    if Commits(db, me, executes) {
      ApplyTxKeeps(db, me.migrations[me.next], p);
    }
  }

  lemma {:induction false} StepKeeps(w: World, step: Step)
    requires Inv(w)
    ensures Inv(Apply(w, step)) && Extends(w.db, Apply(w, step).db)
  {
    if step.Advance? && step.p in w.processes {
      var v := Apply(w, step);
      NextDatabase(w.db, step.p, w.processes[step.p], step.executes);
      NextProcess(w.db, step.p, w.processes[step.p], step.executes);
      forall p | p in v.processes ensures ProcessInv(v.db, p, v.processes[p]) {
        if p != step.p { ProcessMonotone(w.db, v.db, p, w.processes[p]); }
      }
    }
  }

  lemma {:induction false} RunKeeps(w: World, steps: seq<Step>)
    requires Inv(w)
    ensures Inv(Run(w, steps)) && Extends(w.db, Run(w, steps).db)
  {
    if steps != [] {
      RunKeeps(w, steps[..|steps| - 1]);
      StepKeeps(Run(w, steps[..|steps| - 1]), steps[|steps| - 1]);
    }
  }

  lemma {:induction false} RunAppend(w: World, steps: seq<Step>, step: Step)
    ensures Run(w, steps + [step]) == Apply(Run(w, steps), step)
  {
    assert (steps + [step])[..|steps|] == steps;
  }

  lemma {:induction false} EmptyInv()
    ensures Inv(EMPTY)
  {
  }

  // ---- The theorems, over every run of any processes. ----

  /** Each migration's effect and its record are there together or not at all, and the effect
      at most once. */
  lemma {:induction false} AppliedOnce(steps: seq<Step>, id: string)
    ensures var db := Run(EMPTY, steps).db;
            && |EffectsOf(db.effects, id)| <= 1
            && (id in db.records <==> EffectsOf(db.effects, id) != [])
            && (id in db.records ==> db.records[id] == Sha256(EffectsOf(db.effects, id)[0].sql))
  {
    EmptyInv();
    RunKeeps(EMPTY, steps);
    assert DatabaseInv(Run(EMPTY, steps).db);
  }

  /** No two processes both report having applied an id. */
  lemma {:induction false} OneApplies(steps: seq<Step>, p: ProcessId, q: ProcessId, id: string)
    requires p in Run(EMPTY, steps).processes && id in Run(EMPTY, steps).processes[p].applied
    requires q in Run(EMPTY, steps).processes && id in Run(EMPTY, steps).processes[q].applied
    ensures p == q
  {
    EmptyInv();
    RunKeeps(EMPTY, steps);
    var v := Run(EMPTY, steps);
    assert ProcessInv(v.db, p, v.processes[p]) && ProcessInv(v.db, q, v.processes[q]);
  }

  /** A process that returns leaves every migration of its list recorded with its own checksum. */
  lemma {:induction false} FinishedRecorded(steps: seq<Step>, p: ProcessId)
    requires p in Run(EMPTY, steps).processes && Run(EMPTY, steps).processes[p].point == Finished
    ensures var v := Run(EMPTY, steps);
            && (forall m :: m in v.processes[p].migrations ==> m.id != "" && Recorded(v.db, m))
            && |v.processes[p].applied| + |v.processes[p].skipped| == |v.processes[p].migrations|
  {
    EmptyInv();
    RunKeeps(EMPTY, steps);
    var v := Run(EMPTY, steps);
    assert ProcessInv(v.db, p, v.processes[p]);
  }

  function Ids(migrations: seq<Migration>): seq<string> {
    if migrations == [] then [] else [migrations[0].id] + Ids(migrations[1..])
  }

  /** A process that nobody disturbs, n statements on. */
  function Undisturbed(db: Database, p: ProcessId, me: Process, n: nat): (Database, Process)
    decreases n
  {
    if n == 0 then (db, me)
    else
      var (after, moved) := Next(db, p, me, true);
      Undisturbed(after, p, moved, n - 1)
  }

  /** Applying a list that is already recorded skips all of it and changes nothing. */
  lemma {:induction false} SecondPassSkips(db: Database, p: ProcessId, me: Process)
    requires me.next <= |me.migrations| && me.point == Checking
    requires forall m :: m in me.migrations ==> m.id != "" && Recorded(db, m)
    ensures Undisturbed(db, p, me, |me.migrations| - me.next + 1)
         == (db, me.(next := |me.migrations|, point := Finished, skipped := me.skipped + Ids(me.migrations[me.next..])))
    decreases |me.migrations| - me.next
  {
    if me.next == |me.migrations| {
      assert me.migrations[me.next..] == [] && me.skipped + [] == me.skipped;
      assert Next(db, p, me, true) == (db, me.(point := Finished));
      assert Undisturbed(db, p, me.(point := Finished), 0) == (db, me.(point := Finished));
    } else {
      var m := me.migrations[me.next];
      var moved := me.(next := me.next + 1, skipped := me.skipped + [m.id]);
      assert m in me.migrations;
      assert Next(db, p, me, true) == (db, moved);
      SecondPassSkips(db, p, moved);
      assert me.migrations[me.next..][1..] == me.migrations[me.next + 1..];
      assert me.skipped + [m.id] + Ids(me.migrations[me.next + 1..]) == me.skipped + Ids(me.migrations[me.next..]);
    }
  }

  // ---- What a pass applies. ----

  /** The migrations of a list that are not recorded yet, and those that are. */
  function Unrecorded(records: map<string, Checksum>, migrations: seq<Migration>): seq<Migration> {
    if migrations == [] then []
    else if migrations[0].id in records then Unrecorded(records, migrations[1..])
    else [migrations[0]] + Unrecorded(records, migrations[1..])
  }

  function AlreadyRecorded(records: map<string, Checksum>, migrations: seq<Migration>): seq<Migration> {
    if migrations == [] then []
    else if migrations[0].id in records then [migrations[0]] + AlreadyRecorded(records, migrations[1..])
    else AlreadyRecorded(records, migrations[1..])
  }

  function Executions(migrations: seq<Migration>, p: ProcessId): seq<Effect> {
    seq(|migrations|, i requires 0 <= i < |migrations| => Effect(migrations[i].id, migrations[i].sql, p))
  }

  function Recording(records: map<string, Checksum>, migrations: seq<Migration>): map<string, Checksum>
    decreases |migrations|
  {
    if migrations == [] then records
    else Recording(records[migrations[0].id := Sha256(migrations[0].sql)], migrations[1..])
  }

  /** Distinct, non-empty ids, and no record of another text. */
  ghost predicate Applicable(records: map<string, Checksum>, migrations: seq<Migration>) {
    && (forall i, j :: 0 <= i < j < |migrations| ==> migrations[i].id != migrations[j].id)
    && (forall m :: m in migrations ==> m.id != "" && (m.id in records ==> records[m.id] == Sha256(m.sql)))
  }

  lemma {:induction false} ApplicableTail(records: map<string, Checksum>, migrations: seq<Migration>)
    requires migrations != [] && Applicable(records, migrations)
    ensures Applicable(records, migrations[1..])
    ensures Applicable(records[migrations[0].id := Sha256(migrations[0].sql)], migrations[1..])
    ensures forall m :: m in migrations[1..] ==> m.id != migrations[0].id
  {
  }

  /** Recording one more id sorts out nothing else. */
  lemma {:induction false} SortingFrame(records: map<string, Checksum>, id: string, checksum: Checksum, migrations: seq<Migration>)
    requires forall m :: m in migrations ==> m.id != id
    ensures Unrecorded(records[id := checksum], migrations) == Unrecorded(records, migrations)
    ensures AlreadyRecorded(records[id := checksum], migrations) == AlreadyRecorded(records, migrations)
  {
    if migrations != [] {
      assert migrations[0] in migrations;
      SortingFrame(records, id, checksum, migrations[1..]);
    }
  }

  /** The database with one more migration executed and recorded. */
  function Committed(db: Database, m: Migration, p: ProcessId): Database {
    Database(db.records[m.id := Sha256(m.sql)], db.effects + [Effect(m.id, m.sql, p)])
  }

  /** What a whole pass makes of the database and of the process. */
  function Passed(db: Database, p: ProcessId, me: Process, rest: seq<Migration>): (Database, Process) {
    var todo := Unrecorded(db.records, rest);
    (Database(Recording(db.records, todo), db.effects + Executions(todo, p)),
     me.(next := |me.migrations|, point := Finished,
         applied := me.applied + Ids(todo), skipped := me.skipped + Ids(AlreadyRecorded(db.records, rest))))
  }

  lemma {:induction false} PassedSkip(db: Database, p: ProcessId, me: Process, rest: seq<Migration>)
    requires rest != [] && rest[0].id in db.records
    ensures Passed(db, p, me, rest) == Passed(db, p, me.(next := me.next + 1, skipped := me.skipped + [rest[0].id]), rest[1..])
  {
    var more := Ids(AlreadyRecorded(db.records, rest[1..]));
    assert me.skipped + [rest[0].id] + more == me.skipped + ([rest[0].id] + more);
    IdsCons(rest[0], AlreadyRecorded(db.records, rest[1..]));
  }

  lemma {:induction false} IdsCons(m: Migration, migrations: seq<Migration>)
    ensures Ids([m] + migrations) == [m.id] + Ids(migrations)
  {
    assert ([m] + migrations)[1..] == migrations;
  }

  lemma {:induction false} RecordingCons(records: map<string, Checksum>, m: Migration, migrations: seq<Migration>)
    ensures Recording(records, [m] + migrations) == Recording(records[m.id := Sha256(m.sql)], migrations)
  {
    assert ([m] + migrations)[1..] == migrations;
  }

  lemma {:induction false} PassedApply(db: Database, p: ProcessId, me: Process, rest: seq<Migration>)
    requires rest != [] && rest[0].id !in db.records && forall m :: m in rest[1..] ==> m.id != rest[0].id
    ensures Passed(db, p, me, rest)
         == Passed(Committed(db, rest[0], p), p, me.(next := me.next + 1, applied := me.applied + [rest[0].id]), rest[1..])
  {
    var m := rest[0];
    var todo := Unrecorded(db.records, rest[1..]);
    SortingFrame(db.records, m.id, Sha256(m.sql), rest[1..]);
    IdsCons(m, todo);
    RecordingCons(db.records, m, todo);
    assert Executions([m] + todo, p) == [Effect(m.id, m.sql, p)] + Executions(todo, p);
    assert db.effects + [Effect(m.id, m.sql, p)] + Executions(todo, p) == db.effects + ([Effect(m.id, m.sql, p)] + Executions(todo, p));
    assert me.applied + [m.id] + Ids(todo) == me.applied + ([m.id] + Ids(todo));
  }

  lemma {:induction false} FinishedStays(db: Database, p: ProcessId, me: Process, n: nat)
    requires me.point == Finished
    ensures Undisturbed(db, p, me, n) == (db, me)
    decreases n
  {
    if n > 0 {
      FinishedStays(db, p, me, n - 1);
    }
  }

  lemma {:induction false} OneStep(db: Database, p: ProcessId, me: Process, n: nat)
    requires n > 0
    ensures Undisturbed(db, p, me, n) == Undisturbed(Next(db, p, me, true).0, p, Next(db, p, me, true).1, n - 1)
  {
  }

  lemma {:induction false} PassSkips(db: Database, p: ProcessId, me: Process, n: nat)
    requires n > 0 && me.next < |me.migrations| && me.point == Checking
    requires me.migrations[me.next].id != "" && Recorded(db, me.migrations[me.next])
    ensures Undisturbed(db, p, me, n)
         == Undisturbed(db, p, me.(next := me.next + 1, skipped := me.skipped + [me.migrations[me.next].id]), n - 1)
  {
    OneStep(db, p, me, n);
  }

  lemma {:induction false} PassCommits(db: Database, p: ProcessId, me: Process, n: nat)
    requires n > 1 && me.next < |me.migrations| && me.point == Checking
    requires me.migrations[me.next].id != "" && me.migrations[me.next].id !in db.records
    ensures Undisturbed(db, p, me, n)
         == Undisturbed(Committed(db, me.migrations[me.next], p), p,
                        me.(next := me.next + 1, applied := me.applied + [me.migrations[me.next].id]), n - 2)
  {
    OneStep(db, p, me, n);
    OneStep(db, p, me.(point := Transacting), n - 1);
    assert me.(point := Transacting).(next := me.next + 1, point := Checking, applied := me.applied + [me.migrations[me.next].id])
        == me.(next := me.next + 1, applied := me.applied + [me.migrations[me.next].id]);
  }

  lemma {:induction false} PassIs(db: Database, p: ProcessId, me: Process, n: nat)
    requires me.next <= |me.migrations| && me.point == Checking && n > 2 * (|me.migrations| - me.next)
    requires Applicable(db.records, me.migrations[me.next..])
    ensures Undisturbed(db, p, me, n) == Passed(db, p, me, me.migrations[me.next..])
    decreases |me.migrations| - me.next
  {
    var rest := me.migrations[me.next..];
    if rest == [] {
      OneStep(db, p, me, n);
      FinishedStays(db, p, me.(point := Finished), n - 1);
      assert me.next == |me.migrations|;
      assert Executions([], p) == [];
      assert me.applied + [] == me.applied && me.skipped + [] == me.skipped && db.effects + [] == db.effects;
    } else {
      var m := rest[0];
      assert m in rest;
      ApplicableTail(db.records, rest);
      assert rest[1..] == me.migrations[me.next + 1..];
      if m.id in db.records {
        PassSkips(db, p, me, n);
        PassedSkip(db, p, me, rest);
        PassIs(db, p, me.(next := me.next + 1, skipped := me.skipped + [m.id]), n - 1);
      } else {
        PassCommits(db, p, me, n);
        PassedApply(db, p, me, rest);
        PassIs(Committed(db, m, p), p, me.(next := me.next + 1, applied := me.applied + [m.id]), n - 2);
      }
    }
  }

  /** A process starts and takes n steps, in which every statement executes. */
  function Alone(p: ProcessId, migrations: seq<Migration>, n: nat): seq<Step> {
    [Start(p, migrations)] + seq(n, _ => Advance(p, true))
  }

  lemma {:induction false} StepFirst(w: World, step: Step, steps: seq<Step>)
    ensures Run(w, [step] + steps) == Run(Apply(w, step), steps)
  {
    if steps == [] {
      assert [step] + steps == [] + [step];
      RunAppend(w, [], step);
    } else {
      var init, last := steps[..|steps| - 1], steps[|steps| - 1];
      StepFirst(w, step, init);
      assert [step] + steps == ([step] + init) + [last];
      RunAppend(w, [step] + init, last);
    }
  }

  lemma {:induction false} UndisturbedIsRun(db: Database, p: ProcessId, me: Process, others: map<ProcessId, Process>, n: nat)
    ensures var (after, moved) := Undisturbed(db, p, me, n);
            Run(World(db, others[p := me]), seq(n, _ => Advance(p, true))) == World(after, others[p := moved])
    decreases n
  {
    if n > 0 {
      var (next, moved) := Next(db, p, me, true);
      assert seq(n, _ => Advance(p, true)) == [Advance(p, true)] + seq(n - 1, _ => Advance(p, true));
      StepFirst(World(db, others[p := me]), Advance(p, true), seq(n - 1, _ => Advance(p, true)));
      assert Apply(World(db, others[p := me]), Advance(p, true)) == World(next, others[p := moved]);
      UndisturbedIsRun(next, p, moved, others, n - 1);
    }
  }

  lemma {:induction false} AloneIs(w: World, p: ProcessId, migrations: seq<Migration>, n: nat)
    requires p !in w.processes && Applicable(w.db.records, migrations) && n > 2 * |migrations|
    ensures var (db, me) := Passed(w.db, p, Process(migrations, 0, Checking, [], []), migrations);
            Run(w, Alone(p, migrations, n)) == World(db, w.processes[p := me])
  {
    var process := Process(migrations, 0, Checking, [], []);
    StepFirst(w, Start(p, migrations), seq(n, _ => Advance(p, true)));
    UndisturbedIsRun(w.db, p, process, w.processes, n);
    assert migrations[0..] == migrations;
    PassIs(w.db, p, process, n);
  }

  lemma {:induction false} IdAt(migrations: seq<Migration>, i: nat)
    ensures |Ids(migrations)| == |migrations|
    ensures i < |migrations| ==> Ids(migrations)[i] == migrations[i].id
  {
    if migrations != [] {
      IdAt(migrations[1..], if i > 0 then i - 1 else 0);
    }
  }

  lemma {:induction false} UnrecordedMember(records: map<string, Checksum>, migrations: seq<Migration>, m: Migration)
    ensures m in Unrecorded(records, migrations) <==> m in migrations && m.id !in records
    ensures m in AlreadyRecorded(records, migrations) <==> m in migrations && m.id in records
    ensures |Unrecorded(records, migrations)| + |AlreadyRecorded(records, migrations)| == |migrations|
  {
    if migrations != [] {
      assert migrations == [migrations[0]] + migrations[1..];
      UnrecordedMember(records, migrations[1..], m);
    }
  }

  /** The one comes before the other in the list. */
  ghost predicate Follows(migrations: seq<Migration>, a: string, b: string) {
    exists i, j :: 0 <= i < j < |migrations| && migrations[i].id == a && migrations[j].id == b
  }

  lemma {:induction false} FollowsTail(m: Migration, migrations: seq<Migration>, a: string, b: string)
    requires Follows(migrations, a, b) || (m.id == a && exists n :: n in migrations && n.id == b)
    ensures Follows([m] + migrations, a, b)
  {
    var all := [m] + migrations;
    if Follows(migrations, a, b) {
      var i, j :| 0 <= i < j < |migrations| && migrations[i].id == a && migrations[j].id == b;
      assert all[i + 1].id == a && all[j + 1].id == b;
    } else {
      var n :| n in migrations && n.id == b;
      var j :| 0 <= j < |migrations| && migrations[j] == n;
      assert all[0].id == a && all[j + 1].id == b;
    }
  }

  lemma {:induction false} UnrecordedInOrder(records: map<string, Checksum>, migrations: seq<Migration>, a: nat, b: nat)
    requires a < b < |Unrecorded(records, migrations)|
    ensures Follows(migrations, Unrecorded(records, migrations)[a].id, Unrecorded(records, migrations)[b].id)
  {
    var m, rest := migrations[0], migrations[1..];
    var todo := Unrecorded(records, rest);
    assert migrations == [m] + rest;
    if m.id in records {
      UnrecordedInOrder(records, rest, a, b);
      FollowsTail(m, rest, todo[a].id, todo[b].id);
    } else if a > 0 {
      UnrecordedInOrder(records, rest, a - 1, b - 1);
      FollowsTail(m, rest, todo[a - 1].id, todo[b - 1].id);
    } else {
      UnrecordedMember(records, rest, todo[b - 1]);
      FollowsTail(m, rest, m.id, todo[b - 1].id);
    }
  }

  lemma {:induction false} RecordedInOrder(records: map<string, Checksum>, migrations: seq<Migration>, a: nat, b: nat)
    requires a < b < |AlreadyRecorded(records, migrations)|
    ensures Follows(migrations, AlreadyRecorded(records, migrations)[a].id, AlreadyRecorded(records, migrations)[b].id)
  {
    var m, rest := migrations[0], migrations[1..];
    var done := AlreadyRecorded(records, rest);
    assert migrations == [m] + rest;
    if m.id !in records {
      RecordedInOrder(records, rest, a, b);
      FollowsTail(m, rest, done[a].id, done[b].id);
    } else if a > 0 {
      RecordedInOrder(records, rest, a - 1, b - 1);
      FollowsTail(m, rest, done[a - 1].id, done[b - 1].id);
    } else {
      UnrecordedMember(records, rest, done[b - 1]);
      FollowsTail(m, rest, m.id, done[b - 1].id);
    }
  }

  lemma {:induction false} RecordingIs(records: map<string, Checksum>, migrations: seq<Migration>, id: string)
    requires forall i, j :: 0 <= i < j < |migrations| ==> migrations[i].id != migrations[j].id
    ensures id in Recording(records, migrations) <==> id in records || exists m :: m in migrations && m.id == id
    ensures forall m :: m in migrations && m.id == id ==>
              id in Recording(records, migrations) && Recording(records, migrations)[id] == Sha256(m.sql)
    ensures id in records && (forall m :: m in migrations ==> m.id != id) ==>
              id in Recording(records, migrations) && Recording(records, migrations)[id] == records[id]
    decreases |migrations|
  {
    if migrations != [] {
      var m := migrations[0];
      assert migrations == [m] + migrations[1..];
      assert forall n :: n in migrations[1..] ==> n.id != m.id;
      RecordingIs(records[m.id := Sha256(m.sql)], migrations[1..], id);
    }
  }

  lemma {:induction false} NoneRecorded(records: map<string, Checksum>, migrations: seq<Migration>)
    requires forall m :: m in migrations ==> m.id !in records
    ensures Unrecorded(records, migrations) == migrations && AlreadyRecorded(records, migrations) == []
  {
    if migrations != [] {
      assert migrations == [migrations[0]] + migrations[1..];
      NoneRecorded(records, migrations[1..]);
    }
  }

  /** The records of the list have been added, and nothing else. */
  ghost predicate RecordsOf(before: map<string, Checksum>, after: map<string, Checksum>, migrations: seq<Migration>) {
    && (forall m :: m in migrations ==> m.id in after && after[m.id] == Sha256(m.sql))
    && (forall id :: id in before ==> id in after && after[id] == before[id])
    && (forall id :: id in after ==> id in before || exists m :: m in migrations && m.id == id)
  }

  lemma {:induction false} UnrecordedDistinct(records: map<string, Checksum>, migrations: seq<Migration>, a: nat, b: nat)
    requires Applicable(records, migrations) && a < b < |Unrecorded(records, migrations)|
    ensures Unrecorded(records, migrations)[a].id != Unrecorded(records, migrations)[b].id
  {
    UnrecordedInOrder(records, migrations, a, b);
  }

  lemma {:induction false} RecordsAdded(records: map<string, Checksum>, migrations: seq<Migration>)
    requires Applicable(records, migrations)
    ensures RecordsOf(records, Recording(records, Unrecorded(records, migrations)), migrations)
  {
    var todo := Unrecorded(records, migrations);
    var after := Recording(records, todo);
    forall a, b | 0 <= a < b < |todo| ensures todo[a].id != todo[b].id {
      UnrecordedDistinct(records, migrations, a, b);
    }
    forall m | m in migrations ensures m.id in after && after[m.id] == Sha256(m.sql) {
      UnrecordedMember(records, migrations, m);
      RecordingIs(records, todo, m.id);
      TodoIsNew(records, migrations);
    }
    forall id | id in records ensures id in after && after[id] == records[id] {
      RecordingIs(records, todo, id);
      TodoIsNew(records, migrations);
    }
    forall id | id in after ensures id in records || exists m :: m in migrations && m.id == id {
      RecordingIs(records, todo, id);
      TodoIsNew(records, migrations);
    }
  }

  lemma {:induction false} TodoIsNew(records: map<string, Checksum>, migrations: seq<Migration>)
    ensures forall m :: m in Unrecorded(records, migrations) ==> m in migrations && m.id !in records
  {
    forall m | m in Unrecorded(records, migrations) ensures m in migrations && m.id !in records {
      UnrecordedMember(records, migrations, m);
    }
  }

  /** The first pass: a process that nobody disturbs, with distinct ids of which none is recorded,
      applies the whole list in order: every migration's statements are executed once and its
      checksum is recorded, and nothing is skipped. */
  lemma {:induction false} FirstPass(w: World, p: ProcessId, migrations: seq<Migration>, n: nat)
    requires p !in w.processes && n > 2 * |migrations|
    requires forall i, j :: 0 <= i < j < |migrations| ==> migrations[i].id != migrations[j].id
    requires forall m :: m in migrations ==> m.id != "" && m.id !in w.db.records
    ensures var v := Run(w, Alone(p, migrations, n));
            && p in v.processes && v.processes[p].point == Finished && v.processes[p].skipped == []
            && |v.processes[p].applied| == |migrations|
            && (forall i :: 0 <= i < |migrations| ==> v.processes[p].applied[i] == migrations[i].id)
            && |v.db.effects| == |w.db.effects| + |migrations| && w.db.effects <= v.db.effects
            && (forall i :: 0 <= i < |migrations| ==>
                  v.db.effects[|w.db.effects| + i] == Effect(migrations[i].id, migrations[i].sql, p))
            && RecordsOf(w.db.records, v.db.records, migrations)
  {
    AloneIs(w, p, migrations, n);
    NoneRecorded(w.db.records, migrations);
    RecordsAdded(w.db.records, migrations);
    IdAt(migrations, 0);
    forall i | 0 <= i < |migrations| ensures Ids(migrations)[i] == migrations[i].id {
      IdAt(migrations, i);
    }
  }

  /** Sorted out into applied and skipped, each in the order of the list. */
  ghost predicate SortedOut(records: map<string, Checksum>, migrations: seq<Migration>, applied: seq<string>, skipped: seq<string>) {
    && |applied| + |skipped| == |migrations|
    && (forall m :: m in migrations ==> if m.id in records then m.id in skipped else m.id in applied)
    && (forall a, b :: 0 <= a < b < |applied| ==> Follows(migrations, applied[a], applied[b]))
    && (forall a, b :: 0 <= a < b < |skipped| ==> Follows(migrations, skipped[a], skipped[b]))
  }

  lemma {:induction false} IdsSortedOut(records: map<string, Checksum>, migrations: seq<Migration>)
    ensures SortedOut(records, migrations, Ids(Unrecorded(records, migrations)), Ids(AlreadyRecorded(records, migrations)))
  {
    var todo, done := Unrecorded(records, migrations), AlreadyRecorded(records, migrations);
    IdAt(todo, 0);
    IdAt(done, 0);
    forall m | m in migrations ensures if m.id in records then m.id in Ids(done) else m.id in Ids(todo) {
      UnrecordedMember(records, migrations, m);
      if m.id in records {
        IdIn(done, m);
      } else {
        IdIn(todo, m);
      }
    }
    forall a, b | 0 <= a < b < |todo| ensures Follows(migrations, Ids(todo)[a], Ids(todo)[b]) {
      IdAt(todo, a);
      IdAt(todo, b);
      UnrecordedInOrder(records, migrations, a, b);
    }
    forall a, b | 0 <= a < b < |done| ensures Follows(migrations, Ids(done)[a], Ids(done)[b]) {
      IdAt(done, a);
      IdAt(done, b);
      RecordedInOrder(records, migrations, a, b);
    }
    if migrations != [] {
      UnrecordedMember(records, migrations, migrations[0]);
    }
  }

  lemma {:induction false} IdIn(migrations: seq<Migration>, m: Migration)
    requires m in migrations
    ensures m.id in Ids(migrations)
  {
    if migrations[0] != m {
      IdIn(migrations[1..], m);
    }
  }

  /** The executions that were added are those of the applied ids, in their order, each of the
      statements that are recorded for it. */
  ghost predicate ExecutedAll(before: seq<Effect>, after: Database, applied: seq<string>, p: ProcessId) {
    && before <= after.effects && |after.effects| == |before| + |applied|
    && (forall k :: 0 <= k < |applied| ==>
          var e := after.effects[|before| + k];
          && e.id == applied[k] && e.owner == p && applied[k] in after.records && after.records[applied[k]] == Sha256(e.sql))
  }

  lemma {:induction false} PassExecutes(db: Database, p: ProcessId, migrations: seq<Migration>)
    requires Applicable(db.records, migrations)
    ensures var todo := Unrecorded(db.records, migrations);
            ExecutedAll(db.effects, Database(Recording(db.records, todo), db.effects + Executions(todo, p)), Ids(todo), p)
  {
    var todo := Unrecorded(db.records, migrations);
    RecordsAdded(db.records, migrations);
    TodoIsNew(db.records, migrations);
    IdAt(todo, 0);
    forall k | 0 <= k < |todo| ensures Ids(todo)[k] == todo[k].id && todo[k] in migrations {
      IdAt(todo, k);
      assert todo[k] in todo;
    }
  }

  /** A pass over a list of which some migrations are recorded with their checksums: exactly the
      others are applied, in the order of the list, and those are skipped. */
  lemma {:induction false} MixedPass(w: World, p: ProcessId, migrations: seq<Migration>, n: nat)
    requires p !in w.processes && n > 2 * |migrations|
    requires forall i, j :: 0 <= i < j < |migrations| ==> migrations[i].id != migrations[j].id
    requires forall m :: m in migrations ==>
               m.id != "" && (m.id in w.db.records ==> w.db.records[m.id] == Sha256(m.sql))
    ensures var v := Run(w, Alone(p, migrations, n));
            && p in v.processes && v.processes[p].point == Finished
            && SortedOut(w.db.records, migrations, v.processes[p].applied, v.processes[p].skipped)
            && ExecutedAll(w.db.effects, v.db, v.processes[p].applied, p)
            && RecordsOf(w.db.records, v.db.records, migrations)
  {
    AloneIs(w, p, migrations, n);
    IdsSortedOut(w.db.records, migrations);
    PassExecutes(w.db, p, migrations);
    RecordsAdded(w.db.records, migrations);
    var todo, done := Ids(Unrecorded(w.db.records, migrations)), Ids(AlreadyRecorded(w.db.records, migrations));
    assert [] + todo == todo && [] + done == done;
  }
}

module MigrationCode {
  import opened Wrappers
  import opened MigrationProtocol

  datatype MigrationFailure = EmptyId | ChecksumMismatch(id: string) | TransactionFailed(id: string)

  /** Before a step of the process, the id was not recorded. */
  ghost predicate FoundMissing(history: seq<Step>, from: nat, p: ProcessId, id: string) {
    exists k :: from <= k < |history| && history[k].Advance? && history[k].p == p && Missing(history, k, id)
  }

  ghost predicate Missing(history: seq<Step>, k: nat, id: string)
    requires k <= |history|
  {
    id !in Run(EMPTY, history[..k]).db.records
  }

  /** What a failure says about the migration it stopped at: its id is empty; it is recorded with
      another checksum; or it was not recorded, and then its statements did not execute or
      another process has recorded it. */
  ghost predicate Explains(failure: MigrationFailure, m: Migration, executes: bool, records: map<string, Checksum>, missing: bool) {
    match failure
    case EmptyId => m.id == ""
    case ChecksumMismatch(id) => id == m.id && id != "" && id in records && records[id] != Sha256(m.sql)
    case TransactionFailed(id) => id == m.id && id != "" && missing && (!executes || id in records)
  }

  /** The runner as a program on the shared database. `processes` and `history` are ghosts that say
      which run of the protocol was made; others may act between any two statements. */
  class SqliteDatabase {
    var records: map<string, Checksum>
    ghost var effects: seq<Effect>
    ghost var processes: map<ProcessId, Process>
    ghost var history: seq<Step>

    ghost function Now(): World
      reads this
    {
      World(Database(records, effects), processes)
    }

    ghost predicate Valid()
      reads this
    {
      Now() == Run(EMPTY, history)
    }

    constructor ()
      ensures Valid() && history == []
    {
      records := map[];
      effects := [];
      processes := map[];
      history := [];
    }

    method Others(ghost p: ProcessId)
      requires Valid() && p in processes
      modifies this
      ensures Valid() && old(history) <= history
      ensures p in processes && processes[p] == old(processes[p])
    {
    }

    ghost method Follow(step: Step, before: Database)
      requires World(before, processes) == Run(EMPTY, history)
      requires Apply(World(before, processes), step).db == Database(records, effects)
      modifies `processes, `history
      ensures Valid() && history == old(history) + [step]
      ensures processes == Apply(World(before, old(processes)), step).processes
    {
      RunAppend(EMPTY, history, step);
      processes := Apply(World(before, processes), step).processes;
      history := history + [step];
    }

    /** The immediate transaction of one migration, of which the statements execute or not. */
    method Transaction(m: Migration, executes: bool, ghost p: ProcessId) returns (committed: bool)
      requires Valid() && p in processes && processes[p].point == Transacting
      requires processes[p].next < |processes[p].migrations| && processes[p].migrations[processes[p].next] == m
      modifies this
      ensures Valid() && history == old(history) + [Advance(p, executes)]
      ensures committed <==> executes && m.id !in old(records)
      ensures committed ==> records == old(records)[m.id := Sha256(m.sql)]
                            && effects == old(effects) + [Effect(m.id, m.sql, p)]
      ensures !committed ==> records == old(records) && effects == old(effects)
      ensures p in processes
      ensures var me := old(processes[p]);
              processes[p] == if committed then me.(next := me.next + 1, point := Checking, applied := me.applied + [m.id])
                              else me.(point := Threw)
    {
      ghost var before := Database(records, effects);
      committed := executes && m.id !in records;
      if committed {
        effects := effects + [Effect(m.id, m.sql, p)];
        records := records[m.id := Sha256(m.sql)];
      }
      Follow(Advance(p, executes), before);
    }

    /** The whole call; `executes` says which of the statements execute. When it returns, every
        migration of the list is recorded with its own checksum, and is reported either as
        applied, by this process, or as skipped. When it throws, the migration it has come to
        explains why. */
    method ApplyMigrations(migrations: seq<Migration>, executes: seq<bool>, ghost p: ProcessId)
      returns (applied: seq<string>, skipped: seq<string>, failure: Option<MigrationFailure>)
      requires Valid() && p !in processes && |executes| == |migrations|
      modifies this
      ensures Valid() && old(history) <= history
      ensures p in processes && processes[p].migrations == migrations
      ensures processes[p].applied == applied && processes[p].skipped == skipped
      ensures processes[p].point == if failure.None? then Finished else Threw
      ensures failure.None? ==> forall m :: m in migrations ==> m.id != "" && Recorded(Now().db, m)
      ensures failure.None? ==> |applied| + |skipped| == |migrations|
      ensures forall id :: id in applied ==> id in records && EffectsOf(effects, id) != [] && EffectsOf(effects, id)[0].owner == p
      ensures failure.Some? ==>
                && |applied| + |skipped| < |migrations|
                && var i := |applied| + |skipped|;
                   Explains(failure.value, migrations[i], executes[i], records,
                            FoundMissing(history, |old(history)|, p, migrations[i].id))
    {
      applied, skipped, failure := [], [], None;
      Follow(Start(p, migrations), Now().db);
      var i := 0;
      while i < |migrations| && failure.None?
        invariant 0 <= i <= |migrations| && i == |applied| + |skipped|
        invariant Valid() && old(history) <= history
        invariant p in processes
        invariant processes[p] == Process(migrations, i, if failure.None? then Checking else Threw, applied, skipped)
        invariant failure.Some? ==>
                    i < |migrations| && Explains(failure.value, migrations[i], executes[i], records,
                                                 FoundMissing(history, |old(history)|, p, migrations[i].id))
        decreases |migrations| - i, failure.None?
      {
        var skips: bool;
        skips, failure := ApplyMigration(migrations[i], executes[i], p);
        if failure.None? {
          applied := if skips then applied else applied + [migrations[i].id];
          skipped := if skips then skipped + [migrations[i].id] else skipped;
          i := i + 1;
        }
      }
      if failure.None? {
        Follow(Advance(p, true), Now().db);
      }
      Settled(Now(), history, p);
    }

    /** One turn of the loop: the check, and the transaction of a migration that is not recorded. */
    method ApplyMigration(migration: Migration, executes: bool, ghost p: ProcessId)
      returns (skips: bool, failure: Option<MigrationFailure>)
      requires Valid() && p in processes && processes[p].point == Checking
      requires processes[p].next < |processes[p].migrations| && processes[p].migrations[processes[p].next] == migration
      modifies this
      ensures Valid() && old(history) <= history && p in processes
      ensures var me := old(processes[p]);
              processes[p] == if failure.Some? then me.(point := Threw)
                              else if skips then me.(next := me.next + 1, skipped := me.skipped + [migration.id])
                              else me.(next := me.next + 1, applied := me.applied + [migration.id])
      ensures failure.Some? ==>
                Explains(failure.value, migration, executes, records, FoundMissing(history, |old(history)|, p, migration.id))
    {
      skips, failure := false, None;
      Others(p);
      if migration.id == "" {
        Follow(Advance(p, true), Now().db);
        failure := Some(EmptyId);
      } else if migration.id in records {
        Follow(Advance(p, true), Now().db);
        if records[migration.id] != Sha256(migration.sql) {
          failure := Some(ChecksumMismatch(migration.id));
        } else {
          skips := true;
        }
      } else {
        ghost var checking := history;
        Follow(Advance(p, true), Now().db);
        Others(p);
        var committed := Transaction(migration, executes, p);
        if !committed {
          assert history[..|checking|] == checking && history[|checking|] == Advance(p, true);
          failure := Some(TransactionFailed(migration.id));
        }
      }
    }
  }

  lemma {:induction false} Settled(w: World, history: seq<Step>, p: ProcessId)
    requires w == Run(EMPTY, history) && p in w.processes
    ensures w.processes[p].point == Finished ==>
              && (forall m :: m in w.processes[p].migrations ==> m.id != "" && Recorded(w.db, m))
              && |w.processes[p].applied| + |w.processes[p].skipped| == |w.processes[p].migrations|
    ensures forall id :: id in w.processes[p].applied ==>
                           && id in w.db.records && EffectsOf(w.db.effects, id) != []
                           && EffectsOf(w.db.effects, id)[0].owner == p
  {
    EmptyInv();
    RunKeeps(EMPTY, history);
    assert ProcessInv(w.db, p, w.processes[p]);
    if w.processes[p].point == Finished { FinishedRecorded(history, p); }
  }
}
