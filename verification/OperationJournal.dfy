/** The operation journal: an at-most-once executor over one durable table. */
module OperationTable {
  import opened Wrappers

  type OperationId = nat
  type Json = nat
  type ErrorInfo = nat

  datatype Request = Request(id: OperationId, kind: nat, fingerprint: nat)

  datatype State = Accepted | Running | Committed | Failed | Unknown | RolledBack

  datatype Row = Row(
    kind: nat, fingerprint: nat, state: State, result: Option<Json>, error: Option<ErrorInfo>, version: nat)

  type Table = map<OperationId, Row>

  datatype Prepared =
    | Execute
    | Replay(row: Row)
    | InProgress(state: State)
    | ReconcileRequired
    | Conflict

  /** The claim: a new id is inserted, an old one is classified. */
  function PrepareTx(t: Table, request: Request): (Table, Prepared) {
    if request.id in t then
      var row := t[request.id];
      (t,
       if row.kind != request.kind || row.fingerprint != request.fingerprint then Conflict
       else if row.state == Committed || row.state == Failed || row.state == RolledBack then Replay(row)
       else if row.state == Unknown then ReconcileRequired
       else InProgress(row.state))
    else
      (t[request.id := Row(request.kind, request.fingerprint, Accepted, None, None, 0)], Execute)
  }

  /** `UPDATE ... WHERE operation_id = ? AND state = ?`; None when no row changed. */
  function UpdateTx(t: Table, id: OperationId, from: State, to: State, result: Option<Json>, error: Option<ErrorInfo>): Option<Table> {
    if id in t && t[id].state == from then
      Some(t[id := t[id].(state := to, result := result, error := error, version := t[id].version + 1)])
    else None
  }

  function MarkRunningTx(t: Table, id: OperationId): Option<Table> {
    if id in t && t[id].state == Accepted then
      Some(t[id := t[id].(state := Running, version := t[id].version + 1)])
    else None
  }

  function MarkCommittedTx(t: Table, id: OperationId, result: Json): Option<Table> {
    UpdateTx(t, id, Running, Committed, Some(result), None)
  }

  function MarkFailedTx(t: Table, id: OperationId, error: ErrorInfo): Option<Table> {
    UpdateTx(t, id, Running, Failed, None, Some(error))
  }

  predicate Open(row: Row) {
    row.state == Accepted || row.state == Running
  }

  /** Startup reconciliation of every row that is not settled, and how many there were. */
  function ReconcileTx(t: Table): (Table, nat) {
    (map id | id in t :: if Open(t[id]) then t[id].(state := Unknown, version := t[id].version + 1) else t[id],
     |set id | id in t && Open(t[id])|)
  }

  /** State, version and stored data belong together; rolled_back is never entered. */
  predicate RowInv(row: Row) {
    match row.state
    case Accepted => row.version == 0 && row.result == None && row.error == None
    case Running => row.version == 1 && row.result == None && row.error == None
    case Committed => row.version == 2 && row.result.Some? && row.error == None
    case Failed => row.version == 2 && row.result == None && row.error.Some?
    case Unknown => 1 <= row.version <= 2 && row.result == None && row.error == None
    case RolledBack => false
  }

  ghost predicate TableInv(t: Table) {
    forall id :: id in t ==> RowInv(t[id])
  }

  /** Rows are never deleted or rebound, settled rows never change, and a change of a row adds
      one to its version. */
  ghost predicate Extends(t: Table, u: Table) {
    forall id :: id in t ==>
                   && id in u && u[id].kind == t[id].kind && u[id].fingerprint == t[id].fingerprint
                   && (!Open(t[id]) ==> u[id] == t[id])
                   && (u[id] == t[id] || u[id].version > t[id].version)
  }

  /** One transition of one row. */
  ghost predicate Transition(t: Table, u: Table) {
    forall id :: id in t ==>
                   id in u && (u[id] == t[id] ||
                               (Open(t[id]) && u[id].version == t[id].version + 1
                                && (u[id].state == Running ==> t[id].state == Accepted)
                                && (u[id].state == Committed || u[id].state == Failed ==> t[id].state == Running)))
  }

  /** A first pass leaves no open row, and a second pass at once finds none. */
  lemma {:induction false} ReconcileSettles(t: Table)
    requires TableInv(t)
    ensures var u := ReconcileTx(t).0;
            && TableInv(u) && Extends(t, u) && Transition(t, u) && u.Keys == t.Keys
            && (forall id :: id in t ==>
                  u[id] == (match t[id].state
                            case Accepted => t[id].(state := Unknown, version := t[id].version + 1)
                            case Running => t[id].(state := Unknown, version := t[id].version + 1)
                            case _ => t[id]))
            && (forall id :: id in u ==> !Open(u[id]))
            && ReconcileTx(u) == (u, 0)
  {
    var u := ReconcileTx(t).0;
    assert forall id :: id in u ==> !Open(u[id]);
    assert (set id | id in u && Open(u[id])) == {};
    assert ReconcileTx(u).0 == u;
  }

  /** Replay never meets a committed row without a result or a failed row without an error. */
  lemma {:induction false} ReplayHasData(t: Table, request: Request)
    requires TableInv(t) && PrepareTx(t, request).1.Replay?
    ensures var row := PrepareTx(t, request).1.row;
            && row.kind == request.kind && row.fingerprint == request.fingerprint
            && ((row.state == Committed && row.result.Some?) || (row.state == Failed && row.error.Some?))
  {
  }
}

module OperationProtocol {
  import opened Wrappers
  import opened OperationTable

  type ExecutorId = nat

  /** How an effect ends. Only the first is a JSON value. */
  datatype Effect = Returned(result: Json) | ReturnedOther(error: ErrorInfo) | Raised(error: ErrorInfo)

  datatype Outcome =
    | Executed(result: Json)
    | Replayed(row: Row)
    | StillInProgress(state: State)
    | NeedsReconcile

  datatype Point =
    | Preparing
    | MarkingRunning
    | Starting
    | Effecting
    | Committing(result: Json)
    | Failing(error: ErrorInfo)
    | Finished(outcome: Outcome)
    | Threw
    | Crashed

  /** `claimed` and `started` are history: the executor inserted the row, the effect was called. */
  datatype Executor = Executor(request: Request, point: Point, claimed: bool, started: bool)

  datatype World = World(table: Table, executors: map<ExecutorId, Executor>)

  function Answer(prepared: Prepared): Point {
    match prepared
    case Execute => MarkingRunning
    case Replay(row) =>
      if (row.state == Committed && row.result == None) || (row.state == Failed && row.error == None) then Threw
      else Finished(Replayed(row))
    case InProgress(state) => Finished(StillInProgress(state))
    case ReconcileRequired => Finished(NeedsReconcile)
    case Conflict => Threw
  }

  /** The next statement of an executor. */
  function Next(t: Table, me: Executor): (Table, Executor) {
    match me.point
    case Preparing =>
      var (u, prepared) := PrepareTx(t, me.request);
      (u, me.(point := Answer(prepared), claimed := prepared.Execute?))
    case MarkingRunning =>
      var u := MarkRunningTx(t, me.request.id);
      if u.Some? then (u.value, me.(point := Starting)) else (t, me.(point := Threw))
    case Starting => (t, me.(point := Effecting, started := true))
    case Committing(result) =>
      var u := MarkCommittedTx(t, me.request.id, result);
      if u.Some? then (u.value, me.(point := Finished(Executed(result)))) else (t, me.(point := Failing(0)))
    case Failing(error) =>
      var u := MarkFailedTx(t, me.request.id, error);
      (if u.Some? then u.value else t, me.(point := Threw))
    case _ => (t, me)
  }

  function Ended(effect: Effect): Point {
    match effect
    case Returned(result) => Committing(result)
    case ReturnedOther(error) => Failing(error)
    case Raised(error) => Failing(error)
  }

  /** Where an exception of the database leaves an executor: the recording of a result runs
      inside the effect's try block. */
  function AfterThrow(me: Executor): Executor {
    match me.point
    case Committing(_) => me.(point := Failing(0))
    case Effecting => me
    case Finished(_) => me
    case Threw => me
    case Crashed => me
    case _ => me.(point := Threw)
  }

  datatype Step =
    | Start(e: ExecutorId, request: Request)
    | Advance(e: ExecutorId)
    | EndEffect(e: ExecutorId, effect: Effect)
    | Throw(e: ExecutorId)
    | Crash(e: ExecutorId)
    | Reconcile

  function Apply(w: World, step: Step): World {
    match step
    case Start(e, request) =>
      if e in w.executors then w
      else w.(executors := w.executors[e := Executor(request, Preparing, false, false)])
    case Advance(e) =>
      if e !in w.executors then w else
      var (t, me) := Next(w.table, w.executors[e]);
      World(t, w.executors[e := me])
    case EndEffect(e, effect) =>
      if e in w.executors && w.executors[e].point == Effecting
      then w.(executors := w.executors[e := w.executors[e].(point := Ended(effect))]) else w
    case Throw(e) =>
      if e in w.executors then w.(executors := w.executors[e := AfterThrow(w.executors[e])]) else w
    case Crash(e) =>
      if e in w.executors && !w.executors[e].point.Finished? && !w.executors[e].point.Threw?
      then w.(executors := w.executors[e := w.executors[e].(point := Crashed)]) else w
    case Reconcile => w.(table := ReconcileTx(w.table).0)
  }

  function Run(w: World, steps: seq<Step>): World {
    if steps == [] then w else Apply(Run(w, steps[..|steps| - 1]), steps[|steps| - 1])
  }

  predicate Initial(w: World) {
    w.table == map[] && w.executors == map[]
  }

  predicate Bound(t: Table, request: Request) {
    request.id in t && t[request.id].kind == request.kind && t[request.id].fingerprint == request.fingerprint
  }

  /** What an executor may rely on, whatever the others and any reconcile pass do. */
  predicate ExecutorInv(t: Table, me: Executor) {
    && (me.started ==> me.claimed)
    && (me.claimed ==> Bound(t, me.request))
    && (match me.point
        case Preparing => !me.claimed && !me.started
        case MarkingRunning => me.claimed && !me.started && t[me.request.id].state in {Accepted, Unknown}
        case Starting => me.claimed && !me.started && t[me.request.id].state in {Running, Unknown}
        case Effecting => me.claimed && me.started && t[me.request.id].state in {Running, Unknown}
        case Committing(_) => me.claimed && me.started && t[me.request.id].state in {Running, Unknown}
        case Failing(_) => me.claimed && me.started && t[me.request.id].state in {Running, Unknown}
        case Finished(outcome) =>
          (match outcome
           case Executed(result) =>
             me.started && t[me.request.id].state == Committed && t[me.request.id].result == Some(result)
           case Replayed(row) => Bound(t, me.request) && t[me.request.id] == row && !Open(row) && RowInv(row) && !me.claimed
           case _ => !me.claimed)
        case _ => true)
  }

  ghost predicate Inv(w: World) {
    && TableInv(w.table)
    && (forall e :: e in w.executors ==> ExecutorInv(w.table, w.executors[e]))
    && (forall e, f | e in w.executors && f in w.executors && w.executors[e].claimed && w.executors[f].claimed ::
          w.executors[e].request.id == w.executors[f].request.id ==> e == f)
  }

  /** u is t with at most the row of one id inserted or moved on. */
  ghost predicate RowStep(t: Table, u: Table, id: OperationId) {
    && TableInv(u) && Extends(t, u) && Transition(t, u)
    && (forall other :: other != id ==> (other in t <==> other in u) && (other in t ==> u[other] == t[other]))
  }

  lemma {:induction false} PrepareStep(t: Table, request: Request)
    requires TableInv(t)
    ensures RowStep(t, PrepareTx(t, request).0, request.id)
    ensures !PrepareTx(t, request).1.Execute? ==> PrepareTx(t, request).0 == t
  {
  }

  lemma {:induction false} MoveStep(t: Table, id: OperationId, row: Row)
    requires TableInv(t) && id in t && RowInv(row) && Open(t[id])
    requires row.kind == t[id].kind && row.fingerprint == t[id].fingerprint && row.version == t[id].version + 1
    requires row.state == Running ==> t[id].state == Accepted
    requires row.state == Committed || row.state == Failed ==> t[id].state == Running
    ensures RowStep(t, t[id := row], id)
  {
  }

  /** What one executor's statement does to the table: it may insert or move on the row of its
      own id, and nothing else. */
  lemma {:induction false} NextTable(t: Table, me: Executor)
    requires TableInv(t) && ExecutorInv(t, me)
    ensures RowStep(t, Next(t, me).0, me.request.id)
    ensures !Next(t, me).1.claimed ==> Next(t, me).0 == t
  {
    var u, id := Next(t, me).0, me.request.id;
    match me.point {
      case Preparing => PrepareStep(t, me.request);
      case MarkingRunning => if u != t { MoveStep(t, id, u[id]); }
      case Committing(_) => if u != t { MoveStep(t, id, u[id]); }
      case Failing(_) => if u != t { MoveStep(t, id, u[id]); }
      case _ =>
    }
  }

  lemma {:induction false} NextExecutor(t: Table, me: Executor)
    requires TableInv(t) && ExecutorInv(t, me)
    ensures var (u, after) := Next(t, me);
            && ExecutorInv(u, after) && after.request == me.request
            && (me.claimed ==> after.claimed)
            && (after.claimed && !me.claimed ==> me.request.id !in t)
  {
  }

  /** An executor whose row did not move, or that does not depend on it, keeps what it relies on. */
  lemma {:induction false} ExecutorMonotone(t: Table, u: Table, me: Executor)
    requires ExecutorInv(t, me) && Extends(t, u)
    requires me.claimed ==> u[me.request.id] == t[me.request.id] || u[me.request.id].state == Unknown
    ensures ExecutorInv(u, me)
  {
  }

  lemma {:induction false} AdvanceKeeps(w: World, e: ExecutorId)
    requires Inv(w) && e in w.executors
    ensures Inv(Apply(w, Advance(e)))
  {
    var v, me := Apply(w, Advance(e)), w.executors[e];
    NextTable(w.table, me);
    NextExecutor(w.table, me);
    forall f | f in v.executors ensures ExecutorInv(v.table, v.executors[f]) {
      if f != e {
        assert ExecutorInv(w.table, w.executors[f]);
        if w.executors[f].claimed { OthersUntouched(w, e, f); }
        ExecutorMonotone(w.table, v.table, w.executors[f]);
      }
    }
    ClaimsStayUnique(w, e);
  }

  /** Nobody but the claimant moves a row on. */
  lemma {:induction false} OthersUntouched(w: World, e: ExecutorId, f: ExecutorId)
    requires Inv(w) && e in w.executors && f in w.executors && e != f && w.executors[f].claimed
    ensures w.executors[f].request.id in w.table && w.executors[f].request.id in Next(w.table, w.executors[e]).0
    ensures Next(w.table, w.executors[e]).0[w.executors[f].request.id] == w.table[w.executors[f].request.id]
  {
    assert ExecutorInv(w.table, w.executors[e]) && ExecutorInv(w.table, w.executors[f]);
    NextTable(w.table, w.executors[e]);
    NextExecutor(w.table, w.executors[e]);
    if w.executors[e].request.id == w.executors[f].request.id {
      assert !w.executors[e].claimed;
    }
  }

  lemma {:induction false} ClaimsStayUnique(w: World, e: ExecutorId)
    requires Inv(w) && e in w.executors
    ensures var v := Apply(w, Advance(e));
            forall f, g | f in v.executors && g in v.executors && v.executors[f].claimed && v.executors[g].claimed ::
              v.executors[f].request.id == v.executors[g].request.id ==> f == g
  {
    var v, me := Apply(w, Advance(e)), w.executors[e];
    assert ExecutorInv(w.table, me);
    NextExecutor(w.table, me);
    forall f | f in w.executors && f != e && w.executors[f].claimed && v.executors[e].claimed
      ensures w.executors[f].request.id != me.request.id
    {
      assert ExecutorInv(w.table, w.executors[f]);
    }
  }

  lemma {:induction false} ReconcileKeeps(w: World)
    requires Inv(w)
    ensures Inv(Apply(w, Reconcile))
  {
    ReconcileSettles(w.table);
    var v := Apply(w, Reconcile);
    forall e | e in v.executors ensures ExecutorInv(v.table, v.executors[e]) {
      assert ExecutorInv(w.table, w.executors[e]);
      ExecutorMonotone(w.table, v.table, w.executors[e]);
    }
  }

  lemma {:induction false} PointOnlyKeeps(w: World, e: ExecutorId, me: Executor)
    requires Inv(w) && ExecutorInv(w.table, me)
    requires if e in w.executors then me.claimed == w.executors[e].claimed && me.request == w.executors[e].request else !me.claimed
    ensures Inv(w.(executors := w.executors[e := me]))
  {
  }

  lemma {:induction false} StepKeeps(w: World, step: Step)
    requires Inv(w)
    ensures Inv(Apply(w, step)) && Extends(w.table, Apply(w, step).table) && Transition(w.table, Apply(w, step).table)
  {
    match step {
      case Start(e, request) =>
        if e !in w.executors { PointOnlyKeeps(w, e, Executor(request, Preparing, false, false)); }
      case Advance(e) =>
        if e in w.executors {
          AdvanceKeeps(w, e);
          NextTable(w.table, w.executors[e]);
        }
      case EndEffect(e, effect) =>
        if e in w.executors && w.executors[e].point == Effecting {
          PointOnlyKeeps(w, e, w.executors[e].(point := Ended(effect)));
        }
      case Throw(e) => if e in w.executors { PointOnlyKeeps(w, e, AfterThrow(w.executors[e])); }
      case Crash(e) =>
        if e in w.executors { PointOnlyKeeps(w, e, w.executors[e].(point := Crashed)); }
      case Reconcile =>
        ReconcileKeeps(w);
        ReconcileSettles(w.table);
    }
  }

  lemma {:induction false} ExtendsTransitive(t: Table, u: Table, v: Table)
    requires Extends(t, u) && Extends(u, v)
    ensures Extends(t, v)
  {
  }

  lemma {:induction false} RunKeeps(w: World, steps: seq<Step>)
    requires Inv(w)
    ensures Inv(Run(w, steps)) && Extends(w.table, Run(w, steps).table)
  {
    if steps != [] {
      var init := steps[..|steps| - 1];
      RunKeeps(w, init);
      StepKeeps(Run(w, init), steps[|steps| - 1]);
      ExtendsTransitive(w.table, Run(w, init).table, Run(w, steps).table);
    }
  }

  // ---- The theorems, over every run from an empty table. ----

  /** The effect of an operation id starts at most once, over any number of executors, crashes
      and reconcile passes. */
  lemma {:induction false} AtMostOnce(w: World, steps: seq<Step>, e: ExecutorId, f: ExecutorId)
    requires Initial(w)
    requires e in Run(w, steps).executors && Run(w, steps).executors[e].started
    requires f in Run(w, steps).executors && Run(w, steps).executors[f].started
    requires Run(w, steps).executors[e].request.id == Run(w, steps).executors[f].request.id
    ensures e == f
  {
    RunKeeps(w, steps);
    var v := Run(w, steps);
    assert ExecutorInv(v.table, v.executors[e]) && ExecutorInv(v.table, v.executors[f]);
  }

  /** An id belongs to one kind and fingerprint: whoever started its effect, or was answered
      from its row, asked for exactly what the row is bound to; and the answer is the
      stored one. */
  lemma {:induction false} NeverForAnother(w: World, steps: seq<Step>, e: ExecutorId)
    requires Initial(w) && e in Run(w, steps).executors
    ensures var v := Run(w, steps);
            var me := v.executors[e];
            && (me.started ==> Bound(v.table, me.request))
            && (me.point.Finished? && me.point.outcome.Executed? ==>
                  && Bound(v.table, me.request)
                  && v.table[me.request.id].result == Some(me.point.outcome.result) && me.started)
            && (me.point.Finished? && me.point.outcome.Replayed? ==>
                  && Bound(v.table, me.request)
                  && v.table[me.request.id] == me.point.outcome.row
                  && !me.started)
  {
    RunKeeps(w, steps);
    var v := Run(w, steps);
    assert ExecutorInv(v.table, v.executors[e]);
  }

  /** Every row of a reachable table has the version, result and error of its state; later in
      the run a settled row is what it was; and each single step moves a row by one transition. */
  lemma {:induction false} JournalStates(w: World, steps: seq<Step>, more: seq<Step>, step: Step)
    requires Initial(w)
    ensures TableInv(Run(w, steps).table)
    ensures Extends(Run(w, steps).table, Run(Run(w, steps), more).table)
    ensures Transition(Run(w, steps).table, Apply(Run(w, steps), step).table)
  {
    RunKeeps(w, steps);
    RunKeeps(Run(w, steps), more);
    StepKeeps(Run(w, steps), step);
  }

  lemma {:induction false} RunAppend(w: World, steps: seq<Step>, step: Step)
    ensures Run(w, steps + [step]) == Apply(Run(w, steps), step)
  {
    assert (steps + [step])[..|steps|] == steps;
  }

  lemma {:induction false} RunsOn(w: World, steps: seq<Step>, more: seq<Step>)
    ensures Run(w, steps + more) == Run(Run(w, steps), more)
  {
    if more == [] {
      assert steps + more == steps;
    } else {
      var init := more[..|more| - 1];
      assert (steps + more)[..|steps + more| - 1] == steps + init;
      RunsOn(w, steps, init);
    }
  }

  /** An executor of a new id that nobody disturbs runs its effect and stores what it returned:
      the journal does not refuse work. */
  lemma {:induction false} UndisturbedExecutes(w: World, e: ExecutorId, request: Request, result: Json)
    requires e !in w.executors && request.id !in w.table
    ensures var v := UndisturbedRun(w, e, request, result);
            && e in v.executors && v.executors[e].point == Finished(Executed(result)) && v.executors[e].started
            && v.table == w.table[request.id := Row(request.kind, request.fingerprint, Committed, Some(result), None, 2)]
  {
    var claimed := Apply(Apply(w, Start(e, request)), Advance(e));
    assert claimed.executors[e] == Executor(request, MarkingRunning, true, false);
    assert claimed.table[request.id] == Row(request.kind, request.fingerprint, Accepted, None, None, 0);
    RunsToEffect(claimed, e);
  }

  /** Nor does it lose a failure: an undisturbed new id whose effect throws, or returns something that
      is not JSON, leaves that error in its row, and throws. */
  lemma {:induction false} UndisturbedFails(w: World, e: ExecutorId, request: Request, effect: Effect)
    requires e !in w.executors && request.id !in w.table && !effect.Returned?
    ensures var claimed := Apply(Apply(w, Start(e, request)), Advance(e));
            var effecting := Apply(Apply(claimed, Advance(e)), Advance(e));
            var v := Apply(Apply(effecting, EndEffect(e, effect)), Advance(e));
            && e in v.executors && v.executors[e].point == Threw && v.executors[e].started
            && v.table == w.table[request.id := Row(request.kind, request.fingerprint, Failed, None, Some(effect.error), 2)]
  {
    var claimed := Apply(Apply(w, Start(e, request)), Advance(e));
    assert claimed.executors[e] == Executor(request, MarkingRunning, true, false);
    assert claimed.table[request.id] == Row(request.kind, request.fingerprint, Accepted, None, None, 0);
    RunsToEffect(claimed, e);
  }

  /** What a new executor becomes when it starts and claims its id. */
  function Claimed(w: World, e: ExecutorId, request: Request): World {
    Apply(Apply(w, Start(e, request)), Advance(e))
  }

  /** What the row of its id makes of a call: the first call claims it; another kind or fingerprint
      throws; and a settled row is replayed, an unknown one sent to reconciliation, an open one
      reported as it is. */
  lemma {:induction false} ClaimByRow(w: World, e: ExecutorId, request: Request)
    requires e !in w.executors && TableInv(w.table)
    ensures var v := Claimed(w, e, request);
            && e in v.executors && v.executors[e].request == request && !v.executors[e].started
            && (v.executors[e].claimed <==> request.id !in w.table)
            && (if request.id !in w.table then
                  && v.executors[e].point == MarkingRunning
                  && v.table == w.table[request.id := Row(request.kind, request.fingerprint, Accepted, None, None, 0)]
                else
                  var row := w.table[request.id];
                  && v.table == w.table
                  && (if row.kind != request.kind || row.fingerprint != request.fingerprint then v.executors[e].point == Threw
                      else match row.state
                        case Committed => row.result.Some? && v.executors[e].point == Finished(Replayed(row))
                        case Failed => row.error.Some? && v.executors[e].point == Finished(Replayed(row))
                        case Unknown => v.executors[e].point == Finished(NeedsReconcile)
                        case Accepted => v.executors[e].point == Finished(StillInProgress(Accepted))
                        case Running => v.executors[e].point == Finished(StillInProgress(Running))
                        case RolledBack => false))
  {
  }

  /** The result of a call is the answer to every later call with its id, whatever happens in
      between: the same kind and fingerprint get it back, and another one never does. */
  lemma {:induction false} ReplayedForever(w: World, steps: seq<Step>, more: seq<Step>, e: ExecutorId, f: ExecutorId, request: Request)
    requires Initial(w) && e in Run(w, steps).executors && f !in Run(Run(w, steps), more).executors
    requires var me := Run(w, steps).executors[e];
             me.point.Finished? && me.point.outcome.Executed? && me.request.id == request.id
    ensures var me := Run(w, steps).executors[e];
            var u := Run(Run(w, steps), more);
            var v := Claimed(u, f, request);
            && v.table == u.table && f in v.executors && !v.executors[f].started
            && (if request == me.request then
                  v.executors[f].point
                  == Finished(Replayed(Row(request.kind, request.fingerprint, Committed, Some(me.point.outcome.result), None, 2)))
                else v.executors[f].point == Threw)
  {
    RunKeeps(w, steps);
    var me := Run(w, steps).executors[e];
    assert ExecutorInv(Run(w, steps).table, me) && RowInv(Run(w, steps).table[request.id]);
    SettledStays(Run(w, steps), more, request.id);
    ClaimByRow(Run(Run(w, steps), more), f, request);
  }

  /** A settled row, whatever it says, is what all later calls with its id are answered from. */
  lemma {:induction false} SettledStays(w: World, more: seq<Step>, id: OperationId)
    requires Inv(w) && id in w.table && !Open(w.table[id])
    ensures id in Run(w, more).table && Run(w, more).table[id] == w.table[id] && TableInv(Run(w, more).table)
  {
    RunKeeps(w, more);
  }

  /** A stored failure is replayed to all later calls, and an unknown outcome sends all of them to
      reconciliation, none of which ever starts the effect again. */
  lemma {:induction false} AnsweredForever(w: World, steps: seq<Step>, more: seq<Step>, f: ExecutorId, request: Request)
    requires Initial(w) && f !in Run(Run(w, steps), more).executors && Bound(Run(w, steps).table, request)
    requires var row := Run(w, steps).table[request.id]; row.state == Failed || row.state == Unknown
    ensures var row := Run(w, steps).table[request.id];
            var v := Claimed(Run(Run(w, steps), more), f, request);
            && f in v.executors && !v.executors[f].started && v.table == Run(Run(w, steps), more).table
            && v.executors[f].point == Finished(if row.state == Failed then Replayed(row) else NeedsReconcile)
  {
    RunKeeps(w, steps);
    SettledStays(Run(w, steps), more, request.id);
    ClaimByRow(Run(Run(w, steps), more), f, request);
  }

  function UndisturbedRun(w: World, e: ExecutorId, request: Request, result: Json): World {
    var claimed := Apply(Apply(w, Start(e, request)), Advance(e));
    var effecting := Apply(Apply(claimed, Advance(e)), Advance(e));
    Apply(Apply(effecting, EndEffect(e, Returned(result))), Advance(e))
  }

  lemma {:induction false} RunsToEffect(w: World, e: ExecutorId)
    requires e in w.executors && w.executors[e].point == MarkingRunning
    requires w.executors[e].request.id in w.table && w.table[w.executors[e].request.id].state == Accepted
    ensures var id := w.executors[e].request.id;
            Apply(Apply(w, Advance(e)), Advance(e))
            == World(w.table[id := w.table[id].(state := Running, version := w.table[id].version + 1)],
                     w.executors[e := w.executors[e].(point := Effecting, started := true)])
  {
  }
}

module OperationJournalCode {
  import opened Wrappers
  import opened OperationTable
  import opened OperationProtocol

  datatype Failure = ConflictFailure | EffectFailure | DatabaseFailure

  /** What a claim does to the table, and how it classifies the request, by the row alone. */
  predicate Classified(t: Table, request: Request, u: Table, prepared: Prepared) {
    if request.id !in t then
      prepared == Prepared.Execute && u == t[request.id := Row(request.kind, request.fingerprint, Accepted, None, None, 0)]
    else
      var row := t[request.id];
      && u == t
      && (if row.kind != request.kind || row.fingerprint != request.fingerprint then prepared == Conflict
          else match row.state
            case Committed => prepared == Replay(row)
            case Failed => prepared == Replay(row)
            case RolledBack => prepared == Replay(row)
            case Unknown => prepared == ReconcileRequired
            case Accepted => prepared == InProgress(Accepted)
            case Running => prepared == InProgress(Running))
  }

  /** How the row of its id, at its claim, decides what a call returns or throws. */
  predicate AnswersRow(t: Table, request: Request, effect: Effect, r: Result<Outcome, Failure>) {
    if request.id !in t then
      (if r.Ok? then effect.Returned? && r.value == Executed(effect.result) else r.error != ConflictFailure)
    else
      var row := t[request.id];
      if row.kind != request.kind || row.fingerprint != request.fingerprint then r == Err(ConflictFailure)
      else match row.state
        case Committed => r == Ok(Replayed(row))
        case Failed => r == Ok(Replayed(row))
        case Unknown => r == Ok(NeedsReconcile)
        case Accepted => r == Ok(StillInProgress(Accepted))
        case Running => r == Ok(StillInProgress(Running))
        case RolledBack => false
  }

  /** The table before the step of this number. */
  function TableAt(history: seq<Step>, k: nat): Table
    requires k <= |history|
  {
    Run(World(map[], map[]), history[..k]).table
  }

  /** The claim is a step of the call, and the call is answered from the table it met. */
  ghost predicate AnsweredAtClaim(history: seq<Step>, from: nat, request: Request, effect: Effect, e: ExecutorId, r: Result<Outcome, Failure>) {
    exists k :: from <= k < |history| && history[k] == Advance(e) && AnswersRow(TableAt(history, k), request, effect, r)
  }

  /** At a step of the call the row of its id was no longer accepted: a reconcile pass came first. */
  ghost predicate OvertakenAt(history: seq<Step>, from: nat, request: Request, e: ExecutorId) {
    exists k :: from <= k < |history| && history[k] == Advance(e) && NotAccepted(TableAt(history, k), request.id)
  }

  predicate NotAccepted(t: Table, id: OperationId) {
    id !in t || t[id].state != Accepted
  }

  /** The row of a call whose effect ran and that threw: the failure of its effect, or unknown,
      because a reconcile pass came first. */
  predicate FailureKept(t: Table, request: Request, effect: Effect) {
    && Bound(t, request)
    && (t[request.id].state == Unknown
        || (!effect.Returned? && t[request.id].state == Failed && t[request.id].error == Some(effect.error)))
  }

  /** A call of a new id that fails has run its effect, which failed or was overtaken by a reconcile
      pass; or such a pass came before it could mark the row as running. */
  ghost predicate FailsFor(history: seq<Step>, from: nat, t: Table, me: Executor, effect: Effect, e: ExecutorId, r: Result<Outcome, Failure>) {
    && (r == Err(EffectFailure) ==> me.started && FailureKept(t, me.request, effect))
    && (r == Err(DatabaseFailure) ==> OvertakenAt(history, from, me.request, e))
  }

  /** No later step of anybody changes a row that is unknown. */
  lemma {:induction false} UnknownStays(before: seq<Step>, after: seq<Step>, id: OperationId)
    requires before <= after
    requires var t := Run(World(map[], map[]), before).table; id in t && t[id].state == Unknown
    ensures var t, u := Run(World(map[], map[]), before).table, Run(World(map[], map[]), after).table;
            id in t && id in u && u[id] == t[id]
  {
    var more := after[|before|..];
    assert after == before + more;
    RunsOn(World(map[], map[]), before, more);
    RunKeeps(World(map[], map[]), before);
    SettledStays(Run(World(map[], map[]), before), more, id);
  }

  lemma {:induction false} ClaimAnswers(t: Table, request: Request, effect: Effect, r: Result<Outcome, Failure>)
    requires TableInv(t)
    requires match PrepareTx(t, request).1
             case InProgress(state) => r == Ok(StillInProgress(state))
             case ReconcileRequired => r == Ok(NeedsReconcile)
             case Conflict => r == Err(ConflictFailure)
             case Replay(row) => r == Ok(Replayed(row))
             case Execute => if r.Ok? then effect.Returned? && r.value == Executed(effect.result) else r.error != ConflictFailure
    ensures AnswersRow(t, request, effect, r)
  {
  }

  /** The journal as a program on the shared table. `executors` and `history` are ghosts: they say
      which run of the protocol the program has made so far. Between any two statements of one
      executor, others may take any steps of their own. */
  class OperationJournal {
    var table: Table
    ghost var executors: map<ExecutorId, Executor>
    ghost var history: seq<Step>

    ghost predicate Valid()
      reads this
    {
      World(table, executors) == Run(World(map[], map[]), history)
    }

    constructor ()
      ensures Valid() && history == []
    {
      table := map[];
      executors := map[];
      history := [];
    }

    /** Anything the other executors, other processes and reconcile passes may do meanwhile. */
    method Others(ghost e: ExecutorId)
      requires Valid() && e in executors
      modifies this
      ensures Valid() && old(history) <= history
      ensures e in executors && executors[e] == old(executors[e])
    {
    }

    ghost method Follow(step: Step, before: Table)
      requires World(before, executors) == Run(World(map[], map[]), history)
      requires Apply(World(before, executors), step).table == table
      modifies `executors, `history
      ensures Valid() && history == old(history) + [step]
      ensures executors == Apply(World(before, old(executors)), step).executors
    {
      RunAppend(World(map[], map[]), history, step);
      executors := Apply(World(before, executors), step).executors;
      history := history + [step];
    }

    method Prepare(request: Request, ghost e: ExecutorId) returns (prepared: Prepared)
      requires Valid() && e in executors && executors[e].point == Preparing && executors[e].request == request
      modifies this
      ensures Valid() && history == old(history) + [Advance(e)]
      ensures (table, prepared) == PrepareTx(old(table), request)
      ensures Classified(old(table), request, table, prepared)
      ensures e in executors && executors[e].point == Answer(prepared) && executors[e].request == request
    {
      ghost var before := table;
      if request.id in table {
        var existing := table[request.id];
        if existing.kind != request.kind || existing.fingerprint != request.fingerprint {
          prepared := Conflict;
        } else if existing.state == Committed || existing.state == Failed || existing.state == RolledBack {
          prepared := Replay(existing);
        } else if existing.state == Unknown {
          prepared := ReconcileRequired;
        } else {
          prepared := InProgress(existing.state);
        }
      } else {
        table := table[request.id := Row(request.kind, request.fingerprint, Accepted, None, None, 0)];
        prepared := Prepared.Execute;
      }
      Follow(Advance(e), before);
    }

    method MarkRunning(id: OperationId, ghost e: ExecutorId) returns (changed: bool)
      requires Valid() && e in executors && executors[e].point == MarkingRunning && executors[e].request.id == id
      modifies this
      ensures Valid() && history == old(history) + [Advance(e)]
      ensures changed <==> id in old(table) && old(table)[id].state == Accepted
      ensures table == if changed then old(table)[id := old(table)[id].(state := Running, version := old(table)[id].version + 1)]
                       else old(table)
      ensures e in executors && executors[e] == old(executors[e]).(point := if changed then Starting else Threw)
    {
      ghost var before := table;
      changed := id in table && table[id].state == Accepted;
      if changed {
        table := table[id := table[id].(state := Running, version := table[id].version + 1)];
      }
      Follow(Advance(e), before);
    }

    /** The effect itself: it may take any time. */
    method RunEffect(effect: Effect, ghost e: ExecutorId)
      requires Valid() && e in executors && executors[e].point == Starting
      modifies this
      ensures Valid() && old(history) <= history
      ensures e in executors && executors[e] == old(executors[e]).(point := Ended(effect), started := true)
    {
      Follow(Advance(e), table);
      Others(e);
      Follow(EndEffect(e, effect), table);
    }

    method MarkCommitted(id: OperationId, result: Json, ghost e: ExecutorId) returns (changed: bool)
      requires Valid() && e in executors && executors[e].point == Committing(result) && executors[e].request.id == id
      modifies this
      ensures Valid() && history == old(history) + [Advance(e)]
      ensures changed <==> id in old(table) && old(table)[id].state == Running
      ensures table == if changed then
                         old(table)[id := old(table)[id].(state := Committed, result := Some(result), error := None,
                                                          version := old(table)[id].version + 1)]
                       else old(table)
      ensures e in executors && executors[e] == old(executors[e]).(point := if changed then Finished(Executed(result)) else Failing(0))
    {
      ghost var before := table;
      changed := id in table && table[id].state == Running;
      if changed {
        table := table[id := table[id].(state := Committed, result := Some(result), error := None, version := table[id].version + 1)];
      }
      Follow(Advance(e), before);
    }

    method MarkFailed(id: OperationId, error: ErrorInfo, ghost e: ExecutorId) returns (changed: bool)
      requires Valid() && e in executors && executors[e].point == Failing(error) && executors[e].request.id == id
      modifies this
      ensures Valid() && history == old(history) + [Advance(e)]
      ensures changed <==> id in old(table) && old(table)[id].state == Running
      ensures table == if changed then
                         old(table)[id := old(table)[id].(state := Failed, result := None, error := Some(error),
                                                          version := old(table)[id].version + 1)]
                       else old(table)
      ensures e in executors && executors[e] == old(executors[e]).(point := Threw)
    {
      ghost var before := table;
      changed := id in table && table[id].state == Running;
      if changed {
        table := table[id := table[id].(state := Failed, result := None, error := Some(error), version := table[id].version + 1)];
      }
      Follow(Advance(e), before);
    }

    method ReconcileInterrupted() returns (changes: nat)
      requires Valid()
      modifies this
      ensures Valid() && history == old(history) + [Step.Reconcile]
      ensures table.Keys == old(table).Keys && changes == |set id | id in old(table) && old(table)[id].state in {Accepted, Running}|
      ensures forall id :: id in table ==>
                table[id] == if old(table)[id].state in {Accepted, Running} then
                               old(table)[id].(state := Unknown, version := old(table)[id].version + 1)
                             else old(table)[id]
      ensures forall id :: id in table ==> !Open(table[id])
    {
      ghost var before := table;
      changes := |set id | id in table && Open(table[id])|;
      assert (set id | id in table && Open(table[id])) == set id | id in table && table[id].state in {Accepted, Running};
      table := map id | id in table :: if Open(table[id]) then table[id].(state := Unknown, version := table[id].version + 1) else table[id];
      Follow(Step.Reconcile, before);
    }

    /** The whole call. Whatever the others do in between, it is a run of the protocol; it
        returns what its executor finished with and throws otherwise; a result it returns is the one
        stored in the row of its own kind and fingerprint; and the row it met at its claim decides
        whether it runs the effect, replays, reports or throws. */
    method Execute(request: Request, effect: Effect, ghost e: ExecutorId) returns (r: Result<Outcome, Failure>)
      requires Valid() && e !in executors
      modifies this
      ensures Valid() && old(history) <= history
      ensures e in executors && executors[e].request == request
      ensures executors[e].point == if r.Ok? then Finished(r.value) else Threw
      ensures r.Ok? && r.value.Executed? ==>
                Bound(table, request) && table[request.id].result == Some(r.value.result) && executors[e].started
      ensures r.Ok? && r.value.Replayed? ==> Bound(table, request) && table[request.id] == r.value.row && !executors[e].started
      ensures AnsweredAtClaim(history, |old(history)|, request, effect, e, r)
      ensures FailsFor(history, |old(history)|, table, executors[e], effect, e, r)
    {
      Follow(Start(e, request), table);
      Others(e);
      ghost var claiming := history;
      r := PrepareAndRun(request, effect, e);
      assert history[..|claiming|] == claiming && history[|claiming|] == Advance(e);
      NeverForAnother(World(map[], map[]), history, e);
    }

    /** From the claim on. */
    method PrepareAndRun(request: Request, effect: Effect, ghost e: ExecutorId) returns (r: Result<Outcome, Failure>)
      requires Valid() && e in executors && executors[e].point == Preparing && executors[e].request == request
      modifies this
      ensures Valid() && old(history) + [Advance(e)] <= history
      ensures e in executors && executors[e].request == request
      ensures executors[e].point == if r.Ok? then Finished(r.value) else Threw
      ensures AnswersRow(old(table), request, effect, r)
      ensures FailsFor(history, |old(history)|, table, executors[e], effect, e, r)
    {
      ghost var before := table;
      RunKeeps(World(map[], map[]), history);
      var prepared := Prepare(request, e);
      match prepared {
        case InProgress(state) => r := Ok(StillInProgress(state));
        case ReconcileRequired => r := Ok(NeedsReconcile);
        case Conflict => r := Err(ConflictFailure);
        case Replay(row) =>
          if (row.state == Committed && row.result == None) || (row.state == Failed && row.error == None) {
            r := Err(DatabaseFailure);
          } else {
            r := Ok(Replayed(row));
          }
        case Execute => r := RunNew(request, effect, e);
      }
      ClaimAnswers(before, request, effect, r);
    }

    /** The id is new: this executor runs it, once it is marked as running. */
    method RunNew(request: Request, effect: Effect, ghost e: ExecutorId) returns (r: Result<Outcome, Failure>)
      requires Valid() && e in executors && executors[e].point == MarkingRunning && executors[e].request == request
      modifies this
      ensures Valid() && old(history) <= history
      ensures e in executors && executors[e].request == request
      ensures executors[e].point == if r.Ok? then Finished(r.value) else Threw
      ensures if r.Ok? then effect.Returned? && r.value == Executed(effect.result) else r.error != ConflictFailure
      ensures FailsFor(history, |old(history)|, table, executors[e], effect, e, r)
    {
      Others(e);
      ghost var marking := history;
      var running := MarkRunning(request.id, e);
      if !running {
        assert history[..|marking|] == marking && history[|marking|] == Advance(e);
        return Err(DatabaseFailure);
      }
      Others(e);
      r := RunAndRecord(request, effect, e);
    }

    /** The try block around the effect, and its catch. */
    method RunAndRecord(request: Request, effect: Effect, ghost e: ExecutorId) returns (r: Result<Outcome, Failure>)
      requires Valid() && e in executors && executors[e].point == Starting && executors[e].request == request
      modifies this
      ensures Valid() && old(history) <= history
      ensures e in executors && executors[e].request == request && executors[e].started
      ensures executors[e].point == if r.Ok? then Finished(r.value) else Threw
      ensures if r.Ok? then effect.Returned? && r.value == Executed(effect.result) else r.error == EffectFailure
      ensures r == Err(EffectFailure) ==> FailureKept(table, request, effect)
    {
      RunEffect(effect, e);
      Others(e);
      var error: ErrorInfo := 0;
      if effect.Returned? {
        RunKeeps(World(map[], map[]), history);
        var committed := MarkCommitted(request.id, effect.result, e);
        if committed {
          return Ok(Executed(effect.result));
        }
        ghost var missed := history;
        Others(e);
        UnknownStays(missed, history, request.id);
      } else {
        error := effect.error;
      }
      RunKeeps(World(map[], map[]), history);
      var _ := MarkFailed(request.id, error, e);
      r := Err(EffectFailure);
    }
  }
}
