/**
Plan-step assignments, the two triggers that freeze what an assignment and an execution are
bound to, and the trigger that logs an assignment's lifecycle.
*/
module AssignmentLedger {
  import opened Wrappers
  import opened Sequences
  import opened TriggerGuards

  /** The columns of an execution that its guard freezes. */
  datatype Snapshot = Snapshot(
    taskId: string, idempotencyKey: string, planId: string, planVersion: int, gateId: string,
    planHash: string, maxConcurrency: int)

  datatype Execution = Execution(snapshot: Snapshot, rest: string)

  /** The columns of an assignment that its guard freezes. */
  datatype Binding = Binding(executionId: string, stepId: string, childTaskId: string)

  /** The columns whose mention in an UPDATE fires the capture trigger. */
  datatype Progress = Progress(status: string, agentKey: string, machineId: string)

  datatype Assignment = Assignment(binding: Binding, progress: Progress, rest: string)

  datatype EventType = AssignmentCreated | StatusChanged | TargetChanged | StatusAndTargetChanged

  datatype AssignmentEvent = AssignmentEvent(
    assignmentId: string, binding: Binding, planId: string, planVersion: int, parentTaskId: string,
    eventType: EventType, previous: Progress, now: Progress)

  /** `steps` maps a plan step to its plan. */
  datatype Database = Database(
    executions: map<string, Execution>, steps: map<string, string>, assignments: map<string, Assignment>,
    events: seq<AssignmentEvent>)

  const BLANK := Progress("", "", "")

  function AssignmentOf(e: AssignmentEvent): string {
    e.assignmentId
  }

  function Log(db: Database, id: string): seq<AssignmentEvent> {
    ByKey(AssignmentOf, db.events, id)
  }

  // ----- the triggers

  predicate TargetMoved(a: Progress, b: Progress) {
    a.agentKey != b.agentKey || a.machineId != b.machineId
  }

  function Classify(a: Progress, b: Progress): EventType {
    if a.status != b.status && TargetMoved(a, b) then StatusAndTargetChanged
    else if a.status != b.status then StatusChanged
    else TargetChanged
  }

  /** The capture trigger; None is its exception, which undoes the statement. */
  function Capture(db: Database, id: string, a: Assignment, eventType: EventType, previous: Progress)
    : Option<AssignmentEvent>
  {
    if a.binding.executionId !in db.executions then None else
      var s := db.executions[a.binding.executionId].snapshot;
      if a.binding.stepId !in db.steps || db.steps[a.binding.stepId] != s.planId then None
      else Some(AssignmentEvent(id, a.binding, s.planId, s.planVersion, s.taskId, eventType, previous, a.progress))
  }

  // ----- statements

  /** An UPDATE of an assignment: a column outside the SET list is None. */
  datatype Patch = Patch(
    binding: Option<Binding>, status: Option<string>, agentKey: Option<string>, machineId: Option<string>,
    rest: Option<string>)

  function Or<T>(o: Option<T>, default: T): T {
    if o.Some? then o.value else default
  }

  function Patched(a: Assignment, p: Patch): Assignment {
    Assignment(
      Or(p.binding, a.binding),
      Progress(Or(p.status, a.progress.status),
               Or(p.agentKey, a.progress.agentKey),
               Or(p.machineId, a.progress.machineId)),
      Or(p.rest, a.rest))
  }

  predicate FiresCapture(p: Patch) {
    p.status.Some? || p.agentKey.Some? || p.machineId.Some?
  }

  datatype Statement =
    | InsertExecution(id: string, execution: Execution)
    | UpdateExecution(id: string, execution: Execution)
    | PutStep(id: string, planId: string)
    | InsertAssignment(id: string, assignment: Assignment)
    | UpdateAssignment(id: string, patch: Patch)
    | RemoveExecutions(truncate: bool, executions: map<string, Execution>)
    | RemoveAssignments(truncate: bool, assignments: map<string, Assignment>)
    | RewriteEvents(mutation: Mutation, events: seq<AssignmentEvent>)

  /** The classes of statements for which a trigger that always raises is installed. */
  const SNAPSHOT_GUARD := {DeleteRows, Truncate}
  const BINDING_GUARD := {DeleteRows, Truncate}
  const LOG_GUARD := {UpdateRows, DeleteRows, Truncate}

  function Removal(truncate: bool): Mutation {
    if truncate then Truncate else DeleteRows
  }

  function InsertOne(db: Database, id: string, a: Assignment): Database {
    var e := Capture(db, id, a, AssignmentCreated, BLANK);
    if id in db.assignments || e.None? then db
    else db.(assignments := db.assignments[id := a], events := db.events + [e.value])
  }

  function UpdateOne(db: Database, id: string, p: Patch): Database {
    if id !in db.assignments then db else
      var was := db.assignments[id];
      var a := Patched(was, p);
      if a.binding != was.binding then db
      else if !FiresCapture(p) || a.progress == was.progress then db.(assignments := db.assignments[id := a])
      else
        var e := Capture(db, id, a, Classify(was.progress, a.progress), was.progress);
        if e.None? then db
        else db.(assignments := db.assignments[id := a], events := db.events + [e.value])
  }

  function Execute(db: Database, s: Statement): Database {
    match s
    case InsertExecution(id, e) => if id in db.executions then db else db.(executions := db.executions[id := e])
    case UpdateExecution(id, e) =>
      if id !in db.executions || e.snapshot != db.executions[id].snapshot then db
      else db.(executions := db.executions[id := e])
    case PutStep(id, planId) => db.(steps := db.steps[id := planId])
    case InsertAssignment(id, a) => InsertOne(db, id, a)
    case UpdateAssignment(id, p) => UpdateOne(db, id, p)
    case RemoveExecutions(truncate, after) =>
      db.(executions := Attempt(SNAPSHOT_GUARD, Removal(truncate), db.executions, after))
    case RemoveAssignments(truncate, after) =>
      db.(assignments := Attempt(BINDING_GUARD, Removal(truncate), db.assignments, after))
    case RewriteEvents(m, after) => db.(events := Attempt(LOG_GUARD, m, db.events, after))
  }

  function RunTo(statements: seq<Statement>, i: nat): Database
    requires i <= |statements|
  {
    if i == 0 then Database(map[], map[], map[], []) else Execute(RunTo(statements, i - 1), statements[i - 1])
  }

  // ----- what the log says

  /** The event names the assignment's binding and the frozen snapshot of its execution. */
  predicate Bound(db: Database, e: AssignmentEvent, binding: Binding) {
    && e.binding == binding
    && binding.executionId in db.executions
    && var s := db.executions[binding.executionId].snapshot;
       e.planId == s.planId && e.planVersion == s.planVersion && e.parentTaskId == s.taskId
  }

  predicate Follows(a: AssignmentEvent, b: AssignmentEvent) {
    b.previous == a.now && b.now != a.now && b.eventType == Classify(a.now, b.now)
  }

  predicate WellLogged(log: seq<AssignmentEvent>) {
    && (log != [] ==> log[0].eventType.AssignmentCreated? && log[0].previous == BLANK)
    && (forall k | 0 < k < |log| :: Follows(log[k - 1], log[k]))
  }

  predicate Faithful(db: Database, id: string) {
    var log := Log(db, id);
    && (id in db.assignments <==> log != [])
    && WellLogged(log)
    && (id in db.assignments ==>
          && log[|log| - 1].now == db.assignments[id].progress
          && forall k | 0 <= k < |log| :: Bound(db, log[k], db.assignments[id].binding))
  }

  lemma CaptureIsBound(db: Database, id: string, a: Assignment, eventType: EventType, previous: Progress)
    requires Capture(db, id, a, eventType, previous).Some?
    ensures var e := Capture(db, id, a, eventType, previous).value;
      Bound(db, e, a.binding) && e.assignmentId == id && e.now == a.progress
      && e.previous == previous && e.eventType == eventType
  {
  }

  lemma InsertKeepsFaithful(db: Database, other: string, a: Assignment, id: string)
    requires Faithful(db, id)
    ensures Faithful(InsertOne(db, other, a), id)
  {
    var e := Capture(db, other, a, AssignmentCreated, BLANK);
    if other !in db.assignments && e.Some? {
      CaptureIsBound(db, other, a, AssignmentCreated, BLANK);
      ByKeyAppend(AssignmentOf, db.events, e.value, id);
    }
  }

  lemma WellLoggedSnoc(log: seq<AssignmentEvent>, e: AssignmentEvent)
    requires WellLogged(log) && log != [] && Follows(log[|log| - 1], e)
    ensures WellLogged(log + [e])
  {
    var longer := log + [e];
    forall k | 0 < k < |longer|
      ensures Follows(longer[k - 1], longer[k])
    {
      assert longer[k - 1] == log[k - 1];
      if k < |log| {
        assert longer[k] == log[k];
      }
    }
  }

  lemma UpdateKeepsFaithful(db: Database, other: string, p: Patch, id: string)
    requires Faithful(db, id)
    ensures Faithful(UpdateOne(db, other, p), id)
  {
    if other in db.assignments {
      var was := db.assignments[other];
      var a := Patched(was, p);
      var e := Capture(db, other, a, Classify(was.progress, a.progress), was.progress);
      if a.binding == was.binding && FiresCapture(p) && a.progress != was.progress && e.Some? {
        CaptureIsBound(db, other, a, Classify(was.progress, a.progress), was.progress);
        ByKeyAppend(AssignmentOf, db.events, e.value, id);
        if other == id {
          WellLoggedSnoc(Log(db, id), e.value);
        }
      }
    }
  }

  predicate Forbidden(s: Statement) {
    s.RemoveExecutions? || s.RemoveAssignments? || s.RewriteEvents?
  }

  /** No removal and no statement on the log gets past its triggers. */
  lemma RowsAreGuarded(db: Database, s: Statement)
    requires Forbidden(s)
    ensures Execute(db, s) == db
  {
    if s.RewriteEvents? {
      match s.mutation
      case UpdateRows =>
      case DeleteRows =>
      case Truncate =>
    }
  }

  lemma OtherTablesKeepFaithful(db: Database, s: Statement, id: string)
    requires Faithful(db, id) && (s.InsertExecution? || s.UpdateExecution? || s.PutStep?)
    ensures Faithful(Execute(db, s), id)
  {
    var next := Execute(db, s);
    if id in db.assignments {
      forall k | 0 <= k < |Log(db, id)|
        ensures Bound(next, Log(db, id)[k], db.assignments[id].binding)
      {
        assert Bound(db, Log(db, id)[k], db.assignments[id].binding);
      }
    }
  }

  lemma ExecuteKeepsFaithful(db: Database, s: Statement, id: string)
    requires Faithful(db, id)
    ensures Faithful(Execute(db, s), id)
  {
    if Forbidden(s) {
      RowsAreGuarded(db, s);
    } else if s.InsertAssignment? {
      InsertKeepsFaithful(db, s.id, s.assignment, id);
    } else if s.UpdateAssignment? {
      UpdateKeepsFaithful(db, s.id, s.patch, id);
    } else {
      OtherTablesKeepFaithful(db, s, id);
    }
  }

  /**
  Over every run: the events of an assignment all carry its execution, plan, plan version, step,
  parent and child task; they chain; and the last one shows the live row.
  */
  lemma {:induction false} EveryRunIsFaithful(statements: seq<Statement>, i: nat, id: string)
    requires i <= |statements|
    ensures Faithful(RunTo(statements, i), id)
  {
    if i > 0 {
      EveryRunIsFaithful(statements, i - 1, id);
      ExecuteKeepsFaithful(RunTo(statements, i - 1), statements[i - 1], id);
    }
  }

  /** Any two events of one assignment name the same execution, plan, version, step and tasks. */
  lemma EventsAgree(statements: seq<Statement>, id: string, j: nat, k: nat)
    requires var log := Log(RunTo(statements, |statements|), id); j < |log| && k < |log|
    ensures var log := Log(RunTo(statements, |statements|), id);
      && log[j].binding == log[k].binding
      && log[j].planId == log[k].planId && log[j].planVersion == log[k].planVersion
      && log[j].parentTaskId == log[k].parentTaskId
  {
    EveryRunIsFaithful(statements, |statements|, id);
    var db := RunTo(statements, |statements|);
    assert Bound(db, Log(db, id)[j], db.assignments[id].binding);
    assert Bound(db, Log(db, id)[k], db.assignments[id].binding);
  }

  predicate Keeps(a: Database, b: Database, id: string) {
    && (id in a.assignments ==> id in b.assignments && b.assignments[id].binding == a.assignments[id].binding)
    && (id in a.executions ==> id in b.executions && b.executions[id].snapshot == a.executions[id].snapshot)
    && a.events <= b.events
  }

  lemma ExecuteKeeps(db: Database, s: Statement, id: string)
    ensures Keeps(db, Execute(db, s), id)
  {
    if Forbidden(s) {
      RowsAreGuarded(db, s);
    }
  }

  /** Both bindings are frozen: no statement moves an assignment or changes an execution's snapshot. */
  lemma {:induction false} BindingsAreFrozen(statements: seq<Statement>, i: nat, j: nat, id: string)
    requires i <= j <= |statements|
    ensures Keeps(RunTo(statements, i), RunTo(statements, j), id)
  {
    if i < j {
      BindingsAreFrozen(statements, i, j - 1, id);
      ExecuteKeeps(RunTo(statements, j - 1), statements[j - 1], id);
    }
  }

  // ----- the tables as the writers see them

  class AssignmentTables {
    var executions: map<string, Execution>
    var steps: map<string, string>
    var assignments: map<string, Assignment>
    var events: seq<AssignmentEvent>

    ghost function Contents(): Database
      reads this
    {
      Database(executions, steps, assignments, events)
    }

    ghost predicate Valid()
      reads this
    {
      forall id :: Faithful(Contents(), id)
    }

    constructor ()
      ensures Valid() && Contents() == Database(map[], map[], map[], [])
    {
      executions, steps, assignments, events := map[], map[], map[], [];
    }

    method CaptureEvent(id: string, a: Assignment, eventType: EventType, previous: Progress) returns (ok: bool)
      modifies this`events
      ensures ok <==> Capture(old(Contents()), id, a, eventType, previous).Some?
      ensures events == old(events) + if ok then [Capture(old(Contents()), id, a, eventType, previous).value] else []
    {
      if a.binding.executionId !in executions {
        return false;
      }
      var s := executions[a.binding.executionId].snapshot;
      if a.binding.stepId !in steps || steps[a.binding.stepId] != s.planId {
        return false;
      }
      events := events + [
        AssignmentEvent(id, a.binding, s.planId, s.planVersion, s.taskId, eventType, previous, a.progress)];
      return true;
    }

    method Create(id: string, a: Assignment) returns (ok: bool)
      requires Valid()
      modifies this
      ensures Valid() && Contents() == Execute(old(Contents()), InsertAssignment(id, a))
    {
      ghost var next := Execute(Contents(), InsertAssignment(id, a));
      forall other
        ensures Faithful(next, other)
      {
        ExecuteKeepsFaithful(Contents(), InsertAssignment(id, a), other);
      }
      ok := false;
      if id !in assignments {
        ok := CaptureEvent(id, a, AssignmentCreated, BLANK);
        if ok {
          assignments := assignments[id := a];
        }
      }
      assert Contents() == next;
    }

    method Change(id: string, p: Patch) returns (ok: bool)
      requires Valid()
      modifies this
      ensures Valid() && Contents() == Execute(old(Contents()), UpdateAssignment(id, p))
    {
      ghost var next := Execute(Contents(), UpdateAssignment(id, p));
      forall other
        ensures Faithful(next, other)
      {
        ExecuteKeepsFaithful(Contents(), UpdateAssignment(id, p), other);
      }
      ok := id in assignments && Patched(assignments[id], p).binding == assignments[id].binding;
      if ok {
        var was := assignments[id];
        var a := Patched(was, p);
        if FiresCapture(p) && a.progress != was.progress {
          ok := CaptureEvent(id, a, Classify(was.progress, a.progress), was.progress);
        }
        if ok {
          assignments := assignments[id := a];
        }
      }
      assert Contents() == next;
    }

    method ChangeExecution(id: string, e: Execution) returns (ok: bool)
      requires Valid()
      modifies this
      ensures Valid() && Contents() == Execute(old(Contents()), UpdateExecution(id, e))
    {
      ghost var next := Execute(Contents(), UpdateExecution(id, e));
      forall other
        ensures Faithful(next, other)
      {
        ExecuteKeepsFaithful(Contents(), UpdateExecution(id, e), other);
      }
      ok := id in executions && e.snapshot == executions[id].snapshot;
      if ok {
        executions := executions[id := e];
      }
    }
  }
}
