/**
The automation task table and the append-only lifecycle log that its trigger keeps.
*/
module TaskLedger {
  import opened Wrappers
  import opened Sequences
  import opened TriggerGuards

  const RUNNING := "running"

  /** The columns the trigger records; NULL text has become "". */
  datatype Captured = Captured(
    status: string, runId: string, workerId: string, agentKey: string, machineId: string,
    agentInstanceId: Option<string>)

  /** A row; `rest` stands for the columns the trigger never reads. */
  datatype Task = Task(captured: Captured, attemptCount: int, rest: string)

  datatype EventType = Created | Claimed | StatusTransition | LeaseReclaimed | AssignmentChanged | AttemptUpdated

  datatype TaskEvent = TaskEvent(
    taskId: string, sequence: nat, eventType: EventType, previous: Captured, now: Captured, attemptCount: int)

  datatype Ledger = Ledger(tasks: map<string, Task>, events: seq<TaskEvent>)

  const BLANK := Captured("", "", "", "", "", None)

  // ----- the trigger

  predicate SameAssignment(a: Captured, b: Captured) {
    a.workerId == b.workerId && a.agentKey == b.agentKey && a.machineId == b.machineId
    && a.agentInstanceId == b.agentInstanceId
  }

  /** The event an update logs, if it logs one. */
  function Classify(old': Task, new': Task): Option<EventType> {
    var a, b := old'.captured, new'.captured;
    if a.status != b.status then Some(if b.status == RUNNING then Claimed else StatusTransition)
    else if a.runId != b.runId && b.status == RUNNING then Some(LeaseReclaimed)
    else if !SameAssignment(a, b) then Some(AssignmentChanged)
    else if old'.attemptCount != new'.attemptCount then Some(AttemptUpdated)
    else None
  }

  function TaskOf(e: TaskEvent): string {
    e.taskId
  }

  /** The events of one task, oldest first. */
  function Log(events: seq<TaskEvent>, id: string): seq<TaskEvent> {
    ByKey(TaskOf, events, id)
  }

  /** SELECT COALESCE(MAX(sequence), 0) over the events of one task. */
  function MaxSequence(log: seq<TaskEvent>): nat {
    if log == [] then 0 else
      var front, last := MaxSequence(log[..|log| - 1]), log[|log| - 1].sequence;
      if last > front then last else front
  }

  function Record(l: Ledger, id: string, t: Task, eventType: EventType, previous: Captured): TaskEvent {
    TaskEvent(id, MaxSequence(Log(l.events, id)) + 1, eventType, previous, t.captured, t.attemptCount)
  }

  // ----- the statements that writers may issue

  /** The classes of statements on the log for which a raising trigger is installed. */
  const LOG_GUARD := {UpdateRows, DeleteRows, Truncate}

  datatype Statement =
    | Insert(id: string, task: Task)
    | Update(id: string, task: Task)
    | RewriteEvents(mutation: Mutation, after: seq<TaskEvent>)

  /** A refused statement leaves the database as it was. */
  function Execute(l: Ledger, s: Statement): Ledger {
    match s
    case Insert(id, t) =>
      if id in l.tasks then l
      else Ledger(l.tasks[id := t], l.events + [Record(l, id, t, Created, BLANK)])
    case Update(id, t) =>
      if id !in l.tasks then l else
        var kind := Classify(l.tasks[id], t);
        Ledger(l.tasks[id := t],
               if kind.None? then l.events
               else l.events + [Record(l, id, t, kind.value, l.tasks[id].captured)])
    case RewriteEvents(m, after) => l.(events := Attempt(LOG_GUARD, m, l.events, after))
  }

  function RunTo(statements: seq<Statement>, i: nat): Ledger
    requires i <= |statements|
  {
    if i == 0 then Ledger(map[], []) else Execute(RunTo(statements, i - 1), statements[i - 1])
  }

  function Run(statements: seq<Statement>): Ledger {
    RunTo(statements, |statements|)
  }

  // ----- what the log says

  /** The event shows the row: everything but the run, and the run of a running task. */
  predicate Shows(e: TaskEvent, t: Task) {
    && e.attemptCount == t.attemptCount
    && e.now.status == t.captured.status
    && SameAssignment(e.now, t.captured)
    && (t.captured.status == RUNNING ==> e.now.runId == t.captured.runId)
  }

  /** The later event starts from where the earlier one ended. */
  predicate Chained(a: TaskEvent, b: TaskEvent) {
    && b.previous.status == a.now.status
    && SameAssignment(b.previous, a.now)
    && (a.now.status == RUNNING ==> b.previous.runId == a.now.runId)
  }

  /** The event type names the first thing that changed since the earlier event. */
  predicate Typed(a: TaskEvent, b: TaskEvent) {
    b.eventType == (
      if a.now.status != b.now.status then (if b.now.status == RUNNING then Claimed else StatusTransition)
      else if b.now.status == RUNNING && a.now.runId != b.now.runId then LeaseReclaimed
      else if !SameAssignment(a.now, b.now) then AssignmentChanged
      else AttemptUpdated)
  }

  predicate Differs(a: TaskEvent, b: TaskEvent) {
    b.eventType.AttemptUpdated? ==> a.attemptCount != b.attemptCount
  }

  predicate Birth(e: TaskEvent) {
    e.eventType.Created? && e.previous == BLANK
  }

  predicate WellLogged(log: seq<TaskEvent>, id: string) {
    && (forall k | 0 <= k < |log| :: log[k].taskId == id && log[k].sequence == k + 1)
    && (log != [] ==> Birth(log[0]))
    && (forall k | 0 < k < |log| ::
          Chained(log[k - 1], log[k]) && Typed(log[k - 1], log[k]) && Differs(log[k - 1], log[k]))
  }

  predicate Faithful(l: Ledger, id: string) {
    var log := Log(l.events, id);
    && WellLogged(log, id)
    && (id in l.tasks <==> log != [])
    && (id in l.tasks ==> Shows(log[|log| - 1], l.tasks[id]))
  }

  // ----- proofs

  lemma {:induction false} NumberedMax(log: seq<TaskEvent>)
    requires forall k | 0 <= k < |log| :: log[k].sequence == k + 1
    ensures MaxSequence(log) == |log|
  {
    if log != [] {
      NumberedMax(log[..|log| - 1]);
    }
  }

  lemma RecordIsNext(l: Ledger, id: string, t: Task, eventType: EventType, previous: Captured)
    requires Faithful(l, id)
    ensures Record(l, id, t, eventType, previous)
         == TaskEvent(id, |Log(l.events, id)| + 1, eventType, previous, t.captured, t.attemptCount)
  {
    NumberedMax(Log(l.events, id));
  }

  lemma WellLoggedSnoc(log: seq<TaskEvent>, id: string, e: TaskEvent)
    requires WellLogged(log, id) && e.taskId == id && e.sequence == |log| + 1
    requires log == [] ==> Birth(e)
    requires log != [] ==>
      Chained(log[|log| - 1], e) && Typed(log[|log| - 1], e) && Differs(log[|log| - 1], e)
    ensures WellLogged(log + [e], id)
  {
    var longer := log + [e];
    forall k | 0 < k < |longer|
      ensures Chained(longer[k - 1], longer[k]) && Typed(longer[k - 1], longer[k]) && Differs(longer[k - 1], longer[k])
    {
      assert longer[k - 1] == log[k - 1];
      if k < |log| {
        assert longer[k] == log[k];
      }
    }
  }

  lemma UpdateEventFollows(last: TaskEvent, old': Task, new': Task, id: string, sequence: nat)
    requires Shows(last, old')
    ensures match Classify(old', new')
      case None => Shows(last, new')
      case Some(kind) =>
        var e := TaskEvent(id, sequence, kind, old'.captured, new'.captured, new'.attemptCount);
        Chained(last, e) && Typed(last, e) && Differs(last, e) && Shows(e, new')
  {
  }

  lemma InsertKeepsFaithful(l: Ledger, s: Statement, id: string)
    requires Faithful(l, id) && s.Insert? && s.id !in l.tasks
    ensures Faithful(Execute(l, s), id)
  {
    var e := Record(l, s.id, s.task, Created, BLANK);
    ByKeyAppend(TaskOf, l.events, e, id);
    if s.id == id {
      RecordIsNext(l, id, s.task, Created, BLANK);
      WellLoggedSnoc(Log(l.events, id), id, e);
    }
  }

  lemma UpdateKeepsFaithful(l: Ledger, s: Statement, id: string)
    requires Faithful(l, id) && s.Update? && s.id in l.tasks
    ensures Faithful(Execute(l, s), id)
  {
    var kind := Classify(l.tasks[s.id], s.task);
    var log := Log(l.events, id);
    if s.id == id {
      UpdateEventFollows(log[|log| - 1], l.tasks[id], s.task, id, |log| + 1);
    }
    if kind.Some? {
      var e := Record(l, s.id, s.task, kind.value, l.tasks[s.id].captured);
      ByKeyAppend(TaskOf, l.events, e, id);
      if s.id == id {
        RecordIsNext(l, id, s.task, kind.value, l.tasks[id].captured);
        WellLoggedSnoc(log, id, e);
      }
    }
  }

  /** No statement on the log gets past its triggers. */
  lemma LogIsGuarded(m: Mutation, before: seq<TaskEvent>, after: seq<TaskEvent>)
    ensures Attempt(LOG_GUARD, m, before, after) == before
  {
    match m
    case UpdateRows =>
    case DeleteRows =>
    case Truncate =>
  }

  lemma ExecuteKeepsFaithful(l: Ledger, s: Statement, id: string)
    requires Faithful(l, id)
    ensures Faithful(Execute(l, s), id)
  {
    if s.Insert? && s.id !in l.tasks {
      InsertKeepsFaithful(l, s, id);
    } else if s.Update? && s.id in l.tasks {
      UpdateKeepsFaithful(l, s, id);
    } else if s.RewriteEvents? {
      LogIsGuarded(s.mutation, l.events, s.after);
    }
  }

  /** Over every run: each task's log is numbered 1..n, chains, and ends at the live row. */
  lemma {:induction false} EveryRunIsFaithful(statements: seq<Statement>, i: nat)
    requires i <= |statements|
    ensures forall id :: Faithful(RunTo(statements, i), id)
  {
    if i > 0 {
      EveryRunIsFaithful(statements, i - 1);
      forall id
        ensures Faithful(RunTo(statements, i), id)
      {
        ExecuteKeepsFaithful(RunTo(statements, i - 1), statements[i - 1], id);
      }
    }
  }

  /** Rebuilding what the log claims about a task yields its row, up to the run of a task at rest. */
  function Replay(log: seq<TaskEvent>): Option<(Captured, int)> {
    if log == [] then None else Some((log[|log| - 1].now, log[|log| - 1].attemptCount))
  }

  lemma ReplayIsTheRow(statements: seq<Statement>, id: string)
    ensures var l := Run(statements);
      match Replay(Log(l.events, id))
      case None => id !in l.tasks
      case Some((now, attempts)) =>
        && id in l.tasks
        && l.tasks[id].attemptCount == attempts
        && l.tasks[id].captured == (if now.status == RUNNING then now else now.(runId := l.tasks[id].captured.runId))
  {
    EveryRunIsFaithful(statements, |statements|);
    assert Faithful(Run(statements), id);
  }

  /** The log only grows: no statement changes or removes an event. */
  lemma {:induction false} LogOnlyGrows(statements: seq<Statement>, i: nat, j: nat)
    requires i <= j <= |statements|
    ensures RunTo(statements, i).events <= RunTo(statements, j).events
  {
    if i < j {
      LogOnlyGrows(statements, i, j - 1);
      var s := statements[j - 1];
      if s.RewriteEvents? {
        LogIsGuarded(s.mutation, RunTo(statements, j - 1).events, s.after);
      }
    }
  }

  /**
  The run is the one column the log can lose: an update logs nothing exactly when status,
  assignment and attempts stay and either the run stays or the row is not running.
  */
  lemma SilentUpdates(old': Task, new': Task)
    ensures Classify(old', new').None? <==>
            && old'.captured.(runId := "") == new'.captured.(runId := "")
            && old'.attemptCount == new'.attemptCount
            && (old'.captured.runId == new'.captured.runId || new'.captured.status != RUNNING)
  {
  }

  /** Statement `c` logs an event of the task. */
  predicate LogsAt(statements: seq<Statement>, id: string, c: nat)
    requires c < |statements|
  {
    Log(RunTo(statements, c + 1).events, id) != Log(RunTo(statements, c).events, id)
  }

  lemma StepOfLog(l: Ledger, s: Statement, id: string)
    requires Faithful(l, id)
    ensures var l', log := Execute(l, s), Log(l.events, id);
      if Log(l'.events, id) == log then id in l'.tasks ==> id in l.tasks
      else
        && |Log(l'.events, id)| == |log| + 1
        && id in l'.tasks
        && Log(l'.events, id)[|log|].now == l'.tasks[id].captured
  {
    if s.Insert? && s.id !in l.tasks {
      ByKeyAppend(TaskOf, l.events, Record(l, s.id, s.task, Created, BLANK), id);
    } else if s.Update? && s.id in l.tasks {
      var kind := Classify(l.tasks[s.id], s.task);
      if kind.Some? {
        ByKeyAppend(TaskOf, l.events, Record(l, s.id, s.task, kind.value, l.tasks[s.id].captured), id);
      }
    } else if s.RewriteEvents? {
      LogIsGuarded(s.mutation, l.events, s.after);
    }
  }

  /** The last event of a task is its whole row, the run included, as the statement that logged it left it. */
  lemma {:induction false} LastEventIsPastRow(statements: seq<Statement>, i: nat, id: string) returns (c: nat)
    requires i <= |statements| && id in RunTo(statements, i).tasks
    ensures c < i && LogsAt(statements, id, c) && forall j | c < j < i :: !LogsAt(statements, id, j)
    ensures id in RunTo(statements, c + 1).tasks && Log(RunTo(statements, i).events, id) != []
    ensures var log := Log(RunTo(statements, i).events, id);
      log[|log| - 1].now == RunTo(statements, c + 1).tasks[id].captured
  {
    EveryRunIsFaithful(statements, i - 1);
    assert Faithful(RunTo(statements, i - 1), id);
    StepOfLog(RunTo(statements, i - 1), statements[i - 1], id);
    if LogsAt(statements, id, i - 1) {
      c := i - 1;
    } else {
      c := LastEventIsPastRow(statements, i - 1, id);
    }
  }

  /**
  Exactly when an update leaves the last event naming the row's run: the row is running, or something
  else changed as well, or the last event names the new run already.
  */
  lemma UpdateShowsRunExactly(l: Ledger, id: string, task: Task)
    requires Faithful(l, id) && id in l.tasks
    ensures var log, log' := Log(l.events, id), Log(Execute(l, Update(id, task)).events, id);
      && log != [] && log' != []
      && (log'[|log'| - 1].now.runId == task.captured.runId <==>
            || task.captured.status == RUNNING
            || l.tasks[id].captured.(runId := "") != task.captured.(runId := "")
            || l.tasks[id].attemptCount != task.attemptCount
            || log[|log| - 1].now.runId == task.captured.runId)
  {
    StepOfLog(l, Update(id, task), id);
    SilentUpdates(l.tasks[id], task);
  }

  /** Over every run: the last event names the row's run exactly when the silent updates since have kept it. */
  lemma RunShownExactly(statements: seq<Statement>, id: string) returns (c: nat)
    requires id in Run(statements).tasks
    ensures c < |statements| && LogsAt(statements, id, c)
    ensures forall j | c < j < |statements| :: !LogsAt(statements, id, j)
    ensures id in RunTo(statements, c + 1).tasks && Log(Run(statements).events, id) != []
    ensures var log := Log(Run(statements).events, id);
      log[|log| - 1].now.runId == Run(statements).tasks[id].captured.runId <==>
      RunTo(statements, c + 1).tasks[id].captured.runId == Run(statements).tasks[id].captured.runId
  {
    c := LastEventIsPastRow(statements, |statements|, id);
  }

  /** A run in which the last event disagrees with the row about the run. */
  lemma QueuedRunChangeIsSilent() returns (statements: seq<Statement>)
    ensures var l := Run(statements);
      "t" in l.tasks && Log(l.events, "t") != []
      && Log(l.events, "t")[|Log(l.events, "t")| - 1].now.runId != l.tasks["t"].captured.runId
  {
    var queued := Task(Captured("queued", "a", "", "", "", None), 0, "");
    var moved := queued.(captured := queued.captured.(runId := "b"));
    statements := [Insert("t", queued), Update("t", moved)];
    var first := RunTo(statements, 1);
    assert RunTo(statements, 0) == Ledger(map[], []);
    ByKeyAppend(TaskOf, [], Record(RunTo(statements, 0), "t", queued, Created, BLANK), "t");
    assert first.events == [Record(RunTo(statements, 0), "t", queued, Created, BLANK)];
    assert RunTo(statements, 2) == Execute(first, statements[1]);
    assert Classify(queued, moved).None?;
  }

  // ----- the table as the writers see it

  class TaskTable {
    var tasks: map<string, Task>
    var events: seq<TaskEvent>

    ghost function Contents(): Ledger
      reads this
    {
      Ledger(tasks, events)
    }

    ghost predicate Valid()
      reads this
    {
      forall id :: Faithful(Contents(), id)
    }

    constructor ()
      ensures Valid() && Contents() == Ledger(map[], [])
    {
      tasks, events := map[], [];
    }

    method CaptureEvent(id: string, task: Task, eventType: EventType, previous: Captured)
      modifies this`events
      ensures events == old(events) + [Record(old(Contents()), id, task, eventType, previous)]
    {
      var sequence := 0;
      for i := 0 to |events|
        invariant sequence == MaxSequence(ByKeyTo(TaskOf, events, id, i))
        invariant events == old(events) && tasks == old(tasks)
      {
        if events[i].taskId == id && events[i].sequence > sequence {
          sequence := events[i].sequence;
        }
        ghost var front := ByKeyTo(TaskOf, events, id, i);
        assert (front + [events[i]])[..|front|] == front;
      }
      events := events + [TaskEvent(id, sequence + 1, eventType, previous, task.captured, task.attemptCount)];
    }

    method InsertTask(id: string, task: Task) returns (ok: bool)
      requires Valid()
      modifies this
      ensures Valid() && Contents() == Execute(old(Contents()), Insert(id, task))
      ensures ok <==> id !in old(tasks)
    {
      ghost var next := Execute(Contents(), Insert(id, task));
      forall other
        ensures Faithful(next, other)
      {
        ExecuteKeepsFaithful(Contents(), Insert(id, task), other);
      }
      ok := id !in tasks;
      if ok {
        CaptureEvent(id, task, Created, BLANK);
        tasks := tasks[id := task];
      }
    }

    method UpdateTask(id: string, task: Task) returns (ok: bool)
      requires Valid()
      modifies this
      ensures Valid() && Contents() == Execute(old(Contents()), Update(id, task))
      ensures ok <==> id in old(tasks)
    {
      ghost var next := Execute(Contents(), Update(id, task));
      forall other
        ensures Faithful(next, other)
      {
        ExecuteKeepsFaithful(Contents(), Update(id, task), other);
      }
      ok := id in tasks;
      if ok {
        var kind := Classify(tasks[id], task);
        if kind.Some? {
          CaptureEvent(id, task, kind.value, tasks[id].captured);
        }
        tasks := tasks[id := task];
      }
    }
  }
}
