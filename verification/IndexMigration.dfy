/**
The public-moments index migration as replicas run it at once against one database: a session
advisory lock taken by polling, DDL outside a transaction, and a cleanup whose every call may
fail. A failing call may or may not have reached the server, may cost the connection, and may
leave its statement running on a session the client has already given up.

Nobody but the replicas changes the index.
*/
module IndexMigration {
  import opened Wrappers

  /** What the catalogue says about the index; `matches` is the definition check. */
  datatype Index = Index(present: bool, valid: bool, ready: bool, matches: bool)

  predicate Good(x: Index) {
    x.present && x.valid && x.ready && x.matches
  }

  datatype Call = TryLock | SetLockTimeout | SetStatementTimeout | Read | Drop | Create
                | Unlock | ResetLockTimeout | ResetStatementTimeout

  /** A server session. Once `open` is false the client cannot use it, but it lives until it ends. */
  datatype Session = Session(
    open: bool, holds: bool, lockTimeoutSet: bool, statementTimeoutSet: bool, pending: Option<Call>)

  const FRESH := Session(true, false, false, false, None)

  datatype Pc = Begin | Locking | SettingLock | SettingStatement | FirstRead | Dropping | Creating | SecondRead
              | Unlocking | ResettingLock | ResettingStatement | Closing | Returned

  /** `failed` is the error of the body, `unclean` that of the deferred cleanup. */
  datatype Replica = Replica(pc: Pc, session: nat, confirmed: bool, failed: bool, unclean: bool, lastRead: Index)

  const NO_INDEX := Index(false, false, false, false)

  datatype System = System(replicas: map<nat, Replica>, sessions: map<nat, Session>, pool: set<nat>, index: Index)

  // ----- the server

  predicate LockFree(s: System) {
    forall i | i in s.sessions :: !s.sessions[i].holds
  }

  /** One statement performed on a session; `result` is what a DROP or a CREATE leaves behind. */
  function Effect(y: Session, free: bool, call: Call, index: Index, result: Index): (Session, Index) {
    match call
    case TryLock => (if free then y.(holds := true) else y, index)
    case Unlock => (y.(holds := false), index)
    case SetLockTimeout => (y.(lockTimeoutSet := true), index)
    case ResetLockTimeout => (y.(lockTimeoutSet := false), index)
    case SetStatementTimeout => (y.(statementTimeoutSet := true), index)
    case ResetStatementTimeout => (y.(statementTimeoutSet := false), index)
    case Read => (y, index)
    case Drop => (y, result)
    case Create => (y, if index.present then index else result)
  }

  function Perform(s: System, i: nat, call: Call, result: Index): System
    requires i in s.sessions
  {
    var e := Effect(s.sessions[i], LockFree(s), call, s.index, result);
    System(s.replicas, s.sessions[i := e.0], s.pool, e.1)
  }

  /** DROP INDEX CONCURRENTLY leaves no index, or an invalid one when it is interrupted. */
  predicate PossibleResult(call: Call, result: Index) {
    call.Drop? ==> !result.valid
  }

  // ----- the replica

  predicate InCall(pc: Pc) {
    !pc.Begin? && !pc.Closing? && !pc.Returned?
  }

  function CallOf(pc: Pc): Call
    requires InCall(pc)
  {
    match pc
    case Locking => TryLock
    case SettingLock => SetLockTimeout
    case SettingStatement => SetStatementTimeout
    case FirstRead => Read
    case Dropping => Drop
    case Creating => Create
    case SecondRead => Read
    case Unlocking => Unlock
    case ResettingLock => ResetLockTimeout
    case ResettingStatement => ResetStatementTimeout
  }

  /** The body gives up and the deferred cleanup starts. */
  function Fail(r: Replica): Replica {
    r.(pc := Unlocking, failed := true)
  }

  /** A call returned without error: `held` is the lock before it, `now` the session after it. */
  function AfterSuccess(r: Replica, held: bool, now: Session, index: Index): Replica
    requires InCall(r.pc)
  {
    match r.pc
    case Locking => if now.holds then r.(pc := SettingLock, confirmed := true) else r
    case SettingLock => r.(pc := SettingStatement)
    case SettingStatement => r.(pc := FirstRead)
    case FirstRead =>
      if Good(index) then r.(pc := Unlocking, lastRead := index)
      else r.(pc := if index.present then Dropping else Creating, lastRead := index)
    case Dropping => r.(pc := Creating)
    case Creating => r.(pc := SecondRead)
    case SecondRead =>
      if Good(index) then r.(pc := Unlocking, lastRead := index) else Fail(r.(lastRead := index))
    case Unlocking => r.(pc := ResettingLock, unclean := r.unclean || (r.confirmed && !held))
    case ResettingLock => r.(pc := ResettingStatement)
    case ResettingStatement => r.(pc := Closing)
  }

  function AfterError(r: Replica): Replica
    requires InCall(r.pc)
  {
    match r.pc
    case Unlocking => r.(pc := ResettingLock, unclean := true)
    case ResettingLock => r.(pc := ResettingStatement, unclean := true)
    case ResettingStatement => r.(pc := Closing, unclean := true)
    case _ => Fail(r)
  }

  // ----- steps

  datatype Outcome =
    | Succeeds
    | FailsUndone // the server never saw the call
    | FailsDone // it did, and the client still got an error
    | FailsBroken // the connection is lost and the server never saw the call
    | FailsDetached // the connection is lost and the server is still at it

  datatype Step =
    | Connect(r: nat, i: nat) // a pooled session or a new one
    | ConnectFails(r: nat)
    | Do(r: nat, outcome: Outcome, result: Index)
    | Expire(r: nat) // the context ends while the replica waits to retry the lock
    | Close(r: nat)
    | Restart(r: nat)
    | PerformPending(i: nat, result: Index)
    | EndSession(i: nat) // the server ends a session: killed, or noticed to be abandoned

  predicate Enabled(s: System, step: Step) {
    match step
    case Connect(r, i) => r in s.replicas && s.replicas[r].pc.Begin? && (i in s.pool || i !in s.sessions)
    case ConnectFails(r) => r in s.replicas && s.replicas[r].pc.Begin?
    case Do(r, outcome, result) =>
      && r in s.replicas && InCall(s.replicas[r].pc)
      && s.replicas[r].session in s.sessions
      && (outcome.Succeeds? || outcome.FailsDone? || outcome.FailsDetached? ==> s.sessions[s.replicas[r].session].open)
      && PossibleResult(CallOf(s.replicas[r].pc), result)
    case Expire(r) => r in s.replicas && s.replicas[r].pc.Locking?
    case Close(r) => r in s.replicas && s.replicas[r].pc.Closing? && s.replicas[r].session in s.sessions
    case Restart(r) => r in s.replicas && s.replicas[r].pc.Returned?
    case PerformPending(i, result) =>
      i in s.sessions && s.sessions[i].pending.Some? && PossibleResult(s.sessions[i].pending.value, result)
    case EndSession(i) => i in s.sessions
  }

  function SetSession(s: System, i: nat, x: Session): System {
    s.(sessions := s.sessions[i := x])
  }

  function SetReplica(s: System, r: nat, x: Replica): System {
    s.(replicas := s.replicas[r := x])
  }

  function DoCall(s: System, r: nat, outcome: Outcome, result: Index): System
    requires Enabled(s, Do(r, outcome, result))
  {
    var x := s.replicas[r];
    var i, call := x.session, CallOf(x.pc);
    var done := Perform(s, i, call, result);
    match outcome
    case Succeeds =>
      SetReplica(done, r, AfterSuccess(x, s.sessions[i].holds, done.sessions[i], s.index))
    case FailsUndone => SetReplica(s, r, AfterError(x))
    case FailsDone => SetReplica(done, r, AfterError(x))
    case FailsBroken => SetReplica(SetSession(s, i, s.sessions[i].(open := false)), r, AfterError(x))
    case FailsDetached =>
      SetReplica(SetSession(s, i, s.sessions[i].(open := false, pending := Some(call))), r, AfterError(x))
  }

  function Next(s: System, step: Step): System
    requires Enabled(s, step)
  {
    match step
    case Connect(r, i) =>
      SetReplica(
        System(s.replicas, if i in s.sessions then s.sessions else s.sessions[i := FRESH], s.pool - {i}, s.index),
        r, Replica(Locking, i, false, false, false, NO_INDEX))
    case ConnectFails(r) => SetReplica(s, r, s.replicas[r].(pc := Returned, failed := true))
    case Do(r, outcome, result) => DoCall(s, r, outcome, result)
    case Expire(r) => SetReplica(s, r, Fail(s.replicas[r]))
    case Close(r) =>
      // A failed cleanup discards the connection; otherwise it goes back to the pool.
      var x := s.replicas[r];
      var closed := if x.unclean then SetSession(s, x.session, s.sessions[x.session].(open := false))
                    else s.(pool := s.pool + {x.session});
      SetReplica(closed, r, x.(pc := Returned))
    case Restart(r) => SetReplica(s, r, Replica(Begin, 0, false, false, false, NO_INDEX))
    case PerformPending(i, result) =>
      var y := s.sessions[i];
      var e := Effect(y.(pending := None), LockFree(s), y.pending.value, s.index, result);
      System(s.replicas, s.sessions[i := e.0], s.pool, e.1)
    case EndSession(i) => SetSession(s, i, s.sessions[i].(open := false, holds := false, pending := None))
  }

  predicate Initial(s: System) {
    && (forall r | r in s.replicas :: s.replicas[r].pc.Begin?)
    && s.sessions == map[] && s.pool == {}
  }

  // ----- the inductive invariant

  predicate Active(x: Replica) {
    !x.pc.Begin? && !x.pc.Returned?
  }

  predicate UnderLock(pc: Pc) {
    pc.SettingLock? || pc.SettingStatement? || pc.FirstRead? || pc.Dropping? || pc.Creating? || pc.SecondRead?
  }

  predicate Unlocked(pc: Pc) {
    pc.ResettingLock? || pc.ResettingStatement? || pc.Closing?
  }

  /** What a replica's position says about its session and the index. */
  predicate ReplicaInv(x: Replica, y: Session, index: Index) {
    && (x.pc.Locking? ==> !x.confirmed && !x.failed && !y.holds && y.pending.None?)
    && (UnderLock(x.pc) ==> x.confirmed && (y.open ==> y.holds) && y.pending.None? && !x.failed)
    && (!Unlocked(x.pc) ==> !x.unclean)
    && (x.pc.Dropping? && y.open ==> !Good(index))
    && (x.pc.Unlocking? && x.confirmed && y.open ==> y.holds)
    && (x.pc.Unlocking? && !x.failed ==> x.confirmed && Good(x.lastRead) && Good(index))
    && (Unlocked(x.pc) && !x.unclean ==>
          && !y.holds && y.pending.None?
          && (!x.pc.ResettingLock? ==> !y.lockTimeoutSet)
          && (x.pc.Closing? ==> !y.statementTimeoutSet)
          && (!x.failed ==> Good(x.lastRead) && Good(index)))
  }

  predicate Clean(y: Session) {
    !y.holds && !y.lockTimeoutSet && !y.statementTimeoutSet && y.pending.None?
  }

  predicate SessionInv(y: Session, index: Index) {
    && (y.pending.Some? ==> !y.open)
    && (y.pending == Some(Drop) ==> y.holds && !Good(index))
    && (y.pending == Some(Create) ==> y.holds)
  }

  predicate OneHolder(s: System) {
    forall i, j | i in s.sessions && j in s.sessions && s.sessions[i].holds && s.sessions[j].holds :: i == j
  }

  predicate Inv(s: System) {
    && OneHolder(s)
    && (forall i | i in s.sessions :: SessionInv(s.sessions[i], s.index))
    && (forall i | i in s.pool :: i in s.sessions && Clean(s.sessions[i]))
    && (forall r | r in s.replicas && Active(s.replicas[r]) ::
          && s.replicas[r].session in s.sessions && s.replicas[r].session !in s.pool
          && ReplicaInv(s.replicas[r], s.sessions[s.replicas[r].session], s.index))
    && (forall r, q | r in s.replicas && q in s.replicas && Active(s.replicas[r]) && Active(s.replicas[q])
          && s.replicas[r].session == s.replicas[q].session :: r == q)
    && (forall r | r in s.replicas && s.replicas[r].pc.Returned? && !s.replicas[r].failed && !s.replicas[r].unclean ::
          Good(s.index))
  }

  // ----- every DDL statement runs under the lock

  /** The session on which this step changes the index, if it is a step that may. */
  function DdlSession(s: System, step: Step): Option<nat>
    requires Enabled(s, step)
  {
    match step
    case Do(r, outcome, _) =>
      var call := CallOf(s.replicas[r].pc);
      if (call.Drop? || call.Create?) && (outcome.Succeeds? || outcome.FailsDone?)
      then Some(s.replicas[r].session) else None
    case PerformPending(i, _) =>
      if s.sessions[i].pending == Some(Drop) || s.sessions[i].pending == Some(Create) then Some(i) else None
    case _ => None
  }

  lemma DdlUnderLock(s: System, step: Step)
    requires Inv(s) && Enabled(s, step)
    ensures Next(s, step).index != s.index ==> DdlSession(s, step).Some?
    ensures DdlSession(s, step).Some? ==>
      var i := DdlSession(s, step).value;
      i in s.sessions && s.sessions[i].holds
      && forall j | j in s.sessions && s.sessions[j].holds :: j == i
  {
    match step
    case Do(r, outcome, result) =>
      assert ReplicaInv(s.replicas[r], s.sessions[s.replicas[r].session], s.index);
    case PerformPending(i, result) =>
      assert SessionInv(s.sessions[i], s.index);
    case _ =>
  }

  lemma CallKeepsGood(s: System, r: nat, outcome: Outcome, result: Index)
    requires Inv(s) && Enabled(s, Do(r, outcome, result)) && Good(s.index)
    ensures DoCall(s, r, outcome, result).index == s.index
  {
    assert ReplicaInv(s.replicas[r], s.sessions[s.replicas[r].session], s.index);
  }

  /** No replica ever removes a good index. */
  lemma GoodStaysGood(s: System, step: Step)
    requires Inv(s) && Enabled(s, step) && Good(s.index)
    ensures Next(s, step).index == s.index
  {
    match step
    case Do(r, outcome, result) => CallKeepsGood(s, r, outcome, result);
    case PerformPending(i, result) =>
      assert SessionInv(s.sessions[i], s.index);
    case _ =>
  }

  // ----- the invariant is inductive: one session, at most one replica and the index move at a time

  /** The index moves only under the lock, and never away from a good index. */
  predicate IndexMoves(before: Index, after: Index, y: Session) {
    after == before || (y.holds && !Good(before))
  }

  /** What one step may do to session `i`, seen from every other session. */
  predicate SessionMoves(s: System, i: nat, y': Session, index': Index)
    requires i in s.sessions
  {
    && IndexMoves(s.index, index', s.sessions[i])
    && (y'.holds ==> s.sessions[i].holds || LockFree(s))
    && SessionInv(y', index')
  }

  lemma OthersUntouched(s: System, i: nat, y': Session, index': Index)
    requires Inv(s) && i in s.sessions && SessionMoves(s, i, y', index')
    ensures OneHolder(System(s.replicas, s.sessions[i := y'], s.pool, index'))
    ensures forall j | j in s.sessions && j != i :: SessionInv(s.sessions[j], index')
    ensures forall q | q in s.replicas && Active(s.replicas[q]) && s.replicas[q].session != i ::
      ReplicaInv(s.replicas[q], s.sessions[s.replicas[q].session], index')
    ensures forall q | q in s.replicas ::
      s.replicas[q].pc.Returned? && !s.replicas[q].failed && !s.replicas[q].unclean ==> Good(index')
  {
    forall j | j in s.sessions && j != i
      ensures SessionInv(s.sessions[j], index')
    {
      assert SessionInv(s.sessions[j], s.index);
    }
    forall q | q in s.replicas && Active(s.replicas[q]) && s.replicas[q].session != i
      ensures ReplicaInv(s.replicas[q], s.sessions[s.replicas[q].session], index')
    {
      assert ReplicaInv(s.replicas[q], s.sessions[s.replicas[q].session], s.index);
    }
  }

  /** A step of replica `r` on its own session. */
  lemma ReplicaStepKeepsInv(s: System, r: nat, x': Replica, y': Session, index': Index)
    requires Inv(s) && r in s.replicas && Active(s.replicas[r])
    requires x'.session == s.replicas[r].session && Active(x')
    requires SessionMoves(s, x'.session, y', index')
    requires ReplicaInv(x', y', index')
    ensures Inv(System(s.replicas[r := x'], s.sessions[x'.session := y'], s.pool, index'))
  {
    var i := x'.session;
    OthersUntouched(s, i, y', index');
    var s' := System(s.replicas[r := x'], s.sessions[i := y'], s.pool, index');
    forall q | q in s'.replicas && Active(s'.replicas[q])
      ensures s'.replicas[q].session in s'.sessions && s'.replicas[q].session !in s'.pool
      ensures ReplicaInv(s'.replicas[q], s'.sessions[s'.replicas[q].session], index')
    {
      if q != r {
        assert s.replicas[q].session != i;
      }
    }
  }

  /** A step of the server on a session outside the pool, or one that leaves a pooled session clean. */
  lemma ServerStepKeepsInv(s: System, i: nat, y': Session, index': Index)
    requires Inv(s) && i in s.sessions && SessionMoves(s, i, y', index')
    requires i in s.pool ==> Clean(y')
    requires forall q | q in s.replicas && Active(s.replicas[q]) && s.replicas[q].session == i ::
      ReplicaInv(s.replicas[q], y', index')
    ensures Inv(System(s.replicas, s.sessions[i := y'], s.pool, index'))
  {
    OthersUntouched(s, i, y', index');
  }

  // ----- each call keeps what its replica knows

  /** A performed call, seen from the session it runs on. */
  lemma EffectMoves(y: Session, free: bool, call: Call, index: Index, result: Index)
    requires PossibleResult(call, result)
    requires call.Drop? ==> y.holds && !Good(index)
    requires call.Create? ==> y.holds
    ensures var (y', index') := Effect(y, free, call, index, result);
      && IndexMoves(index, index', y)
      && (y'.holds ==> y.holds || free)
      && y'.open == y.open && y'.pending == y.pending
      && (call.Drop? ==> !Good(index'))
  {
  }

  lemma SuccessKeepsSession(x: Replica, y: Session, free: bool, index: Index, result: Index)
    requires InCall(x.pc) && ReplicaInv(x, y, index) && SessionInv(y, index) && y.open
    requires PossibleResult(CallOf(x.pc), result)
    ensures var (y', index') := Effect(y, free, CallOf(x.pc), index, result);
      SessionInv(y', index') && IndexMoves(index, index', y) && (y'.holds ==> y.holds || free)
  {
    EffectMoves(y, free, CallOf(x.pc), index, result);
  }

  lemma LockCallKeepsReplicaInv(x: Replica, y: Session, free: bool, index: Index, result: Index)
    requires x.pc.Locking?
    requires ReplicaInv(x, y, index) && SessionInv(y, index) && y.open
    ensures var (y', index') := Effect(y, free, CallOf(x.pc), index, result);
      ReplicaInv(AfterSuccess(x, y.holds, y', index), y', index')
  {
  }

  lemma SettingKeepsReplicaInv(x: Replica, y: Session, free: bool, index: Index, result: Index)
    requires x.pc.SettingLock? || x.pc.SettingStatement?
    requires ReplicaInv(x, y, index) && SessionInv(y, index) && y.open
    ensures var (y', index') := Effect(y, free, CallOf(x.pc), index, result);
      ReplicaInv(AfterSuccess(x, y.holds, y', index), y', index')
  {
  }

  lemma ReadKeepsReplicaInv(x: Replica, y: Session, free: bool, index: Index, result: Index)
    requires x.pc.FirstRead? || x.pc.SecondRead?
    requires ReplicaInv(x, y, index) && SessionInv(y, index) && y.open
    ensures var (y', index') := Effect(y, free, CallOf(x.pc), index, result);
      ReplicaInv(AfterSuccess(x, y.holds, y', index), y', index')
  {
  }

  lemma DdlKeepsReplicaInv(x: Replica, y: Session, free: bool, index: Index, result: Index)
    requires x.pc.Dropping? || x.pc.Creating?
    requires ReplicaInv(x, y, index) && SessionInv(y, index) && y.open
    requires PossibleResult(CallOf(x.pc), result)
    ensures var (y', index') := Effect(y, free, CallOf(x.pc), index, result);
      ReplicaInv(AfterSuccess(x, y.holds, y', index), y', index')
  {
  }

  lemma CleanupCallKeepsReplicaInv(x: Replica, y: Session, free: bool, index: Index, result: Index)
    requires x.pc.Unlocking? || x.pc.ResettingLock? || x.pc.ResettingStatement?
    requires ReplicaInv(x, y, index) && SessionInv(y, index) && y.open
    ensures var (y', index') := Effect(y, free, CallOf(x.pc), index, result);
      ReplicaInv(AfterSuccess(x, y.holds, y', index), y', index')
  {
  }

  /** A call that succeeds keeps what its replica knows about its session and the index. */
  lemma SuccessKeepsReplicaInv(x: Replica, y: Session, free: bool, index: Index, result: Index)
    requires InCall(x.pc) && ReplicaInv(x, y, index) && SessionInv(y, index) && y.open
    requires PossibleResult(CallOf(x.pc), result)
    ensures var (y', index') := Effect(y, free, CallOf(x.pc), index, result);
      ReplicaInv(AfterSuccess(x, y.holds, y', index), y', index')
  {
    if x.pc.Locking? {
      LockCallKeepsReplicaInv(x, y, free, index, result);
    } else if x.pc.SettingLock? || x.pc.SettingStatement? {
      SettingKeepsReplicaInv(x, y, free, index, result);
    } else if x.pc.FirstRead? || x.pc.SecondRead? {
      ReadKeepsReplicaInv(x, y, free, index, result);
    } else if x.pc.Dropping? || x.pc.Creating? {
      DdlKeepsReplicaInv(x, y, free, index, result);
    } else {
      CleanupCallKeepsReplicaInv(x, y, free, index, result);
    }
  }

  /** The error path remembers nothing but that it must clean up. */
  lemma ErrorKeepsReplicaInv(x: Replica, y: Session, y': Session, before: Index, after: Index)
    requires InCall(x.pc) && ReplicaInv(x, y, before)
    requires y'.open ==> y.open && (y.holds && !x.pc.Unlocking? ==> y'.holds)
    requires x.pc.Locking? || !y'.open || y.holds == y'.holds || x.pc.Unlocking?
    ensures ReplicaInv(AfterError(x), y', after)
  {
  }

  lemma SuccessKeepsInv(s: System, r: nat, result: Index)
    requires Inv(s) && Enabled(s, Do(r, Succeeds, result))
    ensures Inv(DoCall(s, r, Succeeds, result))
  {
    var x := s.replicas[r];
    var y := s.sessions[x.session];
    var (y', index') := Effect(y, LockFree(s), CallOf(x.pc), s.index, result);
    SuccessKeepsSession(x, y, LockFree(s), s.index, result);
    SuccessKeepsReplicaInv(x, y, LockFree(s), s.index, result);
    AfterSuccessStays(x, y.holds, y', s.index);
    ReplicaStepKeepsInv(s, r, AfterSuccess(x, y.holds, y', s.index), y', index');
  }

  lemma AfterSuccessStays(x: Replica, held: bool, now: Session, index: Index)
    requires InCall(x.pc)
    ensures Active(AfterSuccess(x, held, now, index)) && AfterSuccess(x, held, now, index).session == x.session
    ensures Active(AfterError(x)) && AfterError(x).session == x.session
  {
  }

  lemma DoneErrorKeepsInv(s: System, r: nat, result: Index)
    requires Inv(s) && Enabled(s, Do(r, FailsDone, result))
    ensures Inv(DoCall(s, r, FailsDone, result))
  {
    var x := s.replicas[r];
    var y := s.sessions[x.session];
    var (y', index') := Effect(y, LockFree(s), CallOf(x.pc), s.index, result);
    SuccessKeepsSession(x, y, LockFree(s), s.index, result);
    SuccessKeepsReplicaInv(x, y, LockFree(s), s.index, result);
    EffectKeepsLock(x.pc, y, LockFree(s), s.index, result);
    ErrorKeepsReplicaInv(x, y, y', s.index, index');
    AfterSuccessStays(x, y.holds, y', s.index);
    ReplicaStepKeepsInv(s, r, AfterError(x), y', index');
  }

  lemma EffectKeepsLock(pc: Pc, y: Session, free: bool, index: Index, result: Index)
    requires InCall(pc)
    ensures var (y', _) := Effect(y, free, CallOf(pc), index, result);
      y'.open == y.open && (pc.Locking? || pc.Unlocking? || y'.holds == y.holds)
  {
  }

  /** A failed call that the server has not performed, on the session it left behind. */
  lemma LostCallKeepsInv(s: System, r: nat, y': Session)
    requires Inv(s) && r in s.replicas && InCall(s.replicas[r].pc)
    requires var y := s.sessions[s.replicas[r].session];
      || y' == y
      || y' == y.(open := false)
      || (y.open && y' == y.(open := false, pending := Some(CallOf(s.replicas[r].pc))))
    ensures var x := s.replicas[r];
      Inv(System(s.replicas[r := AfterError(x)], s.sessions[x.session := y'], s.pool, s.index))
  {
    var x := s.replicas[r];
    var y := s.sessions[x.session];
    assert ReplicaInv(x, y, s.index) && SessionInv(y, s.index);
    ErrorKeepsReplicaInv(x, y, y', s.index, s.index);
    ReplicaStepKeepsInv(s, r, AfterError(x), y', s.index);
  }

  lemma DoKeepsInv(s: System, r: nat, outcome: Outcome, result: Index)
    requires Inv(s) && Enabled(s, Do(r, outcome, result))
    ensures Inv(DoCall(s, r, outcome, result))
  {
    var y := s.sessions[s.replicas[r].session];
    match outcome
    case Succeeds => SuccessKeepsInv(s, r, result);
    case FailsUndone =>
      LostCallKeepsInv(s, r, y);
      assert s.sessions[s.replicas[r].session := y] == s.sessions;
    case FailsDone => DoneErrorKeepsInv(s, r, result);
    case FailsBroken => LostCallKeepsInv(s, r, y.(open := false));
    case FailsDetached => LostCallKeepsInv(s, r, y.(open := false, pending := Some(CallOf(s.replicas[r].pc))));
  }

  lemma PendingKeepsInv(s: System, i: nat, result: Index)
    requires Inv(s) && Enabled(s, PerformPending(i, result))
    ensures Inv(Next(s, PerformPending(i, result)))
  {
    var y := s.sessions[i];
    assert SessionInv(y, s.index);
    var (y', index') := Effect(y.(pending := None), LockFree(s), y.pending.value, s.index, result);
    EffectMoves(y.(pending := None), LockFree(s), y.pending.value, s.index, result);
    forall q | q in s.replicas && Active(s.replicas[q]) && s.replicas[q].session == i
      ensures ReplicaInv(s.replicas[q], y', index')
    {
      assert ReplicaInv(s.replicas[q], y, s.index);
    }
    ServerStepKeepsInv(s, i, y', index');
  }

  lemma EndKeepsInv(s: System, i: nat)
    requires Inv(s) && Enabled(s, EndSession(i))
    ensures Inv(Next(s, EndSession(i)))
  {
    var y' := s.sessions[i].(open := false, holds := false, pending := None);
    forall q | q in s.replicas && Active(s.replicas[q]) && s.replicas[q].session == i
      ensures ReplicaInv(s.replicas[q], y', s.index)
    {
      assert ReplicaInv(s.replicas[q], s.sessions[i], s.index);
    }
    ServerStepKeepsInv(s, i, y', s.index);
  }

  /** A replica that returns leaves its session behind. */
  lemma ReturnKeepsInv(s: System, r: nat, pool': set<nat>)
    requires Inv(s) && r in s.replicas && Active(s.replicas[r])
    requires var x := s.replicas[r];
      && (pool' == s.pool || (pool' == s.pool + {x.session} && Clean(s.sessions[x.session])))
      && (x.failed || x.unclean || Good(s.index))
    ensures Inv(System(s.replicas[r := s.replicas[r].(pc := Returned)], s.sessions, pool', s.index))
  {
    var s' := System(s.replicas[r := s.replicas[r].(pc := Returned)], s.sessions, pool', s.index);
    forall q | q in s'.replicas && Active(s'.replicas[q])
      ensures s'.replicas[q].session !in pool'
    {
      assert q != r && s.replicas[q].session != s.replicas[r].session;
    }
  }

  lemma CloseKeepsInv(s: System, r: nat)
    requires Inv(s) && Enabled(s, Close(r))
    ensures Inv(Next(s, Close(r)))
  {
    var x := s.replicas[r];
    var y := s.sessions[x.session];
    assert ReplicaInv(x, y, s.index) && SessionInv(y, s.index);
    if x.unclean {
      var y' := y.(open := false);
      ReplicaStepKeepsInv(s, r, x, y', s.index);
      assert s.replicas[r := x] == s.replicas;
      ReturnKeepsInv(SetSession(s, x.session, y'), r, s.pool);
    } else {
      ReturnKeepsInv(s, r, s.pool + {x.session});
    }
  }

  lemma ConnectKeepsInv(s: System, r: nat, i: nat)
    requires Inv(s) && Enabled(s, Connect(r, i))
    ensures Inv(Next(s, Connect(r, i)))
  {
    var s' := Next(s, Connect(r, i));
    forall q | q in s'.replicas && Active(s'.replicas[q]) && q != r
      ensures s'.replicas[q].session != i
    {
    }
  }

  lemma NextKeepsInv(s: System, step: Step)
    requires Inv(s) && Enabled(s, step)
    ensures Inv(Next(s, step))
  {
    match step
    case Connect(r, i) => ConnectKeepsInv(s, r, i);
    case ConnectFails(r) =>
    case Do(r, outcome, result) => DoKeepsInv(s, r, outcome, result);
    case Expire(r) =>
      var x := s.replicas[r];
      assert s.sessions[x.session := s.sessions[x.session]] == s.sessions;
      ReplicaStepKeepsInv(s, r, Fail(x), s.sessions[x.session], s.index);
    case Close(r) => CloseKeepsInv(s, r);
    case Restart(r) =>
    case PerformPending(i, result) => PendingKeepsInv(s, i, result);
    case EndSession(i) => EndKeepsInv(s, i);
  }

  // ----- over every run

  /** The states of a run: each enabled step leads to the next one. */
  predicate IsRun(states: seq<System>, steps: seq<Step>) {
    && |states| == |steps| + 1
    && Initial(states[0])
    && forall k | 0 <= k < |steps| :: Enabled(states[k], steps[k]) && states[k + 1] == Next(states[k], steps[k])
  }

  lemma {:induction false} EveryStateKeepsInv(states: seq<System>, steps: seq<Step>, k: nat)
    requires IsRun(states, steps) && k < |states|
    ensures Inv(states[k])
  {
    if k > 0 {
      EveryStateKeepsInv(states, steps, k - 1);
      NextKeepsInv(states[k - 1], steps[k - 1]);
    }
  }

  /** Every DROP and every CREATE runs on the one session that holds the advisory lock. */
  lemma DdlIsSerialized(states: seq<System>, steps: seq<Step>, k: nat)
    requires IsRun(states, steps) && k < |steps|
    requires states[k + 1].index != states[k].index
    ensures DdlSession(states[k], steps[k]).Some?
    ensures var i := DdlSession(states[k], steps[k]).value;
      && i in states[k].sessions && states[k].sessions[i].holds
      && forall j | j in states[k].sessions && states[k].sessions[j].holds :: j == i
  {
    EveryStateKeepsInv(states, steps, k);
    DdlUnderLock(states[k], steps[k]);
  }

  /** A good index is never taken away, by any replica, under any failures. */
  lemma {:induction false} GoodIndexSurvives(states: seq<System>, steps: seq<Step>, j: nat, k: nat)
    requires IsRun(states, steps) && j <= k < |states|
    requires Good(states[j].index)
    ensures states[k].index == states[j].index
    decreases k - j
  {
    if j < k {
      GoodIndexSurvives(states, steps, j, k - 1);
      EveryStateKeepsInv(states, steps, k - 1);
      GoodStaysGood(states[k - 1], steps[k - 1]);
    }
  }

  /** A replica that returned nil leaves a good index behind, then and ever after. */
  lemma NilMeansGood(states: seq<System>, steps: seq<Step>, j: nat, k: nat, r: nat)
    requires IsRun(states, steps) && j <= k < |states|
    requires r in states[j].replicas
    requires var x := states[j].replicas[r]; x.pc.Returned? && !x.failed && !x.unclean
    ensures Good(states[k].index)
  {
    EveryStateKeepsInv(states, steps, j);
    GoodIndexSurvives(states, steps, j, k);
  }

  /** Every pooled connection holds no lock, has default timeouts and nothing in flight. */
  lemma PoolIsClean(states: seq<System>, steps: seq<Step>, k: nat, i: nat)
    requires IsRun(states, steps) && k < |states| && i in states[k].pool
    ensures i in states[k].sessions && Clean(states[k].sessions[i])
  {
    EveryStateKeepsInv(states, steps, k);
  }

  /** The cleanup never finds that a confirmed lock was not held. */
  lemma ConfirmedLockIsHeld(states: seq<System>, steps: seq<Step>, k: nat, r: nat, result: Index)
    requires IsRun(states, steps) && k < |states|
    requires Enabled(states[k], Do(r, Succeeds, result))
    requires states[k].replicas[r].pc.Unlocking? && states[k].replicas[r].confirmed
    ensures states[k].sessions[states[k].replicas[r].session].holds
    ensures !Next(states[k], Do(r, Succeeds, result)).replicas[r].unclean
  {
    EveryStateKeepsInv(states, steps, k);
    var x := states[k].replicas[r];
    assert ReplicaInv(x, states[k].sessions[x.session], states[k].index);
  }

  // ----- a run spelled out

  /** Replica 0 on session 0, alone with the database. */
  datatype Solo = Solo(x: Replica, y: Session, index: Index)

  function Alone(a: Solo): System {
    System(map[0 := a.x], map[0 := a.y], {}, a.index)
  }

  predicate Callable(a: Solo, result: Index) {
    InCall(a.x.pc) && a.x.session == 0 && a.y.open && PossibleResult(CallOf(a.x.pc), result)
  }

  /** Its next call succeeds. */
  function Called(a: Solo, result: Index): Solo
    requires Callable(a, result)
  {
    var (y', index') := Effect(a.y, !a.y.holds, CallOf(a.x.pc), a.index, result);
    Solo(AfterSuccess(a.x, a.y.holds, y', a.index), y', index')
  }

  /** Each next one is the one before after a successful call. */
  predicate Path(path: seq<Solo>, results: seq<Index>) {
    && |path| == |results| + 1
    && forall i | 0 <= i < |results| :: Callable(path[i], results[i]) && path[i + 1] == Called(path[i], results[i])
  }

  lemma CallIsStep(a: Solo, result: Index)
    requires Callable(a, result)
    ensures Enabled(Alone(a), Do(0, Succeeds, result))
    ensures Next(Alone(a), Do(0, Succeeds, result)) == Alone(Called(a, result))
  {
    var s := Alone(a);
    assert 0 in s.sessions && s.sessions[0] == a.y;
    assert LockFree(s) <==> !a.y.holds by {
      if a.y.holds {
        assert s.sessions[0].holds;
      }
    }
  }

  lemma Extend(states: seq<System>, steps: seq<Step>, step: Step, s: System)
    returns (states': seq<System>, steps': seq<Step>)
    requires IsRun(states, steps) && Enabled(states[|states| - 1], step) && s == Next(states[|states| - 1], step)
    ensures IsRun(states', steps') && states'[0] == states[0] && states'[|states'| - 1] == s
  {
    states', steps' := states + [s], steps + [step];
  }

  lemma {:induction false} Follow(states: seq<System>, steps: seq<Step>, path: seq<Solo>, results: seq<Index>, i: nat)
    returns (states': seq<System>, steps': seq<Step>)
    requires IsRun(states, steps) && Path(path, results) && i <= |results|
    requires states[|states| - 1] == Alone(path[0])
    ensures IsRun(states', steps') && states'[0] == states[0] && states'[|states'| - 1] == Alone(path[i])
  {
    if i == 0 {
      states', steps' := states, steps;
    } else {
      states', steps' := Follow(states, steps, path, results, i - 1);
      CallIsStep(path[i - 1], results[i - 1]);
      states', steps' := Extend(states', steps', Do(0, Succeeds, results[i - 1]), Alone(path[i]));
    }
  }

  const BUILT := Index(true, true, true, true)

  function OnPath(pc: Pc, y: Session, index: Index, lastRead: Index): Solo {
    Solo(Replica(pc, 0, !pc.Locking?, false, false, lastRead), y, index)
  }

  /** The successful build: lock, settings, a read that finds nothing, the build, a second read, the cleanup. */
  function BuildPath(): seq<Solo> {
    var busy, none := Session(true, true, true, true, None), NO_INDEX;
    [ OnPath(Locking, FRESH, none, none),
      OnPath(SettingLock, FRESH.(holds := true), none, none),
      OnPath(SettingStatement, FRESH.(holds := true, lockTimeoutSet := true), none, none),
      OnPath(FirstRead, busy, none, none),
      OnPath(Creating, busy, none, none),
      OnPath(SecondRead, busy, BUILT, none),
      OnPath(Unlocking, busy, BUILT, BUILT),
      OnPath(ResettingLock, busy.(holds := false), BUILT, BUILT),
      OnPath(ResettingStatement, busy.(holds := false, lockTimeoutSet := false), BUILT, BUILT),
      OnPath(Closing, FRESH, BUILT, BUILT) ]
  }

  lemma BuildPathIsPath()
    ensures Path(BuildPath(), seq(9, _ => BUILT))
  {
  }

  /** From an empty catalogue one replica builds the index, returns nil and gives its connection back. */
  lemma BuildFromNothing() returns (states: seq<System>, steps: seq<Step>)
    ensures IsRun(states, steps) && !states[0].index.present
    ensures var s := states[|states| - 1];
      && 0 in s.replicas && s.replicas[0].pc.Returned? && !s.replicas[0].failed && !s.replicas[0].unclean
      && Good(s.index) && s.pool == {0}
  {
    var start := System(map[0 := Replica(Begin, 0, false, false, false, NO_INDEX)], map[], {}, NO_INDEX);
    states, steps := [start], [];
    states, steps := Extend(states, steps, Connect(0, 0), Alone(BuildPath()[0]));
    BuildPathIsPath();
    states, steps := Follow(states, steps, BuildPath(), seq(9, _ => BUILT), 9);
    var closing := BuildPath()[9];
    states, steps := Extend(states, steps, Close(0), Alone(closing.(x := closing.x.(pc := Returned))).(pool := {0}));
  }
}
