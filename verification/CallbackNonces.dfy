/**
Signed agent callbacks on several replicas over one database: a request is looked up, verified,
stamped with the replica's clock, and dispatched only after a transaction has recorded its
nonce. Times are nanoseconds; the clock is shared and does not go back. The transaction holds
the instance's row lock and is one step here.
*/
module CallbackNonces {
  import opened Wrappers

  const SECOND := 1_000_000_000
  const RETENTION := 300 * SECOND
  const MAX_CLOCK_SKEW := 90 * SECOND

  /** A signed request; `signer` is the public key its signature checks under. */
  datatype Message = Message(instance: string, nonce: string, timestamp: int, body: string, signer: string)

  datatype Instance = Instance(active: bool, publicKey: string, lastSeen: Option<int>)

  type NonceKey = (string, string)

  /** The two tables: the enrolled instances and the nonces with their created_at. */
  datatype Tables = Tables(instances: map<string, Instance>, nonces: map<NonceKey, int>)

  predicate Verifies(m: Message, publicKey: string, now: int) {
    && m.signer == publicKey && m.timestamp > 0
    && now - MAX_CLOCK_SKEW <= m.timestamp * SECOND <= now + MAX_CLOCK_SKEW
  }

  // ----- the transaction

  datatype Refusal = NoSuchInstance | Replay

  function Transaction(t: Tables, m: Message, verifiedKey: string, now: int): Result<Tables, Refusal> {
    if m.instance !in t.instances then Err(NoSuchInstance) else
      var current := t.instances[m.instance];
      if !current.active || current.publicKey != verifiedKey then Err(NoSuchInstance)
      else if (m.instance, m.nonce) in t.nonces then Err(Replay)
      else
        var recorded := t.nonces[(m.instance, m.nonce) := now];
        Ok(Tables(
          t.instances[m.instance := current.(lastSeen := Some(now))],
          map k | k in recorded && recorded[k] >= now - RETENTION :: recorded[k]))
  }

  class Database {
    var tables: Tables

    method Admit(m: Message, verifiedKey: string, now: int) returns (refusal: Option<Refusal>)
      modifies this
      ensures match Transaction(old(tables), m, verifiedKey, now)
        case Ok(t) => refusal.None? && tables == t
        case Err(e) => refusal == Some(e) && tables == old(tables)
    {
      if m.instance !in tables.instances {
        return Some(NoSuchInstance);
      }
      var current := tables.instances[m.instance];
      if !current.active || current.publicKey != verifiedKey {
        return Some(NoSuchInstance);
      }
      if (m.instance, m.nonce) in tables.nonces {
        return Some(Replay);
      }
      tables := tables.(nonces := tables.nonces[(m.instance, m.nonce) := now]);
      tables := tables.(instances := tables.instances[m.instance := current.(lastSeen := Some(now))]);
      var oldest := now - RETENTION;
      tables := tables.(nonces := map k | k in tables.nonces && tables.nonces[k] >= oldest :: tables.nonces[k]);
      return None;
    }
  }

  // ----- replicas

  /** How far a request has come on its replica. */
  datatype Flight =
    | Received(m: Message)
    | Registered(m: Message, key: string)
    | Verified(m: Message, key: string, verifiedAt: int)
    | Stamped(m: Message, key: string, verifiedAt: int, now: int)
    | Ended

  datatype Dispatch = Dispatch(
    m: Message, key: string, verifiedAt: int, now: int, committedAt: int, instanceThen: Instance)

  datatype System = System(clock: int, tables: Tables, flights: map<nat, Flight>, dispatches: seq<Dispatch>)

  datatype Step =
    | Arrive(q: nat, m: Message)
    | Lookup(q: nat)
    | Check(q: nat)
    | Stamp(q: nat)
    | Commit(q: nat)
    | CommitUnseen(q: nat) // committed, but the replica saw an error and does not dispatch
    | Abort(q: nat) // rolled back
    | Tick(elapsed: nat)
    | Enroll(id: string, instance: Instance) // any change an operator makes to an instance

  predicate Enabled(s: System, step: Step) {
    match step
    case Arrive(q, m) => q !in s.flights
    case Lookup(q) => q in s.flights && s.flights[q].Received?
    case Check(q) => q in s.flights && s.flights[q].Registered?
    case Stamp(q) => q in s.flights && s.flights[q].Verified?
    case Commit(q) => q in s.flights && s.flights[q].Stamped?
    case CommitUnseen(q) => q in s.flights && s.flights[q].Stamped?
    case Abort(q) => q in s.flights && s.flights[q].Stamped?
    case Tick(_) => true
    case Enroll(_, _) => true
  }

  function Move(s: System, q: nat, f: Flight): System {
    s.(flights := s.flights[q := f])
  }

  function CommitStep(s: System, q: nat, seen: bool): System
    requires q in s.flights && s.flights[q].Stamped?
  {
    var f := s.flights[q];
    match Transaction(s.tables, f.m, f.key, f.now)
    case Err(_) => Move(s, q, Ended)
    case Ok(t) =>
      var d := Dispatch(f.m, f.key, f.verifiedAt, f.now, s.clock, s.tables.instances[f.m.instance]);
      System(s.clock, t, s.flights[q := Ended], if seen then s.dispatches + [d] else s.dispatches)
  }

  function Next(s: System, step: Step): System
    requires Enabled(s, step)
  {
    match step
    case Arrive(q, m) => Move(s, q, Received(m))
    case Lookup(q) =>
      var m := s.flights[q].m;
      if m.instance in s.tables.instances && s.tables.instances[m.instance].active
      then Move(s, q, Registered(m, s.tables.instances[m.instance].publicKey))
      else Move(s, q, Ended)
    case Check(q) =>
      var f := s.flights[q];
      if Verifies(f.m, f.key, s.clock) then Move(s, q, Verified(f.m, f.key, s.clock)) else Move(s, q, Ended)
    case Stamp(q) => var f := s.flights[q]; Move(s, q, Stamped(f.m, f.key, f.verifiedAt, s.clock))
    case Commit(q) => CommitStep(s, q, true)
    case CommitUnseen(q) => CommitStep(s, q, false)
    case Abort(q) => Move(s, q, Ended)
    case Tick(elapsed) => s.(clock := s.clock + elapsed)
    case Enroll(id, instance) => s.(tables := s.tables.(instances := s.tables.instances[id := instance]))
  }

  // ----- the inductive invariant

  predicate FlightInv(f: Flight, clock: int) {
    match f
    case Verified(m, key, verifiedAt) => verifiedAt <= clock && Verifies(m, key, verifiedAt)
    case Stamped(m, key, verifiedAt, now) => verifiedAt <= now <= clock && Verifies(m, key, verifiedAt)
    case _ => true
  }

  predicate DispatchInv(d: Dispatch) {
    && d.verifiedAt <= d.now <= d.committedAt
    && Verifies(d.m, d.key, d.verifiedAt)
    && d.instanceThen.active && d.instanceThen.publicKey == d.key
  }

  /** The dispatch is still guarded by its nonce row, or its retention is over. */
  predicate Guarded(d: Dispatch, s: System) {
    var k := (d.m.instance, d.m.nonce);
    s.clock > d.now + RETENTION || (k in s.tables.nonces && s.tables.nonces[k] == d.now)
  }

  predicate SameNonce(a: Dispatch, b: Dispatch) {
    a.m.instance == b.m.instance && a.m.nonce == b.m.nonce
  }

  predicate Inv(s: System) {
    && (forall q | q in s.flights :: FlightInv(s.flights[q], s.clock))
    && (forall i | 0 <= i < |s.dispatches| :: DispatchInv(s.dispatches[i]) && Guarded(s.dispatches[i], s))
    && (forall i, j | 0 <= i < j < |s.dispatches| && SameNonce(s.dispatches[i], s.dispatches[j]) ::
          s.dispatches[j].committedAt > s.dispatches[i].now + RETENTION)
  }

  predicate Initial(s: System) {
    s.tables.nonces == map[] && s.flights == map[] && s.dispatches == []
  }

  lemma CommitKeepsInv(s: System, q: nat, seen: bool)
    requires Inv(s) && q in s.flights && s.flights[q].Stamped?
    ensures Inv(CommitStep(s, q, seen))
  {
    var f, s' := s.flights[q], CommitStep(s, q, seen);
    assert FlightInv(f, s.clock);
    if Transaction(s.tables, f.m, f.key, f.now).Ok? {
      forall i | 0 <= i < |s.dispatches|
        ensures Guarded(s.dispatches[i], s')
      {
        assert Guarded(s.dispatches[i], s);
      }
    }
  }

  lemma NextKeepsInv(s: System, step: Step)
    requires Inv(s) && Enabled(s, step)
    ensures Inv(Next(s, step))
  {
    match step
    case Commit(q) => CommitKeepsInv(s, q, true);
    case CommitUnseen(q) => CommitKeepsInv(s, q, false);
    case _ =>
      var s' := Next(s, step);
      forall i | 0 <= i < |s.dispatches|
        ensures Guarded(s'.dispatches[i], s')
      {
        assert Guarded(s.dispatches[i], s);
      }
  }

  // ----- over every interleaving

  predicate IsRun(states: seq<System>, steps: seq<Step>) {
    && |states| == |steps| + 1
    && Initial(states[0])
    && forall k | 0 <= k < |steps| :: Enabled(states[k], steps[k]) && states[k + 1] == Next(states[k], steps[k])
  }

  lemma {:induction false} EveryStateKeepsInv(states: seq<System>, steps: seq<Step>, k: nat)
    requires IsRun(states, steps) && k < |states|
    ensures Inv(states[k])
  {
    if k > 0 {
      EveryStateKeepsInv(states, steps, k - 1);
      NextKeepsInv(states[k - 1], steps[k - 1]);
    }
  }

  /** A nonce is dispatched again only by a commit more than the retention after the first stamp. */
  lemma NonceReuseWaits(states: seq<System>, steps: seq<Step>, k: nat, i: nat, j: nat)
    requires IsRun(states, steps) && k < |states|
    requires i < j < |states[k].dispatches| && SameNonce(states[k].dispatches[i], states[k].dispatches[j])
    ensures states[k].dispatches[j].committedAt > states[k].dispatches[i].now + RETENTION
  {
    EveryStateKeepsInv(states, steps, k);
  }

  /**
  The same signed request reaches the handler twice only if the second copy spent more than the
  retention less twice the clock skew, two minutes, between its verification and its commit.
  */
  lemma ReplayNeedsAStall(states: seq<System>, steps: seq<Step>, k: nat, i: nat, j: nat)
    requires IsRun(states, steps) && k < |states|
    requires i < j < |states[k].dispatches| && states[k].dispatches[i].m == states[k].dispatches[j].m
    ensures states[k].dispatches[j].committedAt - states[k].dispatches[j].verifiedAt > 120 * SECOND
  {
    EveryStateKeepsInv(states, steps, k);
    NonceReuseWaits(states, steps, k, i, j);
    assert DispatchInv(states[k].dispatches[i]) && DispatchInv(states[k].dispatches[j]);
  }

  /** Every dispatch committed while its instance was active under the key that verified it. */
  lemma DispatchIsAuthentic(states: seq<System>, steps: seq<Step>, k: nat, i: nat)
    requires IsRun(states, steps) && k < |states| && i < |states[k].dispatches|
    ensures var d := states[k].dispatches[i];
      && d.instanceThen.active && d.instanceThen.publicKey == d.key == d.m.signer
      && d.verifiedAt <= d.now <= d.committedAt
      && d.verifiedAt - MAX_CLOCK_SKEW <= d.m.timestamp * SECOND <= d.verifiedAt + MAX_CLOCK_SKEW
  {
    EveryStateKeepsInv(states, steps, k);
    assert DispatchInv(states[k].dispatches[i]);
  }

  // ----- exactly when a nonce is dispatched again

  /** Step `c` commits a transaction that the tables let through, whether or not the replica sees it. */
  predicate Admits(states: seq<System>, steps: seq<Step>, c: nat)
    requires |states| == |steps| + 1
  {
    && c < |steps| && (steps[c].Commit? || steps[c].CommitUnseen?)
    && steps[c].q in states[c].flights && states[c].flights[steps[c].q].Stamped?
    && var f := states[c].flights[steps[c].q]; Transaction(states[c].tables, f.m, f.key, f.now).Ok?
  }

  function AdmittedKey(states: seq<System>, steps: seq<Step>, c: nat): NonceKey
    requires |states| == |steps| + 1 && Admits(states, steps, c)
  {
    var m := states[c].flights[steps[c].q].m; (m.instance, m.nonce)
  }

  function AdmittedStamp(states: seq<System>, steps: seq<Step>, c: nat): int
    requires |states| == |steps| + 1 && Admits(states, steps, c)
  {
    states[c].flights[steps[c].q].now
  }

  /** Step `j` admits some request, and its clean-up reaches the row that step `c` recorded. */
  predicate Sweeps(states: seq<System>, steps: seq<Step>, j: nat, c: nat)
    requires |states| == |steps| + 1 && Admits(states, steps, c)
  {
    Admits(states, steps, j) && AdmittedStamp(states, steps, j) > AdmittedStamp(states, steps, c) + RETENTION
  }

  /** Step `c` admitted the nonce before state `k`, and nothing since has swept its row. */
  predicate Unswept(states: seq<System>, steps: seq<Step>, c: nat, k: nat, key: NonceKey)
    requires |states| == |steps| + 1
  {
    && c < k && Admits(states, steps, c) && AdmittedKey(states, steps, c) == key
    && forall j | c < j < k :: !Sweeps(states, steps, j, c)
  }

  predicate HasRow(s: System, key: NonceKey, stamp: int) {
    key in s.tables.nonces && s.tables.nonces[key] == stamp
  }

  predicate RecordedBy(states: seq<System>, steps: seq<Step>, c: nat, k: nat, key: NonceKey, stamp: int)
    requires |states| == |steps| + 1
  {
    Unswept(states, steps, c, k, key) && AdmittedStamp(states, steps, c) == stamp
  }

  lemma UnsweptStep(states: seq<System>, steps: seq<Step>, c: nat, k: nat, key: NonceKey)
    requires |states| == |steps| + 1 && c < k
    ensures Unswept(states, steps, c, k + 1, key) <==>
      Unswept(states, steps, c, k, key) && !Sweeps(states, steps, k, c)
  {
  }

  /** What a step does to the nonce rows. */
  lemma RowStep(states: seq<System>, steps: seq<Step>, k: nat, key: NonceKey, stamp: int)
    requires IsRun(states, steps) && k < |steps|
    ensures !Admits(states, steps, k) ==> states[k + 1].tables.nonces == states[k].tables.nonces
    ensures Admits(states, steps, k) ==>
      && AdmittedKey(states, steps, k) !in states[k].tables.nonces
      && (HasRow(states[k + 1], key, stamp) <==>
            if key == AdmittedKey(states, steps, k) then stamp == AdmittedStamp(states, steps, k)
            else HasRow(states[k], key, stamp) && stamp + RETENTION >= AdmittedStamp(states, steps, k))
  {
    assert Enabled(states[k], steps[k]) && states[k + 1] == Next(states[k], steps[k]);
  }

  /** At every state of every run the rows are those of the admissions that nothing has swept. */
  lemma {:induction false} RowsAreUnsweptAdmissions(
      states: seq<System>, steps: seq<Step>, k: nat, key: NonceKey, stamp: int)
    requires IsRun(states, steps) && k <= |steps|
    ensures HasRow(states[k], key, stamp) <==> exists c :: RecordedBy(states, steps, c, k, key, stamp)
  {
    if k > 0 {
      var p := k - 1;
      RowsAreUnsweptAdmissions(states, steps, p, key, stamp);
      RowStep(states, steps, p, key, stamp);
      if HasRow(states[k], key, stamp) {
        RowWasRecorded(states, steps, p, k, key, stamp);
      }
      forall c | RecordedBy(states, steps, c, k, key, stamp)
        ensures HasRow(states[k], key, stamp)
      {
        RecordedRowStays(states, steps, c, p, k, key, stamp);
      }
    }
  }

  lemma RowWasRecorded(states: seq<System>, steps: seq<Step>, p: nat, k: nat, key: NonceKey, stamp: int)
    requires IsRun(states, steps) && k == p + 1 <= |steps| && HasRow(states[k], key, stamp)
    requires HasRow(states[p], key, stamp) ==> exists c :: RecordedBy(states, steps, c, p, key, stamp)
    ensures exists c :: RecordedBy(states, steps, c, k, key, stamp)
  {
    RowStep(states, steps, p, key, stamp);
    if Admits(states, steps, p) && AdmittedKey(states, steps, p) == key {
      assert RecordedBy(states, steps, p, k, key, stamp);
    } else {
      var c :| RecordedBy(states, steps, c, p, key, stamp);
      UnsweptStep(states, steps, c, p, key);
      assert RecordedBy(states, steps, c, k, key, stamp);
    }
  }

  lemma RecordedRowStays(states: seq<System>, steps: seq<Step>, c: nat, p: nat, k: nat, key: NonceKey, stamp: int)
    requires IsRun(states, steps) && k == p + 1 <= |steps| && RecordedBy(states, steps, c, k, key, stamp)
    requires RecordedBy(states, steps, c, p, key, stamp) ==> HasRow(states[p], key, stamp)
    ensures HasRow(states[k], key, stamp)
  {
    RowStep(states, steps, p, key, stamp);
    if c < p {
      UnsweptStep(states, steps, c, p, key);
      assert !Sweeps(states, steps, p, c);
    }
  }

  /** The enrolled instance is active under the key that verified the request. */
  predicate Authorised(s: System, f: Flight)
    requires f.Stamped?
  {
    f.m.instance in s.tables.instances
    && s.tables.instances[f.m.instance].active && s.tables.instances[f.m.instance].publicKey == f.key
  }

  /**
  Exactly when a request is dispatched, in any run: its instance is active under the verified key,
  and every earlier admission of its nonce has since been swept by a later stamp's clean-up.
  */
  lemma DispatchedExactly(states: seq<System>, steps: seq<Step>, k: nat)
    requires IsRun(states, steps) && k < |steps| && steps[k].Commit?
    ensures Enabled(states[k], steps[k])
    ensures var f := states[k].flights[steps[k].q];
      |states[k + 1].dispatches| == |states[k].dispatches| + 1 <==>
      Authorised(states[k], f) && forall c :: !Unswept(states, steps, c, k, (f.m.instance, f.m.nonce))
  {
    assert Enabled(states[k], steps[k]) && states[k + 1] == Next(states[k], steps[k]);
    var f := states[k].flights[steps[k].q];
    var key := (f.m.instance, f.m.nonce);
    if key in states[k].tables.nonces {
      RowsAreUnsweptAdmissions(states, steps, k, key, states[k].tables.nonces[key]);
    } else if c: nat :| Unswept(states, steps, c, k, key) {
      RowsAreUnsweptAdmissions(states, steps, k, key, AdmittedStamp(states, steps, c));
      assert RecordedBy(states, steps, c, k, key, AdmittedStamp(states, steps, c));
    }
  }

  /** A copy whose nonce was admitted once before is dispatched again exactly after a sweep of that row. */
  lemma ReplayIsDispatchedExactly(states: seq<System>, steps: seq<Step>, c: nat, k: nat)
    requires IsRun(states, steps) && c < k < |steps| && Admits(states, steps, c) && steps[k].Commit?
    requires Enabled(states[k], steps[k])
    requires var m := states[k].flights[steps[k].q].m; AdmittedKey(states, steps, c) == (m.instance, m.nonce)
    requires forall j | 0 <= j < k && Admits(states, steps, j) && j != c ::
      AdmittedKey(states, steps, j) != AdmittedKey(states, steps, c)
    ensures |states[k + 1].dispatches| == |states[k].dispatches| + 1 <==>
      && Authorised(states[k], states[k].flights[steps[k].q])
      && exists j :: c < j < k && Sweeps(states, steps, j, c)
  {
    DispatchedExactly(states, steps, k);
    var key := AdmittedKey(states, steps, c);
    assert Unswept(states, steps, c, k, key) <==> forall j | c < j < k :: !Sweeps(states, steps, j, c);
    assert forall j :: Unswept(states, steps, j, k, key) ==> j == c;
  }

  const TWICE := Message("a", "n", 190, "", "k")

  function Enrolled(lastSeen: Option<int>): Instance {
    Instance(true, "k", lastSeen)
  }

  /** One copy is dispatched at 100 seconds; the other is verified and stamped at 280, the end of the skew. */
  function OneCopyAhead(): System {
    var t := 100 * SECOND;
    System(280 * SECOND, Tables(map["a" := Enrolled(Some(t))], map[("a", "n") := t]),
      map[0 := Ended, 1 := Stamped(TWICE, "k", 280 * SECOND, 280 * SECOND)],
      [Dispatch(TWICE, "k", t, t, t, Enrolled(None))])
  }

  lemma OneCopyGetsAhead() returns (states: seq<System>, steps: seq<Step>)
    ensures IsRun(states, steps) && states[|states| - 1] == OneCopyAhead()
  {
    states, steps := [System(100 * SECOND, Tables(map["a" := Enrolled(None)], map[]), map[], [])], [];
    states, steps := Stamping(states, steps, 0, TWICE, "k");
    states, steps := Extended(states, steps, Commit(0));
    states, steps := Extended(states, steps, Tick(180 * SECOND));
    states, steps := Stamping(states, steps, 1, TWICE, "k");
  }

  /**
  Every stall of more than two minutes happens: the second copy commits `extra` nanoseconds after the
  retention of the first one, once another request of the instance has swept its row.
  */
  lemma StalledReplayHappens(extra: nat) returns (states: seq<System>, steps: seq<Step>)
    requires extra > 0
    ensures IsRun(states, steps)
    ensures var d := states[|states| - 1].dispatches;
      && |d| == 2 && d[0].m == d[1].m
      && d[1].committedAt - d[1].verifiedAt == 120 * SECOND + extra
  {
    var late := 400 * SECOND + extra;
    states, steps := OneCopyGetsAhead();
    states, steps := Extended(states, steps, Tick(120 * SECOND + extra));
    states, steps := Stamping(states, steps, 2, Message("a", "p", late / SECOND, "", "k"), "k");
    states, steps := Extended(states, steps, CommitUnseen(2));
    var swept := states[|states| - 1];
    assert ("a", "n") !in swept.tables.nonces && swept.dispatches == OneCopyAhead().dispatches;
    states, steps := Extended(states, steps, Commit(1));
  }

  lemma Extended(states: seq<System>, steps: seq<Step>, step: Step) returns (states': seq<System>, steps': seq<Step>)
    requires IsRun(states, steps) && Enabled(states[|states| - 1], step)
    ensures IsRun(states', steps') && states'[|states'| - 1] == Next(states[|states| - 1], step)
  {
    states', steps' := states + [Next(states[|states| - 1], step)], steps + [step];
  }

  /** A request that is looked up, verified and stamped at once. */
  lemma Stamping(states: seq<System>, steps: seq<Step>, q: nat, m: Message, key: string)
    returns (states': seq<System>, steps': seq<Step>)
    requires IsRun(states, steps)
    requires var s := states[|states| - 1];
      && q !in s.flights && m.instance in s.tables.instances && Verifies(m, key, s.clock)
      && s.tables.instances[m.instance].active && s.tables.instances[m.instance].publicKey == key
    ensures IsRun(states', steps')
    ensures var s := states[|states| - 1];
      states'[|states'| - 1] == s.(flights := s.flights[q := Stamped(m, key, s.clock, s.clock)])
  {
    states', steps' := Extended(states, steps, Arrive(q, m));
    states', steps' := Extended(states', steps', Lookup(q));
    states', steps' := Extended(states', steps', Check(q));
    states', steps' := Extended(states', steps', Stamp(q));
  }
}
