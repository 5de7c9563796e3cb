/**
The inner evidence automaton of the implementation sandbox and the execution verifier that
reads its outcome table.
*/
module OracleEvidence {
  import opened Wrappers
  import opened Sequences

  datatype Action = Start | Run | Pass | Fail | Output | Skip | OtherAction

  /** `Alien` is a row that is no object or names another package; a missing test is "". */
  datatype Event = Alien | Inner(action: Action, test: string)

  predicate IsResult(a: Action) {
    a.Pass? || a.Fail?
  }

  function ActionOf(passed: bool): Action {
    if passed then Pass else Fail
  }

  // ----- the declarative language

  datatype Stage = Began | Ended(passed: bool)

  function StageOf(a: Action): Option<Stage> {
    match a
    case Run => Some(Began)
    case Pass => Some(Ended(true))
    case Fail => Some(Ended(false))
    case _ => None
  }

  /** What happened to one test during the first `i` events. */
  function LifeTo(events: seq<Event>, test: string, i: nat): seq<Stage>
    requires i <= |events|
  {
    if i == 0 then [] else
      var front := LifeTo(events, test, i - 1);
      var e := events[i - 1];
      if e.Inner? && e.test == test && StageOf(e.action).Some? then front + [StageOf(e.action).value] else front
  }

  function Life(events: seq<Event>, test: string): seq<Stage> {
    LifeTo(events, test, |events|)
  }

  /** Never run, or run once and then ended once. */
  predicate WholeLife(l: seq<Stage>) {
    l == [] || (|l| == 2 && l[0].Began? && l[1].Ended?)
  }

  predicate IsStart(e: Event) {
    e == Inner(Start, "")
  }

  predicate IsFinal(e: Event) {
    e.Inner? && e.test == "" && IsResult(e.action)
  }

  predicate IsBody(e: Event) {
    e.Inner? && (e.action.Output? || (e.test != "" && (e.action.Run? || IsResult(e.action))))
  }

  predicate SpeaksInTime(events: seq<Event>, k: nat)
    requires k < |events|
  {
    var e := events[k];
    e.Inner? && e.action.Output? && e.test != "" ==> LifeTo(events, e.test, k) == [Began]
  }

  ghost predicate InnerAccepted(events: seq<Event>, contract: string, expected: bool) {
    && |events| >= 2
    && IsStart(events[0])
    && events[|events| - 1] == Inner(ActionOf(expected), "")
    && (forall k | 0 < k < |events| - 1 :: IsBody(events[k]))
    && (forall k | 0 <= k < |events| :: SpeaksInTime(events, k))
    && (forall test | test != "" :: WholeLife(Life(events, test)))
    && Life(events, contract) == [Began, Ended(expected)]
  }

  // ----- the automaton

  datatype State = State(started: bool, finished: bool, running: set<string>, outcomes: map<string, bool>)

  function Consume(s: State, e: Event, contract: string, expected: bool): Option<State> {
    if e.Alien? || s.finished then None
    else if e.action.Start? && e.test == "" then
      if s.started then None else Some(s.(started := true))
    else if !s.started then None
    else if e.action.Run? && e.test != "" then
      if e.test in s.running || e.test in s.outcomes then None else Some(s.(running := s.running + {e.test}))
    else if IsResult(e.action) && e.test != "" then
      if e.test !in s.running then None
      else Some(s.(running := s.running - {e.test}, outcomes := s.outcomes[e.test := e.action.Pass?]))
    else if IsResult(e.action) then
      if s.running != {} || e.action != ActionOf(expected)
         || contract !in s.outcomes || s.outcomes[contract] != expected
      then None
      else Some(s.(finished := true))
    else if e.action.Output? then
      if e.test != "" && e.test !in s.running then None else Some(s)
    else None
  }

  predicate LifeTracked(s: State, test: string, l: seq<Stage>) {
    if test in s.running then test !in s.outcomes && l == [Began]
    else if test in s.outcomes then l == [Began, Ended(s.outcomes[test])]
    else l == []
  }

  ghost predicate Tracked(s: State, events: seq<Event>, i: nat, contract: string, expected: bool)
    requires i <= |events|
  {
    && (s.started <==> i > 0)
    && (i > 0 ==> IsStart(events[0]))
    && (s.finished <==> i > 1 && IsFinal(events[i - 1]))
    && (forall k | 0 < k < i && (k < i - 1 || !s.finished) :: IsBody(events[k]))
    && (forall k | 0 <= k < i :: SpeaksInTime(events, k))
    && (forall test | test != "" :: LifeTracked(s, test, LifeTo(events, test, i)))
    && "" !in s.running && "" !in s.outcomes
    && (s.finished ==>
          && events[i - 1] == Inner(ActionOf(expected), "") && s.running == {}
          && contract in s.outcomes && s.outcomes[contract] == expected)
  }

  lemma LifeStep(s: State, events: seq<Event>, i: nat, contract: string, expected: bool, test: string)
    requires i < |events| && test != ""
    requires LifeTracked(s, test, LifeTo(events, test, i))
    requires Consume(s, events[i], contract, expected).Some?
    ensures LifeTracked(Consume(s, events[i], contract, expected).value, test, LifeTo(events, test, i + 1))
  {
  }

  lemma StepTracks(s: State, events: seq<Event>, i: nat, contract: string, expected: bool)
    requires i < |events| && Tracked(s, events, i, contract, expected)
    requires Consume(s, events[i], contract, expected).Some?
    ensures Tracked(Consume(s, events[i], contract, expected).value, events, i + 1, contract, expected)
  {
    var s', n := Consume(s, events[i], contract, expected).value, i + 1;
    forall test | test != ""
      ensures LifeTracked(s', test, LifeTo(events, test, n))
    {
      LifeStep(s, events, i, contract, expected, test);
    }
    if events[i].test != "" {
      assert LifeTracked(s, events[i].test, LifeTo(events, events[i].test, i));
    }
  }

  lemma {:induction false} LifePrefix(events: seq<Event>, test: string, i: nat, j: nat)
    requires i <= j <= |events|
    ensures LifeTo(events, test, i) <= LifeTo(events, test, j)
  {
    if i < j {
      LifePrefix(events, test, i, j - 1);
    }
  }

  /** An event is refused only when the whole list is outside the language. */
  lemma RefusalIsRight(s: State, events: seq<Event>, i: nat, contract: string, expected: bool)
    requires i < |events| && Tracked(s, events, i, contract, expected)
    requires Consume(s, events[i], contract, expected).None?
    requires contract != ""
    ensures !InnerAccepted(events, contract, expected)
  {
    if InnerAccepted(events, contract, expected) {
      var e, last := events[i], |events| - 1;
      assert i > 0;
      assert i == 1 || IsBody(events[i - 1]);
      assert !s.finished;
      if i == last {
        FinalIsTaken(s, events, contract, expected);
      } else {
        assert IsBody(e);
        BodyIsTaken(s, events, i, contract, expected);
      }
    }
  }

  lemma FinalIsTaken(s: State, events: seq<Event>, contract: string, expected: bool)
    requires InnerAccepted(events, contract, expected) && contract != ""
    requires Tracked(s, events, |events| - 1, contract, expected) && !s.finished
    ensures Consume(s, events[|events| - 1], contract, expected).Some?
  {
    var i := |events| - 1;
    forall test | test != ""
      ensures test !in s.running
    {
      assert LifeTracked(s, test, LifeTo(events, test, i));
      assert WholeLife(Life(events, test));
    }
    assert LifeTracked(s, contract, LifeTo(events, contract, i));
  }

  lemma BodyIsTaken(s: State, events: seq<Event>, i: nat, contract: string, expected: bool)
    requires InnerAccepted(events, contract, expected)
    requires 0 < i < |events| - 1 && Tracked(s, events, i, contract, expected) && !s.finished
    ensures Consume(s, events[i], contract, expected).Some?
  {
    var e := events[i];
    assert IsBody(e) && SpeaksInTime(events, i);
    if e.test != "" {
      assert LifeTracked(s, e.test, LifeTo(events, e.test, i));
      assert WholeLife(Life(events, e.test));
      LifePrefix(events, e.test, i + 1, |events|);
    }
  }

  method VerifyInner(events: seq<Event>, contract: string, expected: bool) returns (ok: bool)
    requires contract != ""
    ensures ok <==> InnerAccepted(events, contract, expected)
  {
    var s := State(false, false, {}, map[]);
    for i := 0 to |events|
      invariant Tracked(s, events, i, contract, expected)
    {
      var next := Consume(s, events[i], contract, expected);
      if next.None? {
        RefusalIsRight(s, events, i, contract, expected);
        return false;
      }
      StepTracks(s, events, i, contract, expected);
      s := next.value;
    }
    FinishedMeansAccepted(s, events, contract, expected);
    return s.finished;
  }

  lemma FinishedMeansAccepted(s: State, events: seq<Event>, contract: string, expected: bool)
    requires Tracked(s, events, |events|, contract, expected) && contract != ""
    ensures s.finished <==> InnerAccepted(events, contract, expected)
  {
    if s.finished {
      forall test | test != ""
        ensures WholeLife(Life(events, test))
      {
        assert LifeTracked(s, test, LifeTo(events, test, |events|));
      }
      assert LifeTracked(s, contract, LifeTo(events, contract, |events|));
    }
  }

  // ----- the execution verifier

  /** The oracle's contract test and its required subtests. */
  datatype Suite = Suite(contract: string, required: set<string>)

  predicate SuiteNames(suite: Suite) {
    suite.contract != "" && "" !in suite.required && suite.contract !in suite.required
  }

  /** The outcome table: a dictionary comprehension, in which a later result replaces an earlier one. */
  function OutcomesTo(events: seq<Event>, i: nat): map<string, bool>
    requires i <= |events|
  {
    if i == 0 then map[] else
      var e := events[i - 1];
      if e.Inner? && e.test != "" && IsResult(e.action)
      then OutcomesTo(events, i - 1)[e.test := e.action.Pass?]
      else OutcomesTo(events, i - 1)
  }

  function Outcomes(events: seq<Event>): map<string, bool> {
    OutcomesTo(events, |events|)
  }

  function Failures(outcomes: map<string, bool>, suite: Suite): set<string> {
    set name | name in suite.required && name in outcomes && !outcomes[name]
  }

  /** The table holds a test's result exactly when the test has one. */
  predicate TableAgrees(outcomes: map<string, bool>, test: string, l: seq<Stage>) {
    if test in outcomes then Ended(outcomes[test]) in l else Ended(true) !in l && Ended(false) !in l
  }

  lemma {:induction false} TableFollowsLife(events: seq<Event>, test: string, i: nat)
    requires i <= |events| && test != ""
    ensures TableAgrees(OutcomesTo(events, i), test, LifeTo(events, test, i))
  {
    if i > 0 {
      TableFollowsLife(events, test, i - 1);
      var front, l := LifeTo(events, test, i - 1), LifeTo(events, test, i);
      assert forall x | x in front :: x in l;
    }
  }

  /** In accepted evidence the last result is the only one, so the table loses nothing. */
  lemma OutcomeIsLife(events: seq<Event>, contract: string, expected: bool, test: string)
    requires InnerAccepted(events, contract, expected) && test != ""
    ensures test in Outcomes(events) <==> Life(events, test) != []
    ensures test in Outcomes(events) ==> Life(events, test) == [Began, Ended(Outcomes(events)[test])]
  {
    TableFollowsLife(events, test, |events|);
    assert WholeLife(Life(events, test));
  }

  /** The checks of the verifier, on its own table. */
  ghost predicate TableAccepted(events: seq<Event>, exitCode: int, suite: Suite) {
    var outcomes := Outcomes(events);
    && (exitCode == 0 || exitCode == 1)
    && InnerAccepted(events, suite.contract, exitCode == 0)
    && outcomes.Keys <= suite.required + {suite.contract}
    && (exitCode == 0 ==> outcomes.Keys == suite.required + {suite.contract})
    && (Failures(outcomes, suite) != {} <==> exitCode != 0)
  }

  /**
  Execution evidence as a trace: whole inner evidence that runs only cases of the suite, in which
  every required case passed under exit code 0 and some required case failed under exit code 1.
  */
  ghost predicate ExecutionAccepted(events: seq<Event>, exitCode: int, suite: Suite) {
    && (exitCode == 0 || exitCode == 1)
    && InnerAccepted(events, suite.contract, exitCode == 0)
    && (forall test | test != "" && Life(events, test) != [] :: test in suite.required || test == suite.contract)
    && (exitCode == 0 ==> forall name | name in suite.required :: Life(events, name) == [Began, Ended(true)])
    && (exitCode == 1 ==> exists name :: name in suite.required && Life(events, name) == [Began, Ended(false)])
  }

  /** The lives of all tests, read off the table of accepted inner evidence. */
  ghost predicate TableIsLives(events: seq<Event>) {
    forall test | test != "" ::
      && (test in Outcomes(events) <==> Life(events, test) != [])
      && (test in Outcomes(events) ==> Life(events, test) == [Began, Ended(Outcomes(events)[test])])
  }

  lemma InnerTableIsLives(events: seq<Event>, contract: string, expected: bool)
    requires InnerAccepted(events, contract, expected)
    ensures TableIsLives(events) && "" !in Outcomes(events)
  {
    forall test | test != ""
      ensures test in Outcomes(events) <==> Life(events, test) != []
      ensures test in Outcomes(events) ==> Life(events, test) == [Began, Ended(Outcomes(events)[test])]
    {
      OutcomeIsLife(events, contract, expected, test);
    }
    NamelessIsNoTest(events, |events|);
  }

  lemma {:induction false} NamelessIsNoTest(events: seq<Event>, i: nat)
    requires i <= |events|
    ensures "" !in OutcomesTo(events, i)
  {
    if i > 0 {
      NamelessIsNoTest(events, i - 1);
    }
  }

  lemma TraceIsTabled(events: seq<Event>, exitCode: int, suite: Suite)
    requires SuiteNames(suite) && TableIsLives(events) && "" !in Outcomes(events)
    requires ExecutionAccepted(events, exitCode, suite)
    ensures TableAccepted(events, exitCode, suite)
  {
    var outcomes := Outcomes(events);
    assert suite.contract in outcomes;
    if exitCode == 0 {
      forall name | name in suite.required
        ensures name in outcomes && outcomes[name]
      {
        assert Life(events, name) == [Began, Ended(true)];
      }
    } else {
      var name :| name in suite.required && Life(events, name) == [Began, Ended(false)];
      assert name in Failures(outcomes, suite);
    }
  }

  lemma TableIsTraced(events: seq<Event>, exitCode: int, suite: Suite)
    requires SuiteNames(suite) && TableIsLives(events) && TableAccepted(events, exitCode, suite)
    ensures ExecutionAccepted(events, exitCode, suite)
  {
    var outcomes := Outcomes(events);
    if exitCode == 0 {
      forall name | name in suite.required
        ensures Life(events, name) == [Began, Ended(true)]
      {
        assert name in outcomes && name !in Failures(outcomes, suite);
      }
    } else {
      var name :| name in Failures(outcomes, suite);
      assert Life(events, name) == [Began, Ended(false)];
    }
  }

  /** The checks on the table accept exactly the declarative traces. */
  lemma TableMeansTrace(events: seq<Event>, exitCode: int, suite: Suite)
    requires SuiteNames(suite)
    ensures TableAccepted(events, exitCode, suite) <==> ExecutionAccepted(events, exitCode, suite)
  {
    if InnerAccepted(events, suite.contract, exitCode == 0) {
      InnerTableIsLives(events, suite.contract, exitCode == 0);
      if ExecutionAccepted(events, exitCode, suite) {
        TraceIsTabled(events, exitCode, suite);
      } else if TableAccepted(events, exitCode, suite) {
        TableIsTraced(events, exitCode, suite);
      }
    }
  }

  method VerifyExecution(events: seq<Event>, exitCode: int, suite: Suite) returns (ok: bool)
    requires SuiteNames(suite)
    ensures ok <==> ExecutionAccepted(events, exitCode, suite)
  {
    TableMeansTrace(events, exitCode, suite);
    if exitCode != 0 && exitCode != 1 {
      return false;
    }
    var inner := VerifyInner(events, suite.contract, exitCode == 0);
    if !inner {
      return false;
    }
    var outcomes := Outcomes(events);
    if !(outcomes.Keys <= suite.required + {suite.contract}) {
      return false;
    }
    if exitCode == 0 && outcomes.Keys != suite.required + {suite.contract} {
      return false;
    }
    return (Failures(outcomes, suite) != {}) == (exitCode != 0);
  }

  /** The exit code of accepted execution evidence is 0 exactly when every subtest ran once and passed. */
  lemma ExitCodeMeansAllPassed(events: seq<Event>, exitCode: int, suite: Suite)
    requires SuiteNames(suite) && ExecutionAccepted(events, exitCode, suite)
    ensures exitCode == 0 <==> forall name | name in suite.required :: Life(events, name) == [Began, Ended(true)]
    ensures exitCode == 1 <==> exists name :: name in suite.required && Life(events, name) == [Began, Ended(false)]
    ensures forall test | test != "" && Life(events, test) != [] :: test in suite.required || test == suite.contract
  {
  }

  // ----- what the later checks of the sandbox verifier can still see

  function CountTo(events: seq<Event>, test: string, a: Action, i: nat): nat
    requires i <= |events|
  {
    if i == 0 then 0 else
      CountTo(events, test, a, i - 1) + if events[i - 1] == Inner(a, test) then 1 else 0
  }

  /** What an event adds to the life of a test. */
  function StagesIn(e: Event, test: string): Option<Stage> {
    if e.Inner? && e.test == test then StageOf(e.action) else None
  }

  lemma OneMoreStage(life: seq<Stage>, longer: seq<Stage>, e: Event, test: string, passed: bool)
    requires var added := StagesIn(e, test); longer == if added.Some? then life + [added.value] else life
    ensures multiset(longer)[Ended(passed)] ==
      multiset(life)[Ended(passed)] + if e == Inner(ActionOf(passed), test) then 1 else 0
  {
    if StagesIn(e, test).Some? {
      OccurrencesAppend(life, StagesIn(e, test).value, Ended(passed));
    }
  }

  lemma {:induction false} ResultsCountLife(events: seq<Event>, test: string, passed: bool, i: nat)
    requires i <= |events|
    ensures CountTo(events, test, ActionOf(passed), i) == multiset(LifeTo(events, test, i))[Ended(passed)]
  {
    if i == 0 {
      assert LifeTo(events, test, i) == [];
    } else {
      ResultsCountLife(events, test, passed, i - 1);
      OneMoreStage(LifeTo(events, test, i - 1), LifeTo(events, test, i), events[i - 1], test, passed);
    }
  }

  /** No accepted list holds a skip, and counting the passes of a test counts its one execution. */
  lemma LaterChecksLoseNothing(events: seq<Event>, contract: string, expected: bool, test: string)
    requires InnerAccepted(events, contract, expected) && test != ""
    ensures forall k | 0 <= k < |events| :: events[k].Inner? && !events[k].action.Skip?
    ensures CountTo(events, test, Pass, |events|) == if Life(events, test) == [Began, Ended(true)] then 1 else 0
    ensures CountTo(events, test, Fail, |events|) == if Life(events, test) == [Began, Ended(false)] then 1 else 0
  {
    forall k | 0 <= k < |events|
      ensures events[k].Inner? && !events[k].action.Skip?
    {
      assert k == 0 || k == |events| - 1 || IsBody(events[k]);
    }
    ResultsCountLife(events, test, true, |events|);
    ResultsCountLife(events, test, false, |events|);
    assert WholeLife(Life(events, test));
    WholeLifeCounts(Life(events, test), true);
    WholeLifeCounts(Life(events, test), false);
  }

  lemma WholeLifeCounts(l: seq<Stage>, passed: bool)
    requires WholeLife(l)
    ensures multiset(l)[Ended(passed)] == if l == [Began, Ended(passed)] then 1 else 0
  {
    if l != [] {
      assert l == [l[0], l[1]];
      assert multiset(l) == multiset{l[0], l[1]};
    }
  }
}
