/**
The Go recogniser of `go test -json` execution evidence, its Python counterpart, and the
relation between the two.

Rows are already decoded; `Malformed` is a line whose decoding fails. An absent field is "".
*/
module TestEvidence {
  import opened Wrappers
  import opened Sequences

  datatype Action = Start | Run | Pause | Cont | Output | Pass | Skip | Fail | OtherAction

  datatype Row = Malformed | Event(action: Action, pkg: string, test: string)

  // ----- the traces the language is about

  datatype Symbol = Began | Passed | Skipped

  function SymbolOf(a: Action): Option<Symbol> {
    match a
    case Run => Some(Began)
    case Pass => Some(Passed)
    case Skip => Some(Skipped)
    case _ => None
  }

  predicate Concerns(r: Row, pkg: string, test: string) {
    r.Event? && r.pkg == pkg && r.test == test
  }

  /** The run and terminal events of one test of one package among the first `i` rows. */
  function TraceTo(rows: seq<Row>, pkg: string, test: string, i: nat): seq<Symbol>
    requires i <= |rows|
  {
    if i == 0 then [] else
      var front := TraceTo(rows, pkg, test, i - 1);
      if Concerns(rows[i - 1], pkg, test) && SymbolOf(rows[i - 1].action).Some?
      then front + [SymbolOf(rows[i - 1].action).value]
      else front
  }

  function Trace(rows: seq<Row>, pkg: string, test: string): seq<Symbol> {
    TraceTo(rows, pkg, test, |rows|)
  }

  /** Runs and results take turns, a run first. */
  predicate Alternates(t: seq<Symbol>) {
    forall i | 0 <= i < |t| :: t[i].Began? <==> i % 2 == 0
  }

  predicate Mentioned(rows: seq<Row>, pkg: string, test: string) {
    exists i :: 0 <= i < |rows| && Concerns(rows[i], pkg, test)
  }

  /** Exactly `repetitions` complete executions, skipped ones only if allowed. */
  predicate Complete(t: seq<Symbol>, repetitions: int, allowSkips: bool) {
    |t| == 2 * repetitions && Alternates(t) && (allowSkips || Skipped !in t)
  }

  predicate IsCompletion(r: Row, pkg: string) {
    r.Event? && r.pkg == pkg && r.test == "" && r.action.Pass?
  }

  predicate Speaks(r: Row, pkg: string) {
    r.Event? && r.pkg == pkg
  }

  /** Row `k` is the only package-level pass, and the package says nothing after it. */
  predicate CompletesAt(rows: seq<Row>, pkg: string, k: int) {
    && 0 <= k < |rows|
    && IsCompletion(rows[k], pkg)
    && (forall j | 0 <= j < k :: !IsCompletion(rows[j], pkg))
    && (forall j | k < j < |rows| :: !Speaks(rows[j], pkg))
  }

  predicate RowAllowed(r: Row, packages: seq<string>) {
    && r.Event?
    && r.pkg in packages
    && !r.action.Fail? && !r.action.OtherAction?
    && (r.test == "" ==> !r.action.Skip?)
  }

  ghost predicate PackageAccepted(rows: seq<Row>, pkg: string, repetitions: int, allowSkips: bool) {
    && (exists k :: CompletesAt(rows, pkg, k))
    && (exists test :: test != "" && Mentioned(rows, pkg, test) && Passed in Trace(rows, pkg, test))
    && (forall test | test != "" && Mentioned(rows, pkg, test) ::
          Complete(Trace(rows, pkg, test), repetitions, allowSkips))
  }

  /** All `repetitions` executions of the test in this package passed. */
  predicate FullyPassed(rows: seq<Row>, pkg: string, test: string, repetitions: int) {
    && test != "" && Mentioned(rows, pkg, test)
    && Complete(Trace(rows, pkg, test), repetitions, false)
  }

  predicate PassedIn(rows: seq<Row>, packages: seq<string>, name: string, repetitions: int, k: int)
    requires 0 <= k < |packages|
  {
    FullyPassed(rows, packages[k], name, repetitions)
  }

  /** Exactly one of the packages fully passed the test. */
  ghost predicate PassedInOne(rows: seq<Row>, packages: seq<string>, name: string, repetitions: int) {
    exists k :: 0 <= k < |packages| && PassedIn(rows, packages, name, repetitions, k)
      && forall j | 0 <= j < |packages| && PassedIn(rows, packages, name, repetitions, j) :: j == k
  }

  ghost predicate ArgumentsAccepted(packages: seq<string>, repetitions: int) {
    && repetitions >= 1 && packages != []
    && "" !in packages
    && forall i, j | 0 <= i < j < |packages| :: packages[i] != packages[j]
  }

  ghost predicate Accepted(rows: seq<Row>, packages: seq<string>, required: seq<string>,
                           repetitions: int, allowSkips: bool) {
    && ArgumentsAccepted(packages, repetitions)
    && (forall i | 0 <= i < |rows| :: RowAllowed(rows[i], packages))
    && (forall k | 0 <= k < |packages| :: PackageAccepted(rows, packages[k], repetitions, allowSkips))
    && (forall k | 0 <= k < |required| :: PassedInOne(rows, packages, required[k], repetitions))
  }

  // ----- the recogniser

  datatype Refusal =
    | BadArguments | MalformedRow | UnexpectedPackage | EventAfterCompletion | FailedExecution | UnknownAction
    | PackageSkipped | OverlappingExecutions | ResultWithoutExecution | Unreadable | IncompletePackage
    | MissingRequiredTest

  datatype Executions = Executions(runs: nat, passes: nat, skips: nat, active: bool)

  datatype State = State(completed: map<string, nat>, tests: map<string, map<string, Executions>>) {
    function Completions(pkg: string): nat {
      if pkg in completed then completed[pkg] else 0
    }

    function Find(pkg: string, test: string): Option<Executions> {
      if pkg in tests && test in tests[pkg] then Some(tests[pkg][test]) else None
    }

    function Put(pkg: string, test: string, e: Executions): State {
      State(completed, tests[pkg := (if pkg in tests then tests[pkg] else map[])[test := e]])
    }
  }

  /** The effect of one event on the counters of its test. */
  function Advance(e: Executions, a: Action): Result<Executions, Refusal> {
    match a
    case Run =>
      if e.active then Err(OverlappingExecutions) else Ok(e.(active := true, runs := e.runs + 1))
    case Pass =>
      if !e.active then Err(ResultWithoutExecution) else Ok(e.(active := false, passes := e.passes + 1))
    case Skip =>
      if !e.active then Err(ResultWithoutExecution) else Ok(e.(active := false, skips := e.skips + 1))
    case _ => Ok(e)
  }

  function Consume(s: State, r: Row, wanted: set<string>): Result<State, Refusal> {
    if r.Malformed? then Err(MalformedRow)
    else if r.pkg !in wanted then Err(UnexpectedPackage)
    else if s.Completions(r.pkg) != 0 then Err(EventAfterCompletion)
    else if r.action.Fail? then Err(FailedExecution)
    else if r.action.OtherAction? then Err(UnknownAction)
    else if r.test == "" then
      if r.action.Pass? then Ok(s.(completed := s.completed[r.pkg := s.Completions(r.pkg) + 1]))
      else if r.action.Skip? then Err(PackageSkipped)
      else Ok(s)
    else
      var found := s.Find(r.pkg, r.test);
      match Advance(if found.Some? then found.value else Executions(0, 0, 0, false), r.action)
      case Err(e) => Err(e)
      case Ok(e) => Ok(s.Put(r.pkg, r.test, e))
  }

  /** The counters of a test are what its trace says: runs = passes + skips + active. */
  predicate Counts(e: Executions, t: seq<Symbol>) {
    && Alternates(t)
    && e.active == (|t| % 2 == 1)
    && e.passes == multiset(t)[Passed]
    && e.skips == multiset(t)[Skipped]
    && e.runs == e.passes + e.skips + (if e.active then 1 else 0)
    && 2 * e.runs == |t| + (if e.active then 1 else 0)
  }

  predicate MentionedBy(rows: seq<Row>, pkg: string, test: string, i: nat)
    requires i <= |rows|
  {
    exists k :: 0 <= k < i && Concerns(rows[k], pkg, test)
  }

  predicate CompletedBy(rows: seq<Row>, pkg: string, i: nat)
    requires i <= |rows|
  {
    exists k :: 0 <= k < i && IsCompletion(rows[k], pkg)
  }

  /** After `i` rows: at most one completion, and then silence. */
  predicate CompletionTracked(s: State, rows: seq<Row>, pkg: string, i: nat)
    requires i <= |rows|
  {
    && s.Completions(pkg) == (if CompletedBy(rows, pkg, i) then 1 else 0)
    && forall j, k | 0 <= j < k < i && IsCompletion(rows[j], pkg) :: !Speaks(rows[k], pkg)
  }

  predicate TestTracked(s: State, rows: seq<Row>, pkg: string, test: string, i: nat)
    requires i <= |rows|
  {
    if test != "" && MentionedBy(rows, pkg, test, i)
    then s.Find(pkg, test).Some? && Counts(s.Find(pkg, test).value, TraceTo(rows, pkg, test, i))
    else s.Find(pkg, test).None?
  }

  ghost predicate Tracked(s: State, rows: seq<Row>, i: nat)
    requires i <= |rows|
  {
    && (forall pkg :: CompletionTracked(s, rows, pkg, i))
    && (forall pkg, test :: TestTracked(s, rows, pkg, test, i))
  }

  lemma {:induction false} UnmentionedHasNoTrace(rows: seq<Row>, pkg: string, test: string, i: nat)
    requires i <= |rows| && !MentionedBy(rows, pkg, test, i)
    ensures TraceTo(rows, pkg, test, i) == []
  {
    if i > 0 {
      assert !Concerns(rows[i - 1], pkg, test);
      assert !MentionedBy(rows, pkg, test, i - 1);
      UnmentionedHasNoTrace(rows, pkg, test, i - 1);
    }
  }

  lemma {:induction false} TracePrefix(rows: seq<Row>, pkg: string, test: string, i: nat, j: nat)
    requires i <= j <= |rows|
    ensures TraceTo(rows, pkg, test, i) <= TraceTo(rows, pkg, test, j)
  {
    if i < j {
      TracePrefix(rows, pkg, test, i, j - 1);
    }
  }

  /** One more symbol keeps the counters exact, and is refused exactly when it breaks the alternation. */
  lemma AdvanceCounts(e: Executions, t: seq<Symbol>, a: Action)
    requires Counts(e, t)
    ensures SymbolOf(a).None? ==> Advance(e, a) == Ok(e)
    ensures SymbolOf(a).Some? ==>
      var t' := t + [SymbolOf(a).value];
      match Advance(e, a)
      case Ok(e') => Counts(e', t')
      case Err(_) => !Alternates(t')
  {
    if SymbolOf(a).Some? {
      var t' := t + [SymbolOf(a).value];
      assert t'[|t|] == SymbolOf(a).value;
      assert forall k | 0 <= k < |t| :: t'[k] == t[k];
    }
  }

  lemma StepTracksCompletion(s: State, rows: seq<Row>, i: nat, wanted: set<string>, pkg: string)
    requires i < |rows| && CompletionTracked(s, rows, pkg, i)
    requires Consume(s, rows[i], wanted).Ok?
    ensures CompletionTracked(Consume(s, rows[i], wanted).value, rows, pkg, i + 1)
  {
    var s' := Consume(s, rows[i], wanted).value;
    if IsCompletion(rows[i], pkg) {
      assert CompletedBy(rows, pkg, i + 1);
    } else {
      assert CompletedBy(rows, pkg, i + 1) <==> CompletedBy(rows, pkg, i);
    }
  }

  lemma FindAfterPut(s: State, pkg: string, test: string, e: Executions, p: string, t: string)
    ensures s.Put(pkg, test, e).Find(p, t) == if p == pkg && t == test then Some(e) else s.Find(p, t)
  {
  }

  lemma StepTracksOwnTest(s: State, rows: seq<Row>, i: nat, wanted: set<string>, test: string)
    requires i < |rows| && rows[i].Event? && rows[i].test == test != ""
    requires TestTracked(s, rows, rows[i].pkg, test, i)
    requires Consume(s, rows[i], wanted).Ok?
    ensures TestTracked(Consume(s, rows[i], wanted).value, rows, rows[i].pkg, test, i + 1)
  {
    var pkg := rows[i].pkg;
    assert MentionedBy(rows, pkg, test, i + 1);
    if !MentionedBy(rows, pkg, test, i) {
      UnmentionedHasNoTrace(rows, pkg, test, i);
    }
    var found := s.Find(pkg, test);
    AdvanceCounts(if found.Some? then found.value else Executions(0, 0, 0, false),
                  TraceTo(rows, pkg, test, i), rows[i].action);
  }

  lemma StepTracksTest(s: State, rows: seq<Row>, i: nat, wanted: set<string>, pkg: string, test: string)
    requires i < |rows| && TestTracked(s, rows, pkg, test, i)
    requires Consume(s, rows[i], wanted).Ok?
    ensures TestTracked(Consume(s, rows[i], wanted).value, rows, pkg, test, i + 1)
  {
    if Concerns(rows[i], pkg, test) && test != "" {
      StepTracksOwnTest(s, rows, i, wanted, test);
    } else {
      OtherTestUntouched(s, rows[i], wanted, pkg, test);
      assert MentionedBy(rows, pkg, test, i + 1) && test != "" <==> MentionedBy(rows, pkg, test, i) && test != "";
    }
  }

  lemma OtherTestUntouched(s: State, r: Row, wanted: set<string>, pkg: string, test: string)
    requires !Concerns(r, pkg, test) || test == ""
    requires Consume(s, r, wanted).Ok?
    ensures Consume(s, r, wanted).value.Find(pkg, test) == s.Find(pkg, test)
  {
    if r.test != "" {
      var found := s.Find(r.pkg, r.test);
      var e := Advance(if found.Some? then found.value else Executions(0, 0, 0, false), r.action).value;
      FindAfterPut(s, r.pkg, r.test, e, pkg, test);
    }
  }

  lemma StepTracks(s: State, rows: seq<Row>, i: nat, wanted: set<string>)
    requires i < |rows| && Tracked(s, rows, i) && Consume(s, rows[i], wanted).Ok?
    ensures Tracked(Consume(s, rows[i], wanted).value, rows, i + 1)
  {
    var s', n := Consume(s, rows[i], wanted).value, i + 1;
    forall pkg
      ensures CompletionTracked(s', rows, pkg, n)
    {
      StepTracksCompletion(s, rows, i, wanted, pkg);
    }
    forall pkg, test
      ensures TestTracked(s', rows, pkg, test, n)
    {
      StepTracksTest(s, rows, i, wanted, pkg, test);
    }
  }

  /** A row is refused only when no continuation of the rows read so far could be accepted. */
  lemma RefusalIsRight(s: State, rows: seq<Row>, i: nat, packages: seq<string>, repetitions: int, allowSkips: bool)
    requires i < |rows| && Tracked(s, rows, i)
    requires Consume(s, rows[i], set p | p in packages).Err?
    requires RowAllowed(rows[i], packages)
    ensures !PackageAccepted(rows, rows[i].pkg, repetitions, allowSkips)
  {
    var r := rows[i];
    assert CompletionTracked(s, rows, r.pkg, i);
    if s.Completions(r.pkg) != 0 {
      var k :| 0 <= k < i && IsCompletion(rows[k], r.pkg);
      forall m
        ensures !CompletesAt(rows, r.pkg, m)
      {
        assert Speaks(rows[i], r.pkg);
      }
    } else {
      assert TestTracked(s, rows, r.pkg, r.test, i);
      if !MentionedBy(rows, r.pkg, r.test, i) {
        UnmentionedHasNoTrace(rows, r.pkg, r.test, i);
      }
      var found := s.Find(r.pkg, r.test);
      AdvanceCounts(if found.Some? then found.value else Executions(0, 0, 0, false),
                    TraceTo(rows, r.pkg, r.test, i), r.action);
      TracePrefix(rows, r.pkg, r.test, i + 1, |rows|);
      if Alternates(Trace(rows, r.pkg, r.test)) {
        AlternatesPrefix(TraceTo(rows, r.pkg, r.test, i + 1), Trace(rows, r.pkg, r.test));
      }
      assert Concerns(rows[i], r.pkg, r.test);
      assert Mentioned(rows, r.pkg, r.test);
    }
  }

  lemma AlternatesPrefix(a: seq<Symbol>, b: seq<Symbol>)
    requires a <= b && Alternates(b)
    ensures Alternates(a)
  {
    assert forall i | 0 <= i < |a| :: a[i] == b[i];
  }

  predicate ExecutionsComplete(e: Executions, repetitions: int, allowSkips: bool) {
    e.runs == repetitions && e.passes + e.skips == repetitions && (allowSkips || e.skips == 0)
  }

  lemma CompleteByCounts(e: Executions, t: seq<Symbol>, repetitions: int, allowSkips: bool)
    requires Counts(e, t)
    ensures ExecutionsComplete(e, repetitions, allowSkips) <==> Complete(t, repetitions, allowSkips)
    ensures e.passes > 0 <==> Passed in t
    ensures Complete(t, repetitions, allowSkips) ==>
      (e.passes == repetitions && e.skips == 0 <==> Complete(t, repetitions, false))
  {
    assert Skipped in t <==> multiset(t)[Skipped] > 0;
    assert Passed in t <==> multiset(t)[Passed] > 0;
  }

  /** The counters of one package pass the final check of the recogniser. */
  predicate CountersAccepted(s: State, pkg: string, repetitions: int, allowSkips: bool) {
    && s.Completions(pkg) == 1
    && pkg in s.tests
    && (forall test | test in s.tests[pkg] :: ExecutionsComplete(s.tests[pkg][test], repetitions, allowSkips))
    && (exists test :: test in s.tests[pkg] && s.tests[pkg][test].passes > 0)
  }

  lemma CompletionFound(s: State, rows: seq<Row>, pkg: string)
    requires CompletionTracked(s, rows, pkg, |rows|)
    ensures s.Completions(pkg) == 1 <==> exists k :: CompletesAt(rows, pkg, k)
  {
    if s.Completions(pkg) == 1 {
      var k :| 0 <= k < |rows| && IsCompletion(rows[k], pkg);
      assert CompletesAt(rows, pkg, k);
    }
  }

  lemma TestFound(s: State, rows: seq<Row>, pkg: string, test: string, repetitions: int, allowSkips: bool)
    requires TestTracked(s, rows, pkg, test, |rows|)
    ensures s.Find(pkg, test).Some? <==> test != "" && Mentioned(rows, pkg, test)
    ensures s.Find(pkg, test).Some? ==>
      var e, t := s.Find(pkg, test).value, Trace(rows, pkg, test);
      && (ExecutionsComplete(e, repetitions, allowSkips) <==> Complete(t, repetitions, allowSkips))
      && (e.passes > 0 <==> Passed in t)
      && (Complete(t, repetitions, allowSkips) ==>
            (e.passes == repetitions && e.skips == 0 <==> Complete(t, repetitions, false)))
  {
    assert MentionedBy(rows, pkg, test, |rows|) <==> Mentioned(rows, pkg, test);
    if s.Find(pkg, test).Some? {
      CompleteByCounts(s.Find(pkg, test).value, Trace(rows, pkg, test), repetitions, allowSkips);
    }
  }

  lemma CountersMeanPackage(s: State, rows: seq<Row>, pkg: string, repetitions: int, allowSkips: bool)
    requires Tracked(s, rows, |rows|)
    ensures CountersAccepted(s, pkg, repetitions, allowSkips) <==>
            PackageAccepted(rows, pkg, repetitions, allowSkips)
  {
    assert CompletionTracked(s, rows, pkg, |rows|);
    CompletionFound(s, rows, pkg);
    if CountersAccepted(s, pkg, repetitions, allowSkips) {
      forall test | test != "" && Mentioned(rows, pkg, test)
        ensures Complete(Trace(rows, pkg, test), repetitions, allowSkips)
      {
        TestFound(s, rows, pkg, test, repetitions, allowSkips);
      }
      var test :| test in s.tests[pkg] && s.tests[pkg][test].passes > 0;
      TestFound(s, rows, pkg, test, repetitions, allowSkips);
    }
    if PackageAccepted(rows, pkg, repetitions, allowSkips) {
      var test :| test != "" && Mentioned(rows, pkg, test) && Passed in Trace(rows, pkg, test);
      TestFound(s, rows, pkg, test, repetitions, allowSkips);
      forall other | other in s.tests[pkg]
        ensures ExecutionsComplete(s.tests[pkg][other], repetitions, allowSkips)
      {
        assert s.Find(pkg, other).Some?;
        TestFound(s, rows, pkg, other, repetitions, allowSkips);
      }
    }
  }

  lemma RequiredByCounters(s: State, rows: seq<Row>, pkg: string, test: string, repetitions: int, allowSkips: bool)
    requires Tracked(s, rows, |rows|) && PackageAccepted(rows, pkg, repetitions, allowSkips)
    ensures var e := s.Find(pkg, test);
      FullyPassed(rows, pkg, test, repetitions) <==>
      e.Some? && e.value.passes == repetitions && e.value.skips == 0
  {
    assert TestTracked(s, rows, pkg, test, |rows|);
    TestFound(s, rows, pkg, test, repetitions, allowSkips);
  }

  // ----- the loops

  method CheckArguments(packages: seq<string>, repetitions: int) returns (ok: bool)
    ensures ok <==> ArgumentsAccepted(packages, repetitions)
  {
    if repetitions < 1 || packages == [] {
      return false;
    }
    var wanted := {};
    for i := 0 to |packages|
      invariant wanted == set k | 0 <= k < i :: packages[k]
      invariant "" !in packages[..i]
      invariant forall j, k | 0 <= j < k < i :: packages[j] != packages[k]
    {
      if packages[i] == "" || packages[i] in wanted {
        return false;
      }
      wanted := wanted + {packages[i]};
    }
    return true;
  }

  method ReadRows(rows: seq<Row>, packages: seq<string>) returns (r: Result<State, Refusal>)
    ensures r.Ok? ==> Tracked(r.value, rows, |rows|) && forall i | 0 <= i < |rows| :: RowAllowed(rows[i], packages)
    ensures r.Err? ==> forall required, repetitions, allowSkips ::
                         !Accepted(rows, packages, required, repetitions, allowSkips)
  {
    var wanted := set p | p in packages;
    var s := State(map[], map[]);
    for i := 0 to |rows|
      invariant Tracked(s, rows, i)
      invariant forall k | 0 <= k < i :: RowAllowed(rows[k], packages)
    {
      r := Consume(s, rows[i], wanted);
      if r.Err? {
        if RowAllowed(rows[i], packages) {
          forall repetitions, allowSkips
            ensures !PackageAccepted(rows, rows[i].pkg, repetitions, allowSkips)
          {
            RefusalIsRight(s, rows, i, packages, repetitions, allowSkips);
          }
        }
        return;
      }
      StepTracks(s, rows, i, wanted);
      s := r.value;
    }
    return Ok(s);
  }

  method CheckPackage(s: State, pkg: string, repetitions: int, allowSkips: bool) returns (ok: bool)
    ensures ok <==> CountersAccepted(s, pkg, repetitions, allowSkips)
  {
    if s.Completions(pkg) != 1 || pkg !in s.tests {
      return false;
    }
    var passed := false;
    var rest := s.tests[pkg].Keys;
    while rest != {}
      invariant rest <= s.tests[pkg].Keys
      invariant forall t | t in s.tests[pkg] && t !in rest ::
                  ExecutionsComplete(s.tests[pkg][t], repetitions, allowSkips)
      invariant passed <==> exists t :: t in s.tests[pkg] && t !in rest && s.tests[pkg][t].passes > 0
      decreases rest
    {
      var name :| name in rest;
      if !ExecutionsComplete(s.tests[pkg][name], repetitions, allowSkips) {
        return false;
      }
      passed := passed || s.tests[pkg][name].passes > 0;
      rest := rest - {name};
    }
    return passed;
  }

  /** By the counters, every execution of the test in package `k` passed. */
  ghost predicate FoundIn(s: State, packages: seq<string>, name: string, repetitions: int, k: int)
    requires 0 <= k < |packages|
  {
    var e := s.Find(packages[k], name);
    e.Some? && e.value.passes == repetitions && e.value.skips == 0
  }

  method CheckRequired(s: State, packages: seq<string>, name: string, repetitions: int) returns (ok: bool)
    ensures ok <==> exists k :: 0 <= k < |packages| && FoundIn(s, packages, name, repetitions, k)
                      && forall j | 0 <= j < |packages| && FoundIn(s, packages, name, repetitions, j) :: j == k
  {
    var found := 0;
    ghost var last := 0;
    for i := 0 to |packages|
      invariant found == 0 ==> forall k | 0 <= k < i :: !FoundIn(s, packages, name, repetitions, k)
      invariant found == 1 ==> last < i && FoundIn(s, packages, name, repetitions, last)
      invariant found == 1 ==> forall k | 0 <= k < i && FoundIn(s, packages, name, repetitions, k) :: k == last
      invariant found > 1 ==> exists j, k | 0 <= j < k < i ::
                  FoundIn(s, packages, name, repetitions, j) && FoundIn(s, packages, name, repetitions, k)
      invariant 0 <= last && found >= 0
    {
      var e := s.Find(packages[i], name);
      if e.Some? && e.value.passes == repetitions && e.value.skips == 0 {
        assert FoundIn(s, packages, name, repetitions, i);
        found := found + 1;
        if found == 1 {
          last := i;
        }
      }
    }
    return found == 1;
  }

  method Verify(rows: seq<Row>, readable: bool, packages: seq<string>, required: seq<string>,
                repetitions: int, allowSkips: bool)
    returns (r: Result<(), Refusal>)
    ensures r.Ok? <==> readable && Accepted(rows, packages, required, repetitions, allowSkips)
  {
    var arguments := CheckArguments(packages, repetitions);
    if !arguments {
      return Err(BadArguments);
    }
    var read := ReadRows(rows, packages);
    if read.Err? {
      return Err(read.error);
    }
    if !readable {
      return Err(Unreadable);
    }
    var s := read.value;
    for i := 0 to |packages|
      invariant forall k | 0 <= k < i :: PackageAccepted(rows, packages[k], repetitions, allowSkips)
    {
      CountersMeanPackage(s, rows, packages[i], repetitions, allowSkips);
      var ok := CheckPackage(s, packages[i], repetitions, allowSkips);
      if !ok {
        return Err(IncompletePackage);
      }
    }
    var ok := CheckAllRequired(s, rows, packages, required, repetitions, allowSkips);
    return if ok then Ok(()) else Err(MissingRequiredTest);
  }

  method CheckAllRequired(s: State, ghost rows: seq<Row>, packages: seq<string>, required: seq<string>,
                          repetitions: int, ghost allowSkips: bool)
    returns (ok: bool)
    requires Tracked(s, rows, |rows|)
    requires forall k | 0 <= k < |packages| :: PackageAccepted(rows, packages[k], repetitions, allowSkips)
    ensures ok <==> forall k | 0 <= k < |required| :: PassedInOne(rows, packages, required[k], repetitions)
  {
    for i := 0 to |required|
      invariant forall k | 0 <= k < i :: PassedInOne(rows, packages, required[k], repetitions)
    {
      RequiredMeansPassed(s, rows, packages, required[i], repetitions, allowSkips);
      var found := CheckRequired(s, packages, required[i], repetitions);
      if !found {
        return false;
      }
    }
    return true;
  }

  lemma RequiredMeansPassed(s: State, rows: seq<Row>, packages: seq<string>, name: string,
                            repetitions: int, allowSkips: bool)
    requires Tracked(s, rows, |rows|)
    requires forall k | 0 <= k < |packages| :: PackageAccepted(rows, packages[k], repetitions, allowSkips)
    ensures forall k | 0 <= k < |packages| ::
      FoundIn(s, packages, name, repetitions, k) <==> PassedIn(rows, packages, name, repetitions, k)
  {
    forall k | 0 <= k < |packages|
      ensures FoundIn(s, packages, name, repetitions, k) <==> PassedIn(rows, packages, name, repetitions, k)
    {
      RequiredByCounters(s, rows, packages[k], name, repetitions, allowSkips);
    }
  }

  // ----- the verdict reads each package's own rows only

  function SpeakerOf(r: Row): Option<string> {
    if r.Event? then Some(r.pkg) else None
  }

  /** The rows of one package among the first `i`, in order. */
  function OwnTo(rows: seq<Row>, pkg: string, i: nat): seq<Row>
    requires i <= |rows|
  {
    ByKeyTo(SpeakerOf, rows, Some(pkg), i)
  }

  function Own(rows: seq<Row>, pkg: string): seq<Row> {
    ByKey(SpeakerOf, rows, Some(pkg))
  }

  lemma {:induction false} TraceOfPrefix(a: seq<Row>, b: seq<Row>, pkg: string, test: string, i: nat)
    requires i <= |a| && a <= b
    ensures TraceTo(a, pkg, test, i) == TraceTo(b, pkg, test, i)
  {
    if i > 0 {
      TraceOfPrefix(a, b, pkg, test, i - 1);
    }
  }

  lemma {:induction false} OwnTrace(rows: seq<Row>, pkg: string, test: string, i: nat)
    requires i <= |rows|
    ensures TraceTo(rows, pkg, test, i) == Trace(OwnTo(rows, pkg, i), pkg, test)
  {
    if i > 0 {
      var front, own := OwnTo(rows, pkg, i - 1), OwnTo(rows, pkg, i);
      OwnTrace(rows, pkg, test, i - 1);
      if Speaks(rows[i - 1], pkg) {
        TraceOfPrefix(front, own, pkg, test, |front|);
      }
    }
  }

  lemma {:induction false} OwnMembers(rows: seq<Row>, pkg: string, r: Row, i: nat)
    requires i <= |rows|
    ensures r in OwnTo(rows, pkg, i) <==> Speaks(r, pkg) && exists k :: 0 <= k < i && rows[k] == r
  {
    if i > 0 {
      OwnMembers(rows, pkg, r, i - 1);
    }
  }

  /** The only package-level pass is the last row. */
  predicate EndsInCompletion(own: seq<Row>, pkg: string) {
    && own != []
    && IsCompletion(own[|own| - 1], pkg)
    && forall j | 0 <= j < |own| - 1 :: !IsCompletion(own[j], pkg)
  }

  predicate HasCompletion(own: seq<Row>, pkg: string) {
    exists j :: 0 <= j < |own| && IsCompletion(own[j], pkg)
  }

  lemma OwnHasCompletion(rows: seq<Row>, pkg: string, i: nat)
    requires i <= |rows|
    ensures CompletedBy(rows, pkg, i) <==> HasCompletion(OwnTo(rows, pkg, i), pkg)
  {
    var own := OwnTo(rows, pkg, i);
    if CompletedBy(rows, pkg, i) {
      var k :| 0 <= k < i && IsCompletion(rows[k], pkg);
      OwnMembers(rows, pkg, rows[k], i);
      var j :| 0 <= j < |own| && own[j] == rows[k];
    }
    if HasCompletion(own, pkg) {
      var j :| 0 <= j < |own| && IsCompletion(own[j], pkg);
      OwnMembers(rows, pkg, own[j], i);
    }
  }

  lemma EndsBySnoc(front: seq<Row>, r: Row, pkg: string)
    ensures EndsInCompletion(front + [r], pkg) <==> IsCompletion(r, pkg) && !HasCompletion(front, pkg)
  {
    var own := front + [r];
    assert forall j | 0 <= j < |front| :: own[j] == front[j];
  }

  lemma {:induction false} OwnCompletion(rows: seq<Row>, pkg: string, i: nat)
    requires i <= |rows|
    ensures EndsInCompletion(OwnTo(rows, pkg, i), pkg) <==> exists k :: CompletesAt(rows[..i], pkg, k)
  {
    if i > 0 {
      OwnCompletion(rows, pkg, i - 1);
      if Speaks(rows[i - 1], pkg) {
        EndsBySnoc(OwnTo(rows, pkg, i - 1), rows[i - 1], pkg);
        OwnHasCompletion(rows, pkg, i - 1);
        SpeakingCompletes(rows, pkg, i);
      } else {
        assert rows[..i] == rows[..i - 1] + [rows[i - 1]];
        SilenceKeepsCompletion(rows[..i - 1], rows[i - 1], pkg);
      }
    }
  }

  lemma SpeakingCompletes(rows: seq<Row>, pkg: string, i: nat)
    requires 0 < i <= |rows| && Speaks(rows[i - 1], pkg)
    ensures (exists k :: CompletesAt(rows[..i], pkg, k)) <==>
            IsCompletion(rows[i - 1], pkg) && !CompletedBy(rows, pkg, i - 1)
  {
    if IsCompletion(rows[i - 1], pkg) && !CompletedBy(rows, pkg, i - 1) {
      assert CompletesAt(rows[..i], pkg, i - 1);
    }
    forall k | CompletesAt(rows[..i], pkg, k)
      ensures k == i - 1
    {
      assert Speaks(rows[..i][i - 1], pkg);
    }
    if CompletesAt(rows[..i], pkg, i - 1) {
      forall j | 0 <= j < i - 1
        ensures !IsCompletion(rows[j], pkg)
      {
        assert !IsCompletion(rows[..i][j], pkg);
      }
    }
  }

  lemma SilenceKeepsCompletion(before: seq<Row>, r: Row, pkg: string)
    requires !Speaks(r, pkg)
    ensures (exists k :: CompletesAt(before + [r], pkg, k)) <==> (exists k :: CompletesAt(before, pkg, k))
  {
    var now := before + [r];
    forall k
      ensures CompletesAt(now, pkg, k) <==> CompletesAt(before, pkg, k)
    {
      if CompletesAt(now, pkg, k) {
        assert forall j | 0 <= j < |before| :: now[j] == before[j];
      }
      if CompletesAt(before, pkg, k) {
        assert forall j | 0 <= j < |before| :: now[j] == before[j];
      }
    }
  }

  lemma OwnPackage(rows: seq<Row>, pkg: string, repetitions: int, allowSkips: bool)
    ensures PackageAccepted(rows, pkg, repetitions, allowSkips) <==>
            && EndsInCompletion(Own(rows, pkg), pkg)
            && (exists test ::
                  test != "" && Mentioned(Own(rows, pkg), pkg, test) && Passed in Trace(Own(rows, pkg), pkg, test))
            && (forall test | test != "" && Mentioned(Own(rows, pkg), pkg, test) ::
                  Complete(Trace(Own(rows, pkg), pkg, test), repetitions, allowSkips))
  {
    OwnCompletion(rows, pkg, |rows|);
    assert rows[..|rows|] == rows;
    forall test
      ensures Mentioned(rows, pkg, test) <==> Mentioned(Own(rows, pkg), pkg, test)
      ensures Trace(rows, pkg, test) == Trace(Own(rows, pkg), pkg, test)
    {
      OwnMentions(rows, pkg, test);
      OwnTrace(rows, pkg, test, |rows|);
    }
  }

  lemma OwnMentions(rows: seq<Row>, pkg: string, test: string)
    ensures Mentioned(rows, pkg, test) <==> Mentioned(Own(rows, pkg), pkg, test)
  {
    var own := Own(rows, pkg);
    if Mentioned(rows, pkg, test) {
      var i :| 0 <= i < |rows| && Concerns(rows[i], pkg, test);
      OwnMembers(rows, pkg, rows[i], |rows|);
      var j :| 0 <= j < |own| && own[j] == rows[i];
    }
    if Mentioned(own, pkg, test) {
      var j :| 0 <= j < |own| && Concerns(own[j], pkg, test);
      OwnMembers(rows, pkg, own[j], |rows|);
    }
  }

  /** Two interleavings of the same package streams get the same verdict. */
  lemma VerdictIgnoresInterleaving(a: seq<Row>, b: seq<Row>, packages: seq<string>, required: seq<string>,
                                   repetitions: int, allowSkips: bool)
    requires forall r | r in a :: r.Event? && r.pkg in packages
    requires forall r | r in b :: r.Event? && r.pkg in packages
    requires forall pkg | pkg in packages :: Own(a, pkg) == Own(b, pkg)
    ensures Accepted(a, packages, required, repetitions, allowSkips) <==>
            Accepted(b, packages, required, repetitions, allowSkips)
  {
    InterleavingAccepted(a, b, packages, required, repetitions, allowSkips);
    InterleavingAccepted(b, a, packages, required, repetitions, allowSkips);
  }

  lemma InterleavingAccepted(a: seq<Row>, b: seq<Row>, packages: seq<string>, required: seq<string>,
                             repetitions: int, allowSkips: bool)
    requires forall r | r in b :: r.Event? && r.pkg in packages
    requires forall pkg | pkg in packages :: Own(a, pkg) == Own(b, pkg)
    ensures Accepted(a, packages, required, repetitions, allowSkips) ==>
            Accepted(b, packages, required, repetitions, allowSkips)
  {
    if Accepted(a, packages, required, repetitions, allowSkips) {
      forall i | 0 <= i < |b|
        ensures RowAllowed(b[i], packages)
      {
        OwnMembers(b, b[i].pkg, b[i], |b|);
        OwnMembers(a, b[i].pkg, b[i], |a|);
      }
      forall k | 0 <= k < |packages|
        ensures PackageAccepted(b, packages[k], repetitions, allowSkips)
      {
        OwnPackage(a, packages[k], repetitions, allowSkips);
        OwnPackage(b, packages[k], repetitions, allowSkips);
      }
      forall n | 0 <= n < |required|
        ensures PassedInOne(b, packages, required[n], repetitions)
      {
        forall k | 0 <= k < |packages|
          ensures PassedIn(a, packages, required[n], repetitions, k)
             <==> PassedIn(b, packages, required[n], repetitions, k)
        {
          OwnMentions(a, packages[k], required[n]);
          OwnMentions(b, packages[k], required[n]);
          OwnTrace(a, packages[k], required[n], |a|);
          OwnTrace(b, packages[k], required[n], |b|);
        }
      }
    }
  }

  // ----- the Python verifier

  /** The comprehensions over the rows. An absent "Test" equals no name. */
  datatype Query = RunsOf(name: string) | ResultsOf(name: string) | CompletionsOf(pkg: string)

  predicate IsResult(a: Action) {
    a.Pass? || a.Fail? || a.Skip?
  }

  predicate Selects(q: Query, r: Row) {
    && r.Event?
    && match q
       case RunsOf(name) => name != "" && r.test == name && r.action.Run?
       case ResultsOf(name) => name != "" && r.test == name && IsResult(r.action)
       case CompletionsOf(pkg) => r.pkg == pkg && r.test == "" && IsResult(r.action)
  }

  function SelectTo(q: Query, rows: seq<Row>, i: nat): seq<Row>
    requires i <= |rows|
  {
    if i == 0 then []
    else if Selects(q, rows[i - 1]) then SelectTo(q, rows, i - 1) + [rows[i - 1]]
    else SelectTo(q, rows, i - 1)
  }

  function Select(q: Query, rows: seq<Row>): seq<Row> {
    SelectTo(q, rows, |rows|)
  }

  predicate OnePass(rows: seq<Row>) {
    |rows| == 1 && rows[0].Event? && rows[0].action.Pass?
  }

  predicate ExecutedOnce(rows: seq<Row>, name: string) {
    var runs, results := Select(RunsOf(name), rows), Select(ResultsOf(name), rows);
    && |runs| == 1 && runs[0].Event?
    && OnePass(results)
    && runs[0].pkg != "" && results[0].pkg == runs[0].pkg
  }

  function PackageOf(rows: seq<Row>, name: string): string
    requires ExecutedOnce(rows, name)
  {
    Select(RunsOf(name), rows)[0].pkg
  }

  ghost predicate PythonAccepted(rows: seq<Row>, required: seq<string>) {
    && required != [] && (forall i, j | 0 <= i < j < |required| :: required[i] != required[j])
    && rows != [] && (forall i | 0 <= i < |rows| :: rows[i].Event? && !rows[i].action.Fail?)
    && (forall k | 0 <= k < |required| ::
          ExecutedOnce(rows, required[k]) && OnePass(Select(CompletionsOf(PackageOf(rows, required[k])), rows)))
  }

  method VerifyPython(rows: seq<Row>, required: seq<string>) returns (ok: bool)
    ensures ok <==> PythonAccepted(rows, required)
  {
    if required == [] || exists i, j | 0 <= i < j < |required| :: required[i] == required[j] {
      return false;
    }
    if rows == [] || exists i | 0 <= i < |rows| :: rows[i].Malformed? || rows[i].action.Fail? {
      return false;
    }
    var packages: set<string> := {};
    for k := 0 to |required|
      invariant forall n | 0 <= n < k :: ExecutedOnce(rows, required[n])
      invariant forall n | 0 <= n < k :: PackageOf(rows, required[n]) in packages
      invariant forall p | p in packages :: exists n :: 0 <= n < k && PackageOf(rows, required[n]) == p
    {
      if !ExecutedOnce(rows, required[k]) {
        return false;
      }
      packages := packages + {PackageOf(rows, required[k])};
    }
    if exists p | p in packages :: !OnePass(Select(CompletionsOf(p), rows)) {
      return false;
    }
    return true;
  }

  // ----- evidence accepted by the Go recogniser is accepted by the Python verifier

  lemma {:induction false} SelectMembers(q: Query, rows: seq<Row>, r: Row, i: nat)
    requires i <= |rows|
    ensures r in SelectTo(q, rows, i) <==> Selects(q, r) && exists k :: 0 <= k < i && rows[k] == r
  {
    if i > 0 {
      SelectMembers(q, rows, r, i - 1);
    }
  }

  /** Only `pkg` has rows of the test, and nothing failed. */
  predicate OnlyIn(rows: seq<Row>, pkg: string, name: string) {
    forall k | 0 <= k < |rows| ::
      rows[k].Event? && !rows[k].action.Fail? && (rows[k].test == name ==> rows[k].pkg == pkg)
  }

  lemma {:induction false} QueriesCoverTrace(rows: seq<Row>, pkg: string, name: string, i: nat)
    requires i <= |rows| && name != "" && OnlyIn(rows, pkg, name)
    ensures |SelectTo(RunsOf(name), rows, i)| + |SelectTo(ResultsOf(name), rows, i)| == |TraceTo(rows, pkg, name, i)|
  {
    if i > 0 {
      QueriesCoverTrace(rows, pkg, name, i - 1);
    }
  }

  lemma {:induction false} TraceComesFrom(rows: seq<Row>, pkg: string, name: string, x: Symbol, i: nat) returns (k: nat)
    requires i <= |rows| && x in TraceTo(rows, pkg, name, i)
    ensures k < i && Concerns(rows[k], pkg, name) && SymbolOf(rows[k].action) == Some(x)
  {
    if x in TraceTo(rows, pkg, name, i - 1) {
      k := TraceComesFrom(rows, pkg, name, x, i - 1);
    } else {
      k := i - 1;
    }
  }

  /** A complete single execution is one run row and one result row, a pass. */
  lemma CompleteOnceQueries(rows: seq<Row>, pkg: string, name: string)
    requires name != "" && OnlyIn(rows, pkg, name)
    requires Complete(Trace(rows, pkg, name), 1, false)
    ensures |Select(RunsOf(name), rows)| == 1 && Select(RunsOf(name), rows)[0].Event?
    ensures OnePass(Select(ResultsOf(name), rows))
  {
    var t := Trace(rows, pkg, name);
    CompleteOnce(t);
    QueriesCoverTrace(rows, pkg, name, |rows|);
    var run := TraceComesFrom(rows, pkg, name, Began, |rows|);
    var pass := TraceComesFrom(rows, pkg, name, Passed, |rows|);
    SelectMembers(RunsOf(name), rows, rows[run], |rows|);
    SelectMembers(ResultsOf(name), rows, rows[pass], |rows|);
    assert Select(RunsOf(name), rows)[0] == rows[run];
    assert Select(ResultsOf(name), rows)[0] == rows[pass];
  }

  /** With skips disallowed, a test mentioned by two packages would have passed fully in both. */
  lemma OnlyPackageOf(rows: seq<Row>, packages: seq<string>, required: seq<string>, repetitions: int, n: nat, k: nat)
    requires Accepted(rows, packages, required, repetitions, false) && n < |required|
    requires k < |packages| && PassedIn(rows, packages, required[n], repetitions, k)
    ensures forall i | 0 <= i < |rows| :: rows[i].test == required[n] ==> rows[i].pkg == packages[k]
  {
    var name := required[n];
    forall i | 0 <= i < |rows| && rows[i].test == name
      ensures rows[i].pkg == packages[k]
    {
      assert RowAllowed(rows[i], packages);
      var j :| 0 <= j < |packages| && packages[j] == rows[i].pkg;
      assert Concerns(rows[i], packages[j], name);
      assert Mentioned(rows, packages[j], name);
      assert PackageAccepted(rows, packages[j], repetitions, false);
      assert PassedIn(rows, packages, name, repetitions, j);
      assert PassedInOne(rows, packages, name, repetitions);
    }
  }

  lemma CompleteOnce(t: seq<Symbol>)
    requires Complete(t, 1, false)
    ensures t == [Began, Passed]
  {
    assert t[0].Began? && !t[1].Began? && t[1] != Skipped;
  }

  lemma GoEvidenceExecutedOnce(rows: seq<Row>, packages: seq<string>, required: seq<string>, n: nat, k: nat)
    requires Accepted(rows, packages, required, 1, false) && n < |required|
    requires k < |packages| && PassedIn(rows, packages, required[n], 1, k)
    ensures ExecutedOnce(rows, required[n]) && PackageOf(rows, required[n]) == packages[k]
  {
    var name, pkg := required[n], packages[k];
    OnlyPackageOf(rows, packages, required, 1, n, k);
    forall i | 0 <= i < |rows|
      ensures rows[i].Event? && !rows[i].action.Fail?
    {
      assert RowAllowed(rows[i], packages);
    }
    CompleteOnceQueries(rows, pkg, name);
    SelectMembers(RunsOf(name), rows, Select(RunsOf(name), rows)[0], |rows|);
    SelectMembers(ResultsOf(name), rows, Select(ResultsOf(name), rows)[0], |rows|);
    assert packages[k] in packages;
  }

  /**
  Evidence refinement: a stream the Go recogniser accepts for one repetition without skips is
  accepted by the Python verifier for every non-empty duplicate-free part of the required tests.
  */
  lemma GoAcceptedIsPythonAccepted(rows: seq<Row>, packages: seq<string>, required: seq<string>, part: seq<string>)
    requires Accepted(rows, packages, required, 1, false)
    requires part != [] && (forall name | name in part :: name in required)
    requires forall i, j | 0 <= i < j < |part| :: part[i] != part[j]
    ensures PythonAccepted(rows, part)
  {
    forall i | 0 <= i < |rows|
      ensures rows[i].Event? && !rows[i].action.Fail?
    {
      assert RowAllowed(rows[i], packages);
    }
    forall m | 0 <= m < |part|
      ensures ExecutedOnce(rows, part[m])
      ensures OnePass(Select(CompletionsOf(PackageOf(rows, part[m])), rows))
    {
      assert part[m] in part;
      var n :| 0 <= n < |required| && required[n] == part[m];
      assert PassedInOne(rows, packages, required[n], 1);
      var k :| 0 <= k < |packages| && PassedIn(rows, packages, required[n], 1, k);
      GoEvidenceExecutedOnce(rows, packages, required, n, k);
      GoEvidenceCompletes(rows, packages, required, k);
    }
    assert PackageAccepted(rows, packages[0], 1, false);
  }

  lemma GoEvidenceCompletes(rows: seq<Row>, packages: seq<string>, required: seq<string>, k: nat)
    requires Accepted(rows, packages, required, 1, false) && k < |packages|
    ensures OnePass(Select(CompletionsOf(packages[k]), rows))
  {
    var pkg := packages[k];
    assert PackageAccepted(rows, pkg, 1, false);
    var c :| CompletesAt(rows, pkg, c);
    forall i | 0 <= i < |rows|
      ensures Selects(CompletionsOf(pkg), rows[i]) <==> i == c
    {
      assert RowAllowed(rows[i], packages);
    }
    SelectOnly(CompletionsOf(pkg), rows, c, |rows|);
  }

  lemma {:induction false} SelectOnly(q: Query, rows: seq<Row>, c: nat, i: nat)
    requires i <= |rows| && c < |rows|
    requires forall k | 0 <= k < |rows| :: Selects(q, rows[k]) <==> k == c
    ensures SelectTo(q, rows, i) == if c < i then [rows[c]] else []
  {
    if i > 0 {
      SelectOnly(q, rows, c, i - 1);
    }
  }
}
