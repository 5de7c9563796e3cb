/**
Reconstructing what recorded model calls cost and what a shared prompt prefix saved.

Money is an integer number of micro-USD; rates are micro-USD for a million tokens, so the exact
cost of `n` tokens at rate `r` is `n * r` millionths of a micro-USD.
*/
module CacheCosts {
  import opened Wrappers
  import opened Sequences

  datatype Status = Accepted | Rejected | Unfinished

  datatype Condition = Control | Shared

  /** A recorded counter: absent, a natural number, or something else. */
  datatype Counter = Absent | Tokens(n: nat) | Malformed

  /** `text` is the canonical text of the whole price table; a missing rate is not a natural number. */
  datatype Rates = Rates(
    input: Option<nat>, cached: Option<nat>, written: Option<nat>, output: Option<nat>, text: string)

  /**
  One recorded call. `priced` says that the pricing basis is a non-blank text other than "unpriced";
  `rates` is None when the snapshot cannot be decoded.
  */
  datatype Call = Call(
    pair: string, condition: Condition, status: Status, priced: bool,
    input: Option<nat>, output: Option<nat>, total: Option<nat>, rates: Option<Rates>,
    cached: Counter, written: Counter, success: bool)

  datatype Refusal = InvalidPrices | InvalidCacheUsage | CacheExceedsInput | LedgerMismatch | MixedRates | NotANumber

  // ----- one call

  function OrZero(c: Counter): nat {
    if c.Tokens? then c.n else 0
  }

  /** Half up, to a whole micro-USD. */
  function HalfUp(n: nat): nat {
    (n + 500_000) / 1_000_000
  }

  datatype Parts = Parts(uncached: nat, cached: nat, written: nat, output: nat)

  datatype Priced = Priced(tokens: Parts, costs: Parts)

  function InputCost(p: Priced): nat {
    p.costs.uncached + p.costs.cached + p.costs.written
  }

  function CostOf(t: Parts, r: Rates): (c: Parts)
    requires r.input.Some? && r.cached.Some? && r.written.Some? && r.output.Some?
  {
    Parts(HalfUp(t.uncached * r.input.value), HalfUp(t.cached * r.cached.value),
          HalfUp(t.written * r.written.value), HalfUp(t.output * r.output.value))
  }

  predicate Counted(c: Call) {
    c.status.Accepted? || c.status.Rejected?
  }

  /** Ok(None) when the ledger does not price the call; an error when the record contradicts itself. */
  function Components(c: Call): Result<Option<Priced>, Refusal> {
    if !Counted(c) || !c.priced then Ok(None)
    else if c.input.None? || c.output.None? || c.total.None? then Ok(None)
    else if c.rates.None? then Ok(None)
    else
      var r := c.rates.value;
      if r.input.None? || r.cached.None? || r.written.None? || r.output.None? then Err(InvalidPrices)
      else if c.cached.Malformed? || c.written.Malformed? then Err(InvalidCacheUsage)
      else if c.input.value < OrZero(c.cached) + OrZero(c.written) then Err(CacheExceedsInput)
      else
        var tokens := Parts(c.input.value - OrZero(c.cached) - OrZero(c.written),
                            OrZero(c.cached), OrZero(c.written), c.output.value);
        var costs := CostOf(tokens, r);
        if costs.uncached + costs.cached + costs.written + costs.output != c.total.value then Err(LedgerMismatch)
        else Ok(Some(Priced(tokens, costs)))
  }

  predicate IsPriced(c: Call) {
    Components(c).Ok? && Components(c).value.Some?
  }

  function Price(c: Call): Priced
    requires IsPriced(c)
  {
    Components(c).value.value
  }

  function InputOf(c: Call): int {
    if IsPriced(c) then InputCost(Price(c)) else 0
  }

  function OutputOf(c: Call): int {
    if IsPriced(c) then Price(c).costs.output else 0
  }

  function LedgerOf(c: Call): int {
    if IsPriced(c) then c.total.value else 0
  }

  /** The exact cost in millionths of a micro-USD. */
  function ExactOf(c: Call): int {
    if IsPriced(c)
    then var t, r := Price(c).tokens, c.rates.value;
      t.uncached * r.input.value + t.cached * r.cached.value + t.written * r.written.value + t.output * r.output.value
    else 0
  }

  lemma HalfUpIsClose(n: nat)
    ensures -500_000 < 1_000_000 * HalfUp(n) - n <= 500_000
  {
  }

  /** No token is lost or counted twice, and the parts add up to the ledger's amount. */
  lemma PartsAddUp(c: Call)
    requires IsPriced(c)
    ensures Price(c).tokens.uncached + Price(c).tokens.cached + Price(c).tokens.written == c.input.value
    ensures Price(c).tokens.output == c.output.value
    ensures InputOf(c) + OutputOf(c) == LedgerOf(c) == c.total.value
  {
  }

  function PricedOne(c: Call): int {
    if IsPriced(c) then 1 else 0
  }

  /** What rounding added to the exact cost, in millionths of a micro-USD. */
  function Drift(c: Call): int {
    1_000_000 * LedgerOf(c) - ExactOf(c)
  }

  /** One call's ledger amount is within two micro-USD of its exact cost. */
  lemma CallRoundsClose(c: Call)
    ensures -2_000_000 * PricedOne(c) <= Drift(c) <= 2_000_000 * PricedOne(c)
  {
    if IsPriced(c) {
      var t, r := Price(c).tokens, c.rates.value;
      HalfUpIsClose(t.uncached * r.input.value);
      HalfUpIsClose(t.cached * r.cached.value);
      HalfUpIsClose(t.written * r.written.value);
      HalfUpIsClose(t.output * r.output.value);
    }
  }

  lemma {:induction false} DriftAddsUp(calls: seq<Call>, i: nat)
    requires i <= |calls|
    ensures SumTo(Drift, calls, i) == 1_000_000 * SumTo(LedgerOf, calls, i) - SumTo(ExactOf, calls, i)
  {
    if i > 0 {
      DriftAddsUp(calls, i - 1);
      assert Drift(calls[i - 1]) == 1_000_000 * LedgerOf(calls[i - 1]) - ExactOf(calls[i - 1]);
    }
  }

  lemma {:induction false} DriftIsBounded(calls: seq<Call>, i: nat)
    requires i <= |calls|
    ensures -2_000_000 * SumTo(PricedOne, calls, i) <= SumTo(Drift, calls, i) <= 2_000_000 * SumTo(PricedOne, calls, i)
  {
    if i > 0 {
      DriftIsBounded(calls, i - 1);
      CallRoundsClose(calls[i - 1]);
    }
  }

  /** Any number of calls: the ledger is within two micro-USD a priced call of the exact cost. */
  lemma LedgerRoundsClose(calls: seq<Call>)
    ensures -2_000_000 * Sum(PricedOne, calls)
      <= 1_000_000 * Sum(LedgerOf, calls) - Sum(ExactOf, calls)
      <= 2_000_000 * Sum(PricedOne, calls)
  {
    DriftAddsUp(calls, |calls|);
    DriftIsBounded(calls, |calls|);
  }

  /** The bound is attained: four components of half a micro-USD each are all rounded up. */
  lemma RoundingBoundIsTight() returns (c: Call)
    ensures IsPriced(c) && Drift(c) == 2_000_000
  {
    var half := Some(500_000);
    c := Call("", Control, Accepted, true, Some(3), Some(1), Some(4), Some(Rates(half, half, half, half, "")),
      Tokens(1), Tokens(1), true);
  }

  // ----- one candidate's calls

  /** Each pair has exactly one call under each condition, as the scorer has checked. */
  ghost predicate Matched(rows: seq<Call>, pairs: seq<string>) {
    && (forall i, j | 0 <= i < j < |pairs| :: pairs[i] != pairs[j])
    && (forall i, j | 0 <= i < j < |rows| :: rows[i].pair != rows[j].pair || rows[i].condition != rows[j].condition)
    && (forall c | c in rows :: c.pair in pairs)
    && (forall p, k | p in pairs :: HasCall(rows, p, k))
  }

  ghost predicate HasCall(rows: seq<Call>, pair: string, k: Condition) {
    exists c :: c in rows && c.pair == pair && c.condition == k
  }

  function ConditionOf(c: Call): Condition {
    c.condition
  }

  function Group(rows: seq<Call>, k: Condition): seq<Call> {
    ByKey(ConditionOf, rows, k)
  }

  datatype PairRow = PairRow(
    pair: string, bothCorrect: bool, regression: bool, inputSavings: Option<int>, outputDelta: Option<int>)

  datatype Costs = Costs(input: Option<int>, output: Option<int>, unknown: nat)

  datatype Native = Native(known: int, unknown: nat, total: Option<int>)

  datatype Report = Report(
    control: Costs, shared: Costs, pairs: seq<PairRow>, savings: Option<int>, outputDelta: Option<int>,
    totalSavings: Option<int>, readGain: Option<int>, allCorrect: bool, qualified: bool)

  // ----- totals of one condition

  function UnpricedOne(c: Call): int {
    if IsPriced(c) then 0 else 1
  }

  /** Sums are known only when every call of the group is priced. */
  ghost predicate CostsOf(group: seq<Call>, r: Costs) {
    && r.unknown == Sum(UnpricedOne, group)
    && r.input == (if r.unknown == 0 then Some(Sum(InputOf, group)) else None)
    && r.output == (if r.unknown == 0 then Some(Sum(OutputOf, group)) else None)
  }

  method TotalCosts(group: seq<Call>) returns (r: Costs)
    requires forall c | c in group :: Components(c).Ok?
    ensures CostsOf(group, r)
  {
    var input, output, unknown := 0, 0, 0;
    for i := 0 to |group|
      invariant unknown == SumTo(UnpricedOne, group, i) && unknown >= 0
      invariant input == SumTo(InputOf, group, i) && output == SumTo(OutputOf, group, i)
    {
      match Components(group[i]).value {
        case None => unknown := unknown + 1;
        case Some(p) => input, output := input + InputCost(p), output + p.costs.output;
      }
    }
    r := if unknown == 0 then Costs(Some(input), Some(output), unknown) else Costs(None, None, unknown);
  }

  /** The provider's own counter, kept only for calls with a settled receipt. */
  function CacheRead(c: Call): Counter {
    if Counted(c) then c.cached else Absent
  }

  function CacheWrite(c: Call): Counter {
    if Counted(c) then c.written else Absent
  }

  function KnownOf(counter: Call -> Counter): Call -> int {
    c => OrZero(counter(c))
  }

  function AbsentOf(counter: Call -> Counter): Call -> int {
    c => if counter(c).Absent? then 1 else 0
  }

  ghost predicate NativeOf(counter: Call -> Counter, group: seq<Call>, r: Native) {
    && r.known == Sum(KnownOf(counter), group)
    && r.unknown == Sum(AbsentOf(counter), group)
    && (r.total.Some? <==> forall c | c in group :: counter(c).Tokens?)
    && (r.total.Some? ==> r.total.value == r.known)
  }

  method CountNative(counter: Call -> Counter, group: seq<Call>) returns (r: Native)
    ensures NativeOf(counter, group, r)
  {
    var known, unknown, numbers := 0, 0, true;
    for i := 0 to |group|
      invariant known == SumTo(KnownOf(counter), group, i)
      invariant unknown == SumTo(AbsentOf(counter), group, i) && unknown >= 0
      invariant numbers <==> forall j | 0 <= j < i :: counter(group[j]).Tokens?
    {
      match counter(group[i]) {
        case Absent => unknown, numbers := unknown + 1, false;
        case Tokens(n) => known := known + n;
        case Malformed => numbers := false;
      }
    }
    r := Native(known, unknown, if numbers then Some(known) else None);
  }

  // ----- the pairs

  function Minus(a: Option<int>, b: Option<int>): Option<int> {
    if a.Some? && b.Some? then Some(a.value - b.value) else None
  }

  function PairOf(pair: string, a: Call, b: Call): PairRow {
    var both := IsPriced(a) && IsPriced(b);
    PairRow(pair, a.success && b.success, a.success && !b.success,
      if both then Some(InputOf(a) - InputOf(b)) else None,
      if both then Some(OutputOf(b) - OutputOf(a)) else None)
  }

  ghost predicate PairsOf(rows: seq<Call>, pairs: seq<string>, r: seq<PairRow>) {
    |r| == |pairs| && forall i | 0 <= i < |pairs| :: PairRowOf(rows, pairs[i], r[i])
  }

  ghost predicate PairRowOf(rows: seq<Call>, pair: string, r: PairRow) {
    exists a, b | a in rows && b in rows ::
      a.pair == pair && a.condition == Control && b.pair == pair && b.condition == Shared && r == PairOf(pair, a, b)
  }

  method ComparePairs(rows: seq<Call>, pairs: seq<string>) returns (r: seq<PairRow>)
    requires Matched(rows, pairs) && forall c | c in rows :: Components(c).Ok?
    ensures PairsOf(rows, pairs, r)
  {
    var byId: map<(string, Condition), Call> := map[];
    for i := 0 to |rows|
      invariant forall c | c in byId :: byId[c] in rows && byId[c].pair == c.0 && byId[c].condition == c.1
      invariant forall j | 0 <= j < i :: (rows[j].pair, rows[j].condition) in byId
    {
      byId := byId[(rows[i].pair, rows[i].condition) := rows[i]];
    }
    r := [];
    for i := 0 to |pairs|
      invariant |r| == i && forall j | 0 <= j < i :: PairRowOf(rows, pairs[j], r[j])
    {
      assert HasCall(rows, pairs[i], Control) && HasCall(rows, pairs[i], Shared);
      var a, b := byId[(pairs[i], Control)], byId[(pairs[i], Shared)];
      r := r + [PairOf(pairs[i], a, b)];
    }
  }

  // ----- the report

  predicate SameRates(a: Call, b: Call)
    requires IsPriced(a) && IsPriced(b)
  {
    a.rates.value.text == b.rates.value.text
  }

  /** All priced calls used one price table. */
  ghost predicate OneTable(rows: seq<Call>) {
    forall a, b | a in rows && b in rows && IsPriced(a) && IsPriced(b) :: SameRates(a, b)
  }

  /** The first call, in order, whose record contradicts itself. */
  ghost predicate FirstBroken(rows: seq<Call>, e: Refusal) {
    exists i :: 0 <= i < |rows| && Components(rows[i]) == Err(e) && forall j | 0 <= j < i :: Components(rows[j]).Ok?
  }

  ghost predicate Sound(rows: seq<Call>) {
    forall c | c in rows :: Components(c).Ok?
  }

  method CheckRows(rows: seq<Call>) returns (refusal: Option<Refusal>)
    ensures refusal.None? <==> Sound(rows) && OneTable(rows)
    ensures refusal.Some? && !Sound(rows) ==> FirstBroken(rows, refusal.value)
    ensures refusal.Some? && Sound(rows) ==> refusal.value == MixedRates
  {
    var table: Option<string>, mixed := None, false;
    for i := 0 to |rows|
      invariant forall j | 0 <= j < i :: Components(rows[j]).Ok?
      invariant table.None? <==> forall j | 0 <= j < i :: !IsPriced(rows[j])
      invariant table.Some? ==> exists j :: 0 <= j < i && IsPriced(rows[j]) && rows[j].rates.value.text == table.value
      invariant !mixed ==> forall j | 0 <= j < i && IsPriced(rows[j]) :: Some(rows[j].rates.value.text) == table
      invariant mixed ==> exists j, k ::
        0 <= j < k < i && IsPriced(rows[j]) && IsPriced(rows[k]) && !SameRates(rows[j], rows[k])
    {
      match Components(rows[i]) {
        case Err(e) => return Some(e);
        case Ok(None) =>
        case Ok(Some(_)) =>
          var text := rows[i].rates.value.text;
          if table.None? {
            table := Some(text);
          } else if table.value != text {
            mixed := true;
          }
      }
    }
    refusal := if mixed then Some(MixedRates) else None;
  }

  /** The native counters of the two conditions, for reads and writes. */
  datatype Counters = Counters(readControl: Native, readShared: Native, writeControl: Native, writeShared: Native)

  ghost predicate CountersOf(rows: seq<Call>, n: Counters) {
    && NativeOf(CacheRead, Group(rows, Control), n.readControl)
    && NativeOf(CacheRead, Group(rows, Shared), n.readShared)
    && NativeOf(CacheWrite, Group(rows, Control), n.writeControl)
    && NativeOf(CacheWrite, Group(rows, Shared), n.writeShared)
  }

  predicate Above(a: Option<int>) {
    a.Some? && a.value > 0
  }

  /** How the report follows from the two conditions' costs and counters and the pairs. */
  predicate Concludes(complete: bool, n: Counters, r: Report) {
    && r.savings == Minus(r.control.input, r.shared.input)
    && r.outputDelta == (if r.savings.Some? then Minus(r.shared.output, r.control.output) else None)
    && r.totalSavings == Minus(r.savings, r.outputDelta)
    && r.readGain == (if n.readControl.unknown == 0 && n.readShared.unknown == 0
                      then Minus(n.readShared.total, n.readControl.total) else None)
    && (r.allCorrect <==> forall p | p in r.pairs :: p.bothCorrect)
    && (r.qualified <==>
          && complete && r.allCorrect
          && n.readControl.unknown == 0 && n.readShared.unknown == 0
          && n.writeControl.unknown == 0 && n.writeShared.unknown == 0
          && Above(r.savings) && Above(r.totalSavings) && Above(r.readGain))
  }

  /** What the report says of calls that passed the checks. */
  ghost predicate Reports(rows: seq<Call>, pairs: seq<string>, complete: bool, n: Counters, r: Report) {
    && CostsOf(Group(rows, Control), r.control)
    && CostsOf(Group(rows, Shared), r.shared)
    && PairsOf(rows, pairs, r.pairs)
    && CountersOf(rows, n)
    && Concludes(complete, n, r)
  }

  /** Complete counters that are not all numbers cannot be subtracted. */
  predicate Unsubtractable(n: Counters) {
    && n.readControl.unknown == 0 && n.readShared.unknown == 0
    && (n.readControl.total.None? || n.readShared.total.None?)
  }

  method Conclude(control: Costs, shared: Costs, pairs: seq<PairRow>, complete: bool, n: Counters)
    returns (r: Result<Report, Refusal>)
    requires control.input.Some? == control.output.Some? && shared.input.Some? == shared.output.Some?
    ensures r.Ok? <==> !Unsubtractable(n)
    ensures r.Ok? ==> Concludes(complete, n, r.value)
    ensures r.Ok? ==> r.value.control == control && r.value.shared == shared && r.value.pairs == pairs
    ensures r.Err? ==> r.error == NotANumber
  {
    var savings, outputDelta, totalSavings := None, None, None;
    if control.input.Some? && shared.input.Some? {
      savings := Some(control.input.value - shared.input.value);
      outputDelta := Some(shared.output.value - control.output.value);
      totalSavings := Some(savings.value - outputDelta.value);
    }
    var readGain := None;
    if n.readControl.unknown == 0 && n.readShared.unknown == 0 {
      if n.readControl.total.None? || n.readShared.total.None? {
        return Err(NotANumber);
      }
      readGain := Some(n.readShared.total.value - n.readControl.total.value);
    }
    var allCorrect := forall p | p in pairs :: p.bothCorrect;
    var qualified := complete && allCorrect && readGain.Some?
      && n.writeControl.unknown == 0 && n.writeShared.unknown == 0
      && Above(savings) && Above(totalSavings) && Above(readGain);
    r := Ok(Report(control, shared, pairs, savings, outputDelta, totalSavings, readGain, allCorrect, qualified));
  }

  method Analyze(rows: seq<Call>, pairs: seq<string>, complete: bool)
    returns (r: Result<Report, Refusal>, n: Counters)
    requires Matched(rows, pairs)
    ensures r.Ok? <==> Sound(rows) && OneTable(rows) && !Unsubtractable(n)
    ensures r.Ok? ==> Reports(rows, pairs, complete, n, r.value)
    ensures Sound(rows) && OneTable(rows) ==> CountersOf(rows, n)
    ensures r.Err? && !Sound(rows) ==> FirstBroken(rows, r.error)
  {
    var refusal := CheckRows(rows);
    if refusal.Some? {
      var nothing := Native(0, 0, None);
      return Err(refusal.value), Counters(nothing, nothing, nothing, nothing);
    }
    var controlRows, sharedRows := Group(rows, Control), Group(rows, Shared);
    GroupMembers(rows, Control);
    GroupMembers(rows, Shared);
    var control := TotalCosts(controlRows);
    var shared := TotalCosts(sharedRows);
    var readControl := CountNative(CacheRead, controlRows);
    var readShared := CountNative(CacheRead, sharedRows);
    var writeControl := CountNative(CacheWrite, controlRows);
    var writeShared := CountNative(CacheWrite, sharedRows);
    n := Counters(readControl, readShared, writeControl, writeShared);
    var compared := ComparePairs(rows, pairs);
    r := Conclude(control, shared, compared, complete, n);
  }

  lemma GroupMembers(rows: seq<Call>, k: Condition)
    ensures forall c :: c in Group(rows, k) <==> c in rows && c.condition == k
  {
    forall c: Call
      ensures c in Group(rows, k) <==> c in rows && c.condition == k
    {
      ByKeyCounts(ConditionOf, rows, k, c, |rows|);
      assert rows[..|rows|] == rows;
      assert c in Group(rows, k) <==> multiset(Group(rows, k))[c] > 0;
      assert c in rows <==> multiset(rows)[c] > 0;
    }
  }

  // ----- the pairs, the conditions and the ledger agree

  function SavedIn(p: PairRow): int {
    if p.inputSavings.Some? then p.inputSavings.value else 0
  }

  function AddedIn(p: PairRow): int {
    if p.outputDelta.Some? then p.outputDelta.value else 0
  }

  /** The calls of one condition, listed in the order of the pairs. */
  lemma PairCalls(rows: seq<Call>, pairs: seq<string>, k: Condition) returns (calls: seq<Call>)
    requires Matched(rows, pairs)
    ensures |calls| == |pairs| && Permutes(Group(rows, k), calls)
    ensures forall i | 0 <= i < |pairs| ::
      calls[i] in rows && calls[i].pair == pairs[i] && calls[i].condition == k
  {
    calls := [];
    for i := 0 to |pairs|
      invariant |calls| == i
      invariant forall j | 0 <= j < i :: calls[j] in rows && calls[j].pair == pairs[j] && calls[j].condition == k
    {
      assert HasCall(rows, pairs[i], k);
      var c :| c in rows && c.pair == pairs[i] && c.condition == k;
      calls := calls + [c];
    }
    ListsGroup(rows, pairs, k, calls);
  }

  lemma ListsGroup(rows: seq<Call>, pairs: seq<string>, k: Condition, calls: seq<Call>)
    requires Matched(rows, pairs) && |calls| == |pairs|
    requires forall i | 0 <= i < |pairs| ::
      calls[i] in rows && calls[i].pair == pairs[i] && calls[i].condition == k
    ensures Permutes(Group(rows, k), calls)
  {
    forall c: Call
      ensures multiset(Group(rows, k))[c] == multiset(calls)[c]
    {
      ByKeyCounts(ConditionOf, rows, k, c, |rows|);
      assert rows[..|rows|] == rows;
      OccursOnce(rows, c);
      assert forall i, j | 0 <= i < j < |calls| :: calls[i].pair != calls[j].pair;
      OccursOnce(calls, c);
      ListedCall(rows, pairs, k, calls, c);
    }
  }

  lemma ListedCall(rows: seq<Call>, pairs: seq<string>, k: Condition, calls: seq<Call>, c: Call)
    requires Matched(rows, pairs) && |calls| == |pairs|
    requires forall i | 0 <= i < |pairs| ::
      calls[i] in rows && calls[i].pair == pairs[i] && calls[i].condition == k
    ensures c in calls <==> c in rows && c.condition == k
  {
    if c in rows && c.condition == k {
      var i :| 0 <= i < |pairs| && pairs[i] == c.pair;
      OneCall(rows, pairs, c, calls[i]);
    }
  }

  lemma OneCall(rows: seq<Call>, pairs: seq<string>, a: Call, b: Call)
    requires Matched(rows, pairs) && a in rows && b in rows && a.pair == b.pair && a.condition == b.condition
    ensures a == b
  {
    var i :| 0 <= i < |rows| && rows[i] == a;
    var j :| 0 <= j < |rows| && rows[j] == b;
  }

  lemma NoneUnpriced(group: seq<Call>, i: nat)
    requires Sum(UnpricedOne, group) == 0 && i < |group|
    ensures IsPriced(group[i])
  {
    SumToMonotone(UnpricedOne, group, 0, i);
    var n := i + 1;
    SumToMonotone(UnpricedOne, group, n, |group|);
    assert SumTo(UnpricedOne, group, n) == SumTo(UnpricedOne, group, i) + UnpricedOne(group[i]);
  }

  lemma LedgerIsInputAndOutput(group: seq<Call>)
    ensures Sum(LedgerOf, group) == Sum(InputOf, group) + Sum(OutputOf, group)
  {
    forall i | 0 <= i < |group|
      ensures LedgerOf(group[i]) == InputOf(group[i]) + OutputOf(group[i])
    {
      if IsPriced(group[i]) {
        PartsAddUp(group[i]);
      }
    }
    SumToPlus(InputOf, OutputOf, LedgerOf, group, |group|);
  }

  lemma {:induction false} PairSums(rows: seq<PairRow>, a: seq<Call>, b: seq<Call>, pairs: seq<string>, i: nat)
    requires |rows| == |a| == |b| == |pairs| && i <= |rows|
    requires forall j | 0 <= j < |rows| :: IsPriced(a[j]) && IsPriced(b[j]) && rows[j] == PairOf(pairs[j], a[j], b[j])
    ensures SumTo(SavedIn, rows, i) == SumTo(InputOf, a, i) - SumTo(InputOf, b, i)
    ensures SumTo(AddedIn, rows, i) == SumTo(OutputOf, b, i) - SumTo(OutputOf, a, i)
  {
    if i > 0 {
      PairSums(rows, a, b, pairs, i - 1);
      assert rows[i - 1] == PairOf(pairs[i - 1], a[i - 1], b[i - 1]);
    }
  }

  lemma AllPriced(group: seq<Call>, calls: seq<Call>)
    requires Permutes(group, calls) && Sum(UnpricedOne, group) == 0
    ensures forall i | 0 <= i < |calls| :: IsPriced(calls[i])
  {
    SumPermutes(UnpricedOne, group, calls);
    forall i | 0 <= i < |calls|
      ensures IsPriced(calls[i])
    {
      NoneUnpriced(calls, i);
    }
  }

  lemma PairRowsAre(rows: seq<Call>, pairs: seq<string>, r: seq<PairRow>, a: seq<Call>, b: seq<Call>)
    requires Matched(rows, pairs) && PairsOf(rows, pairs, r) && |a| == |b| == |pairs|
    requires forall i | 0 <= i < |pairs| :: a[i] in rows && a[i].pair == pairs[i] && a[i].condition == Control
    requires forall i | 0 <= i < |pairs| :: b[i] in rows && b[i].pair == pairs[i] && b[i].condition == Shared
    ensures forall i | 0 <= i < |pairs| :: r[i] == PairOf(pairs[i], a[i], b[i])
  {
    forall i | 0 <= i < |pairs|
      ensures r[i] == PairOf(pairs[i], a[i], b[i])
    {
      assert PairRowOf(rows, pairs[i], r[i]);
      var c, d :| c in rows && d in rows && c.pair == pairs[i] && c.condition == Control
        && d.pair == pairs[i] && d.condition == Shared && r[i] == PairOf(pairs[i], c, d);
      OneCall(rows, pairs, c, a[i]);
      OneCall(rows, pairs, d, b[i]);
    }
  }

  lemma GroupSums(group: seq<Call>, calls: seq<Call>)
    requires Permutes(group, calls)
    ensures Sum(InputOf, group) == Sum(InputOf, calls) && Sum(OutputOf, group) == Sum(OutputOf, calls)
  {
    SumPermutes(InputOf, group, calls);
    SumPermutes(OutputOf, group, calls);
  }

  /** The rows of a report whose calls are all priced, summed over those calls. */
  lemma PricedPairs(rows: seq<Call>, pairs: seq<string>, r: seq<PairRow>)
    requires Matched(rows, pairs) && PairsOf(rows, pairs, r)
    requires Sum(UnpricedOne, Group(rows, Control)) == 0 && Sum(UnpricedOne, Group(rows, Shared)) == 0
    ensures Sum(SavedIn, r) == Sum(InputOf, Group(rows, Control)) - Sum(InputOf, Group(rows, Shared))
    ensures Sum(AddedIn, r) == Sum(OutputOf, Group(rows, Shared)) - Sum(OutputOf, Group(rows, Control))
    ensures forall p | p in r :: p.inputSavings.Some? && p.outputDelta.Some?
  {
    var a := PairCalls(rows, pairs, Control);
    var b := PairCalls(rows, pairs, Shared);
    AllPriced(Group(rows, Control), a);
    AllPriced(Group(rows, Shared), b);
    PairRowsAre(rows, pairs, r, a, b);
    PairSums(r, a, b, pairs, |pairs|);
    GroupSums(Group(rows, Control), a);
    GroupSums(Group(rows, Shared), b);
  }

  /**
  When every call is priced, the savings of the pairs add up to those of the conditions, and the total
  is what the ledger charged the control calls less what it charged the shared ones.
  */
  lemma SavingsAddUp(rows: seq<Call>, pairs: seq<string>, complete: bool, n: Counters, r: Report)
    requires Matched(rows, pairs) && Reports(rows, pairs, complete, n, r) && r.savings.Some?
    ensures r.outputDelta.Some? && r.totalSavings.Some?
    ensures Sum(SavedIn, r.pairs) == r.savings.value && Sum(AddedIn, r.pairs) == r.outputDelta.value
    ensures forall p | p in r.pairs :: p.inputSavings.Some? && p.outputDelta.Some?
    ensures r.totalSavings.value == Sum(LedgerOf, Group(rows, Control)) - Sum(LedgerOf, Group(rows, Shared))
  {
    PricedPairs(rows, pairs, r.pairs);
    LedgerIsInputAndOutput(Group(rows, Control));
    LedgerIsInputAndOutput(Group(rows, Shared));
  }

  lemma {:induction false} AtMostOneEach(calls: seq<Call>, i: nat)
    requires i <= |calls|
    ensures SumTo(PricedOne, calls, i) <= i
  {
    if i > 0 {
      AtMostOneEach(calls, i - 1);
    }
  }

  /** The reported total is within four micro-USD a pair of the exact difference. */
  lemma SavingsAreExactUpToRounding(rows: seq<Call>, pairs: seq<string>, complete: bool, n: Counters, r: Report)
    requires Matched(rows, pairs) && Reports(rows, pairs, complete, n, r) && r.savings.Some?
    ensures r.totalSavings.Some?
    ensures var exact := Sum(ExactOf, Group(rows, Control)) - Sum(ExactOf, Group(rows, Shared));
      -4_000_000 * |pairs| <= 1_000_000 * r.totalSavings.value - exact <= 4_000_000 * |pairs|
  {
    SavingsAddUp(rows, pairs, complete, n, r);
    GroupIsClose(rows, pairs, Control);
    GroupIsClose(rows, pairs, Shared);
  }

  lemma GroupIsClose(rows: seq<Call>, pairs: seq<string>, k: Condition)
    requires Matched(rows, pairs)
    ensures -2_000_000 * |pairs|
      <= 1_000_000 * Sum(LedgerOf, Group(rows, k)) - Sum(ExactOf, Group(rows, k))
      <= 2_000_000 * |pairs|
  {
    var calls := PairCalls(rows, pairs, k);
    PermutesLength(Group(rows, k), calls);
    LedgerRoundsClose(Group(rows, k));
    AtMostOneEach(Group(rows, k), |Group(rows, k)|);
  }

  lemma NoneAbsent(counter: Call -> Counter, group: seq<Call>, c: Call)
    requires Sum(AbsentOf(counter), group) == 0 && c in group
    ensures !counter(c).Absent?
  {
    var i :| 0 <= i < |group| && group[i] == c;
    SumToMonotone(AbsentOf(counter), group, 0, i);
    var n := i + 1;
    SumToMonotone(AbsentOf(counter), group, n, |group|);
    assert SumTo(AbsentOf(counter), group, n) == SumTo(AbsentOf(counter), group, i) + AbsentOf(counter)(c);
  }

  lemma GroupIsComplete(rows: seq<Call>, k: Condition, costs: Costs, read: Native, write: Native, c: Call)
    requires c in rows && c.condition == k
    requires CostsOf(Group(rows, k), costs) && costs.input.Some?
    requires NativeOf(CacheRead, Group(rows, k), read) && read.unknown == 0
    requires NativeOf(CacheWrite, Group(rows, k), write) && write.unknown == 0
    ensures IsPriced(c) && c.cached.Tokens? && c.written.Tokens?
  {
    var group := Group(rows, k);
    GroupMembers(rows, k);
    var i :| 0 <= i < |group| && group[i] == c;
    NoneUnpriced(group, i);
    NoneAbsent(CacheRead, group, c);
    NoneAbsent(CacheWrite, group, c);
  }

  /** A qualified result rests on complete accounting of correct calls, and on a gain in money and in reads. */
  lemma QualifiedMeans(rows: seq<Call>, pairs: seq<string>, complete: bool, n: Counters, r: Report, c: Call)
    requires Matched(rows, pairs) && Reports(rows, pairs, complete, n, r) && r.qualified
    ensures c in rows ==> IsPriced(c) && c.cached.Tokens? && c.written.Tokens? && c.success
    ensures Sum(LedgerOf, Group(rows, Shared)) < Sum(LedgerOf, Group(rows, Control))
    ensures Sum(InputOf, Group(rows, Shared)) < Sum(InputOf, Group(rows, Control))
    ensures Sum(KnownOf(CacheRead), Group(rows, Control)) < Sum(KnownOf(CacheRead), Group(rows, Shared))
  {
    SavingsAddUp(rows, pairs, complete, n, r);
    if c in rows {
      match c.condition
      case Control => GroupIsComplete(rows, Control, r.control, n.readControl, n.writeControl, c);
      case Shared => GroupIsComplete(rows, Shared, r.shared, n.readShared, n.writeShared, c);
      CorrectPair(rows, pairs, r.pairs, c);
    }
  }

  lemma CorrectPair(rows: seq<Call>, pairs: seq<string>, r: seq<PairRow>, c: Call)
    requires Matched(rows, pairs) && PairsOf(rows, pairs, r) && c in rows && forall p | p in r :: p.bothCorrect
    ensures c.success
  {
    var i :| 0 <= i < |pairs| && pairs[i] == c.pair;
    assert PairRowOf(rows, pairs[i], r[i]) && r[i] in r;
    var a, b :| a in rows && b in rows && a.pair == pairs[i] && a.condition == Control
      && b.pair == pairs[i] && b.condition == Shared && r[i] == PairOf(pairs[i], a, b);
    match c.condition
    case Control => OneCall(rows, pairs, c, a);
    case Shared => OneCall(rows, pairs, c, b);
  }
}
