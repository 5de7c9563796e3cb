/**
The guest dashboard: one pass over the guests keeps running totals and four maps of counts, and
three sorts turn the maps and the candidate rows into lists.

The lists are specified by what they must contain, so the lemmas at the end can say that neither
the order of a Go map nor the order of the guests shows in them.
*/
module GuestAnalytics {
  import opened Wrappers
  import opened ByteStrings
  import opened Runes
  import opened Sequences

  const TOP := 5
  const NO_DIET := "Ninguna"

  /** One guest row; `day` is the calendar day of the answer, already formatted. */
  datatype Guest = Guest(
    id: string, firstName: string, lastName: string, role: string, table: string, status: string,
    party: int, diet: string, means: string, day: Option<string>)

  datatype Answer = Confirmed | Declined | Pending

  datatype NameCount = NameCount(name: string, value: int)

  datatype Point = Point(date: string, confirmed: int, declined: int)

  datatype Companions = Companions(id: string, firstName: string, lastName: string, role: string, count: int)

  datatype Summary = Summary(
    total: int, confirmed: int, declined: int, pending: int, companions: int, attendees: int,
    dietary: seq<NameCount>, methods: seq<NameCount>, roles: seq<NameCount>, tables: seq<NameCount>,
    timeline: seq<Point>, top: seq<Companions>)

  // ----- what one guest contributes

  function AnswerOf(g: Guest): Answer {
    var status := ToUpper(TrimSpace(g.status));
    if status == "CONFIRMED" then Confirmed else if status == "DECLINED" then Declined else Pending
  }

  function PartyOf(g: Guest): int {
    if !AnswerOf(g).Confirmed? then 0 else if g.party < 1 then 1 else g.party
  }

  function CompanionsOf(g: Guest): int {
    if AnswerOf(g).Confirmed? then PartyOf(g) - 1 else 0
  }

  function RoleOf(g: Guest): Option<string> {
    Some(TrimSpace(g.role))
  }

  function TableOf(g: Guest): Option<string> {
    if TrimSpace(g.table) == "" then None else Some(TrimSpace(g.table))
  }

  function DietOf(g: Guest): Option<string> {
    if !AnswerOf(g).Confirmed? then None
    else if TrimSpace(g.diet) == "" then Some(NO_DIET)
    else Some(TrimSpace(g.diet))
  }

  function MethodOf(g: Guest): Option<string> {
    if AnswerOf(g).Pending? then None else Some(TrimSpace(g.means))
  }

  function ConfirmedOn(g: Guest): Option<string> {
    if AnswerOf(g).Confirmed? then g.day else None
  }

  function DeclinedOn(g: Guest): Option<string> {
    if AnswerOf(g).Declined? then g.day else None
  }

  function RowOf(g: Guest): Option<Companions> {
    if CompanionsOf(g) > 0
    then Some(Companions(g.id, g.firstName, g.lastName, g.role, CompanionsOf(g)))
    else None
  }

  // ----- counting

  function One(g: Guest): int {
    1
  }

  /** 1 for the elements whose key is `k`. */
  function Has<T, K(==)>(key: T -> K, k: K): T -> int {
    x => if key(x) == k then 1 else 0
  }

  /** 1 for the elements that have a key. */
  function Keyed<T, K>(key: T -> Option<K>): T -> int {
    x => if key(x).Some? then 1 else 0
  }

  function Count<T, K(==)>(key: T -> K, k: K, s: seq<T>): int {
    Sum(Has(key, k), s)
  }

  function Got(m: map<string, int>, name: string): int {
    if name in m then m[name] else 0
  }

  /** The map holds the count of every name among the first `i` elements, and no zero. */
  ghost predicate Tallies<T>(m: map<string, int>, key: T -> Option<string>, s: seq<T>, i: nat)
    requires i <= |s|
  {
    forall name :: Got(m, name) == SumTo(Has(key, Some(name)), s, i) && (name in m ==> m[name] > 0)
  }

  lemma CountPositive<T, K>(key: T -> K, k: K, s: seq<T>, i: nat)
    requires i < |s| && key(s[i]) == k
    ensures Count(key, k, s) > 0
  {
    SumToMonotone(Has(key, k), s, 0, i);
    SumToMonotone(Has(key, k), s, i + 1, |s|);
  }

  lemma {:induction false} CountWitness<T, K>(key: T -> K, k: K, s: seq<T>, i: nat)
    requires i <= |s| && SumTo(Has(key, k), s, i) > 0
    ensures exists j :: 0 <= j < i && key(s[j]) == k
  {
    if key(s[i - 1]) != k {
      CountWitness(key, k, s, i - 1);
    }
  }

  // ----- lists of counts

  function NameOf(c: NameCount): string {
    c.name
  }

  function ValueOf(c: NameCount): int {
    c.value
  }

  /** Larger values first, then names in order: the negation of the source's strict order, reversed. */
  predicate Before(a: NameCount, b: NameCount) {
    if a.value == b.value then StrLeq(a.name, b.name) else a.value > b.value
  }

  /** `list` names every key that occurs, once, with its number of occurrences, in rank order. */
  ghost predicate CountsOf<T>(key: T -> Option<string>, s: seq<T>, list: seq<NameCount>) {
    && SortedBy(Before, list)
    && DistinctBy(NameOf, list)
    && forall x :: x in list <==> x.value == Count(key, Some(x.name), s) && x.value > 0
  }

  lemma BeforeIsTotal()
    ensures TotalPreorder(Before)
  {
    forall a, b
      ensures Before(a, b) || Before(b, a)
    {
      StrLeqTotal(a.name, b.name);
    }
    forall a, b, c | Before(a, b) && Before(b, c)
      ensures Before(a, c)
    {
      if a.value == b.value == c.value {
        StrLeqTransitive(a.name, b.name, c.name);
      }
    }
  }

  /** Turns a map of counts into a list; the map's own order of iteration is arbitrary. */
  method SortedCounts<T>(m: map<string, int>, ghost key: T -> Option<string>, ghost s: seq<T>)
    returns (list: seq<NameCount>)
    requires Tallies(m, key, s, |s|)
    ensures CountsOf(key, s, list)
  {
    var rows: seq<NameCount> := [];
    var rest := m.Keys;
    while rest != {}
      invariant rest <= m.Keys && DistinctBy(NameOf, rows)
      invariant forall x :: x in rows <==> x.name in m.Keys - rest && x.value == m[x.name]
      decreases |rest|
    {
      var name :| name in rest;
      DistinctByExtend(NameOf, rows, NameCount(name, m[name]));
      rows := rows + [NameCount(name, m[name])];
      rest := rest - {name};
    }
    BeforeIsTotal();
    list := Sort(Before, rows);
    DistinctByPermutes(NameOf, rows, list);
    forall x: NameCount
      ensures x in list <==> x.value == Count(key, Some(x.name), s) && x.value > 0
    {
      PermutesMembers(rows, list, x);
      assert Got(m, x.name) == Count(key, Some(x.name), s);
    }
  }

  /** 1 for the elements whose key is among the first `j` names. */
  function Among<T>(key: T -> Option<string>, names: seq<string>, j: nat): T -> int
    requires j <= |names|
  {
    x => if key(x).Some? && key(x).value in names[..j] then 1 else 0
  }

  /** The counts of distinct names add up to the elements that have one of them. */
  lemma {:induction false} CountsAddUp<T>(key: T -> Option<string>, s: seq<T>, names: seq<string>, j: nat)
    requires j <= |names| && (forall a, b | 0 <= a < b < |names| :: names[a] != names[b])
    ensures SumOfCounts(key, s, names, j) == Sum(Among(key, names, j), s)
  {
    if j == 0 {
      NoneSum(Among(key, names, 0), s, |s|);
    } else {
      CountsAddUp(key, s, names, j - 1);
      assert names[..j] == names[..j - 1] + [names[j - 1]];
      SumToPlus(Among(key, names, j - 1), Has(key, Some(names[j - 1])), Among(key, names, j), s, |s|);
    }
  }

  function SumOfCounts<T>(key: T -> Option<string>, s: seq<T>, names: seq<string>, j: nat): int
    requires j <= |names|
  {
    if j == 0 then 0 else SumOfCounts(key, s, names, j - 1) + Count(key, Some(names[j - 1]), s)
  }

  lemma {:induction false} NoneSum<T>(f: T -> int, s: seq<T>, i: nat)
    requires i <= |s| && forall j | 0 <= j < i :: f(s[j]) == 0
    ensures SumTo(f, s, i) == 0
  {
    if i > 0 {
      NoneSum(f, s, i - 1);
    }
  }

  lemma {:induction false} ValuesAreCounts<T>(key: T -> Option<string>, s: seq<T>, list: seq<NameCount>, j: nat)
    requires j <= |list| && CountsOf(key, s, list)
    ensures SumTo(ValueOf, list, j) == SumOfCounts(key, s, Map(NameOf, list), j)
  {
    if j > 0 {
      ValuesAreCounts(key, s, list, j - 1);
      assert list[j - 1] in list;
    }
  }

  /** The listed counts add up to the number of elements that have a key. */
  lemma CountsTotal<T>(key: T -> Option<string>, s: seq<T>, list: seq<NameCount>)
    requires CountsOf(key, s, list)
    ensures Sum(ValueOf, list) == Sum(Keyed(key), s)
  {
    var names := Map(NameOf, list);
    ValuesAreCounts(key, s, list, |list|);
    CountsAddUp(key, s, names, |names|);
    assert names[..|names|] == names;
    forall i | 0 <= i < |s|
      ensures Among(key, names, |names|)(s[i]) == Keyed(key)(s[i])
    {
      if key(s[i]).Some? {
        CountPositive(key, key(s[i]), s, i);
        var row := NameCount(key(s[i]).value, Count(key, key(s[i]), s));
        assert row in list;
        var k :| 0 <= k < |list| && list[k] == row;
        assert names[k] == row.name;
      }
    }
    SumToSame(Among(key, names, |names|), Keyed(key), s, |s|);
  }

  /** Whatever order the map and the elements came in, the list is the same. */
  lemma CountsAreDetermined<T>(key: T -> Option<string>, s: seq<T>, t: seq<T>, a: seq<NameCount>, b: seq<NameCount>)
    requires Permutes(s, t) && CountsOf(key, s, a) && CountsOf(key, t, b)
    ensures a == b
  {
    forall x: NameCount
      ensures x in a <==> x in b
    {
      SumPermutes(Has(key, Some(x.name)), s, t);
    }
    forall i, j | 0 <= i < j < |a|
      ensures a[i] != a[j]
    {
      assert NameOf(a[i]) != NameOf(a[j]);
    }
    forall i, j | 0 <= i < j < |b|
      ensures b[i] != b[j]
    {
      assert NameOf(b[i]) != NameOf(b[j]);
    }
    DistinctMembersPermute(a, b);
    forall x, y | Before(x, y) && Before(y, x)
      ensures x == y
    {
      StrLeqAntisymmetric(x.name, y.name);
    }
    SortedUnique(Before, a, b);
  }

  // ----- the timeline

  /** 1 for the elements dated no later than `day`. */
  function UpTo<T>(dated: T -> Option<string>, day: string): T -> int {
    x => if dated(x).Some? && StrLeq(dated(x).value, day) then 1 else 0
  }

  predicate Earlier(a: string, b: string) {
    StrLeq(a, b) && a != b
  }

  ghost predicate Increasing(days: seq<string>) {
    forall i, j | 0 <= i < j < |days| :: Earlier(days[i], days[j])
  }

  function DateOf(p: Point): string {
    p.date
  }

  ghost predicate Dated(s: seq<Guest>, day: string) {
    exists g :: g in s && (ConfirmedOn(g) == Some(day) || DeclinedOn(g) == Some(day))
  }

  /** One point for each day with an answer, in order, each counting all answers up to its day. */
  ghost predicate TimelineOf(s: seq<Guest>, timeline: seq<Point>) {
    && Increasing(Map(DateOf, timeline))
    && (forall day :: day in Map(DateOf, timeline) <==> Dated(s, day))
    && forall p | p in timeline ::
      p.confirmed == Sum(UpTo(ConfirmedOn, p.date), s) && p.declined == Sum(UpTo(DeclinedOn, p.date), s)
  }

  /** With every dated element's day listed, counting up to a day adds the days up to it. */
  lemma UpToIsAmong<T>(dated: T -> Option<string>, s: seq<T>, days: seq<string>, j: nat)
    requires j < |days| && Increasing(days)
    requires forall i | 0 <= i < |s| && dated(s[i]).Some? :: dated(s[i]).value in days
    ensures var n := j + 1; SumOfCounts(dated, s, days, n) == Sum(UpTo(dated, days[j]), s)
  {
    var n := j + 1;
    CountsAddUp(dated, s, days, n);
    forall i | 0 <= i < |s|
      ensures Among(dated, days, n)(s[i]) == UpTo(dated, days[j])(s[i])
    {
      if dated(s[i]).Some? {
        var k :| 0 <= k < |days| && days[k] == dated(s[i]).value;
        DayOrder(days, k, j);
        assert k < n ==> days[..n][k] == days[k];
      }
    }
    SumToSame(Among(dated, days, n), UpTo(dated, days[j]), s, |s|);
  }

  lemma DayOrder(days: seq<string>, k: nat, j: nat)
    requires k < |days| && j < |days| && Increasing(days)
    ensures StrLeq(days[k], days[j]) <==> k <= j
    ensures k > j ==> forall i | 0 <= i <= j :: days[i] != days[k]
  {
    if k > j {
      assert Earlier(days[j], days[k]);
      if StrLeq(days[k], days[j]) {
        StrLeqAntisymmetric(days[k], days[j]);
      }
    } else if k < j {
      assert Earlier(days[k], days[j]);
    } else {
      StrLeqTotal(days[k], days[k]);
    }
  }

  lemma DaysAreDetermined(a: seq<string>, b: seq<string>)
    requires Increasing(a) && Increasing(b) && forall day :: day in a <==> day in b
    ensures a == b
  {
    assert forall i, j | 0 <= i < j < |a| :: Earlier(a[i], a[j]);
    assert forall i, j | 0 <= i < j < |b| :: Earlier(b[i], b[j]);
    DistinctMembersPermute(a, b);
    forall x, y | StrLeq(x, y) && StrLeq(y, x)
      ensures x == y
    {
      StrLeqAntisymmetric(x, y);
    }
    SortedUnique(StrLeq, a, b);
  }

  lemma TimelineIsDetermined(s: seq<Guest>, t: seq<Guest>, a: seq<Point>, b: seq<Point>)
    requires Permutes(s, t) && TimelineOf(s, a) && TimelineOf(t, b)
    ensures a == b
  {
    forall g
      ensures g in s <==> g in t
    {
      PermutesMembers(s, t, g);
    }
    assert forall day :: Dated(s, day) <==> Dated(t, day);
    DaysAreDetermined(Map(DateOf, a), Map(DateOf, b));
    forall i | 0 <= i < |a|
      ensures a[i] == b[i]
    {
      assert Map(DateOf, a)[i] == Map(DateOf, b)[i];
      assert a[i] in a && b[i] in b;
      SumPermutes(UpTo(ConfirmedOn, a[i].date), s, t);
      SumPermutes(UpTo(DeclinedOn, a[i].date), s, t);
    }
  }

  // ----- the parties with most companions

  predicate AtLeast(a: Companions, b: Companions) {
    a.count >= b.count
  }

  function CandidatesTo(s: seq<Guest>, i: nat): seq<Companions>
    requires i <= |s|
  {
    if i == 0 then [] else
      match RowOf(s[i - 1])
      case None => CandidatesTo(s, i - 1)
      case Some(row) => CandidatesTo(s, i - 1) + [row]
  }

  function FirstFew(rows: seq<Companions>): seq<Companions> {
    if |rows| > TOP then rows[..TOP] else rows
  }

  /** The first rows of some arrangement of all candidates by falling number of companions. */
  ghost predicate TopOf(s: seq<Guest>, top: seq<Companions>) {
    exists rows :: Arranges(AtLeast, CandidatesTo(s, |s|), rows) && top == FirstFew(rows)
  }

  lemma OneMoreCandidate(rows: seq<Companions>, more: seq<Companions>, added: Option<Companions>, row: Companions)
    requires more == if added.Some? then rows + [added.value] else rows
    ensures multiset(more)[row] == multiset(rows)[row] + if added == Some(row) then 1 else 0
  {
    if added.Some? {
      OccurrencesAppend(rows, added.value, row);
    }
  }

  lemma {:induction false} CandidateCount(s: seq<Guest>, i: nat, row: Companions)
    requires i <= |s|
    ensures multiset(CandidatesTo(s, i))[row] == SumTo(Has(RowOf, Some(row)), s, i)
  {
    if i == 0 {
      assert CandidatesTo(s, i) == [];
    } else {
      var p := i - 1;
      CandidateCount(s, p, row);
      OneMoreCandidate(CandidatesTo(s, p), CandidatesTo(s, i), RowOf(s[p]), row);
      assert Has(RowOf, Some(row))(s[p]) == if RowOf(s[p]) == Some(row) then 1 else 0;
    }
  }

  /** At most five rows are kept; the rest are the other candidates, and none of them beats one kept. */
  lemma TopIsBest(s: seq<Guest>, top: seq<Companions>) returns (dropped: multiset<Companions>)
    requires TopOf(s, top)
    ensures |top| <= TOP && (|top| < TOP ==> dropped == multiset{})
    ensures forall row :: multiset(top)[row] + dropped[row] == Count(RowOf, Some(row), s)
    ensures forall kept, other | kept in top && other in dropped :: kept.count >= other.count
    ensures SortedBy(AtLeast, top)
  {
    var rows :| Arranges(AtLeast, CandidatesTo(s, |s|), rows) && top == FirstFew(rows);
    var rest := rows[|top|..];
    assert rows == top + rest;
    dropped := multiset(rest);
    forall row
      ensures multiset(top)[row] + dropped[row] == Count(RowOf, Some(row), s)
    {
      CandidateCount(s, |s|, row);
    }
    forall kept, other | kept in top && other in dropped
      ensures kept.count >= other.count
    {
      var i :| 0 <= i < |top| && top[i] == kept;
      assert other in rest;
      var j :| 0 <= j < |rest| && rest[j] == other;
      assert AtLeast(rows[i], rows[|top| + j]);
    }
    forall i, j | 0 <= i < j < |top|
      ensures AtLeast(top[i], top[j])
    {
      assert AtLeast(rows[i], rows[j]);
    }
  }

  function Beats(c: int): Companions -> int {
    (row: Companions) => if row.count > c then 1 else 0
  }

  lemma {:induction false} FirstAllBeat(rows: seq<Companions>, c: int, i: nat)
    requires i <= |rows| && forall j | 0 <= j < i :: rows[j].count > c
    ensures SumTo(Beats(c), rows, i) == i
  {
    if i > 0 {
      FirstAllBeat(rows, c, i - 1);
    }
  }

  lemma {:induction false} NoneBeatsFrom(rows: seq<Companions>, c: int, i: nat, k: nat)
    requires k <= |rows| && forall j | i <= j < |rows| :: rows[j].count <= c
    ensures SumTo(Beats(c), rows, k) <= i
    ensures k <= i ==> SumTo(Beats(c), rows, k) <= k
  {
    if k > 0 {
      NoneBeatsFrom(rows, c, i, k - 1);
    }
  }

  lemma NotBelow(a: seq<Companions>, b: seq<Companions>, i: nat)
    requires Permutes(a, b) && SortedBy(AtLeast, a) && SortedBy(AtLeast, b) && i < |a| && i < |b|
    ensures a[i].count <= b[i].count
  {
    var c := b[i].count;
    if a[i].count > c {
      forall j | 0 <= j < i + 1
        ensures a[j].count > c
      {
        assert j == i || AtLeast(a[j], a[i]);
      }
      FirstAllBeat(a, c, i + 1);
      SumToMonotone(Beats(c), a, i + 1, |a|);
      forall j | i <= j < |b|
        ensures b[j].count <= c
      {
        assert j == i || AtLeast(b[i], b[j]);
      }
      NoneBeatsFrom(b, c, i, |b|);
      SumPermutes(Beats(c), a, b);
    }
  }

  /** Ties may be cut differently, but the numbers of companions shown are the same. */
  lemma TopCountsAreDetermined(s: seq<Guest>, t: seq<Guest>, a: seq<Companions>, b: seq<Companions>)
    requires Permutes(s, t) && TopOf(s, a) && TopOf(t, b)
    ensures |a| == |b| && forall i | 0 <= i < |a| :: a[i].count == b[i].count
  {
    var rows :| Arranges(AtLeast, CandidatesTo(s, |s|), rows) && a == FirstFew(rows);
    var rows' :| Arranges(AtLeast, CandidatesTo(t, |t|), rows') && b == FirstFew(rows');
    forall row: Companions
      ensures multiset(CandidatesTo(s, |s|))[row] == multiset(CandidatesTo(t, |t|))[row]
    {
      CandidateCount(s, |s|, row);
      CandidateCount(t, |t|, row);
      SumPermutes(Has(RowOf, Some(row)), s, t);
    }
    assert Permutes(rows, rows');
    PermutesLength(rows, rows');
    forall i | 0 <= i < |a|
      ensures a[i].count == b[i].count
    {
      NotBelow(rows, rows', i);
      NotBelow(rows', rows, i);
    }
  }

  // ----- the summary

  ghost predicate Summarizes(s: seq<Guest>, r: Summary) {
    && r.total == |s|
    && r.confirmed == Count(AnswerOf, Confirmed, s)
    && r.declined == Count(AnswerOf, Declined, s)
    && r.pending == Count(AnswerOf, Pending, s)
    && r.companions == Sum(CompanionsOf, s)
    && r.attendees == Sum(PartyOf, s)
    && CountsOf(DietOf, s, r.dietary)
    && CountsOf(MethodOf, s, r.methods)
    && CountsOf(RoleOf, s, r.roles)
    && CountsOf(TableOf, s, r.tables)
    && TimelineOf(s, r.timeline)
    && TopOf(s, r.top)
  }

  function Bump(m: map<string, int>, name: string): map<string, int> {
    m[name := Got(m, name) + 1]
  }

  /** The map after counting one more element with this key. */
  function Counted(key: Option<string>, m: map<string, int>): map<string, int> {
    if key.Some? then Bump(m, key.value) else m
  }

  lemma TallyStep<T>(m: map<string, int>, n: map<string, int>, key: T -> Option<string>, s: seq<T>, i: nat)
    requires i < |s| && Tallies(m, key, s, i) && n == Counted(key(s[i]), m)
    ensures Tallies(n, key, s, i + 1)
  {
    var k := i + 1;
    forall name
      ensures Got(n, name) == SumTo(Has(key, Some(name)), s, k) && (name in n ==> n[name] > 0)
    {
      assert Got(m, name) == SumTo(Has(key, Some(name)), s, i);
      SumToMonotone(Has(key, Some(name)), s, 0, i);
    }
  }

  ghost predicate DatedBefore(s: seq<Guest>, i: nat, day: string)
    requires i <= |s|
  {
    exists j | 0 <= j < i :: ConfirmedOn(s[j]) == Some(day) || DeclinedOn(s[j]) == Some(day)
  }

  ghost predicate DayTally(points: map<string, Point>, s: seq<Guest>, i: nat, day: string)
    requires i <= |s|
  {
    && (day in points <==> DatedBefore(s, i, day))
    && (day in points ==>
          points[day] == Point(day, SumTo(Has(ConfirmedOn, Some(day)), s, i), SumTo(Has(DeclinedOn, Some(day)), s, i)))
  }

  ghost predicate DayTallies(points: map<string, Point>, s: seq<Guest>, i: nat)
    requires i <= |s|
  {
    forall day :: DayTally(points, s, i, day)
  }

  /** Counts one answer on its day, creating the day's point when it is the first. */
  function BumpDay(points: map<string, Point>, g: Guest): map<string, Point> {
    if AnswerOf(g).Pending? || g.day.None? then points else
      var day := g.day.value;
      var point := if day in points then points[day] else Point(day, 0, 0);
      points[day := if AnswerOf(g).Confirmed? then point.(confirmed := point.confirmed + 1)
                    else point.(declined := point.declined + 1)]
  }

  lemma {:induction false} UndatedCounts(s: seq<Guest>, i: nat, day: string)
    requires i <= |s| && !DatedBefore(s, i, day)
    ensures SumTo(Has(ConfirmedOn, Some(day)), s, i) == 0 && SumTo(Has(DeclinedOn, Some(day)), s, i) == 0
  {
    NoneSum(Has(ConfirmedOn, Some(day)), s, i);
    NoneSum(Has(DeclinedOn, Some(day)), s, i);
  }

  lemma DayStepAt(points: map<string, Point>, s: seq<Guest>, i: nat, day: string)
    requires i < |s| && DayTally(points, s, i, day)
    ensures DayTally(BumpDay(points, s[i]), s, i + 1, day)
  {
    var k := i + 1;
    assert DatedBefore(s, k, day)
      <==> DatedBefore(s, i, day) || ConfirmedOn(s[i]) == Some(day) || DeclinedOn(s[i]) == Some(day);
    if day !in points {
      UndatedCounts(s, i, day);
    }
    assert SumTo(Has(ConfirmedOn, Some(day)), s, k)
      == SumTo(Has(ConfirmedOn, Some(day)), s, i) + if ConfirmedOn(s[i]) == Some(day) then 1 else 0;
    assert SumTo(Has(DeclinedOn, Some(day)), s, k)
      == SumTo(Has(DeclinedOn, Some(day)), s, i) + if DeclinedOn(s[i]) == Some(day) then 1 else 0;
  }

  lemma DayStep(points: map<string, Point>, s: seq<Guest>, i: nat)
    requires i < |s| && DayTallies(points, s, i)
    ensures DayTallies(BumpDay(points, s[i]), s, i + 1)
  {
    var k := i + 1;
    forall day
      ensures DayTally(BumpDay(points, s[i]), s, k, day)
    {
      DayStepAt(points, s, i, day);
    }
  }

  /** Lists the days in order and turns each day's counts into running totals. */
  method RunningTotals(points: map<string, Point>, ghost s: seq<Guest>) returns (timeline: seq<Point>)
    requires DayTallies(points, s, |s|)
    ensures TimelineOf(s, timeline)
  {
    var days := SortedDays(points.Keys);
    TalliedDaysAreDated(points, s, days);
    timeline := AddUpDays(points, days, s);
    PointsMakeTimeline(s, days, timeline);
  }

  lemma TalliedDaysAreDated(points: map<string, Point>, s: seq<Guest>, days: seq<string>)
    requires DayTallies(points, s, |s|) && forall day :: day in days <==> day in points.Keys
    ensures forall day :: day in days <==> Dated(s, day)
  {
    forall day
      ensures day in days <==> Dated(s, day)
    {
      assert DayTally(points, s, |s|, day);
    }
  }

  method AddUpDays(points: map<string, Point>, days: seq<string>, ghost s: seq<Guest>) returns (timeline: seq<Point>)
    requires DayTallies(points, s, |s|) && Increasing(days) && forall day :: day in days <==> Dated(s, day)
    ensures |timeline| == |days| && forall k | 0 <= k < |days| :: timeline[k] == PointAt(s, days[k])
  {
    var confirmed, declined := 0, 0;
    timeline := [];
    for j := 0 to |days|
      invariant confirmed == SumOfCounts(ConfirmedOn, s, days, j)
      invariant declined == SumOfCounts(DeclinedOn, s, days, j)
      invariant |timeline| == j && forall k | 0 <= k < j :: timeline[k] == PointAt(s, days[k])
    {
      RunningTotalStep(points, s, days, j);
      var day := days[j];
      confirmed := confirmed + points[day].confirmed;
      declined := declined + points[day].declined;
      timeline := timeline + [Point(day, confirmed, declined)];
    }
  }

  function PointAt(s: seq<Guest>, day: string): Point {
    Point(day, Sum(UpTo(ConfirmedOn, day), s), Sum(UpTo(DeclinedOn, day), s))
  }

  lemma PointsMakeTimeline(s: seq<Guest>, days: seq<string>, timeline: seq<Point>)
    requires Increasing(days) && forall day :: day in days <==> Dated(s, day)
    requires |timeline| == |days| && forall k | 0 <= k < |days| :: timeline[k] == PointAt(s, days[k])
    ensures TimelineOf(s, timeline)
  {
    assert Map(DateOf, timeline) == days;
  }

  lemma RunningTotalStep(points: map<string, Point>, s: seq<Guest>, days: seq<string>, j: nat)
    requires DayTallies(points, s, |s|) && Increasing(days) && j < |days|
    requires forall day :: day in days <==> Dated(s, day)
    ensures days[j] in points
    ensures SumOfCounts(ConfirmedOn, s, days, j + 1)
      == SumOfCounts(ConfirmedOn, s, days, j) + points[days[j]].confirmed == Sum(UpTo(ConfirmedOn, days[j]), s)
    ensures SumOfCounts(DeclinedOn, s, days, j + 1)
      == SumOfCounts(DeclinedOn, s, days, j) + points[days[j]].declined == Sum(UpTo(DeclinedOn, days[j]), s)
  {
    assert DayTally(points, s, |s|, days[j]) && days[j] in days;
    DatedDaysListed(s, days);
    UpToIsAmong(ConfirmedOn, s, days, j);
    UpToIsAmong(DeclinedOn, s, days, j);
  }

  lemma DatedDaysListed(s: seq<Guest>, days: seq<string>)
    requires forall day :: day in days <==> Dated(s, day)
    ensures forall i | 0 <= i < |s| && ConfirmedOn(s[i]).Some? :: ConfirmedOn(s[i]).value in days
    ensures forall i | 0 <= i < |s| && DeclinedOn(s[i]).Some? :: DeclinedOn(s[i]).value in days
  {
    forall i | 0 <= i < |s|
      ensures ConfirmedOn(s[i]).Some? ==> Dated(s, ConfirmedOn(s[i]).value)
      ensures DeclinedOn(s[i]).Some? ==> Dated(s, DeclinedOn(s[i]).value)
    {
      assert s[i] in s;
    }
  }

  method SortedDays(keys: set<string>) returns (days: seq<string>)
    ensures Increasing(days) && forall day :: day in days <==> day in keys
  {
    var listed: seq<string> := [];
    var rest := keys;
    while rest != {}
      invariant rest <= keys && DistinctBy(Itself, listed)
      invariant forall day :: day in listed <==> day in keys - rest
      decreases |rest|
    {
      var day :| day in rest;
      DistinctByExtend(Itself, listed, day);
      listed := listed + [day];
      rest := rest - {day};
    }
    StrLeqIsPreorder();
    days := Sort(StrLeq, listed);
    DistinctByPermutes(Itself, listed, days);
    forall i, j | 0 <= i < j < |days|
      ensures Earlier(days[i], days[j])
    {
      assert Itself(days[i]) != Itself(days[j]);
    }
    forall day
      ensures day in days <==> day in listed
    {
      PermutesMembers(listed, days, day);
    }
  }

  function Listed(g: Guest, rows: seq<Companions>): seq<Companions> {
    if RowOf(g).Some? then rows + [RowOf(g).value] else rows
  }

  lemma OnlyConfirmedBring(g: Guest)
    requires AnswerOf(g) != Confirmed
    ensures CompanionsOf(g) == 0 && PartyOf(g) == 0 && RowOf(g).None? && DietOf(g).None?
  {
  }

  /** What the loop keeps: the totals of the result, the candidate rows, and the five maps. */
  class Tally {
    var total: int
    var confirmed: int
    var declined: int
    var pending: int
    var companions: int
    var attendees: int
    var rows: seq<Companions>
    var dietary: map<string, int>
    var methods: map<string, int>
    var roles: map<string, int>
    var tables: map<string, int>
    var points: map<string, Point>

    constructor (ghost s: seq<Guest>)
      ensures Holds(s, 0)
    {
      total, confirmed, declined, pending, companions, attendees := 0, 0, 0, 0, 0, 0;
      rows, points := [], map[];
      dietary, methods, roles, tables := map[], map[], map[], map[];
    }

    ghost predicate Totals(s: seq<Guest>, i: nat)
      requires i <= |s|
      reads this
    {
      && total == i
      && confirmed == SumTo(Has(AnswerOf, Confirmed), s, i)
      && declined == SumTo(Has(AnswerOf, Declined), s, i)
      && pending == SumTo(Has(AnswerOf, Pending), s, i)
      && companions == SumTo(CompanionsOf, s, i)
      && attendees == SumTo(PartyOf, s, i)
      && rows == CandidatesTo(s, i)
    }

    ghost predicate Holds(s: seq<Guest>, i: nat)
      requires i <= |s|
      reads this
    {
      && Totals(s, i)
      && Tallies(roles, RoleOf, s, i) && Tallies(tables, TableOf, s, i)
      && Tallies(dietary, DietOf, s, i) && Tallies(methods, MethodOf, s, i)
      && DayTallies(points, s, i)
    }

    /** Counts one guest in every field it belongs to. */
    method Add(g: Guest)
      modifies this
      ensures total == old(total) + 1
      ensures confirmed == old(confirmed) + if AnswerOf(g) == Confirmed then 1 else 0
      ensures declined == old(declined) + if AnswerOf(g) == Declined then 1 else 0
      ensures pending == old(pending) + if AnswerOf(g) == Pending then 1 else 0
      ensures companions == old(companions) + CompanionsOf(g)
      ensures attendees == old(attendees) + PartyOf(g)
      ensures rows == Listed(g, old(rows))
      ensures roles == Counted(RoleOf(g), old(roles)) && tables == Counted(TableOf(g), old(tables))
      ensures dietary == Counted(DietOf(g), old(dietary)) && methods == Counted(MethodOf(g), old(methods))
      ensures points == BumpDay(old(points), g)
    {
      total := total + 1;
      AddPlace(g);
      AddStatus(g);
    }

    method AddStatus(g: Guest)
      modifies `confirmed, `declined, `pending, `companions, `attendees, `dietary, `rows, `methods, `points
      ensures confirmed == old(confirmed) + if AnswerOf(g) == Confirmed then 1 else 0
      ensures declined == old(declined) + if AnswerOf(g) == Declined then 1 else 0
      ensures pending == old(pending) + if AnswerOf(g) == Pending then 1 else 0
      ensures companions == old(companions) + CompanionsOf(g)
      ensures attendees == old(attendees) + PartyOf(g)
      ensures rows == Listed(g, old(rows))
      ensures dietary == Counted(DietOf(g), old(dietary)) && methods == Counted(MethodOf(g), old(methods))
      ensures points == BumpDay(old(points), g)
    {
      match AnswerOf(g) {
        case Confirmed =>
          AddConfirmed(g);
          AddAnswer(g);
        case Declined =>
          declined := declined + 1;
          AddAnswer(g);
          OnlyConfirmedBring(g);
        case Pending =>
          pending := pending + 1;
          OnlyConfirmedBring(g);
      }
    }

    method AddPlace(g: Guest)
      modifies `roles, `tables
      ensures roles == Counted(RoleOf(g), old(roles)) && tables == Counted(TableOf(g), old(tables))
    {
      roles := Bump(roles, TrimSpace(g.role));
      var table := TrimSpace(g.table);
      if table != "" {
        tables := Bump(tables, table);
      }
    }

    method AddAnswer(g: Guest)
      requires AnswerOf(g) != Pending
      modifies `methods, `points
      ensures methods == Counted(MethodOf(g), old(methods)) && points == BumpDay(old(points), g)
    {
      methods := Bump(methods, TrimSpace(g.means));
      points := BumpDay(points, g);
    }

    method AddConfirmed(g: Guest)
      requires AnswerOf(g) == Confirmed
      modifies `confirmed, `companions, `attendees, `dietary, `rows
      ensures confirmed == old(confirmed) + 1
      ensures companions == old(companions) + CompanionsOf(g)
      ensures attendees == old(attendees) + PartyOf(g)
      ensures dietary == Counted(DietOf(g), old(dietary))
      ensures rows == Listed(g, old(rows))
    {
      confirmed := confirmed + 1;
      var party := if g.party < 1 then 1 else g.party;
      companions := companions + (party - 1);
      attendees := attendees + party;
      var diet := TrimSpace(g.diet);
      dietary := Bump(dietary, if diet == "" then NO_DIET else diet);
      if party - 1 > 0 {
        rows := rows + [Companions(g.id, g.firstName, g.lastName, g.role, party - 1)];
      }
    }

    /** The loop over all guests. */
    method AddAll(s: seq<Guest>)
      requires Holds(s, 0)
      modifies this
      ensures Holds(s, |s|)
    {
      for i := 0 to |s|
        invariant Holds(s, i)
      {
        AddNext(s, i);
      }
    }

    method AddNext(s: seq<Guest>, i: nat)
      requires i < |s| && Holds(s, i)
      modifies this
      ensures Holds(s, i + 1)
    {
      ghost var was := (roles, tables, dietary, methods, points);
      Add(s[i]);
      TallyStep(was.0, roles, RoleOf, s, i);
      TallyStep(was.1, tables, TableOf, s, i);
      TallyStep(was.2, dietary, DietOf, s, i);
      TallyStep(was.3, methods, MethodOf, s, i);
      DayStep(was.4, s, i);
    }
  }

  method Summarize(guests: seq<Guest>) returns (r: Summary)
    ensures Summarizes(guests, r)
  {
    var t := new Tally(guests);
    t.AddAll(guests);
    var arranged := Sort(AtLeast, t.rows);
    var timeline := RunningTotals(t.points, guests);
    var dietary := SortedCounts(t.dietary, DietOf, guests);
    var methods := SortedCounts(t.methods, MethodOf, guests);
    var roles := SortedCounts(t.roles, RoleOf, guests);
    var tables := SortedCounts(t.tables, TableOf, guests);
    r := Summary(t.total, t.confirmed, t.declined, t.pending, t.companions, t.attendees,
      dietary, methods, roles, tables, timeline, FirstFew(arranged));
  }

  // ----- what a summary promises

  /** Every guest is counted once in each breakdown it belongs to. */
  lemma SummaryConserves(s: seq<Guest>, r: Summary)
    requires Summarizes(s, r)
    ensures r.total == r.confirmed + r.declined + r.pending
    ensures r.attendees == r.confirmed + r.companions
    ensures Sum(ValueOf, r.roles) == r.total
    ensures Sum(ValueOf, r.dietary) == r.confirmed
    ensures Sum(ValueOf, r.methods) == r.confirmed + r.declined
    ensures Sum(ValueOf, r.tables) <= r.total
  {
    CountsTotal(RoleOf, s, r.roles);
    CountsTotal(DietOf, s, r.dietary);
    CountsTotal(MethodOf, s, r.methods);
    CountsTotal(TableOf, s, r.tables);
    AnswersAddUp(s, |s|);
  }

  lemma OneAnswer(g: Guest)
    ensures Has(AnswerOf, Confirmed)(g) + Has(AnswerOf, Declined)(g) + Has(AnswerOf, Pending)(g) == 1
    ensures PartyOf(g) == Has(AnswerOf, Confirmed)(g) + CompanionsOf(g)
    ensures Keyed(RoleOf)(g) == 1 && 0 <= Keyed(TableOf)(g) <= 1
    ensures Keyed(DietOf)(g) == Has(AnswerOf, Confirmed)(g)
    ensures Keyed(MethodOf)(g) == Has(AnswerOf, Confirmed)(g) + Has(AnswerOf, Declined)(g)
  {
    var key: Guest -> Answer := AnswerOf;
    assert key(g) == AnswerOf(g) && RoleOf(g).Some?;
    match AnswerOf(g) {
      case Confirmed => assert DietOf(g).Some? && MethodOf(g).Some?;
      case Declined => assert DietOf(g).None? && MethodOf(g).Some?;
      case Pending => assert DietOf(g).None? && MethodOf(g).None?;
    }
  }

  lemma {:induction false} AnswersAddUp(s: seq<Guest>, i: nat)
    requires i <= |s|
    ensures SumTo(Has(AnswerOf, Confirmed), s, i) + SumTo(Has(AnswerOf, Declined), s, i)
         + SumTo(Has(AnswerOf, Pending), s, i) == i
    ensures SumTo(PartyOf, s, i) == SumTo(Has(AnswerOf, Confirmed), s, i) + SumTo(CompanionsOf, s, i)
    ensures SumTo(Keyed(RoleOf), s, i) == i
    ensures SumTo(Keyed(DietOf), s, i) == SumTo(Has(AnswerOf, Confirmed), s, i)
    ensures SumTo(Keyed(MethodOf), s, i) == SumTo(Has(AnswerOf, Confirmed), s, i) + SumTo(Has(AnswerOf, Declined), s, i)
    ensures SumTo(Keyed(TableOf), s, i) <= i
  {
    if i > 0 {
      AnswersAddUp(s, i - 1);
      OneAnswer(s[i - 1]);
    }
  }

  lemma {:induction false} LaterCountsMore(dated: Guest -> Option<string>, s: seq<Guest>, a: string, b: string, i: nat)
    requires StrLeq(a, b) && i <= |s|
    ensures SumTo(UpTo(dated, a), s, i) <= SumTo(UpTo(dated, b), s, i)
  {
    if i > 0 {
      LaterCountsMore(dated, s, a, b, i - 1);
      if dated(s[i - 1]).Some? && StrLeq(dated(s[i - 1]).value, a) {
        StrLeqTransitive(dated(s[i - 1]).value, a, b);
      }
    }
  }

  /** Days increase along the timeline, and its totals never fall. */
  lemma TimelineRises(s: seq<Guest>, timeline: seq<Point>, i: nat, j: nat)
    requires TimelineOf(s, timeline) && i < j < |timeline|
    ensures Earlier(timeline[i].date, timeline[j].date)
    ensures timeline[i].confirmed <= timeline[j].confirmed && timeline[i].declined <= timeline[j].declined
  {
    var days := Map(DateOf, timeline);
    assert Earlier(days[i], days[j]) && timeline[i] in timeline && timeline[j] in timeline;
    LaterCountsMore(ConfirmedOn, s, days[i], days[j], |s|);
    LaterCountsMore(DeclinedOn, s, days[i], days[j], |s|);
  }

  /** The last point counts every dated answer; without points there is none. */
  lemma TimelineCountsAll(s: seq<Guest>, timeline: seq<Point>)
    requires TimelineOf(s, timeline)
    ensures var last := if timeline == [] then Point("", 0, 0) else timeline[|timeline| - 1];
      last.confirmed == Sum(Keyed(ConfirmedOn), s) && last.declined == Sum(Keyed(DeclinedOn), s)
  {
    var days := Map(DateOf, timeline);
    DatedDaysListed(s, days);
    if timeline == [] {
      NoneSum(Keyed(ConfirmedOn), s, |s|);
      NoneSum(Keyed(DeclinedOn), s, |s|);
    } else {
      assert timeline[|timeline| - 1] in timeline;
      AllUpToLast(ConfirmedOn, s, days);
      AllUpToLast(DeclinedOn, s, days);
    }
  }

  lemma AllUpToLast(dated: Guest -> Option<string>, s: seq<Guest>, days: seq<string>)
    requires Increasing(days) && days != []
    requires forall i | 0 <= i < |s| && dated(s[i]).Some? :: dated(s[i]).value in days
    ensures Sum(UpTo(dated, days[|days| - 1]), s) == Sum(Keyed(dated), s)
  {
    var last := |days| - 1;
    forall i | 0 <= i < |s|
      ensures UpTo(dated, days[last])(s[i]) == Keyed(dated)(s[i])
    {
      if dated(s[i]).Some? {
        var k :| 0 <= k < |days| && days[k] == dated(s[i]).value;
        DayOrder(days, k, last);
      }
    }
    SumToSame(UpTo(dated, days[last]), Keyed(dated), s, |s|);
  }

  /**
  The summary depends on which guests there are, not on their order, on map order or on how a sort
  arranges equal rows; only which of several equal parties make the top list may vary.
  */
  lemma SummaryIsDetermined(s: seq<Guest>, t: seq<Guest>, a: Summary, b: Summary)
    requires Permutes(s, t) && Summarizes(s, a) && Summarizes(t, b)
    ensures a.(top := b.top) == b
    ensures |a.top| == |b.top| && forall i | 0 <= i < |a.top| :: a.top[i].count == b.top[i].count
  {
    PermutesLength(s, t);
    SumPermutes(Has(AnswerOf, Confirmed), s, t);
    SumPermutes(Has(AnswerOf, Declined), s, t);
    SumPermutes(Has(AnswerOf, Pending), s, t);
    SumPermutes(CompanionsOf, s, t);
    SumPermutes(PartyOf, s, t);
    CountsAreDetermined(DietOf, s, t, a.dietary, b.dietary);
    CountsAreDetermined(MethodOf, s, t, a.methods, b.methods);
    CountsAreDetermined(RoleOf, s, t, a.roles, b.roles);
    CountsAreDetermined(TableOf, s, t, a.tables, b.tables);
    TimelineIsDetermined(s, t, a.timeline, b.timeline);
    TopCountsAreDetermined(s, t, a.top, b.top);
  }
}
