/**
Installing the unique index on the content of live moments: duplicates are soft-deleted first,
keeping the best copy of each object, under a lock that keeps writers out.
*/
module MomentUniqueness {
  import opened Wrappers

  /** A row of the moments table; every column the migration reads may be NULL. */
  datatype Moment = Moment(
    event: Option<string>, url: Option<string>, approved: Option<bool>, processing: Option<string>,
    created: Option<int>, deleted: Option<int>, rest: string)

  /** Rows by primary key; a UUID is a 128-bit number. */
  type Table = map<nat, Moment>

  // ----- which rows are copies of one object

  predicate Live(m: Moment) {
    m.deleted.None? && m.url.Some? && m.url.value != ""
  }

  predicate InScope(m: Moment) {
    Live(m) && m.event.Some?
  }

  predicate Copies(a: Moment, b: Moment) {
    InScope(a) && InScope(b) && a.event == b.event && a.url == b.url
  }

  /** The partial unique index accepts the table; NULL events are distinct from each other. */
  ghost predicate Unique(t: Table) {
    forall i, j | i in t && j in t && Copies(t[i], t[j]) :: i == j
  }

  // ----- the ranking

  function ApprovedRank(m: Moment): int {
    if m.approved == Some(true) then 0 else 1
  }

  function ProcessedRank(m: Moment): int {
    if m.processing == Some("") || m.processing == Some("done") then 0 else 1
  }

  /** Ascending, NULL last. */
  predicate CreatedBefore(a: Option<int>, b: Option<int>) {
    a.Some? && (b.None? || a.value < b.value)
  }

  /** Row `i` comes before row `j` in the window's order. */
  predicate Ahead(t: Table, i: nat, j: nat)
    requires i in t && j in t
  {
    var a, b := t[i], t[j];
    if ApprovedRank(a) != ApprovedRank(b) then ApprovedRank(a) < ApprovedRank(b)
    else if ProcessedRank(a) != ProcessedRank(b) then ProcessedRank(a) < ProcessedRank(b)
    else if a.created != b.created then CreatedBefore(a.created, b.created)
    else i < j
  }

  lemma AheadIsStrictOrder(t: Table, i: nat, j: nat, k: nat)
    requires i in t && j in t && k in t
    ensures !Ahead(t, i, i)
    ensures i == j || Ahead(t, i, j) || Ahead(t, j, i)
    ensures Ahead(t, i, j) && Ahead(t, j, k) ==> Ahead(t, i, k)
  {
  }

  predicate Beats(t: Table, i: nat, j: nat)
    requires j in t
  {
    i in t && Copies(t[i], t[j]) && Ahead(t, i, j)
  }

  /** The row's number in its partition is above 1. */
  ghost predicate Beaten(t: Table, j: nat)
    requires j in t
  {
    InScope(t[j]) && exists i :: Beats(t, i, j)
  }

  // ----- de-duplication

  /** What the statement makes of one row. */
  ghost function Kept(t: Table, i: nat, now: int): Moment
    requires i in t
  {
    if Beaten(t, i) then t[i].(deleted := Some(now)) else t[i]
  }

  ghost predicate Deduplicated(t: Table, now: int, after: Table) {
    after.Keys == t.Keys && forall i | i in t :: after[i] == Kept(t, i, now)
  }

  /** Row `i` is the best copy of the object that row `j` stores. */
  ghost predicate Best(t: Table, i: nat, j: nat)
    requires j in t
  {
    i in t && Copies(t[i], t[j]) && forall k | k in t && Copies(t[k], t[j]) && k != i :: Ahead(t, i, k)
  }

  /** Every group has a best copy, found among any keys that hold the whole group. */
  lemma {:induction false} BestExists(t: Table, j: nat, keys: set<nat>) returns (i: nat)
    requires j in t && InScope(t[j]) && j in keys && keys <= t.Keys
    ensures i in keys && Copies(t[i], t[j])
    ensures forall k | k in keys && Copies(t[k], t[j]) && k != i :: Ahead(t, i, k)
    decreases |keys|
  {
    if other :| other in keys && other != j {
      var least := BestExists(t, j, keys - {other});
      if Copies(t[other], t[j]) && Ahead(t, other, least) {
        i := other;
        forall k | k in keys && Copies(t[k], t[j]) && k != i
          ensures Ahead(t, i, k)
        {
          AheadIsStrictOrder(t, other, least, k);
        }
      } else {
        i := least;
        AheadIsStrictOrder(t, least, other, other);
      }
    } else {
      i := j;
    }
  }

  /**
  Exactly one copy of each object stays live, and it is the best one: `i` is live afterwards and
  stores row `j`'s object if and only if `i` is the best copy.
  */
  lemma ExactlyTheBestStays(t: Table, now: int, after: Table, i: nat, j: nat)
    requires Deduplicated(t, now, after) && j in t && InScope(t[j])
    ensures i in t && InScope(after[i]) && after[i].event == t[j].event && after[i].url == t[j].url <==> Best(t, i, j)
  {
    var best := BestExists(t, j, t.Keys);
    if i in t && Copies(t[i], t[j]) {
      if i != best {
        assert Beats(t, best, i);
        AheadIsStrictOrder(t, i, best, i);
      } else if k :| Beats(t, k, i) {
        AheadIsStrictOrder(t, i, k, i);
      }
    }
  }

  /** A best copy exists and there is only one. */
  lemma BestIsUnique(t: Table, j: nat) returns (best: nat)
    requires j in t && InScope(t[j])
    ensures Best(t, best, j) && forall i :: Best(t, i, j) ==> i == best
  {
    best := BestExists(t, j, t.Keys);
    forall i | Best(t, i, j)
      ensures i == best
    {
      if i != best {
        AheadIsStrictOrder(t, i, best, i);
      }
    }
  }

  /** The copy that stays is approved if any is, then processed if it can be, then the oldest of those left. */
  lemma BestIsMostAdvanced(t: Table, i: nat, j: nat, k: nat)
    requires j in t && Best(t, i, j) && k in t && Copies(t[k], t[j])
    ensures t[k].approved == Some(true) ==> t[i].approved == Some(true)
    ensures ApprovedRank(t[k]) == ApprovedRank(t[i]) && t[k].processing in {Some(""), Some("done")} ==>
      t[i].processing in {Some(""), Some("done")}
    ensures ApprovedRank(t[k]) == ApprovedRank(t[i]) && ProcessedRank(t[k]) == ProcessedRank(t[i]) ==>
      t[k].created.Some? ==> t[i].created.Some? && t[i].created.value <= t[k].created.value
  {
    assert k == i || Ahead(t, i, k);
  }

  lemma OneOfTwoIsBeaten(t: Table, i: nat, j: nat)
    requires i in t && j in t && i != j && Copies(t[i], t[j])
    ensures Beaten(t, i) || Beaten(t, j)
  {
    AheadIsStrictOrder(t, i, j, i);
    assert Beats(t, i, j) || Beats(t, j, i);
  }

  /** The table then meets the unique index. */
  lemma DeduplicatedIsUnique(t: Table, now: int, after: Table)
    requires Deduplicated(t, now, after)
    ensures Unique(after)
  {
    forall i, j | i in after && j in after && Copies(after[i], after[j])
      ensures i == j
    {
      if i != j {
        OneOfTwoIsBeaten(t, i, j);
      }
    }
  }

  /** Only the deletion time of beaten rows changes; rows out of scope are never touched. */
  lemma OnlyCopiesAreHidden(t: Table, now: int, after: Table, i: nat)
    requires Deduplicated(t, now, after) && i in t
    ensures after[i].(deleted := t[i].deleted) == t[i]
    ensures after[i] != t[i] ==> InScope(t[i]) && after[i].deleted == Some(now)
    ensures after[i] != t[i] ==> exists k :: k in t && Copies(t[k], t[i]) && after[k] == t[k]
  {
    if after[i] != t[i] {
      var best := BestIsUnique(t, i);
      ExactlyTheBestStays(t, now, after, best, i);
    }
  }

  /** A table that meets the index is left as it is. */
  lemma UniqueIsUntouched(t: Table, now: int, after: Table)
    requires Deduplicated(t, now, after)
    ensures after == t <==> Unique(t)
  {
    if Unique(t) {
      forall j | j in t
        ensures after[j] == t[j]
      {
        if i :| Beats(t, i, j) {
          AheadIsStrictOrder(t, i, j, i);
        }
      }
      assert after == t;
    } else {
      DeduplicatedIsUnique(t, now, after);
    }
  }

  // ----- the table in the database

  class MomentsTable {
    var rows: Table
    var indexed: bool

    constructor (t: Table, hasIndex: bool)
      ensures rows == t && indexed == hasIndex
    {
      rows, indexed := t, hasIndex;
    }

    /** The UPDATE, row by row; the ranking is that of the table before the statement. */
    method HideCopies(now: int)
      modifies `rows
      ensures Deduplicated(old(rows), now, rows)
    {
      var before := rows;
      var waiting := before.Keys;
      while waiting != {}
        invariant waiting <= before.Keys && rows.Keys == before.Keys
        invariant forall i | i in waiting :: rows[i] == before[i]
        invariant forall i | i in before.Keys - waiting :: rows[i] == Kept(before, i, now)
        decreases |waiting|
      {
        var j :| j in waiting;
        if InScope(before[j]) && exists i | i in before :: Beats(before, i, j) {
          rows := rows[j := before[j].(deleted := Some(now))];
        }
        waiting := waiting - {j};
      }
    }

    /** One boot that meets no failure. */
    method Migrate(now: int)
      modifies this
      ensures indexed
      ensures old(indexed) ==> rows == old(rows)
      ensures !old(indexed) ==> Deduplicated(old(rows), now, rows) && Unique(rows)
    {
      if indexed {
        return;
      }
      HideCopies(now);
      DeduplicatedIsUnique(old(rows), now, rows);
      indexed := true;
    }
  }

  // ----- several replicas booting while guests write

  /** Where a replica's migration transaction is; `work` is what it sees of its own update. */
  datatype Phase = Idle | IndexMissing | Locked | Prepared(work: Table) | Done

  datatype World = World(rows: Table, indexed: bool, holder: Option<nat>, phases: seq<Phase>)

  datatype Step =
    | Check(r: nat)
    | Lock(r: nat)
    | Hide(r: nat, now: int, work: Table)
    | Commit(r: nat)
    | Abort(r: nat)
    | Restart(r: nat)
    | Write(table: Table)

  ghost predicate Next(w: World, s: Step, v: World) {
    match s
    case Check(r) =>
      && r < |w.phases| && w.phases[r].Idle?
      && v == w.(phases := w.phases[r := if w.indexed then Done else IndexMissing])
    case Lock(r) =>
      && r < |w.phases| && w.phases[r].IndexMissing? && w.holder.None?
      && v == w.(holder := Some(r), phases := w.phases[r := Locked])
    case Hide(r, now, work) =>
      && r < |w.phases| && w.phases[r].Locked? && Deduplicated(w.rows, now, work)
      && v == w.(phases := w.phases[r := Prepared(work)])
    case Commit(r) =>
      && r < |w.phases| && w.phases[r].Prepared? && (w.indexed || Unique(w.phases[r].work))
      && v == World(w.phases[r].work, true, None, w.phases[r := Done])
    case Abort(r) =>
      && r < |w.phases| && !w.phases[r].Done?
      && v == w.(holder := if w.holder == Some(r) then None else w.holder, phases := w.phases[r := Idle])
    case Restart(r) =>
      && r < |w.phases| && w.phases[r].Done? && v == w.(phases := w.phases[r := Idle])
    case Write(table) =>
      && w.holder.None? && (w.indexed ==> Unique(table)) && v == w.(rows := table)
  }

  ghost predicate Initial(w: World) {
    && w.holder.None? && (w.indexed ==> Unique(w.rows))
    && forall r | 0 <= r < |w.phases| :: w.phases[r].Idle?
  }

  ghost predicate PhaseInv(w: World, r: nat)
    requires r < |w.phases|
  {
    && (w.phases[r].Locked? || w.phases[r].Prepared? ==> w.holder == Some(r))
    && (w.phases[r].Prepared? ==> exists now :: Deduplicated(w.rows, now, w.phases[r].work))
  }

  ghost predicate Inv(w: World) {
    && (w.indexed ==> Unique(w.rows))
    && forall r | 0 <= r < |w.phases| :: PhaseInv(w, r)
  }

  lemma NextKeepsInv(w: World, s: Step, v: World)
    requires Inv(w) && Next(w, s, v)
    ensures Inv(v)
  {
    if s.Commit? {
      assert PhaseInv(w, s.r);
      BuildNeverFails(w, s.r);
    }
    forall r | 0 <= r < |v.phases|
      ensures PhaseInv(v, r)
    {
      assert PhaseInv(w, r);
    }
  }

  /** The index can always be built on what the transaction left, and a late commit hides nothing. */
  lemma BuildNeverFails(w: World, r: nat)
    requires Inv(w) && r < |w.phases| && w.phases[r].Prepared?
    ensures Unique(w.phases[r].work)
    ensures w.indexed ==> w.phases[r].work == w.rows
  {
    assert PhaseInv(w, r);
    var now :| Deduplicated(w.rows, now, w.phases[r].work);
    DeduplicatedIsUnique(w.rows, now, w.phases[r].work);
    UniqueIsUntouched(w.rows, now, w.phases[r].work);
  }

  ghost predicate Run(ws: seq<World>, steps: seq<Step>) {
    && |ws| == |steps| + 1 && Initial(ws[0])
    && forall i | 0 <= i < |steps| :: Next(ws[i], steps[i], ws[i + 1])
  }

  lemma {:induction false} EveryStateKeepsInv(ws: seq<World>, steps: seq<Step>, i: nat)
    requires Run(ws, steps) && i < |ws|
    ensures Inv(ws[i])
  {
    if i > 0 {
      EveryStateKeepsInv(ws, steps, i - 1);
      NextKeepsInv(ws[i - 1], steps[i - 1], ws[i]);
    } else {
      assert forall r | 0 <= r < |ws[0].phases| :: PhaseInv(ws[0], r);
    }
  }

  /** Over any run: once the index exists it stays, and from then on only guests' writes change the rows. */
  lemma {:induction false} LaterBootsChangeNothing(ws: seq<World>, steps: seq<Step>, i: nat, j: nat)
    requires Run(ws, steps) && i <= j < |steps| && ws[i].indexed
    ensures ws[j].indexed && ws[j + 1].indexed
    ensures !steps[j].Write? ==> ws[j + 1].rows == ws[j].rows
  {
    if i < j {
      LaterBootsChangeNothing(ws, steps, i, j - 1);
    }
    EveryStateKeepsInv(ws, steps, j);
    assert Next(ws[j], steps[j], ws[j + 1]);
    if steps[j].Commit? {
      BuildNeverFails(ws[j], steps[j].r);
    }
  }

  /** Over any run: no write lands between the ranking and the build, so no write is ever lost by a commit. */
  lemma CommitHidesOnlyCopies(ws: seq<World>, steps: seq<Step>, i: nat) returns (now: int)
    requires Run(ws, steps) && i < |steps| && steps[i].Commit?
    ensures Deduplicated(ws[i].rows, now, ws[i + 1].rows)
    ensures ws[i + 1].indexed && Unique(ws[i + 1].rows)
  {
    EveryStateKeepsInv(ws, steps, i);
    assert Next(ws[i], steps[i], ws[i + 1]);
    var r := steps[i].r;
    assert PhaseInv(ws[i], r);
    now :| Deduplicated(ws[i].rows, now, ws[i].phases[r].work);
    DeduplicatedIsUnique(ws[i].rows, now, ws[i].phases[r].work);
  }
}
