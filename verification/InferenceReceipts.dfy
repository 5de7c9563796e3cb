/**
The inference-receipt trigger: which updates of a receipt it lets through, how many, in which
order, and what they can change.
*/
module InferenceReceipts {
  import opened Wrappers

  // ----- JSON diagnostics

  /** A member of the diagnostics object; `Other` is a number, boolean, array or object. */
  datatype Json = Null | Text(text: string) | Other(text: string)

  type Diagnostics = map<string, Json>

  /** The ->> operator. */
  function Get(d: Diagnostics, key: string): Option<string> {
    if key !in d || d[key].Null? then None else Some(d[key].text)
  }

  datatype Stage = Unstaged | ReservedStage | TerminalStage | UnknownStage

  const TERMINAL_STAGES := {
    "credential_lookup", "provider", "provider_response_decode",
    "provider_response_rejected", "accounting", "completed"}

  const OUTCOME_KEYS := {
    "stage", "duration_ms", "gateway_status", "failure_code", "response_capture", "attempts"}

  function StageOf(d: Diagnostics): Stage {
    match Get(d, "stage")
    case None => Unstaged
    case Some(s) =>
      if s == "reserved" then ReservedStage else if s in TERMINAL_STAGES then TerminalStage else UnknownStage
  }

  predicate Versioned(d: Diagnostics) {
    Get(d, "schema_version") == Some("1")
  }

  // ----- receipts

  datatype Status = Reserved | Accepted | Rejected | Ambiguous | OtherStatus(name: string)

  /** `binding` holds the columns that identify the call, `accounting` every other one. */
  datatype Receipt = Receipt(binding: string, status: Status, accounting: string, diagnostics: Diagnostics)

  predicate Settled(s: Status) {
    s.Accepted? || s.Rejected? || s.Ambiguous?
  }

  predicate DiagnosticsWrite(old': Receipt, new': Receipt) {
    && new'.(diagnostics := old'.diagnostics) == old'
    && Versioned(new'.diagnostics)
    && (|| (old'.status.Reserved? && old'.diagnostics == map[] && StageOf(new'.diagnostics).ReservedStage?)
        || (&& StageOf(old'.diagnostics).ReservedStage?
            && new'.diagnostics - OUTCOME_KEYS == old'.diagnostics - OUTCOME_KEYS
            && StageOf(new'.diagnostics).TerminalStage?))
  }

  predicate Settlement(old': Receipt, new': Receipt) {
    && old'.status.Reserved? && Settled(new'.status)
    && new'.diagnostics == old'.diagnostics && new'.binding == old'.binding
  }

  /** The trigger returns NEW for this update. */
  predicate Allowed(old': Receipt, new': Receipt) {
    DiagnosticsWrite(old', new') || Settlement(old', new')
  }

  // ----- the measure

  function Rank(r: Receipt): nat {
    (if r.status.Reserved? then 1 else 0)
    + (if r.diagnostics == map[] then 2 else if StageOf(r.diagnostics).ReservedStage? then 1 else 0)
  }

  lemma StageKeyIsAnOutcomeKey()
    ensures "stage" in OUTCOME_KEYS && "schema_version" !in OUTCOME_KEYS
  {
    assert "schema_version"[1] == 'c';
    assert "schema_version"[0] == 's' && "duration_ms"[0] == 'd';
  }

  lemma AllowedDecreasesRank(old': Receipt, new': Receipt)
    requires Allowed(old', new')
    ensures Rank(new') < Rank(old')
  {
    if DiagnosticsWrite(old', new') {
      assert "stage" in new'.diagnostics;
    }
  }

  /** No update touches accounting and diagnostics at once, and none touches the binding. */
  lemma AllowedTouchesOnePart(old': Receipt, new': Receipt)
    requires Allowed(old', new')
    ensures new'.binding == old'.binding
    ensures new'.diagnostics == old'.diagnostics || (new'.accounting == old'.accounting && new'.status == old'.status)
    ensures new'.accounting != old'.accounting ==> old'.status.Reserved? && Settled(new'.status)
    ensures !old'.status.Reserved? ==> new'.accounting == old'.accounting && new'.status == old'.status
  {
  }

  // ----- whole histories of one receipt

  /** The successive versions of a row: each was let through from the one before. */
  predicate History(versions: seq<Receipt>) {
    versions != [] && forall k | 0 < k < |versions| :: Allowed(versions[k - 1], versions[k])
  }

  /** A receipt accepts at most three updates in any run. */
  lemma {:induction false} AtMostThreeUpdates(versions: seq<Receipt>)
    requires History(versions)
    ensures |versions| - 1 <= Rank(versions[0]) - Rank(versions[|versions| - 1])
    ensures |versions| <= 4
  {
    if |versions| > 1 {
      var last := |versions| - 1;
      assert forall k | 0 < k < last :: versions[..last][k] == versions[k];
      AtMostThreeUpdates(versions[..last]);
      AllowedDecreasesRank(versions[last - 1], versions[last]);
    }
  }

  /** Once settled, status and accounting never change again; the binding never changes at all. */
  lemma {:induction false} SettledStaysFrozen(versions: seq<Receipt>, i: nat, j: nat)
    requires History(versions) && i <= j < |versions|
    ensures versions[j].binding == versions[i].binding
    ensures !versions[i].status.Reserved? ==>
      versions[j].status == versions[i].status && versions[j].accounting == versions[i].accounting
    decreases j - i
  {
    if i < j {
      SettledStaysFrozen(versions, i, j - 1);
      AllowedTouchesOnePart(versions[j - 1], versions[j]);
    }
  }

  /** Accounting changes in one update at most, the one that settles the receipt. */
  lemma AccountingChangesOnce(versions: seq<Receipt>, i: nat, j: nat)
    requires History(versions) && 0 < i < |versions| && 0 < j < |versions|
    requires versions[i].accounting != versions[i - 1].accounting
    requires versions[j].accounting != versions[j - 1].accounting
    ensures i == j
    ensures versions[i - 1].status.Reserved? && Settled(versions[i].status)
  {
    AllowedTouchesOnePart(versions[i - 1], versions[i]);
    AllowedTouchesOnePart(versions[j - 1], versions[j]);
    if i < j {
      SettledStaysFrozen(versions, i, j - 1);
    } else if j < i {
      SettledStaysFrozen(versions, j, i - 1);
    }
  }

  /** The reserved-stage metadata outlives the terminal write: only the outcome keys may differ. */
  lemma {:induction false} ReservationMetadataIsKept(versions: seq<Receipt>, i: nat, j: nat)
    requires History(versions) && i <= j < |versions|
    requires versions[i].diagnostics != map[]
    ensures versions[j].diagnostics - OUTCOME_KEYS == versions[i].diagnostics - OUTCOME_KEYS
    ensures versions[j].diagnostics != map[]
    decreases j - i
  {
    if i < j {
      ReservationMetadataIsKept(versions, i, j - 1);
      if DiagnosticsWrite(versions[j - 1], versions[j]) {
        assert "stage" in versions[j].diagnostics;
      }
    }
  }

  // ----- exactly when a receipt can still change

  predicate CanChange(r: Receipt) {
    r.status.Reserved? || (StageOf(r.diagnostics).ReservedStage? && Versioned(r.diagnostics))
  }

  function Terminal(d: Diagnostics): Diagnostics {
    d["stage" := Text("completed")]
  }

  lemma TerminalIsLegal(d: Diagnostics)
    requires StageOf(d).ReservedStage? && Versioned(d)
    ensures StageOf(Terminal(d)).TerminalStage? && Versioned(Terminal(d))
    ensures Terminal(d) - OUTCOME_KEYS == d - OUTCOME_KEYS
  {
    StageKeyIsAnOutcomeKey();
    assert "completed" in TERMINAL_STAGES;
    assert "completed"[0] == 'c' && "reserved"[0] == 'r';
    assert Get(Terminal(d), "schema_version") == Get(d, "schema_version");
  }

  lemma KeptKeySurvives(a: Diagnostics, b: Diagnostics)
    requires a - OUTCOME_KEYS == b - OUTCOME_KEYS
    ensures Versioned(a) <==> Versioned(b)
  {
    StageKeyIsAnOutcomeKey();
    var k := "schema_version";
    assert k in a <==> k in a - OUTCOME_KEYS;
    assert k in b <==> k in b - OUTCOME_KEYS;
    if k in a {
      assert a[k] == (a - OUTCOME_KEYS)[k];
    }
    if k in b {
      assert b[k] == (b - OUTCOME_KEYS)[k];
    }
  }

  /** An update is possible exactly while the receipt is reserved or awaits its terminal stage. */
  lemma FrozenExactly(r: Receipt)
    ensures CanChange(r) <==> exists r' :: Allowed(r, r')
  {
    if r.status.Reserved? {
      assert Allowed(r, r.(status := Accepted));
    } else if CanChange(r) {
      TerminalIsLegal(r.diagnostics);
      assert Allowed(r, r.(diagnostics := Terminal(r.diagnostics)));
    }
    forall r' | Allowed(r, r')
      ensures CanChange(r)
    {
      if DiagnosticsWrite(r, r') && !r.status.Reserved? {
        KeptKeySurvives(r.diagnostics, r'.diagnostics);
      }
    }
  }

  /** The full life of a receipt: the bound of three updates is reached, and the receipt is then final. */
  lemma ThreeUpdatesHappen(binding: string, before: string, after: string, d: Diagnostics)
    returns (versions: seq<Receipt>)
    requires StageOf(d).ReservedStage? && Versioned(d)
    ensures History(versions) && |versions| == 4
    ensures versions[0] == Receipt(binding, Reserved, before, map[])
    ensures versions[1] == Receipt(binding, Reserved, before, d)
    ensures versions[2] == Receipt(binding, Accepted, after, d)
    ensures versions[3].accounting == after && StageOf(versions[3].diagnostics).TerminalStage?
    ensures forall r :: !Allowed(versions[3], r)
  {
    TerminalIsLegal(d);
    assert "stage" in d;
    versions := [
      Receipt(binding, Reserved, before, map[]), Receipt(binding, Reserved, before, d),
      Receipt(binding, Accepted, after, d), Receipt(binding, Accepted, after, Terminal(d))];
    FrozenExactly(versions[3]);
  }

  /** A receipt settled before its first diagnostics write is final. */
  lemma LateFirstWriteIsRefused(r: Receipt, r': Receipt)
    requires !r.status.Reserved? && r.diagnostics == map[]
    ensures !Allowed(r, r')
  {
  }

  /** While both are pending, settlement and the terminal write commute: both orders are let through and meet. */
  lemma SettlementAndTerminalCommute(r: Receipt, status: Status, accounting: string, terminal: Diagnostics)
    requires StageOf(r.diagnostics).ReservedStage?
    requires Settlement(r, r.(status := status, accounting := accounting))
    requires DiagnosticsWrite(r, r.(diagnostics := terminal))
    ensures var settled, ended := r.(status := status, accounting := accounting), r.(diagnostics := terminal);
      var both := settled.(diagnostics := terminal);
      && Allowed(settled, both) && Allowed(ended, both)
      && !CanChange(both)
  {
    assert "stage" in r.diagnostics;
  }

  // ----- the table

  class ReceiptTable {
    var rows: map<string, Receipt>

    /** BEFORE UPDATE: the row changes only when the trigger lets it. */
    method UpdateReceipt(id: string, new': Receipt) returns (ok: bool)
      modifies this
      ensures ok <==> id in old(rows) && Allowed(old(rows)[id], new')
      ensures rows == if ok then old(rows)[id := new'] else old(rows)
      ensures ok ==> Rank(rows[id]) < Rank(old(rows)[id]) <= 3
    {
      if id !in rows {
        return false;
      }
      var was := rows[id];
      if new'.(diagnostics := was.diagnostics) == was
         && Versioned(new'.diagnostics)
         && ((was.status.Reserved? && was.diagnostics == map[] && StageOf(new'.diagnostics).ReservedStage?)
             || (StageOf(was.diagnostics).ReservedStage?
                 && new'.diagnostics - OUTCOME_KEYS == was.diagnostics - OUTCOME_KEYS
                 && StageOf(new'.diagnostics).TerminalStage?)) {
        AllowedDecreasesRank(was, new');
        rows := rows[id := new'];
        return true;
      }
      if !was.status.Reserved? || new'.diagnostics != was.diagnostics || new'.binding != was.binding
         || !Settled(new'.status) {
        return false;
      }
      AllowedDecreasesRank(was, new');
      rows := rows[id := new'];
      return true;
    }
  }
}
