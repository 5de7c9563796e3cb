/**
Which configurations applying a patch can lead to, over every order of its keys: exactly the
choices of one value a field that the password check lets stand. From that follows exactly when
the whole call has one outcome.
*/
module EventConfigOutcomes {
  import opened Wrappers
  import opened Runes
  import opened EventConfigPatch

  // ----- passwords that are accepted whatever the current one is

  predicate FreePassword(v: Value) {
    v.Words? && (v.words == "" || MIN_PASSWORD <= |v.words| <= MAX_PASSWORD)
  }

  predicate WritesPassword(p: Patch, k: Key) {
    Writes(p, k) && k.field.dest == Password
  }

  /** Key `k` writes no password, or one that is accepted always. */
  predicate IsFree(ps: Parsers, p: Patch, k: Key) {
    WritesPassword(p, k) ==>
      Decode(ps, PasswordKind, p[k]).Some? && FreePassword(Decode(ps, PasswordKind, p[k]).value)
  }

  predicate WritesValue(ps: Parsers, p: Patch, k: Key, d: Dest, v: Value) {
    Writes(p, k) && k.field.dest == d && Decode(ps, KindOf(d), p[k]) == Some(v)
  }

  /** The password can be read last: it is accepted always, or no key writes another one. */
  ghost predicate PasswordStands(ps: Parsers, p: Patch, v: Value) {
    FreePassword(v) || forall k | WritesPassword(p, k) :: WritesValue(ps, p, k, Password, v)
  }

  lemma NotFreeKeeps(ps: Parsers, p: Patch, c: Config, k: Key)
    requires Typed(c) && !Refused(ps, p, c, k) && !IsFree(ps, p, k)
    ensures Keeps(ps, p, c, k)
  {
  }

  // ----- orders that succeed

  /** None of the first `i` keys changes the password. */
  predicate KeepsSoFar(ps: Parsers, p: Patch, c: Config, order: seq<Key>, i: nat)
    requires i <= |order| && Typed(c)
  {
    forall j | 0 <= j < i :: WritesPassword(p, order[j]) ==> Keeps(ps, p, c, order[j])
  }

  predicate Orderly(ps: Parsers, p: Patch, c: Config, order: seq<Key>, j: nat)
    requires j < |order| && Typed(c)
  {
    IsFree(ps, p, order[j]) || KeepsSoFar(ps, p, c, order, j + 1)
  }

  lemma AcceptedNow(ps: Parsers, p: Patch, c: Config, x: Config, k: Key)
    requires Typed(c) && Typed(x) && k in p && !Refused(ps, p, c, k)
    requires IsFree(ps, p, k) || TrimSpace(x.values[Password].words) == TrimSpace(c.values[Password].words)
    ensures ApplyKey(ps, p, x, k).Some?
    ensures WritesPassword(p, k) || ApplyKey(ps, p, x, k).value.values[Password] == x.values[Password]
    ensures Keeps(ps, p, c, k) ==>
      TrimSpace(ApplyKey(ps, p, x, k).value.values[Password].words) == TrimSpace(c.values[Password].words)
  {
    if WritesPassword(p, k) {
      PasswordsAreTrimmed(ps, p[k]);
    }
  }

  lemma {:induction false} OrderlySucceeds(ps: Parsers, p: Patch, c: Config, order: seq<Key>, i: nat)
    requires i <= |order| && Typed(c) && (forall k | k in order :: k in p) && !Doomed(ps, p, c)
    requires forall j | 0 <= j < |order| :: Orderly(ps, p, c, order, j)
    ensures Run(ps, p, c, order, i).Some?
    ensures KeepsSoFar(ps, p, c, order, i) ==>
      TrimSpace(Run(ps, p, c, order, i).value.values[Password].words) == TrimSpace(c.values[Password].words)
  {
    if i > 0 {
      OrderlySucceeds(ps, p, c, order, i - 1);
      var k := order[i - 1];
      assert Orderly(ps, p, c, order, i - 1) && !Refused(ps, p, c, k);
      AcceptedNow(ps, p, c, Run(ps, p, c, order, i - 1).value, k);
    }
  }

  /** The value of the last key that writes a field stays. */
  lemma {:induction false} LastWriterStays(ps: Parsers, p: Patch, c: Config, order: seq<Key>, m: nat, i: nat)
    requires m < i <= |order| && Typed(c) && (forall k | k in order :: k in p)
    requires Writes(p, order[m]) && Run(ps, p, c, order, i).Some?
    requires forall j | m < j < i :: !(Writes(p, order[j]) && order[j].field.dest == order[m].field.dest)
    ensures var d := order[m].field.dest;
      WritesValue(ps, p, order[m], d, Run(ps, p, c, order, i).value.values[d])
  {
    if i > m + 1 {
      LastWriterStays(ps, p, c, order, m, i - 1);
    }
  }

  /** A password that is not always accepted never returns once another one has been written. */
  lemma {:induction false} LostPasswordStaysLost(
      ps: Parsers, p: Patch, c: Config, order: seq<Key>, m: nat, i: nat, v: Value)
    requires m < i <= |order| && Typed(c) && (forall k | k in order :: k in p)
    requires WritesPassword(p, order[m]) && !WritesValue(ps, p, order[m], Password, v)
    requires Run(ps, p, c, order, i).Some? && v.Words? && !FreePassword(v)
    ensures Run(ps, p, c, order, i).value.values[Password] != v
  {
    if i > m + 1 {
      LostPasswordStaysLost(ps, p, c, order, m, i - 1, v);
      var x := Run(ps, p, c, order, i - 1).value;
      RunReflects(ps, p, c, order, i - 1, x);
      assert FieldReflects(ps, p, c, order, i - 1, x, Password);
      SomePasswordWritten(ps, p, order, m, i - 1, x, c);
    }
  }

  lemma SomePasswordWritten(ps: Parsers, p: Patch, order: seq<Key>, m: nat, i: nat, x: Config, c: Config)
    requires m < i <= |order| && Typed(c) && Typed(x) && WritesPassword(p, order[m])
    requires FieldReflects(ps, p, c, order, i, x, Password)
    ensures TrimSpace(x.values[Password].words) == x.values[Password].words
  {
    assert Wrote(p, order, i, order[m], Password) by {
      assert Seen(order, i, order[m]);
    }
    var k :| Wrote(p, order, i, k, Password) && Decode(ps, PasswordKind, p[k]) == Some(x.values[Password]);
    PasswordsAreTrimmed(ps, p[k]);
  }

  // ----- every choice whose password stands is reached

  predicate Fixed(ps: Parsers, p: Patch, k: Key) {
    !IsFree(ps, p, k)
  }

  /** The keys that are read last: one for each field that is written, with the chosen value. */
  ghost function LastKey(ps: Parsers, p: Patch, d: Dest, v: Value): Key
    requires exists k :: WritesValue(ps, p, k, d, v)
  {
    var k :| WritesValue(ps, p, k, d, v); k
  }

  ghost predicate IsLast(ps: Parsers, p: Patch, x: Config, k: Key)
    requires Typed(x)
  {
    Writes(p, k)
    && var d := k.field.dest; WritesValue(ps, p, k, d, x.values[d]) && k == LastKey(ps, p, d, x.values[d])
  }

  lemma OrderOfThree(ps: Parsers, p: Patch, x: Config) returns (order: seq<Key>, n: nat, m: nat)
    requires Typed(x)
    ensures Lists(order, p.Keys) && n <= m <= |order|
    ensures forall j | 0 <= j < n :: Fixed(ps, p, order[j])
    ensures forall j | n <= j < m :: IsFree(ps, p, order[j])
    ensures forall j | 0 <= j < |order| :: IsLast(ps, p, x, order[j]) <==> m <= j
  {
    var last := set k | k in p.Keys && IsLast(ps, p, x, k);
    var first := set k | k in p.Keys - last && Fixed(ps, p, k);
    var second := p.Keys - last - first;
    var a := ListAll(first);
    var b := ListAll(second);
    var e := ListAll(last);
    ListsJoin(a, b, first, second);
    ListsJoin(a + b, e, first + second, last);
    assert first + second + last == p.Keys;
    JoinedMembers(a, b, first, second);
    JoinedMembers(a + b, e, first + second, last);
    order, n, m := a + b + e, |a|, |a + b|;
    assert forall j | 0 <= j < m :: order[j] == (a + b)[j];
  }

  /** First the passwords that are not always accepted, then the rest, then the chosen keys. */
  lemma ChosenOrder(ps: Parsers, p: Patch, c: Config, x: Config) returns (order: seq<Key>, m: nat)
    requires Typed(c) && Typed(x) && !Doomed(ps, p, c) && PasswordStands(ps, p, x.values[Password])
    ensures Lists(order, p.Keys) && m <= |order|
    ensures forall j | 0 <= j < |order| :: Orderly(ps, p, c, order, j)
    ensures forall j | 0 <= j < |order| :: IsLast(ps, p, x, order[j]) <==> m <= j
  {
    var n;
    order, n, m := OrderOfThree(ps, p, x);
    forall j | 0 <= j < |order|
      ensures Orderly(ps, p, c, order, j)
    {
      if j < n {
        FixedFirst(ps, p, c, order, j);
      } else if !IsFree(ps, p, order[j]) {
        OnlyOnePassword(ps, p, c, order, j, x.values[Password]);
      }
    }
  }

  lemma OnlyOnePassword(ps: Parsers, p: Patch, c: Config, order: seq<Key>, j: nat, v: Value)
    requires Typed(c) && !Doomed(ps, p, c) && j < |order| && !IsFree(ps, p, order[j])
    requires (forall k | k in order :: k in p) && PasswordStands(ps, p, v) && WritesValue(ps, p, order[j], Password, v)
    ensures Orderly(ps, p, c, order, j)
  {
    forall i | 0 <= i <= j && WritesPassword(p, order[i])
      ensures Keeps(ps, p, c, order[i])
    {
      assert WritesValue(ps, p, order[i], Password, v) && !Refused(ps, p, c, order[i]);
      NotFreeKeeps(ps, p, c, order[i]);
    }
  }

  lemma FixedFirst(ps: Parsers, p: Patch, c: Config, order: seq<Key>, j: nat)
    requires Typed(c) && !Doomed(ps, p, c) && j < |order|
    requires forall i | 0 <= i <= j :: order[i] in p && Fixed(ps, p, order[i])
    ensures Orderly(ps, p, c, order, j)
  {
    forall i | 0 <= i <= j
      ensures Keeps(ps, p, c, order[i])
    {
      assert !Refused(ps, p, c, order[i]);
      NotFreeKeeps(ps, p, c, order[i]);
    }
  }

  /** The last key of a field that is written is at a place that no other writer of the field follows. */
  lemma LastKeyAt(ps: Parsers, p: Patch, x: Config, order: seq<Key>, m: nat, d: Dest) returns (i: nat)
    requires Typed(x) && Lists(order, p.Keys) && m <= |order|
    requires forall j | 0 <= j < |order| :: IsLast(ps, p, x, order[j]) <==> m <= j
    requires exists k :: WritesValue(ps, p, k, d, x.values[d])
    ensures i < |order| && WritesValue(ps, p, order[i], d, x.values[d])
    ensures forall j | i < j < |order| :: !(Writes(p, order[j]) && order[j].field.dest == d)
  {
    var last := LastKey(ps, p, d, x.values[d]);
    assert last in order && IsLast(ps, p, x, last);
    i :| 0 <= i < |order| && order[i] == last;
    forall j | i < j < |order|
      ensures !(Writes(p, order[j]) && order[j].field.dest == d)
    {
      assert IsLast(ps, p, x, order[j]);
    }
  }

  /** The order reaches the choice in each field. */
  lemma ChosenField(ps: Parsers, p: Patch, c: Config, x: Config, order: seq<Key>, m: nat, y: Config, d: Dest)
    requires Typed(c) && Typed(x) && Lists(order, p.Keys) && m <= |order| && RunAll(ps, p, c, order) == Some(y)
    requires forall j | 0 <= j < |order| :: IsLast(ps, p, x, order[j]) <==> m <= j
    requires KeptOrWritten(ps, p, c, x, d)
    ensures y.values[d] == x.values[d]
  {
    if exists k :: WritesValue(ps, p, k, d, x.values[d]) {
      var i := LastKeyAt(ps, p, x, order, m, d);
      LastWriterStays(ps, p, c, order, i, |order|);
    } else {
      RunKeepsOrWrites(ps, p, c, order, y, d);
      UnwrittenKeeps(ps, p, c, x, y, d);
    }
  }

  lemma UnwrittenKeeps(ps: Parsers, p: Patch, c: Config, x: Config, y: Config, d: Dest)
    requires Typed(c) && Typed(x) && Typed(y)
    requires KeptOrWritten(ps, p, c, x, d) && KeptOrWritten(ps, p, c, y, d)
    requires !exists k :: WritesValue(ps, p, k, d, x.values[d])
    ensures y.values[d] == x.values[d]
  {
    assert forall k :: Writes(p, k) && k.field.dest == d && Decode(ps, KindOf(d), p[k]) == Some(x.values[d]) ==>
      WritesValue(ps, p, k, d, x.values[d]);
  }

  lemma ChoiceIsReached(ps: Parsers, p: Patch, c: Config, x: Config) returns (order: seq<Key>)
    requires Typed(c) && Typed(x) && !Doomed(ps, p, c)
    requires Choice(ps, p, c, x) && PasswordStands(ps, p, x.values[Password])
    ensures Lists(order, p.Keys) && RunAll(ps, p, c, order) == Some(x)
  {
    var m;
    order, m := ChosenOrder(ps, p, c, x);
    OrderlySucceeds(ps, p, c, order, |order|);
    var y := RunAll(ps, p, c, order).value;
    forall d: Dest
      ensures y.values[d] == x.values[d]
    {
      ChosenField(ps, p, c, x, order, m, y, d);
    }
    assert y.values == x.values;
    RunMarksVisibility(ps, p, c, order, y);
  }

  lemma ReachedPasswordStands(ps: Parsers, p: Patch, c: Config, order: seq<Key>, x: Config)
    requires Typed(c) && Lists(order, p.Keys) && RunAll(ps, p, c, order) == Some(x)
    ensures PasswordStands(ps, p, x.values[Password])
  {
    var v := x.values[Password];
    if !FreePassword(v) {
      forall k | WritesPassword(p, k)
        ensures WritesValue(ps, p, k, Password, v)
      {
        assert k in order;
        var m :| 0 <= m < |order| && order[m] == k;
        if !WritesValue(ps, p, k, Password, v) {
          LostPasswordStaysLost(ps, p, c, order, m, |order|, v);
        }
      }
    }
  }

  /**
  Exactly what the loop can leave behind, over all orders: any choice of one value a field whose
  password is accepted always or is the only one written.
  */
  lemma LoopReachesExactly(ps: Parsers, p: Patch, c: Config, x: Config)
    requires Typed(c) && Typed(x) && !Doomed(ps, p, c)
    ensures (exists order | Lists(order, p.Keys) :: RunAll(ps, p, c, order) == Some(x))
       <==> Choice(ps, p, c, x) && PasswordStands(ps, p, x.values[Password])
  {
    if order :| Lists(order, p.Keys) && RunAll(ps, p, c, order) == Some(x) {
      RunIsChoice(ps, p, c, order, x);
      ReachedPasswordStands(ps, p, c, order, x);
    } else if Choice(ps, p, c, x) && PasswordStands(ps, p, x.values[Password]) {
      var order := ChoiceIsReached(ps, p, c, x);
    }
  }

  // ----- the order of the keys in the loop

  /** Some order succeeds, so some choice's password stands. */
  lemma SomeChoice(ps: Parsers, p: Patch, c: Config) returns (x: Config)
    requires Typed(c) && !Doomed(ps, p, c)
    ensures Typed(x) && Choice(ps, p, c, x) && PasswordStands(ps, p, x.values[Password])
  {
    var first := set k | k in p.Keys && Fixed(ps, p, k);
    var a := ListAll(first);
    var b := ListAll(p.Keys - first);
    ListsJoin(a, b, first, p.Keys - first);
    assert first + (p.Keys - first) == p.Keys;
    JoinedMembers(a, b, first, p.Keys - first);
    var order := a + b;
    forall j | 0 <= j < |order|
      ensures Orderly(ps, p, c, order, j)
    {
      if j < |a| {
        FixedFirst(ps, p, c, order, j);
      }
    }
    OrderlySucceeds(ps, p, c, order, |order|);
    x := RunAll(ps, p, c, order).value;
    RunIsChoice(ps, p, c, order, x);
    ReachedPasswordStands(ps, p, c, order, x);
  }

  /** One field of a choice can be chosen anew. */
  lemma Rechosen(ps: Parsers, p: Patch, c: Config, x: Config, d: Dest, v: Value) returns (y: Config)
    requires Typed(c) && Typed(x) && Choice(ps, p, c, x) && MayHold(ps, p, c, d, v) && HasKind(v, KindOf(d))
    ensures y == x.(values := x.values[d := v]) && Typed(y) && Choice(ps, p, c, y)
  {
    y := x.(values := x.values[d := v]);
    forall e
      ensures KeptOrWritten(ps, p, c, y, e)
    {
      assert e == d || KeptOrWritten(ps, p, c, x, e);
    }
  }

  lemma OtherValue(ps: Parsers, p: Patch, c: Config, d: Dest, v: Value) returns (w: Value)
    requires Typed(c) && !Doomed(ps, p, c) && !AgreeOn(ps, p, d)
    ensures w != v && MayHold(ps, p, c, d, w) && HasKind(w, KindOf(d))
  {
    var k, l :| Writes(p, k) && Writes(p, l) && k.field.dest == d && l.field.dest == d
      && Decode(ps, KindOf(d), p[k]) != Decode(ps, KindOf(d), p[l]);
    assert !Refused(ps, p, c, k) && !Refused(ps, p, c, l);
    w := if Decode(ps, KindOf(d), p[k]) == Some(v) then Decode(ps, KindOf(d), p[l]).value
         else Decode(ps, KindOf(d), p[k]).value;
  }

  /** Of two passwords that differ, one is accepted always. */
  lemma ChangingKey(ps: Parsers, p: Patch, c: Config) returns (k: Key, l: Key)
    requires Typed(c) && !Doomed(ps, p, c) && !AgreeOn(ps, p, Password)
    ensures WritesPassword(p, k) && WritesPassword(p, l) && IsFree(ps, p, l)
    ensures Decode(ps, PasswordKind, p[k]) != Decode(ps, PasswordKind, p[l])
  {
    k, l :| Writes(p, k) && Writes(p, l) && k.field.dest == Password && l.field.dest == Password
      && Decode(ps, PasswordKind, p[k]) != Decode(ps, PasswordKind, p[l]);
    assert !Refused(ps, p, c, k) && !Refused(ps, p, c, l);
    if !IsFree(ps, p, l) {
      NotFreeKeeps(ps, p, c, l);
      k, l := l, k;
      if !IsFree(ps, p, l) {
        NotFreeKeeps(ps, p, c, l);
      }
    }
  }

  lemma RechosenFlag(ps: Parsers, p: Patch, c: Config, x: Config, d: Dest, b: bool) returns (y: Config)
    requires Typed(c) && Succeeding(ps, p, c, x) && IsCoupled(d) && MayHold(ps, p, c, d, Flag(b))
    ensures Succeeding(ps, p, c, y) && y.values[d] == Flag(b)
    ensures forall e | e != d :: y.values[e] == x.values[e]
  {
    y := Rechosen(ps, p, c, x, d, Flag(b));
  }

  lemma ValueDisagreementShows(ps: Parsers, p: Patch, c: Config, d: Dest)
    requires Typed(c) && !Doomed(ps, p, c) && d != Password && !AgreeOn(ps, p, d)
    ensures !OrderIrrelevant(ps, p, c)
  {
    var x := SomeChoice(ps, p, c);
    var v := OtherValue(ps, p, c, d, x.values[d]);
    var y := Rechosen(ps, p, c, x, d, v);
    var a := ChoiceIsReached(ps, p, c, x);
    var b := ChoiceIsReached(ps, p, c, y);
  }

  lemma PasswordOrderShows(ps: Parsers, p: Patch, c: Config)
    requires Typed(c) && !Doomed(ps, p, c) && !AgreeOn(ps, p, Password)
    ensures !OrderIrrelevant(ps, p, c)
  {
    var k, l := ChangingKey(ps, p, c);
    var x := SomeChoice(ps, p, c);
    x := Rechosen(ps, p, c, x, Password, Decode(ps, PasswordKind, p[l]).value);
    var a := ChoiceIsReached(ps, p, c, x);
    var b := LastToSpeak(ps, p, c, k);
  }

  /**
  The order in which the map yields its keys is irrelevant to the loop exactly when the keys for one
  destination agree, or some key is refused whatever the order.
  */
  lemma OrderIrrelevantExactly(ps: Parsers, p: Patch, c: Config)
    requires Typed(c)
    ensures OrderIrrelevant(ps, p, c) <==> Agreeing(ps, p) || Doomed(ps, p, c)
  {
    if Agreeing(ps, p) || Doomed(ps, p, c) {
      forall a, b | Lists(a, p.Keys) && Lists(b, p.Keys)
        ensures RunAll(ps, p, c, a) == RunAll(ps, p, c, b)
      {
        AgreeingOrDoomedSuffices(ps, p, c, a, b);
      }
    } else {
      var k, l :| Writes(p, k) && Writes(p, l) && k.field.dest == l.field.dest
        && Decode(ps, KindOf(k.field.dest), p[k]) != Decode(ps, KindOf(l.field.dest), p[l]);
      if k.field.dest == Password {
        PasswordOrderShows(ps, p, c);
      } else {
        ValueDisagreementShows(ps, p, c, k.field.dest);
      }
    }
  }

  // ----- the outcome of the whole call

  function FlagOf(c: Config, d: Dest): bool
    requires Typed(c) && KindOf(d) == FlagKind
  {
    c.values[d].flag
  }

  predicate InRange(c: Config)
    requires Typed(c)
  {
    !RangeInvalid(c.values[ActiveFrom], c.values[ActiveUntil])
  }

  ghost predicate OneOutcome(ps: Parsers, p: Patch, c: Config)
    requires Typed(c)
  {
    forall r, s | MayResult(ps, p, c, r) && MayResult(ps, p, c, s) :: r == s
  }

  /** Whatever the keys leave in the two dates, the active range is invalid. */
  ghost predicate NeverInRange(ps: Parsers, p: Patch, c: Config)
    requires Typed(c)
  {
    forall from: Value, until: Value | from.Time? && until.MaybeTime? ::
      MayHold(ps, p, c, ActiveFrom, from) && MayHold(ps, p, c, ActiveUntil, until) ==> RangeInvalid(from, until)
  }

  /** The three coupled flags and the visibility mark after a call. */
  datatype Sharing = Sharing(allow: bool, wall: bool, share: bool, marked: bool)

  function Settle(allow: bool, wall: bool, share: bool, opens: bool, marked: bool): Sharing {
    var allowed, shown := allow || opens, wall && !opens;
    Sharing(allowed, shown, share && allowed && !shown, marked || opens)
  }

  /** What the values the keys leave in the flags, and one reading of the patch, settle on. */
  ghost predicate MaySettle(ps: Parsers, p: Patch, c: Config, r: Sharing)
    requires Typed(c)
  {
    exists allow, wall, share, opens :: Settles(ps, p, c, allow, wall, share, opens, r)
  }

  ghost predicate Settles(
      ps: Parsers, p: Patch, c: Config, allow: bool, wall: bool, share: bool, opens: bool, r: Sharing)
    requires Typed(c)
  {
    && MayHold(ps, p, c, AllowUploads, Flag(allow))
    && MayHold(ps, p, c, ShowMomentWall, Flag(wall))
    && MayHold(ps, p, c, ShareUploadsEnabled, Flag(share))
    && MayOpen(p, opens)
    && r == Settle(allow, wall, share, opens, c.visibilityConfigured || MarksVisibility(p))
  }

  /** Keys that disagree about a coupled flag make no difference. */
  ghost predicate FlagsSettle(ps: Parsers, p: Patch, c: Config)
    requires Typed(c)
  {
    forall q, r | MaySettle(ps, p, c, q) && MaySettle(ps, p, c, r) :: q == r
  }

  function SharingOf(c: Config): Sharing
    requires Typed(c)
  {
    Sharing(FlagOf(c, AllowUploads), FlagOf(c, ShowMomentWall), FlagOf(c, ShareUploadsEnabled),
      c.visibilityConfigured)
  }

  lemma SettledSharing(ps: Parsers, p: Patch, c: Config, x: Config, opens: bool)
    requires Typed(c) && Typed(x)
    ensures SharingOf(Closed(Coupled(x, opens))) ==
      Settle(FlagOf(x, AllowUploads), FlagOf(x, ShowMomentWall), FlagOf(x, ShareUploadsEnabled), opens,
        x.visibilityConfigured)
  {
    SettledValues(x, opens);
  }

  lemma ChoiceSettles(ps: Parsers, p: Patch, c: Config, x: Config, ls: Lookups)
    requires Typed(c) && Typed(x) && Choice(ps, p, c, x) && MayLook(p, ls)
    ensures MaySettle(ps, p, c, SharingOf(Closed(Coupled(x, Opens(ls)))))
  {
    var opens := Opens(ls);
    SettledSharing(ps, p, c, x, opens);
    assert KeptOrWritten(ps, p, c, x, AllowUploads) && KeptOrWritten(ps, p, c, x, ShowMomentWall);
    assert KeptOrWritten(ps, p, c, x, ShareUploadsEnabled) && MayOpen(p, opens);
    assert Settles(ps, p, c, FlagOf(x, AllowUploads), FlagOf(x, ShowMomentWall),
      FlagOf(x, ShareUploadsEnabled), opens, SharingOf(Closed(Coupled(x, opens))));
  }

  /** A patch that no order refuses from the start has readable flags. */
  lemma FlagsAreReadable(ps: Parsers, p: Patch, c: Config, d: Dest, r: Lookup)
    requires Typed(c) && !Doomed(ps, p, c) && KindOf(d) == FlagKind && MayLookUp(p, d, r)
    ensures !r.Bad?
  {
    if exists k :: k in p && k.field == Canonical(d) && r == Look(p[k]) {
      var k :| k in p && k.field == Canonical(d) && r == Look(p[k])
        && (k.alias == 0 || Key(Canonical(d), 0) !in p);
      assert !Refused(ps, p, c, k);
      LookupIsDecoding(ps, p[k]);
    }
  }

  lemma LookupsAreReadable(ps: Parsers, p: Patch, c: Config, ls: Lookups)
    requires Typed(c) && !Doomed(ps, p, c) && MayLook(p, ls)
    ensures !Unreadable(ls)
  {
    FlagsAreReadable(ps, p, c, ShareUploadsEnabled, ls.share);
    FlagsAreReadable(ps, p, c, AllowUploads, ls.allow);
    FlagsAreReadable(ps, p, c, ShowMomentWall, ls.wall);
  }

  /** With a valid range, a choice is finished by coupling and closing it. */
  lemma FinishOf(ps: Parsers, p: Patch, c: Config, x: Config, ls: Lookups)
    requires Typed(c) && Typed(x) && !Doomed(ps, p, c) && MayLook(p, ls)
    ensures Finish(x, ls) == if InRange(x) then Some(Closed(Coupled(x, Opens(ls)))) else None
  {
    LookupsAreReadable(ps, p, c, ls);
    SettledValues(x, Opens(ls));
  }

  // ----- the condition suffices

  lemma DoomedHasOneOutcome(ps: Parsers, p: Patch, c: Config, r: Option<Config>)
    requires Typed(c) && Doomed(ps, p, c) && MayResult(ps, p, c, r)
    ensures r == None
  {
    var order :| Lists(order, p.Keys) && Outcome(ps, p, c, order, r);
    AgreeingOrDoomedSuffices(ps, p, c, order, order);
  }

  lemma ChoiceOutOfRange(ps: Parsers, p: Patch, c: Config, x: Config)
    requires Typed(c) && Typed(x) && NeverInRange(ps, p, c) && Choice(ps, p, c, x)
    ensures !InRange(x)
  {
    assert KeptOrWritten(ps, p, c, x, ActiveFrom) && KeptOrWritten(ps, p, c, x, ActiveUntil);
  }

  lemma FinishedInRange(x: Config, ls: Lookups, after: Config)
    requires Typed(x) && Finish(x, ls) == Some(after)
    ensures InRange(x)
  {
    SettledValues(x, Opens(ls));
  }

  lemma OutOfRangeHasOneOutcome(ps: Parsers, p: Patch, c: Config, r: Option<Config>)
    requires Typed(c) && NeverInRange(ps, p, c) && MayResult(ps, p, c, r)
    ensures r == None
  {
    if r.Some? {
      var x, ls := SuccessIsFinishedChoice(ps, p, c, r.value);
      FinishedInRange(x, ls, r.value);
      ChoiceOutOfRange(ps, p, c, x);
    }
  }

  ghost predicate AgreesUncoupled(ps: Parsers, p: Patch) {
    forall d | !IsCoupled(d) :: AgreeOn(ps, p, d)
  }

  /** With agreeing passwords every order succeeds, so every outcome finishes a choice. */
  lemma OutcomeFinishesChoice(ps: Parsers, p: Patch, c: Config, r: Option<Config>) returns (x: Config, ls: Lookups)
    requires Typed(c) && !Doomed(ps, p, c) && AgreeOn(ps, p, Password) && MayResult(ps, p, c, r)
    ensures Typed(x) && Choice(ps, p, c, x) && MayLook(p, ls) && r == Finish(x, ls)
  {
    var order :| Lists(order, p.Keys) && Outcome(ps, p, c, order, r);
    AgreeingRunSucceeds(ps, p, c, order, |order|);
    x := RunAll(ps, p, c, order).value;
    RunIsChoice(ps, p, c, order, x);
    ls :| MayLook(p, ls) && r == Finish(x, ls);
  }

  lemma HeldValueIsUnique(ps: Parsers, p: Patch, c: Config, d: Dest, v: Value, w: Value)
    requires Typed(c) && AgreeOn(ps, p, d) && MayHold(ps, p, c, d, v) && MayHold(ps, p, c, d, w)
    ensures v == w
  {
  }

  lemma SharingAlike(ps: Parsers, p: Patch, c: Config, x: Config, y: Config, ls: Lookups, ms: Lookups)
    requires Typed(c) && Typed(x) && Typed(y) && FlagsSettle(ps, p, c)
    requires Choice(ps, p, c, x) && Choice(ps, p, c, y) && MayLook(p, ls) && MayLook(p, ms)
    ensures SharingOf(Closed(Coupled(x, Opens(ls)))) == SharingOf(Closed(Coupled(y, Opens(ms))))
  {
    ChoiceSettles(ps, p, c, x, ls);
    ChoiceSettles(ps, p, c, y, ms);
  }

  lemma UncoupledAlike(ps: Parsers, p: Patch, c: Config, x: Config, y: Config, d: Dest)
    requires Typed(c) && Typed(x) && Typed(y) && AgreesUncoupled(ps, p) && !IsCoupled(d)
    requires Choice(ps, p, c, x) && Choice(ps, p, c, y)
    ensures x.values[d] == y.values[d]
  {
    assert KeptOrWritten(ps, p, c, x, d) && KeptOrWritten(ps, p, c, y, d);
    HeldValueIsUnique(ps, p, c, d, x.values[d], y.values[d]);
  }

  lemma SharingAndRest(a: Config, b: Config)
    requires Typed(a) && Typed(b) && SharingOf(a) == SharingOf(b)
    requires forall d | !IsCoupled(d) :: a.values[d] == b.values[d]
    ensures a == b
  {
    forall d: Dest
      ensures a.values[d] == b.values[d]
    {
      assert IsCoupled(d) ==> a.values[d].Flag? && b.values[d].Flag?;
    }
    assert a.values == b.values;
  }

  lemma SettledAlike(ps: Parsers, p: Patch, c: Config, x: Config, y: Config, ls: Lookups, ms: Lookups)
    requires Typed(c) && Typed(x) && Typed(y) && AgreesUncoupled(ps, p) && FlagsSettle(ps, p, c)
    requires Choice(ps, p, c, x) && Choice(ps, p, c, y) && MayLook(p, ls) && MayLook(p, ms)
    ensures Closed(Coupled(x, Opens(ls))) == Closed(Coupled(y, Opens(ms)))
  {
    var a, b := Closed(Coupled(x, Opens(ls))), Closed(Coupled(y, Opens(ms)));
    SharingAlike(ps, p, c, x, y, ls, ms);
    SettledValues(x, Opens(ls));
    SettledValues(y, Opens(ms));
    forall d | !IsCoupled(d)
      ensures a.values[d] == b.values[d]
    {
      UncoupledAlike(ps, p, c, x, y, d);
    }
    SharingAndRest(a, b);
  }

  lemma FinishedAlike(ps: Parsers, p: Patch, c: Config, x: Config, y: Config, ls: Lookups, ms: Lookups)
    requires Typed(c) && Typed(x) && Typed(y) && !Doomed(ps, p, c)
    requires AgreesUncoupled(ps, p) && FlagsSettle(ps, p, c)
    requires Choice(ps, p, c, x) && Choice(ps, p, c, y) && MayLook(p, ls) && MayLook(p, ms)
    ensures Finish(x, ls) == Finish(y, ms)
  {
    FinishOf(ps, p, c, x, ls);
    FinishOf(ps, p, c, y, ms);
    UncoupledAlike(ps, p, c, x, y, ActiveFrom);
    UncoupledAlike(ps, p, c, x, y, ActiveUntil);
    SettledAlike(ps, p, c, x, y, ls, ms);
  }

  lemma AgreeingHasOneOutcome(ps: Parsers, p: Patch, c: Config, r: Option<Config>, s: Option<Config>)
    requires Typed(c) && !Doomed(ps, p, c) && AgreesUncoupled(ps, p) && FlagsSettle(ps, p, c)
    requires MayResult(ps, p, c, r) && MayResult(ps, p, c, s)
    ensures r == s
  {
    assert !IsCoupled(Password);
    var x, ls := OutcomeFinishesChoice(ps, p, c, r);
    var y, ms := OutcomeFinishesChoice(ps, p, c, s);
    FinishedAlike(ps, p, c, x, y, ls, ms);
  }

  // ----- and it is needed

  /** A choice whose password stands is an outcome when its range is valid. */
  lemma ChoiceIsOutcome(ps: Parsers, p: Patch, c: Config, x: Config, ls: Lookups)
    requires Typed(c) && Typed(x) && !Doomed(ps, p, c) && MayLook(p, ls)
    requires Choice(ps, p, c, x) && PasswordStands(ps, p, x.values[Password])
    ensures MayResult(ps, p, c, Finish(x, ls))
  {
    var order := ChoiceIsReached(ps, p, c, x);
    assert MayFinish(p, x, Finish(x, ls));
    FinishedRun(ps, p, c, order, x, Finish(x, ls));
  }

  lemma SomeFlag(p: Patch, d: Dest) returns (r: Lookup)
    ensures MayLookUp(p, d, r)
  {
    var own := Key(Canonical(d), 0);
    if own in p {
      r := Look(p[own]);
    } else if k :| k in p && k.field == Canonical(d) {
      r := Look(p[k]);
    } else {
      r := Missing;
    }
  }

  lemma SomeLookups(p: Patch) returns (ls: Lookups)
    ensures MayLook(p, ls)
  {
    var share := SomeFlag(p, ShareUploadsEnabled);
    var allow := SomeFlag(p, AllowUploads);
    var wall := SomeFlag(p, ShowMomentWall);
    ls := Lookups(share, allow, wall);
  }

  /** A choice that would succeed. */
  ghost predicate Succeeding(ps: Parsers, p: Patch, c: Config, x: Config)
    requires Typed(c)
  {
    Typed(x) && Choice(ps, p, c, x) && PasswordStands(ps, p, x.values[Password]) && InRange(x)
  }

  /** A choice that succeeds, when some dates are in range. */
  lemma SomeSuccess(ps: Parsers, p: Patch, c: Config) returns (x: Config)
    requires Typed(c) && !Doomed(ps, p, c) && !NeverInRange(ps, p, c)
    ensures Succeeding(ps, p, c, x)
  {
    var from: Value, until: Value :| from.Time? && until.MaybeTime?
      && MayHold(ps, p, c, ActiveFrom, from) && MayHold(ps, p, c, ActiveUntil, until) && !RangeInvalid(from, until);
    x := SomeChoice(ps, p, c);
    x := Rechosen(ps, p, c, x, ActiveFrom, from);
    x := Rechosen(ps, p, c, x, ActiveUntil, until);
  }

  lemma DifferentFieldsDiffer(ps: Parsers, p: Patch, c: Config, x: Config, y: Config, ls: Lookups, d: Dest)
    requires Typed(c) && Typed(x) && Typed(y) && !Doomed(ps, p, c) && MayLook(p, ls) && !IsCoupled(d)
    requires InRange(x) && x.values[d] != y.values[d]
    ensures Finish(x, ls) != Finish(y, ls)
  {
    FinishOf(ps, p, c, x, ls);
    FinishOf(ps, p, c, y, ls);
    SettledValues(x, Opens(ls));
    SettledValues(y, Opens(ls));
  }

  /** Keys that disagree about an uncoupled field other than the password show in the outcome. */
  lemma DisagreementShows(ps: Parsers, p: Patch, c: Config, d: Dest)
    requires Typed(c) && !Doomed(ps, p, c) && !NeverInRange(ps, p, c)
    requires !IsCoupled(d) && d != Password && !AgreeOn(ps, p, d)
    ensures !OneOutcome(ps, p, c)
  {
    var x := SomeSuccess(ps, p, c);
    var ls := SomeLookups(p);
    var v := OtherValue(ps, p, c, d, x.values[d]);
    var y := Rechosen(ps, p, c, x, d, v);
    DifferentFieldsDiffer(ps, p, c, x, y, ls, d);
    ChoiceIsOutcome(ps, p, c, x, ls);
    ChoiceIsOutcome(ps, p, c, y, ls);
  }

  /** So do keys that disagree about the password: one order ends in one of them, another order in the other. */
  lemma PasswordDisagreementShows(ps: Parsers, p: Patch, c: Config)
    requires Typed(c) && !Doomed(ps, p, c) && !NeverInRange(ps, p, c) && !AgreeOn(ps, p, Password)
    ensures !OneOutcome(ps, p, c)
  {
    var k, l := ChangingKey(ps, p, c);
    var v := Decode(ps, PasswordKind, p[l]).value;
    var ls := SomeLookups(p);
    var x := SomeSuccess(ps, p, c);
    x := Rechosen(ps, p, c, x, Password, v);
    ChoiceIsOutcome(ps, p, c, x, ls);
    OtherPasswordDiffers(ps, p, c, x, ls, k);
  }

  /** An order that ends in another password fails, or leaves that one. */
  lemma OtherPasswordDiffers(ps: Parsers, p: Patch, c: Config, x: Config, ls: Lookups, k: Key)
    requires Typed(c) && Typed(x) && !Doomed(ps, p, c) && MayLook(p, ls) && WritesPassword(p, k)
    requires InRange(x)
    requires Decode(ps, PasswordKind, p[k]) != Some(x.values[Password])
    ensures exists r :: MayResult(ps, p, c, r) && r != Finish(x, ls)
  {
    var order := LastToSpeak(ps, p, c, k);
    if RunAll(ps, p, c, order).Some? {
      var y := RunAll(ps, p, c, order).value;
      DifferentFieldsDiffer(ps, p, c, x, y, ls, Password);
      assert MayFinish(p, y, Finish(y, ls));
      FinishedRun(ps, p, c, order, y, Finish(y, ls));
    } else {
      FinishOf(ps, p, c, x, ls);
      FailedRun(ps, p, c, order);
    }
  }

  lemma FailedRun(ps: Parsers, p: Patch, c: Config, order: seq<Key>)
    requires Typed(c) && Lists(order, p.Keys) && RunAll(ps, p, c, order).None?
    ensures MayResult(ps, p, c, None)
  {
    assert Outcome(ps, p, c, order, None);
  }

  lemma SomeSuccessWith(ps: Parsers, p: Patch, c: Config, allow: bool, wall: bool, share: bool) returns (x: Config)
    requires Typed(c) && !Doomed(ps, p, c) && !NeverInRange(ps, p, c)
    requires MayHold(ps, p, c, AllowUploads, Flag(allow)) && MayHold(ps, p, c, ShowMomentWall, Flag(wall))
    requires MayHold(ps, p, c, ShareUploadsEnabled, Flag(share))
    ensures Succeeding(ps, p, c, x)
    ensures x.values[AllowUploads] == Flag(allow) && x.values[ShowMomentWall] == Flag(wall)
    ensures x.values[ShareUploadsEnabled] == Flag(share)
  {
    var w := SomeSuccess(ps, p, c);
    var y := RechosenFlag(ps, p, c, w, AllowUploads, allow);
    var z := RechosenFlag(ps, p, c, y, ShowMomentWall, wall);
    x := RechosenFlag(ps, p, c, z, ShareUploadsEnabled, share);
  }

  lemma ChoiceShows(ps: Parsers, p: Patch, c: Config, x: Config, ls: Lookups) returns (r: Config)
    requires Typed(c) && !Doomed(ps, p, c) && MayLook(p, ls) && Succeeding(ps, p, c, x)
    ensures Typed(r) && MayResult(ps, p, c, Some(r)) && r == Closed(Coupled(x, Opens(ls)))
  {
    r := Closed(Coupled(x, Opens(ls)));
    FinishOf(ps, p, c, x, ls);
    ChoiceIsOutcome(ps, p, c, x, ls);
  }

  /** Whatever the flags may settle on is the sharing of some successful outcome. */
  lemma SettlingShows(ps: Parsers, p: Patch, c: Config, q: Sharing) returns (r: Config)
    requires Typed(c) && !Doomed(ps, p, c) && !NeverInRange(ps, p, c) && MaySettle(ps, p, c, q)
    ensures Typed(r) && MayResult(ps, p, c, Some(r)) && SharingOf(r) == q
  {
    var allow, wall, share, opens :| Settles(ps, p, c, allow, wall, share, opens, q);
    var ls :| MayLook(p, ls) && opens == Opens(ls);
    var x := SomeSuccessWith(ps, p, c, allow, wall, share);
    r := ChoiceShows(ps, p, c, x, ls);
    SettledSharing(ps, p, c, x, opens);
  }

  lemma UnsettledFlagsShow(ps: Parsers, p: Patch, c: Config)
    requires Typed(c) && !Doomed(ps, p, c) && !NeverInRange(ps, p, c) && !FlagsSettle(ps, p, c)
    ensures !OneOutcome(ps, p, c)
  {
    var q, r :| MaySettle(ps, p, c, q) && MaySettle(ps, p, c, r) && q != r;
    var a := SettlingShows(ps, p, c, q);
    var b := SettlingShows(ps, p, c, r);
  }

  /**
  Exactly when the whole call has one outcome for all orders of the keys: some key is refused from
  the start, or no dates the keys leave are in range, or the keys agree about every uncoupled field
  and what they say of the coupled flags settles on one result.
  */
  lemma OneOutcomeExactly(ps: Parsers, p: Patch, c: Config)
    requires Typed(c)
    ensures OneOutcome(ps, p, c) <==>
      || Doomed(ps, p, c)
      || NeverInRange(ps, p, c)
      || (AgreesUncoupled(ps, p) && FlagsSettle(ps, p, c))
  {
    if Doomed(ps, p, c) || NeverInRange(ps, p, c) || (AgreesUncoupled(ps, p) && FlagsSettle(ps, p, c)) {
      forall r, s | MayResult(ps, p, c, r) && MayResult(ps, p, c, s)
        ensures r == s
      {
        TwoOutcomesAgree(ps, p, c, r, s);
      }
    } else if !FlagsSettle(ps, p, c) {
      UnsettledFlagsShow(ps, p, c);
    } else {
      var d :| !IsCoupled(d) && !AgreeOn(ps, p, d);
      if d == Password {
        PasswordDisagreementShows(ps, p, c);
      } else {
        DisagreementShows(ps, p, c, d);
      }
    }
  }

  lemma TwoOutcomesAgree(ps: Parsers, p: Patch, c: Config, r: Option<Config>, s: Option<Config>)
    requires Typed(c) && MayResult(ps, p, c, r) && MayResult(ps, p, c, s)
    requires Doomed(ps, p, c) || NeverInRange(ps, p, c) || (AgreesUncoupled(ps, p) && FlagsSettle(ps, p, c))
    ensures r == s
  {
    if Doomed(ps, p, c) {
      DoomedHasOneOutcome(ps, p, c, r);
      DoomedHasOneOutcome(ps, p, c, s);
    } else if NeverInRange(ps, p, c) {
      OutOfRangeHasOneOutcome(ps, p, c, r);
      OutOfRangeHasOneOutcome(ps, p, c, s);
    } else {
      AgreeingHasOneOutcome(ps, p, c, r, s);
    }
  }
}
