/**
Applying a JSON patch to an event configuration. The patch is a Go map, so its keys are read in
an arbitrary order; keys have aliases; some fields are coupled after the loop.
*/
module EventConfigPatch {
  import opened Wrappers
  import opened Runes

  const MIN_PASSWORD := 6
  const MAX_PASSWORD := 128
  const MAX_INT := 0x7FFF_FFFF_FFFF_FFFF

  // ----- configurations

  /** The fields a patch can write. */
  datatype Dest =
    | IsPublic | IsAuthPreview | AllowUploads | AllowMessages | Password | NotifyOnMomentUpload
    | DesignTemplateId | ColorPaletteId | FontSetId | ActiveFrom | ActiveUntil | RsvpDeadline
    | WelcomeMessage | MomentRequestMessage | ThankYouMessage | GuestSignatureTitle
    | ShowCountdown | ShowRsvpSection | ShowEventLocation | ShowSecondLocation | ShowHostsSection
    | ShowPhotoGallery | ShowMomentWall | ShareUploadsEnabled | MaxUploadsPerGuest | AutoApproveUploads
    | ShowContactSection | ShowHeader | ShowFooter | ShowEventSchedule

  /** `at` counts from Go's zero time; `year` is the year the time prints. */
  datatype Instant = Instant(at: int, year: int)

  const ZERO_TIME := Instant(0, 1)

  datatype Value =
    | Flag(flag: bool)
    | Words(words: string)
    | Reference(id: Option<string>)
    | Time(time: Instant)
    | MaybeTime(maybe: Option<Instant>)
    | Count(count: int)

  datatype Kind = FlagKind | WordsKind | PasswordKind | ReferenceKind | TimeKind | MaybeTimeKind | CountKind

  function KindOf(d: Dest): Kind {
    match d
    case Password => PasswordKind
    case DesignTemplateId => ReferenceKind
    case ColorPaletteId => ReferenceKind
    case FontSetId => ReferenceKind
    case ActiveFrom => TimeKind
    case ActiveUntil => MaybeTimeKind
    case RsvpDeadline => MaybeTimeKind
    case WelcomeMessage => WordsKind
    case MomentRequestMessage => WordsKind
    case ThankYouMessage => WordsKind
    case GuestSignatureTitle => WordsKind
    case MaxUploadsPerGuest => CountKind
    case _ => FlagKind
  }

  predicate HasKind(v: Value, k: Kind) {
    match k
    case FlagKind => v.Flag?
    case WordsKind => v.Words?
    case PasswordKind => v.Words?
    case ReferenceKind => v.Reference?
    case TimeKind => v.Time?
    case MaybeTimeKind => v.MaybeTime?
    case CountKind => v.Count?
  }

  datatype Config = Config(values: map<Dest, Value>, visibilityConfigured: bool)

  ghost predicate Typed(c: Config) {
    forall d: Dest :: d in c.values && HasKind(c.values[d], KindOf(d))
  }

  // ----- patches

  /** A field name after normalisation; `Short` is one of the snake-case short names, such as show_wall. */
  datatype Field = Canonical(dest: Dest) | Short(dest: Dest) | ReadOnly(name: string) | Unknown(name: string)

  predicate HasShortName(d: Dest) {
    d.WelcomeMessage? || d.MomentRequestMessage? || d.ThankYouMessage? || d.GuestSignatureTitle?
    || d.ShowRsvpSection? || d.ShowEventLocation? || d.ShowPhotoGallery? || d.ShowMomentWall?
    || d.ShowContactSection? || d.ShowEventSchedule?
  }

  /** A spelled key: alias 0 is the normalised name itself, the others are its aliases. */
  datatype Key = Key(field: Field, alias: nat)

  datatype Json = Null | Bool(b: bool) | Text(s: string) | Integer(n: int) | OtherJson

  type Patch = map<Key, Json>

  /** Parsing that happens in libraries; a nil UUID parses to Some(None). */
  datatype Parsers = Parsers(
    uuid: string -> Option<Option<string>>, time: string -> Option<Instant>, integer: string -> Option<int>)

  predicate IsVisibility(f: Field) {
    f.Canonical?
    && match f.dest
       case ShowCountdown => true
       case ShowRsvpSection => true
       case ShowEventLocation => true
       case ShowSecondLocation => true
       case ShowHostsSection => true
       case ShowPhotoGallery => true
       case ShowMomentWall => true
       case ShowContactSection => true
       case ShowHeader => true
       case ShowFooter => true
       case ShowEventSchedule => true
       case _ => false
  }

  // ----- decoding one value

  function DecodeTime(ps: Parsers, s: string): Option<Option<Instant>> {
    var t := TrimSpace(s);
    if t == "" then Some(None) else
      match ps.time(t)
      case None => None
      case Some(x) => Some(Some(x))
  }

  function DecodeCount(ps: Parsers, raw: Json): Option<int> {
    match raw
    case Null => Some(0)
    case Integer(n) => if 0 <= n <= MAX_INT then Some(n) else None
    case Text(s) =>
      var t := TrimSpace(s);
      if t == "" then Some(0) else
        (match ps.integer(t)
         case None => None
         case Some(n) => if n < 0 then None else Some(n))
    case _ => None
  }

  function Decode(ps: Parsers, k: Kind, raw: Json): (r: Option<Value>)
    ensures r.Some? ==> HasKind(r.value, k)
  {
    match k
    case FlagKind =>
      (match raw
       case Null => Some(Flag(false))
       case Bool(b) => Some(Flag(b))
       case _ => None)
    case WordsKind =>
      (match raw
       case Null => Some(Words(""))
       case Text(s) => Some(Words(s))
       case _ => None)
    case PasswordKind =>
      (match raw
       case Null => Some(Words(""))
       case Text(s) => Some(Words(TrimSpace(s)))
       case _ => None)
    case ReferenceKind =>
      (match raw
       case Null => Some(Reference(None))
       case Text(s) =>
         var t := TrimSpace(s);
         if t == "" then Some(Reference(None)) else
           (match ps.uuid(t)
            case None => None
            case Some(id) => Some(Reference(id)))
       case _ => None)
    case TimeKind =>
      (match raw
       case Null => Some(Time(ZERO_TIME))
       case Text(s) =>
         (match DecodeTime(ps, s)
          case None => None
          case Some(None) => Some(Time(ZERO_TIME))
          case Some(Some(t)) => Some(Time(t)))
       case _ => None)
    case MaybeTimeKind =>
      (match raw
       case Null => Some(MaybeTime(None))
       case Text(s) =>
         (match DecodeTime(ps, s)
          case None => None
          case Some(t) => Some(MaybeTime(t)))
       case _ => None)
    case CountKind =>
      (match DecodeCount(ps, raw)
       case None => None
       case Some(n) => Some(Count(n)))
  }

  /** What clearing a field leaves: the Go zero value of its kind. */
  function ZeroOf(k: Kind): Value {
    match k
    case FlagKind => Flag(false)
    case WordsKind => Words("")
    case PasswordKind => Words("")
    case ReferenceKind => Reference(None)
    case TimeKind => Time(ZERO_TIME)
    case MaybeTimeKind => MaybeTime(None)
    case CountKind => Count(0)
  }

  /** Null clears every kind of field; so does blank text, except where text is kept as written. */
  lemma ClearingValues(ps: Parsers, k: Kind, s: string)
    ensures Decode(ps, k, Null) == Some(ZeroOf(k))
    ensures TrimSpace(s) == "" && k != FlagKind && k != WordsKind ==> Decode(ps, k, Text(s)) == Some(ZeroOf(k))
  {
  }

  /** White space around a text matters only where text is kept as written. */
  lemma PaddingIsIgnored(ps: Parsers, k: Kind, s: string)
    requires k != WordsKind
    ensures Decode(ps, k, Text(s)) == Decode(ps, k, Text(TrimSpace(s)))
  {
    TrimIsIdempotent(s);
  }

  /** A new password is bounded; keeping the current one or removing it is always allowed. */
  predicate PasswordAllowed(value: string, current: string) {
    value == "" || value == current || MIN_PASSWORD <= |value| <= MAX_PASSWORD
  }

  // ----- one key

  /** An alias is ignored when the patch also spells the field's own name. */
  predicate Effective(p: Patch, k: Key) {
    k in p && (k.alias != 0 ==> Key(k.field, 0) !in p) && !k.field.ReadOnly?
  }

  predicate Known(f: Field) {
    f.Canonical? || (f.Short? && HasShortName(f.dest))
  }

  /** The value an effective key writes to its destination; None is an error. */
  function Written(ps: Parsers, c: Config, f: Field, raw: Json): Option<Value>
    requires Known(f) && Typed(c)
  {
    match Decode(ps, KindOf(f.dest), raw)
    case None => None
    case Some(v) =>
      if f.dest.Password? && !PasswordAllowed(v.words, TrimSpace(c.values[Password].words)) then None else Some(v)
  }

  function ApplyKey(ps: Parsers, p: Patch, c: Config, k: Key): (r: Option<Config>)
    requires k in p && Typed(c)
    ensures r.Some? ==> Typed(r.value)
  {
    if !Effective(p, k) then Some(c)
    else if !Known(k.field) then None
    else
      match Written(ps, c, k.field, p[k])
      case None => None
      case Some(v) =>
        Some(Config(c.values[k.field.dest := v], c.visibilityConfigured || IsVisibility(k.field)))
  }

  // ----- after the loop

  datatype Lookup = Missing | Bad | Found(flag: bool)

  datatype Lookups = Lookups(share: Lookup, allow: Lookup, wall: Lookup)

  function Look(raw: Json): Lookup {
    match raw
    case Null => Found(false)
    case Bool(b) => Found(b)
    case _ => Bad
  }

  /** eventConfigPatchBoolValue, which takes any alias when the own name is missing. */
  predicate MayLookUp(p: Patch, d: Dest, r: Lookup) {
    var own := Key(Canonical(d), 0);
    if own in p then r == Look(p[own])
    else if exists k :: k in p && k.field == Canonical(d)
    then exists k :: k in p && k.field == Canonical(d) && r == Look(p[k])
    else r == Missing
  }

  predicate MayLook(p: Patch, ls: Lookups) {
    && MayLookUp(p, ShareUploadsEnabled, ls.share)
    && MayLookUp(p, AllowUploads, ls.allow)
    && MayLookUp(p, ShowMomentWall, ls.wall)
  }

  predicate RangeInvalid(from: Value, until: Value)
    requires from.Time? && until.MaybeTime?
  {
    && until.maybe.Some? && until.maybe.value.at != 0
    && from.time.at != 0 && from.time.year > 1970
    && until.maybe.value.at <= from.time.at
  }

  /** A patch that turns sharing on opens uploads and closes the wall unless it says otherwise. */
  predicate Opens(ls: Lookups) {
    && ls.share == Found(true)
    && (ls.allow.Missing? || ls.allow == Found(true))
    && (ls.wall.Missing? || ls.wall == Found(false))
  }

  function Coupled(c: Config, opens: bool): (r: Config)
    requires Typed(c)
    ensures Typed(r)
  {
    if opens
    then Config(c.values[AllowUploads := Flag(true)][ShowMomentWall := Flag(false)], true)
    else c
  }

  function Closed(c: Config): (r: Config)
    requires Typed(c)
    ensures Typed(r)
  {
    if !c.values[AllowUploads].flag || c.values[ShowMomentWall].flag
    then c.(values := c.values[ShareUploadsEnabled := Flag(false)])
    else c
  }

  predicate Unreadable(ls: Lookups) {
    ls.share.Bad? || (ls.share == Found(true) && (ls.allow.Bad? || ls.wall.Bad?))
  }

  function Finish(c: Config, ls: Lookups): (r: Option<Config>)
    requires Typed(c)
    ensures r.Some? ==> Typed(r.value)
  {
    if Unreadable(ls) then None else
      var done := Closed(Coupled(c, Opens(ls)));
      if RangeInvalid(done.values[ActiveFrom], done.values[ActiveUntil]) then None else Some(done)
  }

  // ----- one run: the keys in some order, then the coupling

  ghost predicate Lists(order: seq<Key>, keys: set<Key>) {
    && (forall k :: k in order <==> k in keys)
    && (forall i, j | 0 <= i < j < |order| :: order[i] != order[j])
  }

  /** The configuration after the first `i` keys of `order`; None once a key was refused. */
  ghost function Run(ps: Parsers, p: Patch, c: Config, order: seq<Key>, i: nat): (r: Option<Config>)
    requires i <= |order| && Typed(c) && (forall k | k in order :: k in p)
    ensures r.Some? ==> Typed(r.value)
  {
    if i == 0 then Some(c) else
      match Run(ps, p, c, order, i - 1)
      case None => None
      case Some(x) => ApplyKey(ps, p, x, order[i - 1])
  }

  ghost function RunAll(ps: Parsers, p: Patch, c: Config, order: seq<Key>): (r: Option<Config>)
    requires Typed(c) && Lists(order, p.Keys)
    ensures r.Some? ==> Typed(r.value)
  {
    Run(ps, p, c, order, |order|)
  }

  ghost predicate MayFinish(p: Patch, x: Config, r: Option<Config>)
    requires Typed(x)
  {
    exists ls :: MayLook(p, ls) && r == Finish(x, ls)
  }

  ghost predicate Outcome(ps: Parsers, p: Patch, c: Config, order: seq<Key>, r: Option<Config>)
    requires Typed(c) && Lists(order, p.Keys)
  {
    match RunAll(ps, p, c, order)
    case None => r == None
    case Some(x) => MayFinish(p, x, r)
  }

  /** `r` is what some order of the keys makes of the configuration. */
  ghost predicate MayResult(ps: Parsers, p: Patch, c: Config, r: Option<Config>)
    requires Typed(c)
  {
    exists order | Lists(order, p.Keys) :: Outcome(ps, p, c, order, r)
  }

  // ----- when the order matters

  /** Two effective keys for one destination hold the same value. */
  ghost predicate Agreeing(ps: Parsers, p: Patch) {
    forall k, l | Writes(p, k) && Writes(p, l) && k.field.dest == l.field.dest ::
      Decode(ps, KindOf(k.field.dest), p[k]) == Decode(ps, KindOf(l.field.dest), p[l])
  }

  ghost predicate AgreeOn(ps: Parsers, p: Patch, d: Dest) {
    forall k, l | Writes(p, k) && Writes(p, l) && k.field.dest == d && l.field.dest == d ::
      Decode(ps, KindOf(d), p[k]) == Decode(ps, KindOf(d), p[l])
  }

  predicate Writes(p: Patch, k: Key) {
    Effective(p, k) && Known(k.field)
  }

  predicate Refused(ps: Parsers, p: Patch, c: Config, k: Key)
    requires Typed(c)
  {
    Effective(p, k) && (!Known(k.field) || Written(ps, c, k.field, p[k]).None?)
  }

  /** Some key is refused by the configuration as it stands before the call. */
  ghost predicate Doomed(ps: Parsers, p: Patch, c: Config)
    requires Typed(c)
  {
    exists k :: Refused(ps, p, c, k)
  }

  // ----- what a run leaves behind

  ghost predicate Seen(order: seq<Key>, i: nat, k: Key)
    requires i <= |order|
  {
    exists j :: 0 <= j < i && order[j] == k
  }

  /** Key `k` is among the first `i` and writes `d`. */
  ghost predicate Wrote(p: Patch, order: seq<Key>, i: nat, k: Key, d: Dest)
    requires i <= |order|
  {
    Seen(order, i, k) && Writes(p, k) && k.field.dest == d
  }

  ghost predicate FieldReflects(ps: Parsers, p: Patch, c: Config, order: seq<Key>, i: nat, x: Config, d: Dest)
    requires i <= |order| && Typed(c) && Typed(x)
  {
    || (x.values[d] == c.values[d] && forall k :: !Wrote(p, order, i, k, d))
    || (exists k :: Wrote(p, order, i, k, d) && Decode(ps, KindOf(d), p[k]) == Some(x.values[d]))
  }

  ghost predicate ShowsVisibility(p: Patch, order: seq<Key>, i: nat)
    requires i <= |order|
  {
    exists k :: Seen(order, i, k) && Writes(p, k) && IsVisibility(k.field)
  }

  ghost predicate Reflects(ps: Parsers, p: Patch, c: Config, order: seq<Key>, i: nat, x: Config)
    requires i <= |order| && Typed(c) && Typed(x)
  {
    && (forall d :: FieldReflects(ps, p, c, order, i, x, d))
    && (x.visibilityConfigured <==> c.visibilityConfigured || ShowsVisibility(p, order, i))
  }

  lemma SeenStep(order: seq<Key>, i: nat, k: Key)
    requires i < |order|
    ensures Seen(order, i + 1, k) <==> Seen(order, i, k) || order[i] == k
  {
  }

  lemma WroteStep(p: Patch, order: seq<Key>, i: nat, k: Key, d: Dest)
    requires i < |order|
    ensures Wrote(p, order, i + 1, k, d)
       <==> Wrote(p, order, i, k, d) || (order[i] == k && Writes(p, k) && k.field.dest == d)
  {
    SeenStep(order, i, k);
  }

  /** A key that does not write `d` leaves what its field reflects as it was. */
  lemma OtherKeyKeepsField(ps: Parsers, p: Patch, c: Config, order: seq<Key>, i: nat, x: Config, y: Config, d: Dest)
    requires i < |order| && order[i] in p && Typed(c) && Typed(x) && Typed(y)
    requires FieldReflects(ps, p, c, order, i, x, d) && y.values[d] == x.values[d]
    requires !(Writes(p, order[i]) && order[i].field.dest == d)
    ensures FieldReflects(ps, p, c, order, i + 1, y, d)
  {
    var n := i + 1;
    if l: Key :| Wrote(p, order, i, l, d) && Decode(ps, KindOf(d), p[l]) == Some(x.values[d]) {
      WroteStep(p, order, i, l, d);
      assert Wrote(p, order, n, l, d);
    } else {
      forall l
        ensures !Wrote(p, order, n, l, d)
      {
        WroteStep(p, order, i, l, d);
      }
    }
  }

  lemma FieldReflectsStep(ps: Parsers, p: Patch, c: Config, order: seq<Key>, i: nat, x: Config, y: Config, d: Dest)
    requires i < |order| && order[i] in p && Typed(c) && Typed(x) && Typed(y)
    requires FieldReflects(ps, p, c, order, i, x, d) && ApplyKey(ps, p, x, order[i]) == Some(y)
    ensures FieldReflects(ps, p, c, order, i + 1, y, d)
  {
    var k := order[i];
    if Writes(p, k) && k.field.dest == d {
      var n := i + 1;
      WroteStep(p, order, i, k, d);
      assert Wrote(p, order, n, k, d) && Decode(ps, KindOf(d), p[k]) == Some(y.values[d]);
    } else {
      OtherKeyKeepsField(ps, p, c, order, i, x, y, d);
    }
  }

  lemma VisibilityStep(ps: Parsers, p: Patch, order: seq<Key>, i: nat, x: Config, y: Config)
    requires i < |order| && order[i] in p && Typed(x)
    requires ApplyKey(ps, p, x, order[i]) == Some(y)
    ensures y.visibilityConfigured || ShowsVisibility(p, order, i)
       <==> x.visibilityConfigured || ShowsVisibility(p, order, i + 1)
    ensures ShowsVisibility(p, order, i) ==> ShowsVisibility(p, order, i + 1)
  {
    var k := order[i];
    forall l
      ensures Seen(order, i + 1, l) <==> Seen(order, i, l) || k == l
    {
      SeenStep(order, i, l);
    }
    assert Seen(order, i + 1, k);
  }

  /** A run that succeeds leaves in every field its old value or that of a key that writes it. */
  lemma {:induction false} RunReflects(ps: Parsers, p: Patch, c: Config, order: seq<Key>, i: nat, x: Config)
    requires i <= |order| && Typed(c) && (forall k | k in order :: k in p)
    requires Run(ps, p, c, order, i) == Some(x)
    ensures Reflects(ps, p, c, order, i, x)
  {
    if i > 0 {
      var w := Run(ps, p, c, order, i - 1).value;
      RunReflects(ps, p, c, order, i - 1, w);
      VisibilityStep(ps, p, order, i - 1, w, x);
      forall d
        ensures FieldReflects(ps, p, c, order, i, x, d)
      {
        FieldReflectsStep(ps, p, c, order, i - 1, w, x, d);
      }
    }
  }

  lemma PasswordsAreTrimmed(ps: Parsers, raw: Json)
    requires Decode(ps, PasswordKind, raw).Some?
    ensures var w := Decode(ps, PasswordKind, raw).value.words; TrimSpace(w) == w
  {
    if raw.Text? {
      TrimIsIdempotent(raw.s);
    }
  }

  lemma {:induction false} AgreeingRunSucceeds(ps: Parsers, p: Patch, c: Config, order: seq<Key>, i: nat)
    requires i <= |order| && Typed(c) && (forall k | k in order :: k in p)
    requires AgreeOn(ps, p, Password) && !Doomed(ps, p, c)
    ensures Run(ps, p, c, order, i).Some?
  {
    if i > 0 {
      AgreeingRunSucceeds(ps, p, c, order, i - 1);
      var x := Run(ps, p, c, order, i - 1).value;
      RunReflects(ps, p, c, order, i - 1, x);
      var k := order[i - 1];
      assert !Refused(ps, p, c, k);
      if Writes(p, k) && k.field.dest == Password {
        assert FieldReflects(ps, p, c, order, i - 1, x, Password);
        PasswordsAreTrimmed(ps, p[k]);
      }
    }
  }

  /** A key the initial configuration refuses is accepted later only if the password became its value. */
  lemma RefusedLater(ps: Parsers, p: Patch, c: Config, x: Config, k: Key)
    requires Typed(c) && Typed(x) && Refused(ps, p, c, k) && ApplyKey(ps, p, x, k).Some?
    ensures Writes(p, k) && k.field.dest == Password
    ensures Decode(ps, PasswordKind, p[k]) == Some(Words(TrimSpace(x.values[Password].words)))
    ensures x.values[Password] != c.values[Password]
  {
  }

  /** A key the initial configuration refuses stops every run that reaches it. */
  lemma {:induction false} RefusedKeyStops(ps: Parsers, p: Patch, c: Config, order: seq<Key>, i: nat, k: Key)
    requires i <= |order| && Typed(c) && (forall l | l in order :: l in p)
    requires Refused(ps, p, c, k) && Seen(order, i, k)
    ensures Run(ps, p, c, order, i).None?
  {
    SeenStep(order, i - 1, k);
    if Seen(order, i - 1, k) {
      RefusedKeyStops(ps, p, c, order, i - 1, k);
    } else if Run(ps, p, c, order, i).Some? {
      var x := Run(ps, p, c, order, i - 1).value;
      RefusedLater(ps, p, c, x, k);
      RunReflects(ps, p, c, order, i - 1, x);
      assert FieldReflects(ps, p, c, order, i - 1, x, Password);
      var l :| Wrote(p, order, i - 1, l, Password) && Decode(ps, PasswordKind, p[l]) == Some(x.values[Password]);
      PasswordsAreTrimmed(ps, p[l]);
      RefusedKeyStops(ps, p, c, order, i - 1, l);
    }
  }

  // ----- listing keys

  lemma {:induction false} ListAll(keys: set<Key>) returns (order: seq<Key>)
    ensures Lists(order, keys)
  {
    if keys == {} {
      order := [];
    } else {
      var k :| k in keys;
      var rest := ListAll(keys - {k});
      order := rest + [k];
    }
  }

  lemma ListsJoin(a: seq<Key>, b: seq<Key>, keysA: set<Key>, keysB: set<Key>)
    requires Lists(a, keysA) && Lists(b, keysB) && keysA !! keysB
    ensures Lists(a + b, keysA + keysB)
  {
    var s := a + b;
    forall i, j | 0 <= i < j < |s|
      ensures s[i] != s[j]
    {
      assert if i < |a| then s[i] in keysA else s[i] == b[i - |a|];
      assert if j < |a| then s[j] == a[j] else s[j] == b[j - |a|] && s[j] in keysB;
    }
  }

  lemma JoinedMembers(a: seq<Key>, b: seq<Key>, keysA: set<Key>, keysB: set<Key>)
    requires Lists(a, keysA) && Lists(b, keysB)
    ensures forall j | 0 <= j < |a| :: (a + b)[j] in keysA
    ensures forall j | |a| <= j < |a + b| :: (a + b)[j] in keysB
  {
  }

  /** Key `k` writes the password the configuration already has. */
  predicate Keeps(ps: Parsers, p: Patch, c: Config, k: Key)
    requires Typed(c)
  {
    && Writes(p, k) && k.field.dest == Password
    && Decode(ps, PasswordKind, p[k]) == Some(Words(TrimSpace(c.values[Password].words)))
  }

  lemma LastKeyWins(ps: Parsers, p: Patch, c: Config, order: seq<Key>, k: Key)
    requires Typed(c) && Lists(order, p.Keys) && order != [] && order[|order| - 1] == k && Writes(p, k)
    ensures RunAll(ps, p, c, order).Some? ==>
      Some(RunAll(ps, p, c, order).value.values[k.field.dest]) == Decode(ps, KindOf(k.field.dest), p[k])
  {
  }

  /** Whatever key is read last, a run that succeeds holds its value. */
  lemma LastToSpeak(ps: Parsers, p: Patch, c: Config, k: Key) returns (order: seq<Key>)
    requires Typed(c) && Writes(p, k)
    ensures Lists(order, p.Keys)
    ensures RunAll(ps, p, c, order).Some? ==>
      Some(RunAll(ps, p, c, order).value.values[k.field.dest]) == Decode(ps, KindOf(k.field.dest), p[k])
  {
    var rest := ListAll(p.Keys - {k});
    ListsJoin(rest, [k], p.Keys - {k}, {k});
    assert p.Keys - {k} + {k} == p.Keys;
    order := rest + [k];
    LastKeyWins(ps, p, c, order, k);
  }

  // ----- the order of the keys

  ghost predicate OrderIrrelevant(ps: Parsers, p: Patch, c: Config)
    requires Typed(c)
  {
    forall a, b | Lists(a, p.Keys) && Lists(b, p.Keys) :: RunAll(ps, p, c, a) == RunAll(ps, p, c, b)
  }

  lemma WroteAll(p: Patch, a: seq<Key>, b: seq<Key>)
    requires Lists(a, p.Keys) && Lists(b, p.Keys)
    ensures forall k :: Seen(a, |a|, k) <==> Seen(b, |b|, k)
  {
    forall k
      ensures Seen(a, |a|, k) <==> Seen(b, |b|, k)
    {
      assert Seen(a, |a|, k) <==> k in a;
      assert Seen(b, |b|, k) <==> k in b;
    }
  }

  lemma SameReflection(ps: Parsers, p: Patch, c: Config, a: seq<Key>, b: seq<Key>, x: Config, y: Config)
    requires Lists(a, p.Keys) && Lists(b, p.Keys) && Agreeing(ps, p)
    requires Typed(c) && Typed(x) && Typed(y)
    requires Reflects(ps, p, c, a, |a|, x) && Reflects(ps, p, c, b, |b|, y)
    ensures x == y
  {
    WroteAll(p, a, b);
    forall d: Dest
      ensures x.values[d] == y.values[d]
    {
      assert FieldReflects(ps, p, c, a, |a|, x, d) && FieldReflects(ps, p, c, b, |b|, y, d);
      assert forall k :: Wrote(p, a, |a|, k, d) <==> Wrote(p, b, |b|, k, d);
    }
    assert x.values == y.values;
  }

  lemma AgreeingOrDoomedSuffices(ps: Parsers, p: Patch, c: Config, a: seq<Key>, b: seq<Key>)
    requires Typed(c) && Lists(a, p.Keys) && Lists(b, p.Keys)
    requires Agreeing(ps, p) || Doomed(ps, p, c)
    ensures RunAll(ps, p, c, a) == RunAll(ps, p, c, b)
    ensures RunAll(ps, p, c, a).None? <==> Doomed(ps, p, c)
  {
    if k :| Refused(ps, p, c, k) {
      assert k in a && k in b;
      RefusedKeyStops(ps, p, c, a, |a|, k);
      RefusedKeyStops(ps, p, c, b, |b|, k);
    } else {
      AgreeingRunSucceeds(ps, p, c, a, |a|);
      AgreeingRunSucceeds(ps, p, c, b, |b|);
      RunReflects(ps, p, c, a, |a|, RunAll(ps, p, c, a).value);
      RunReflects(ps, p, c, b, |b|, RunAll(ps, p, c, b).value);
      SameReflection(ps, p, c, a, b, RunAll(ps, p, c, a).value, RunAll(ps, p, c, b).value);
    }
  }

  // ----- the whole call

  lemma LookupIsDecoding(ps: Parsers, raw: Json)
    ensures Decode(ps, FlagKind, raw) == match Look(raw) case Found(b) => Some(Flag(b)) case _ => None
  {
  }

  lemma AliasesAgree(ps: Parsers, p: Patch, d: Dest, k: Key, l: Key)
    requires Agreeing(ps, p) && KindOf(d) == FlagKind && Key(Canonical(d), 0) !in p
    requires k in p && k.field == Canonical(d) && l in p && l.field == Canonical(d)
    ensures Look(p[k]) == Look(p[l])
  {
    assert Writes(p, k) && Writes(p, l);
    LookupIsDecoding(ps, p[k]);
    LookupIsDecoding(ps, p[l]);
  }

  lemma LookupsAgree(ps: Parsers, p: Patch, d: Dest, r: Lookup, s: Lookup)
    requires Agreeing(ps, p) && KindOf(d) == FlagKind
    requires MayLookUp(p, d, r) && MayLookUp(p, d, s)
    ensures r == s
  {
    if Key(Canonical(d), 0) !in p {
      if exists k :: k in p && k.field == Canonical(d) {
        var k :| k in p && k.field == Canonical(d) && r == Look(p[k]);
        var l :| l in p && l.field == Canonical(d) && s == Look(p[l]);
        AliasesAgree(ps, p, d, k, l);
      }
    }
  }

  lemma AllLookupsAgree(ps: Parsers, p: Patch, a: Lookups, b: Lookups)
    requires Agreeing(ps, p) && MayLook(p, a) && MayLook(p, b)
    ensures a == b
  {
    LookupsAgree(ps, p, ShareUploadsEnabled, a.share, b.share);
    LookupsAgree(ps, p, AllowUploads, a.allow, b.allow);
    LookupsAgree(ps, p, ShowMomentWall, a.wall, b.wall);
  }

  lemma FinishAgrees(ps: Parsers, p: Patch, x: Config, r: Option<Config>, s: Option<Config>)
    requires Typed(x) && Agreeing(ps, p) && MayFinish(p, x, r) && MayFinish(p, x, s)
    ensures r == s
  {
    var a :| MayLook(p, a) && r == Finish(x, a);
    var b :| MayLook(p, b) && s == Finish(x, b);
    AllLookupsAgree(ps, p, a, b);
  }

  /** A patch whose keys agree succeeds or fails alike, and with the same configuration, in every order. */
  lemma ApplyingIsConfluent(ps: Parsers, p: Patch, c: Config, r: Option<Config>, s: Option<Config>)
    requires Typed(c) && MayResult(ps, p, c, r) && MayResult(ps, p, c, s)
    requires Agreeing(ps, p) || Doomed(ps, p, c)
    ensures r == s
  {
    var a :| Lists(a, p.Keys) && Outcome(ps, p, c, a, r);
    var b :| Lists(b, p.Keys) && Outcome(ps, p, c, b, s);
    AgreeingOrDoomedSuffices(ps, p, c, a, b);
    if !Doomed(ps, p, c) {
      FinishAgrees(ps, p, RunAll(ps, p, c, a).value, r, s);
    }
  }

  // ----- what every successful call establishes

  /** Fields that the coupling after the loop may write. */
  predicate IsCoupled(d: Dest) {
    d.AllowUploads? || d.ShowMomentWall? || d.ShareUploadsEnabled?
  }

  /** Uploads are shared only while they are allowed and the wall is hidden, and the active range is valid. */
  ghost predicate Consistent(c: Config)
    requires Typed(c)
  {
    && (c.values[ShareUploadsEnabled].flag ==> c.values[AllowUploads].flag && !c.values[ShowMomentWall].flag)
    && !RangeInvalid(c.values[ActiveFrom], c.values[ActiveUntil])
  }

  /** A run that succeeds can leave `v` in `d`: a key that writes it holds `v`, or none does and it is the old value. */
  ghost predicate MayHold(ps: Parsers, p: Patch, c: Config, d: Dest, v: Value)
    requires Typed(c)
  {
    || (v == c.values[d] && forall k :: Writes(p, k) ==> k.field.dest != d)
    || (exists k :: Writes(p, k) && k.field.dest == d && Decode(ps, KindOf(d), p[k]) == Some(v))
  }

  ghost predicate KeptOrWritten(ps: Parsers, p: Patch, c: Config, after: Config, d: Dest)
    requires Typed(c) && Typed(after)
  {
    MayHold(ps, p, c, d, after.values[d])
  }

  ghost predicate MarksVisibility(p: Patch) {
    exists k :: Writes(p, k) && IsVisibility(k.field)
  }

  /** What every run that succeeds leaves behind, in whatever order it reads the keys. */
  ghost predicate Choice(ps: Parsers, p: Patch, c: Config, x: Config)
    requires Typed(c) && Typed(x)
  {
    && (forall d :: KeptOrWritten(ps, p, c, x, d))
    && (x.visibilityConfigured <==> c.visibilityConfigured || MarksVisibility(p))
  }

  lemma RunKeepsOrWrites(ps: Parsers, p: Patch, c: Config, order: seq<Key>, x: Config, d: Dest)
    requires Typed(c) && Lists(order, p.Keys) && RunAll(ps, p, c, order) == Some(x)
    ensures KeptOrWritten(ps, p, c, x, d)
  {
    RunReflects(ps, p, c, order, |order|, x);
    assert FieldReflects(ps, p, c, order, |order|, x, d);
    forall k
      ensures Wrote(p, order, |order|, k, d) <==> Writes(p, k) && k.field.dest == d
    {
      assert Seen(order, |order|, k) <==> k in order;
    }
  }

  lemma RunMarksVisibility(ps: Parsers, p: Patch, c: Config, order: seq<Key>, x: Config)
    requires Typed(c) && Lists(order, p.Keys) && RunAll(ps, p, c, order) == Some(x)
    ensures x.visibilityConfigured <==> c.visibilityConfigured || MarksVisibility(p)
  {
    RunReflects(ps, p, c, order, |order|, x);
    forall k
      ensures Seen(order, |order|, k) <==> k in p
    {
      assert Seen(order, |order|, k) <==> k in order;
    }
  }

  lemma RunIsChoice(ps: Parsers, p: Patch, c: Config, order: seq<Key>, x: Config)
    requires Typed(c) && Lists(order, p.Keys) && RunAll(ps, p, c, order) == Some(x)
    ensures Choice(ps, p, c, x)
  {
    forall d
      ensures KeptOrWritten(ps, p, c, x, d)
    {
      RunKeepsOrWrites(ps, p, c, order, x, d);
    }
    RunMarksVisibility(ps, p, c, order, x);
  }

  /** Every success is a choice that has been finished. */
  lemma SuccessIsFinishedChoice(ps: Parsers, p: Patch, c: Config, after: Config) returns (x: Config, ls: Lookups)
    requires Typed(c) && MayResult(ps, p, c, Some(after))
    ensures Typed(x) && Choice(ps, p, c, x) && MayLook(p, ls) && Finish(x, ls) == Some(after)
  {
    var order :| Lists(order, p.Keys) && Outcome(ps, p, c, order, Some(after));
    x := RunAll(ps, p, c, order).value;
    RunIsChoice(ps, p, c, order, x);
    ls :| MayLook(p, ls) && Some(after) == Finish(x, ls);
  }

  lemma FinishMeans(x: Config, ls: Lookups, after: Config)
    requires Typed(x) && Finish(x, ls) == Some(after)
    ensures Consistent(after)
    ensures forall d | !IsCoupled(d) :: after.values[d] == x.values[d]
  {
    SettledValues(x, Opens(ls));
  }

  /**
  Every successful call, in whatever order it reads the keys: the result is consistent, and each
  field outside the coupling holds the value of a key that writes it, or its old value if none does.
  */
  lemma SuccessMeans(ps: Parsers, p: Patch, c: Config, after: Config, d: Dest)
    requires Typed(c) && MayResult(ps, p, c, Some(after))
    ensures Typed(after) && Consistent(after)
    ensures !IsCoupled(d) ==> KeptOrWritten(ps, p, c, after, d)
  {
    var x, ls := SuccessIsFinishedChoice(ps, p, c, after);
    FinishMeans(x, ls, after);
    assert KeptOrWritten(ps, p, c, x, d);
  }

  /** What the call reads of the patch for its coupling. */
  ghost predicate MayOpen(p: Patch, opens: bool) {
    exists ls :: MayLook(p, ls) && opens == Opens(ls)
  }

  /** What coupling and closing leave in every field. */
  lemma SettledValues(x: Config, opens: bool)
    requires Typed(x)
    ensures var done := Closed(Coupled(x, opens));
      && done.values[AllowUploads] == (if opens then Flag(true) else x.values[AllowUploads])
      && done.values[ShowMomentWall] == (if opens then Flag(false) else x.values[ShowMomentWall])
      && done.values[ShareUploadsEnabled] ==
        (if done.values[AllowUploads].flag && !done.values[ShowMomentWall].flag then x.values[ShareUploadsEnabled]
         else Flag(false))
      && (forall d | !IsCoupled(d) :: done.values[d] == x.values[d])
      && (done.visibilityConfigured <==> x.visibilityConfigured || opens)
  {
  }

  /** The coupled fields: opened together by a patch that asks for sharing, else kept or written like the others. */
  lemma CouplingMeans(ps: Parsers, p: Patch, c: Config, after: Config) returns (opens: bool)
    requires Typed(c) && Typed(after) && MayResult(ps, p, c, Some(after))
    ensures MayOpen(p, opens)
    ensures opens ==> after.values[AllowUploads] == Flag(true) && after.values[ShowMomentWall] == Flag(false)
    ensures !opens ==> KeptOrWritten(ps, p, c, after, AllowUploads) && KeptOrWritten(ps, p, c, after, ShowMomentWall)
    ensures after.values[AllowUploads].flag && !after.values[ShowMomentWall].flag ==>
      KeptOrWritten(ps, p, c, after, ShareUploadsEnabled)
    ensures after.visibilityConfigured <==> c.visibilityConfigured || opens || MarksVisibility(p)
  {
    var x, ls := SuccessIsFinishedChoice(ps, p, c, after);
    opens := Opens(ls);
    SettledValues(x, opens);
    assert KeptOrWritten(ps, p, c, x, AllowUploads) && KeptOrWritten(ps, p, c, x, ShowMomentWall);
    assert KeptOrWritten(ps, p, c, x, ShareUploadsEnabled);
  }

  // ----- applying a patch again

  /** A field that agreeing keys write holds their value. */
  lemma WrittenFieldHolds(ps: Parsers, p: Patch, c: Config, after: Config, k: Key)
    requires Typed(c) && Typed(after) && Agreeing(ps, p) && Writes(p, k)
    requires KeptOrWritten(ps, p, c, after, k.field.dest)
    ensures Some(after.values[k.field.dest]) == Decode(ps, KindOf(k.field.dest), p[k])
  {
  }

  /** A password that a key has written is accepted from that key again. */
  lemma PasswordAcceptedAgain(ps: Parsers, p: Patch, after: Config, k: Key)
    requires Typed(after) && Writes(p, k) && k.field.dest == Password
    requires Decode(ps, PasswordKind, p[k]) == Some(after.values[Password])
    ensures !Refused(ps, p, after, k)
  {
    PasswordsAreTrimmed(ps, p[k]);
  }

  lemma KeyAcceptedAgain(ps: Parsers, p: Patch, c: Config, after: Config, k: Key)
    requires Typed(c) && Typed(after) && Agreeing(ps, p) && !Refused(ps, p, c, k)
    requires KeptOrWritten(ps, p, c, after, Password)
    ensures !Refused(ps, p, after, k)
  {
    if Writes(p, k) && k.field.dest == Password {
      WrittenFieldHolds(ps, p, c, after, k);
      PasswordAcceptedAgain(ps, p, after, k);
    }
  }

  lemma SuccessIsNotDoomed(ps: Parsers, p: Patch, c: Config, after: Config)
    requires Typed(c) && MayResult(ps, p, c, Some(after))
    ensures !Doomed(ps, p, c)
  {
    var order :| Lists(order, p.Keys) && Outcome(ps, p, c, order, Some(after));
    if Doomed(ps, p, c) {
      AgreeingOrDoomedSuffices(ps, p, c, order, order);
    }
  }

  lemma AcceptedAgain(ps: Parsers, p: Patch, c: Config, after: Config)
    requires Typed(c) && Typed(after) && MayResult(ps, p, c, Some(after)) && Agreeing(ps, p)
    ensures !Doomed(ps, p, after)
  {
    SuccessIsNotDoomed(ps, p, c, after);
    SuccessMeans(ps, p, c, after, Password);
    forall k
      ensures !Refused(ps, p, after, k)
    {
      assert !Refused(ps, p, c, k);
      KeyAcceptedAgain(ps, p, c, after, k);
    }
  }

  /** Each field of the second loop's result is as the first loop, or as the first call left it. */
  lemma SecondRun(ps: Parsers, p: Patch, c: Config, a: seq<Key>, x: Config, after: Config, b: seq<Key>, y: Config,
                  d: Dest)
    requires Typed(c) && Typed(x) && Typed(after) && Typed(y) && Agreeing(ps, p)
    requires Lists(a, p.Keys) && RunAll(ps, p, c, a) == Some(x)
    requires Lists(b, p.Keys) && RunAll(ps, p, after, b) == Some(y)
    ensures AsBefore(x, after, y, d)
  {
    RunKeepsOrWrites(ps, p, c, a, x, d);
    RunKeepsOrWrites(ps, p, after, b, y, d);
  }

  predicate AsBefore(x: Config, after: Config, y: Config, d: Dest)
    requires Typed(x) && Typed(after) && Typed(y)
  {
    y.values[d] == x.values[d] || y.values[d] == after.values[d]
  }

  lemma OpenedAgain(x: Config, y: Config, opens: bool)
    requires Typed(x) && Typed(y)
    requires AsBefore(x, Closed(Coupled(x, opens)), y, AllowUploads)
    requires AsBefore(x, Closed(Coupled(x, opens)), y, ShowMomentWall)
    ensures Closed(Coupled(y, opens)).values[AllowUploads] == Closed(Coupled(x, opens)).values[AllowUploads]
    ensures Closed(Coupled(y, opens)).values[ShowMomentWall] == Closed(Coupled(x, opens)).values[ShowMomentWall]
  {
    SettledValues(x, opens);
    SettledValues(y, opens);
  }

  lemma ClosedAgain(x: Config, y: Config, opens: bool)
    requires Typed(x) && Typed(y)
    requires AsBefore(x, Closed(Coupled(x, opens)), y, ShareUploadsEnabled)
    requires Closed(Coupled(y, opens)).values[AllowUploads] == Closed(Coupled(x, opens)).values[AllowUploads]
    requires Closed(Coupled(y, opens)).values[ShowMomentWall] == Closed(Coupled(x, opens)).values[ShowMomentWall]
    ensures Closed(Coupled(y, opens)).values[ShareUploadsEnabled] ==
            Closed(Coupled(x, opens)).values[ShareUploadsEnabled]
  {
    SettledValues(x, opens);
    SettledValues(y, opens);
  }

  /** Field by field, coupling and closing the second loop's result gives what the first call gave. */
  lemma FieldAgain(x: Config, y: Config, opens: bool, d: Dest)
    requires Typed(x) && Typed(y)
    requires forall e :: AsBefore(x, Closed(Coupled(x, opens)), y, e)
    ensures Closed(Coupled(y, opens)).values[d] == Closed(Coupled(x, opens)).values[d]
  {
    if IsCoupled(d) {
      OpenedAgain(x, y, opens);
      ClosedAgain(x, y, opens);
    } else {
      SettledValues(x, opens);
      SettledValues(y, opens);
      assert AsBefore(x, Closed(Coupled(x, opens)), y, d);
    }
  }

  lemma FinishAgain(x: Config, after: Config, y: Config, ls: Lookups)
    requires Typed(x) && Typed(after) && Typed(y) && Finish(x, ls) == Some(after)
    requires forall d :: AsBefore(x, after, y, d)
    requires y.visibilityConfigured == after.visibilityConfigured
    ensures Finish(y, ls) == Some(after)
  {
    var done := Closed(Coupled(y, Opens(ls)));
    forall d: Dest
      ensures done.values[d] == after.values[d]
    {
      FieldAgain(x, y, Opens(ls), d);
    }
    assert done.values == after.values;
  }

  lemma SecondFinish(ps: Parsers, p: Patch, c: Config, a: seq<Key>, x: Config, after: Config, b: seq<Key>, y: Config,
                     ls: Lookups)
    requires Typed(c) && Typed(x) && Typed(after) && Typed(y) && Agreeing(ps, p)
    requires Lists(a, p.Keys) && RunAll(ps, p, c, a) == Some(x) && Finish(x, ls) == Some(after)
    requires Lists(b, p.Keys) && RunAll(ps, p, after, b) == Some(y)
    ensures Finish(y, ls) == Some(after)
  {
    forall d
      ensures AsBefore(x, after, y, d)
    {
      SecondRun(ps, p, c, a, x, after, b, y, d);
    }
    RunMarksVisibility(ps, p, c, a, x);
    RunMarksVisibility(ps, p, after, b, y);
    SettledValues(x, Opens(ls));
    FinishAgain(x, after, y, ls);
  }

  lemma SecondCall(ps: Parsers, p: Patch, c: Config, a: seq<Key>, after: Config, b: seq<Key>, r: Option<Config>)
    requires Typed(c) && Typed(after) && Agreeing(ps, p) && !Doomed(ps, p, after)
    requires Lists(a, p.Keys) && Outcome(ps, p, c, a, Some(after))
    requires Lists(b, p.Keys) && Outcome(ps, p, after, b, r)
    ensures r == Some(after)
  {
    AgreeingRunSucceeds(ps, p, after, b, |b|);
    var x, y := RunAll(ps, p, c, a).value, RunAll(ps, p, after, b).value;
    var ls :| MayLook(p, ls) && Some(after) == Finish(x, ls);
    SecondFinish(ps, p, c, a, x, after, b, y, ls);
    assert MayFinish(p, y, Some(after));
    FinishAgrees(ps, p, y, r, Some(after));
  }

  /** Applying a patch whose keys agree a second time succeeds and changes nothing. */
  lemma ApplyingIsIdempotent(ps: Parsers, p: Patch, c: Config, after: Config, r: Option<Config>)
    requires Typed(c) && Typed(after) && Agreeing(ps, p)
    requires MayResult(ps, p, c, Some(after)) && MayResult(ps, p, after, r)
    ensures r == Some(after)
  {
    AcceptedAgain(ps, p, c, after);
    var a :| Lists(a, p.Keys) && Outcome(ps, p, c, a, Some(after));
    var b :| Lists(b, p.Keys) && Outcome(ps, p, after, b, r);
    SecondCall(ps, p, c, a, after, b, r);
  }

  // ----- inputs that show where the code departs from its names

  /** Two names of the welcome message do not shadow each other: each order has its own result. */
  lemma WelcomeDependsOnOrder(ps: Parsers, c: Config) returns (p: Patch, first: Config, second: Config)
    requires Typed(c) && Consistent(c)
    ensures Typed(first) && MayResult(ps, p, c, Some(first)) && first.values[WelcomeMessage] == Words("b")
    ensures Typed(second) && MayResult(ps, p, c, Some(second)) && second.values[WelcomeMessage] == Words("a")
  {
    var short, own := Key(Short(WelcomeMessage), 0), Key(Canonical(WelcomeMessage), 0);
    p := map[short := Text("a"), own := Text("b")];
    first := LastWelcome(ps, p, c, short, own, "b");
    second := LastWelcome(ps, p, c, own, short, "a");
  }

  lemma LastWelcome(ps: Parsers, p: Patch, c: Config, k: Key, l: Key, s: string) returns (after: Config)
    requires Typed(c) && Consistent(c) && k != l && p.Keys == {k, l} && p[l] == Text(s) && p[k].Text?
    requires Writes(p, k) && k.field.dest == WelcomeMessage && Writes(p, l) && l.field.dest == WelcomeMessage
    ensures Typed(after) && MayResult(ps, p, c, Some(after)) && after.values[WelcomeMessage] == Words(s)
  {
    var x := TwoKeys(ps, p, c, k, l, Words(p[k].s), Words(s));
    assert forall d | IsCoupled(d) :: !exists m :: m in p && m.field == Canonical(d);
    var ls := Lookups(Missing, Missing, Missing);
    assert MayLook(p, ls);
    after := Closed(x);
    Finishes(ps, p, c, [k, l], x, ls, after);
  }

  /** A run over two keys that write uncoupled or coupled fields other than the password. */
  lemma TwoKeys(ps: Parsers, p: Patch, c: Config, k: Key, l: Key, v: Value, w: Value) returns (x: Config)
    requires Typed(c) && k != l && p.Keys == {k, l} && Writes(p, k) && Writes(p, l)
    requires k.field.dest != Password && l.field.dest != Password
    requires Decode(ps, KindOf(k.field.dest), p[k]) == Some(v) && Decode(ps, KindOf(l.field.dest), p[l]) == Some(w)
    ensures Lists([k, l], p.Keys) && RunAll(ps, p, c, [k, l]) == Some(x) && Typed(x)
    ensures x.values == c.values[k.field.dest := v][l.field.dest := w]
  {
    var order := [k, l];
    assert Run(ps, p, c, order, 0) == Some(c);
    var y := ApplyKey(ps, p, c, k).value;
    assert Run(ps, p, c, order, 1) == Some(y);
    x := ApplyKey(ps, p, y, l).value;
  }

  lemma Finishes(ps: Parsers, p: Patch, c: Config, order: seq<Key>, x: Config, ls: Lookups, after: Config)
    requires Typed(c) && Lists(order, p.Keys) && RunAll(ps, p, c, order) == Some(x)
    requires MayLook(p, ls) && !Unreadable(ls) && after == Closed(Coupled(x, Opens(ls)))
    requires !RangeInvalid(x.values[ActiveFrom], x.values[ActiveUntil])
    ensures MayResult(ps, p, c, Some(after))
  {
    assert Finish(x, ls) == Some(after);
    FinishedRun(ps, p, c, order, x, Some(after));
  }

  /**
  The coupling reads only the field's own name and its aliases. A patch that turns sharing on hides
  the wall even when it sets show_wall, the short name that the loop itself accepts.
  */
  lemma ShortWallNameIsOverruled(ps: Parsers, p: Patch, c: Config, after: Config)
    requires Typed(c) && Typed(after) && MayResult(ps, p, c, Some(after))
    requires Key(Canonical(ShareUploadsEnabled), 0) in p && p[Key(Canonical(ShareUploadsEnabled), 0)] == Bool(true)
    requires forall k | k in p :: k.field != Canonical(AllowUploads) && k.field != Canonical(ShowMomentWall)
    ensures after.values[ShowMomentWall] == Flag(false) && after.values[AllowUploads] == Flag(true)
  {
    var opens := CouplingMeans(ps, p, c, after);
    SharingAloneOpens(p, opens);
  }

  lemma SharingAloneOpens(p: Patch, opens: bool)
    requires Key(Canonical(ShareUploadsEnabled), 0) in p && p[Key(Canonical(ShareUploadsEnabled), 0)] == Bool(true)
    requires forall k | k in p :: k.field != Canonical(AllowUploads) && k.field != Canonical(ShowMomentWall)
    requires MayOpen(p, opens)
    ensures opens
  {
    var ls :| MayLook(p, ls) && opens == Opens(ls);
    assert ls == Lookups(Found(true), Missing, Missing);
  }

  const SHARE_KEY := Key(Canonical(ShareUploadsEnabled), 0)
  const SHOW_WALL_KEY := Key(Short(ShowMomentWall), 0)

  /** share_uploads_enabled: true, show_wall: true */
  function ShareAndShowWall(): Patch {
    map[SHARE_KEY := Bool(true), SHOW_WALL_KEY := Bool(true)]
  }

  lemma ShareAndShowWallLooks()
    ensures MayLook(ShareAndShowWall(), Lookups(Found(true), Missing, Missing))
  {
  }

  lemma ShareAndShowWallRuns(ps: Parsers, c: Config) returns (x: Config)
    requires Typed(c)
    ensures Typed(x) && x.values == c.values[ShareUploadsEnabled := Flag(true)][ShowMomentWall := Flag(true)]
    ensures Lists([SHARE_KEY, SHOW_WALL_KEY], ShareAndShowWall().Keys)
    ensures RunAll(ps, ShareAndShowWall(), c, [SHARE_KEY, SHOW_WALL_KEY]) == Some(x)
  {
    assert ShareAndShowWall().Keys == {SHARE_KEY, SHOW_WALL_KEY};
    x := TwoKeys(ps, ShareAndShowWall(), c, SHARE_KEY, SHOW_WALL_KEY, Flag(true), Flag(true));
  }

  /** That patch succeeds on every consistent configuration, and the wall it asks for is hidden. */
  lemma ShowWallIsLost(ps: Parsers, c: Config) returns (after: Config)
    requires Typed(c) && Consistent(c)
    ensures Typed(after) && MayResult(ps, ShareAndShowWall(), c, Some(after))
    ensures after.values[ShareUploadsEnabled] == Flag(true) && after.values[ShowMomentWall] == Flag(false)
  {
    var x := ShareAndShowWallRuns(ps, c);
    ShareAndShowWallLooks();
    after := Closed(Coupled(x, true));
    OpenedFlags(c, x);
    Finishes(ps, ShareAndShowWall(), c, [SHARE_KEY, SHOW_WALL_KEY], x, Lookups(Found(true), Missing, Missing), after);
  }

  lemma OpenedFlags(c: Config, x: Config)
    requires Typed(c) && Consistent(c) && Typed(x)
    requires x.values == c.values[ShareUploadsEnabled := Flag(true)][ShowMomentWall := Flag(true)]
    ensures !RangeInvalid(x.values[ActiveFrom], x.values[ActiveUntil])
    ensures Closed(Coupled(x, true)).values[ShareUploadsEnabled] == Flag(true)
    ensures Closed(Coupled(x, true)).values[ShowMomentWall] == Flag(false)
  {
  }

  /** The patch turns sharing on and does not forbid uploads. */
  ghost predicate AsksToShare(p: Patch) {
    exists ls :: MayLook(p, ls) && Asks(ls)
  }

  predicate Asks(ls: Lookups) {
    ls.share == Found(true) && (ls.allow.Missing? || ls.allow == Found(true))
  }

  predicate SpellsOwnName(p: Patch, d: Dest) {
    exists k :: k in p && k.field == Canonical(d)
  }

  /** In an agreeing patch the lookup finds the value of the keys that write the field, or misses it altogether. */
  lemma LookupFindsWritten(ps: Parsers, p: Patch, d: Dest, k: Key, b: bool, r: Lookup)
    requires Agreeing(ps, p) && Writes(p, k) && k.field.dest == d && KindOf(d) == FlagKind
    requires Decode(ps, FlagKind, p[k]) == Some(Flag(b)) && MayLookUp(p, d, r)
    ensures r == if SpellsOwnName(p, d) then Found(b) else Missing
  {
    var own := Key(Canonical(d), 0);
    if own in p {
      assert Writes(p, own) && SpellsOwnName(p, d);
      LookupIsDecoding(ps, p[own]);
    } else if SpellsOwnName(p, d) {
      var l :| l in p && l.field == Canonical(d) && r == Look(p[l]);
      assert Writes(p, l);
      LookupIsDecoding(ps, p[l]);
    }
  }

  /** A patch that shows the wall opens sharing exactly when it asks to share and spells the wall by no own name. */
  lemma WallWishOpensExactly(ps: Parsers, p: Patch, k: Key, opens: bool)
    requires Agreeing(ps, p) && Writes(p, k) && k.field.dest == ShowMomentWall
    requires Decode(ps, FlagKind, p[k]) == Some(Flag(true)) && MayOpen(p, opens)
    ensures opens <==> AsksToShare(p) && !SpellsOwnName(p, ShowMomentWall)
  {
    var ls :| MayLook(p, ls) && opens == Opens(ls);
    LookupFindsWritten(ps, p, ShowMomentWall, k, true, ls.wall);
    if AsksToShare(p) {
      var other :| MayLook(p, other) && Asks(other);
      AllLookupsAgree(ps, p, ls, other);
    }
  }

  ghost predicate WallHides(ps: Parsers, p: Patch, c: Config, after: Config, opens: bool)
    requires Typed(c) && Typed(after)
  {
    if opens then after.values[ShowMomentWall] == Flag(false) else KeptOrWritten(ps, p, c, after, ShowMomentWall)
  }

  lemma WallAfter(ps: Parsers, p: Patch, c: Config, after: Config) returns (opens: bool)
    requires Typed(c) && Typed(after) && MayResult(ps, p, c, Some(after))
    ensures MayOpen(p, opens)
    ensures WallHides(ps, p, c, after, opens)
  {
    opens := CouplingMeans(ps, p, c, after);
  }

  lemma WallWishSettled(ps: Parsers, p: Patch, c: Config, after: Config, k: Key, opens: bool)
    requires Typed(c) && Typed(after) && Agreeing(ps, p) && MayOpen(p, opens)
    requires Writes(p, k) && k.field.dest == ShowMomentWall && Decode(ps, FlagKind, p[k]) == Some(Flag(true))
    requires WallHides(ps, p, c, after, opens)
    ensures after.values[ShowMomentWall] == Flag(true) <==> SpellsOwnName(p, ShowMomentWall) || !AsksToShare(p)
  {
    WallWishOpensExactly(ps, p, k, opens);
    if !opens {
      WrittenFieldHolds(ps, p, c, after, k);
    }
  }

  /**
  Exactly when a patch that asks for the wall gets it: it spells the wall by the field's own name or an
  alias of that, or it does not ask to share. Under show_wall alone, sharing hides the wall.
  */
  lemma WallWishHonouredExactly(ps: Parsers, p: Patch, c: Config, after: Config, k: Key)
    requires Typed(c) && Typed(after) && MayResult(ps, p, c, Some(after)) && Agreeing(ps, p)
    requires Writes(p, k) && k.field.dest == ShowMomentWall && Decode(ps, FlagKind, p[k]) == Some(Flag(true))
    ensures after.values[ShowMomentWall] == Flag(true) <==> SpellsOwnName(p, ShowMomentWall) || !AsksToShare(p)
  {
    var opens := WallAfter(ps, p, c, after);
    WallWishSettled(ps, p, c, after, k, opens);
  }

  /** The wish under the field's own name is honoured, and sharing stays off. */
  lemma OwnWallNameWins(ps: Parsers, p: Patch, c: Config, after: Config)
    requires Typed(c) && Typed(after) && MayResult(ps, p, c, Some(after)) && Agreeing(ps, p)
    requires Key(Canonical(ShowMomentWall), 0) in p && p[Key(Canonical(ShowMomentWall), 0)] == Bool(true)
    ensures after.values[ShowMomentWall] == Flag(true) && after.values[ShareUploadsEnabled] == Flag(false)
  {
    var own := Key(Canonical(ShowMomentWall), 0);
    assert Writes(p, own);
    WallWishHonouredExactly(ps, p, c, after, own);
    SuccessMeans(ps, p, c, after, ShareUploadsEnabled);
  }

  // ----- the configuration in memory

  class EventConfig {
    var values: map<Dest, Value>
    var visibilityConfigured: bool

    ghost function State(): Config
      reads this
    {
      Config(values, visibilityConfigured)
    }

    constructor (c: Config)
      ensures State() == c
    {
      values, visibilityConfigured := c.values, c.visibilityConfigured;
    }

    /** Reads a flag the patch sets, from any of its spellings when the own name is missing. */
    static method LookUp(p: Patch, d: Dest) returns (r: Lookup)
      ensures MayLookUp(p, d, r)
    {
      var own := Key(Canonical(d), 0);
      if own in p {
        return Look(p[own]);
      }
      var rest := p.Keys;
      while rest != {}
        invariant rest <= p.Keys
        invariant forall k | k in p.Keys - rest :: k.field != Canonical(d)
        decreases |rest|
      {
        var k :| k in rest;
        if k.field == Canonical(d) {
          return Look(p[k]);
        }
        rest := rest - {k};
      }
      r := Missing;
    }

    /** Writes one key's value in place. */
    method ApplyOne(ps: Parsers, p: Patch, k: Key) returns (ok: bool)
      requires k in p && Typed(State())
      modifies this
      ensures Typed(State())
      ensures ok ==> ApplyKey(ps, p, old(State()), k) == Some(State())
      ensures !ok ==> ApplyKey(ps, p, old(State()), k) == None && State() == old(State())
    {
      if !Effective(p, k) {
        return true;
      }
      if !Known(k.field) {
        return false;
      }
      var d := k.field.dest;
      var v := Decode(ps, KindOf(d), p[k]);
      if v.None? {
        return false;
      }
      if d.Password? {
        var current := values[Password];
        if !PasswordAllowed(v.value.words, TrimSpace(current.words)) {
          return false;
        }
      }
      values := values[d := v.value];
      if IsVisibility(k.field) {
        visibilityConfigured := true;
      }
      return true;
    }

    method Open()
      requires Typed(State())
      modifies this
      ensures State() == Coupled(old(State()), true)
    {
      values := values[AllowUploads := Flag(true)];
      values := values[ShowMomentWall := Flag(false)];
      visibilityConfigured := true;
    }

    method Close()
      requires Typed(State())
      modifies this
      ensures State() == Closed(old(State()))
    {
      if !values[AllowUploads].flag || values[ShowMomentWall].flag {
        values := values[ShareUploadsEnabled := Flag(false)];
      }
    }

    static method LookUpAll(p: Patch) returns (ls: Lookups)
      ensures MayLook(p, ls)
    {
      var share := LookUp(p, ShareUploadsEnabled);
      var allow := LookUp(p, AllowUploads);
      var wall := LookUp(p, ShowMomentWall);
      ls := Lookups(share, allow, wall);
    }

    /** Opens uploads, closes sharing and checks the active range, in place. */
    method Couple(p: Patch) returns (ok: bool)
      requires Typed(State())
      modifies this
      ensures MayFinish(p, old(State()), if ok then Some(State()) else None)
    {
      ghost var x := State();
      var ls := LookUpAll(p);
      if Unreadable(ls) {
        assert Finish(x, ls) == None;
        return false;
      }
      if Opens(ls) {
        Open();
      }
      Close();
      ok := !RangeInvalid(values[ActiveFrom], values[ActiveUntil]);
      assert Finish(x, ls) == if ok then Some(State()) else None;
    }

    /** Reads the keys in whatever order the map yields them. */
    method ApplyTo(ps: Parsers, p: Patch) returns (ok: bool)
      requires Typed(State())
      modifies this
      ensures MayResult(ps, p, old(State()), if ok then Some(State()) else None)
    {
      ghost var c := State();
      ghost var order := [];
      var rest := p.Keys;
      while rest != {}
        invariant rest <= p.Keys && Lists(order, p.Keys - rest) && Typed(State())
        invariant Run(ps, p, c, order, |order|) == Some(State())
        decreases |rest|
      {
        var k :| k in rest;
        ok := ApplyOne(ps, p, k);
        RunOneMore(ps, p, c, order, k);
        ListsOneMore(p.Keys, rest, order, k);
        rest := rest - {k};
        order := order + [k];
        if !ok {
          StoppedRun(ps, p, c, order, rest);
          return;
        }
      }
      ghost var x := State();
      ok := Couple(p);
      FinishedRun(ps, p, c, order, x, if ok then Some(State()) else None);
    }
  }

  lemma ListsOneMore(keys: set<Key>, rest: set<Key>, order: seq<Key>, k: Key)
    requires rest <= keys && Lists(order, keys - rest) && k in rest
    ensures Lists(order + [k], keys - (rest - {k}))
  {
    ListsJoin(order, [k], keys - rest, {k});
    assert keys - rest + {k} == keys - (rest - {k});
  }

  lemma StoppedRun(ps: Parsers, p: Patch, c: Config, order: seq<Key>, rest: set<Key>)
    requires Typed(c) && rest <= p.Keys && Lists(order, p.Keys - rest)
    requires Run(ps, p, c, order, |order|).None?
    ensures MayResult(ps, p, c, None)
  {
    var unread := ListAll(rest);
    ListsJoin(order, unread, p.Keys - rest, rest);
    assert p.Keys - rest + rest == p.Keys;
    RefusedStays(ps, p, c, order, unread);
    assert Outcome(ps, p, c, order + unread, None);
  }

  lemma FinishedRun(ps: Parsers, p: Patch, c: Config, order: seq<Key>, x: Config, r: Option<Config>)
    requires Typed(c) && Typed(x) && Lists(order, p.Keys)
    requires Run(ps, p, c, order, |order|) == Some(x) && MayFinish(p, x, r)
    ensures MayResult(ps, p, c, r)
  {
    assert Outcome(ps, p, c, order, r);
  }

  lemma {:induction false} RunPrefix(ps: Parsers, p: Patch, c: Config, a: seq<Key>, b: seq<Key>, i: nat)
    requires i <= |a| && Typed(c) && (forall k | k in a + b :: k in p) && (forall k | k in a :: k in p)
    ensures Run(ps, p, c, a + b, i) == Run(ps, p, c, a, i)
  {
    if i > 0 {
      RunPrefix(ps, p, c, a, b, i - 1);
      assert (a + b)[i - 1] == a[i - 1];
    }
  }

  lemma RunOneMore(ps: Parsers, p: Patch, c: Config, order: seq<Key>, k: Key)
    requires Typed(c) && (forall l | l in order :: l in p) && k in p
    requires Run(ps, p, c, order, |order|).Some?
    ensures forall l | l in order + [k] :: l in p
    ensures var x := Run(ps, p, c, order, |order|).value;
      Run(ps, p, c, order + [k], |order + [k]|) == ApplyKey(ps, p, x, k)
  {
    RunPrefix(ps, p, c, order, [k], |order|);
  }

  lemma {:induction false} RefusedStays(ps: Parsers, p: Patch, c: Config, order: seq<Key>, unread: seq<Key>)
    requires Typed(c) && (forall l | l in order :: l in p) && (forall l | l in order + unread :: l in p)
    requires Run(ps, p, c, order, |order|).None?
    ensures Run(ps, p, c, order + unread, |order + unread|).None?
  {
    RunPrefix(ps, p, c, order, unread, |order|);
    RefusedFrom(ps, p, c, order + unread, |order|, |order + unread|);
  }

  lemma {:induction false} RefusedFrom(ps: Parsers, p: Patch, c: Config, order: seq<Key>, i: nat, j: nat)
    requires i <= j <= |order| && Typed(c) && (forall l | l in order :: l in p)
    requires Run(ps, p, c, order, i).None?
    ensures Run(ps, p, c, order, j).None?
  {
    if i < j {
      RefusedFrom(ps, p, c, order, i, j - 1);
    }
  }
}
