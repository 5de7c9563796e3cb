/**
The canonical manifests of direct-dependency patches and of uploaded patch artifacts: the texts
that two parties hash and must agree on.
*/
module PatchManifests {
  import opened Wrappers
  import opened Sequences
  import opened ByteStrings

  const MAX_DEPENDENCY_REFERENCES := 64
  const MAX_DEPENDENCY_BYTES: int64 := 32 * 1024 * 1024
  const MAX_ARTIFACTS := 6
  const MAX_ARTIFACT_BYTES: int64 := 4 * 1024 * 1024
  const MAX_REFERENCE_BYTES := 256
  const WORKSPACE_PREFIX := "workspace://"

  datatype ArtifactRef = ArtifactRef(repositoryRef: string, baseSha: string, sha256: string, sizeBytes: int64)

  datatype Refusal = CountOutOfBounds | InvalidReference | DuplicateRepository | TotalSizeExceeded

  datatype DependencyRef = DependencyRef(stepId: string, artifact: ArtifactRef)

  // ----- field validators

  predicate ValidSha256(s: string) {
    |s| == 64 && LowerHex(s)
  }

  predicate ValidCommitSha(s: string) {
    (|s| == 40 || |s| == 64) && LowerHex(s)
  }

  /** The canonical lower-case text form of section 4 of RFC 9562, the nil UUID excluded. */
  predicate CanonicalUuid(s: string) {
    && |s| == 36
    && (forall i | 0 <= i < 36 ::
          if i == 8 || i == 13 || i == 18 || i == 23 then s[i] == '-' else LowerHexDigit(s[i]))
    && (exists i | 0 <= i < 36 :: s[i] != '-' && s[i] != '0')
  }

  predicate WorkspaceChar(c: char) {
    'a' <= c <= 'z' || 'A' <= c <= 'Z' || '0' <= c <= '9' || c == '_' || c == '-' || c == '.'
  }

  predicate ValidWorkspaceId(s: string) {
    && s != "" && s != "." && s != ".."
    && |s| <= 96
    && forall i | 0 <= i < |s| :: WorkspaceChar(s[i])
  }

  predicate ForbiddenReferenceChar(c: char) {
    c == '\\' || c == '?' || c == '#' || c == '%' || c == '\0' || c == '\r' || c == '\n'
  }

  predicate ReferenceShape(s: string) {
    && |WORKSPACE_PREFIX| < |s| <= MAX_REFERENCE_BYTES
    && WORKSPACE_PREFIX <= s
    && forall i | 0 <= i < |s| :: !ForbiddenReferenceChar(s[i])
  }

  /** Everything before the first slash, and what follows it if there is one. */
  function SplitAtSlash(s: string): (r: (string, Option<string>))
    ensures r.1.None? ==> r.0 == s && '/' !in s
    ensures r.1.Some? ==> s == r.0 + "/" + r.1.value
  {
    if s == [] then ("", None)
    else if s[0] == '/' then ("", Some(s[1..]))
    else
      var r := SplitAtSlash(s[1..]);
      ([s[0]] + r.0, r.1)
  }

  /** `validPath` is the relative-path check, which only paths below a workspace reach. */
  predicate ValidResourceReference(validPath: string -> bool, s: string) {
    && ReferenceShape(s)
    && var parts := SplitAtSlash(s[|WORKSPACE_PREFIX|..]);
       ValidWorkspaceId(parts.0) && (parts.1.Some? ==> validPath(parts.1.value))
  }

  /** A whole workspace, never a path inside it. */
  predicate ValidRepositoryRef(s: string) {
    ReferenceShape(s) && ValidWorkspaceId(s[|WORKSPACE_PREFIX|..])
  }

  lemma RepositoryRefIsRootReference(validPath: string -> bool, s: string)
    ensures ValidRepositoryRef(s) <==>
            ValidResourceReference(validPath, s) && '/' !in s[|WORKSPACE_PREFIX|..]
  {
    if ReferenceShape(s) {
      var rest := s[|WORKSPACE_PREFIX|..];
      var parts := SplitAtSlash(rest);
      if parts.1.Some? {
        assert rest[|parts.0|] == '/';
      }
    }
  }

  predicate ValidArtifact(a: ArtifactRef) {
    && ValidRepositoryRef(a.repositoryRef)
    && ValidCommitSha(a.baseSha)
    && ValidSha256(a.sha256)
    && 1 <= a.sizeBytes <= MAX_ARTIFACT_BYTES
  }

  predicate ValidDependency(d: DependencyRef) {
    CanonicalUuid(d.stepId) && ValidArtifact(d.artifact)
  }

  // ----- rows and text

  function ArtifactFields(a: ArtifactRef): seq<string> {
    [a.repositoryRef, a.baseSha, a.sha256, if a.sizeBytes < 0 then "" else Decimal(a.sizeBytes as nat)]
  }

  function DependencyFields(d: DependencyRef): seq<string> {
    [d.stepId] + ArtifactFields(d.artifact)
  }

  function Rows<T>(fields: T -> seq<string>, s: seq<T>): seq<string> {
    if s == [] then [] else Rows(fields, s[..|s| - 1]) + fields(s[|s| - 1])
  }

  /** The bytes that are hashed: every field of every row, newline-terminated. */
  function Text<T>(fields: T -> seq<string>, s: seq<T>): string {
    JoinLines(Rows(fields, s))
  }

  lemma TextStep<T>(fields: T -> seq<string>, s: seq<T>, i: nat)
    requires i < |s|
    ensures Text(fields, s[..i + 1]) == Text(fields, s[..i]) + JoinLines(fields(s[i]))
  {
    assert s[..i + 1][..i] == s[..i];
    JoinLinesAppend(Rows(fields, s[..i]), fields(s[i]));
  }

  function ParseRows<T>(parse: seq<string> -> Option<T>, width: nat, lines: seq<string>): Option<seq<T>>
    requires width > 0
    decreases |lines|
  {
    if lines == [] then Some([])
    else if |lines| < width then None
    else
      match (ParseRows(parse, width, lines[..|lines| - width]), parse(lines[|lines| - width..]))
      case (Some(front), Some(x)) => Some(front + [x])
      case _ => None
  }

  function ParseText<T>(parse: seq<string> -> Option<T>, width: nat, text: string): Option<seq<T>>
    requires width > 0
  {
    match SplitLines(text)
    case None => None
    case Some(lines) => ParseRows(parse, width, lines)
  }

  function ParseArtifact(f: seq<string>): Option<ArtifactRef> {
    if |f| != 4 then None else
      match ParseDecimal(f[3])
      case None => None
      case Some(n) =>
        if n < 0x8000_0000_0000_0000 then Some(ArtifactRef(f[0], f[1], f[2], n as int64)) else None
  }

  function ParseDependency(f: seq<string>): Option<DependencyRef> {
    if f == [] then None else
      match ParseArtifact(f[1..])
      case None => None
      case Some(a) => Some(DependencyRef(f[0], a))
  }

  ghost predicate RowCodec<T>(fields: T -> seq<string>, parse: seq<string> -> Option<T>, width: nat, x: T) {
    |fields(x)| == width && (forall f | f in fields(x) :: OneLine(f)) && parse(fields(x)) == Some(x)
  }

  lemma ParseRowsSnoc<T>(parse: seq<string> -> Option<T>, width: nat, front: seq<string>, row: seq<string>)
    requires width > 0 && |row| == width
    requires ParseRows(parse, width, front).Some? && parse(row).Some?
    ensures ParseRows(parse, width, front + row) ==
            Some(ParseRows(parse, width, front).value + [parse(row).value])
  {
    var lines := front + row;
    assert lines[..|lines| - width] == front && lines[|lines| - width..] == row;
  }

  lemma {:induction false} RowsRoundTrip<T>(
      fields: T -> seq<string>, parse: seq<string> -> Option<T>, width: nat, s: seq<T>)
    requires width > 0
    requires forall x | x in s :: RowCodec(fields, parse, width, x)
    ensures forall l | l in Rows(fields, s) :: OneLine(l)
    ensures ParseRows(parse, width, Rows(fields, s)) == Some(s)
  {
    if s != [] {
      var front, last := s[..|s| - 1], s[|s| - 1];
      assert RowCodec(fields, parse, width, last);
      RowsRoundTrip(fields, parse, width, front);
      ParseRowsSnoc(parse, width, Rows(fields, front), fields(last));
      assert s == front + [last];
    }
  }

  /** A manifest text splits into its lines and its rows in one way only. */
  lemma TextRoundTrip<T>(fields: T -> seq<string>, parse: seq<string> -> Option<T>, width: nat, s: seq<T>)
    requires width > 0
    requires forall x | x in s :: RowCodec(fields, parse, width, x)
    ensures ParseText(parse, width, Text(fields, s)) == Some(s)
  {
    RowsRoundTrip(fields, parse, width, s);
    LinesRoundTrip(Rows(fields, s));
  }

  lemma ArtifactCodec(a: ArtifactRef)
    requires ValidArtifact(a)
    ensures RowCodec(ArtifactFields, ParseArtifact, 4, a)
  {
    DecimalRoundTrip(a.sizeBytes as nat);
  }

  lemma DependencyCodec(d: DependencyRef)
    requires ValidDependency(d)
    ensures RowCodec(DependencyFields, ParseDependency, 5, d)
  {
    ArtifactCodec(d.artifact);
    assert DependencyFields(d)[1..] == ArtifactFields(d.artifact);
  }

  // ----- the sort orders

  predicate ArtifactLeq(a: ArtifactRef, b: ArtifactRef) {
    StrLeq(a.repositoryRef, b.repositoryRef)
  }

  predicate DependencyLeq(a: DependencyRef, b: DependencyRef) {
    if a.stepId != b.stepId then StrLeq(a.stepId, b.stepId)
    else if a.artifact.repositoryRef != b.artifact.repositoryRef then
      StrLeq(a.artifact.repositoryRef, b.artifact.repositoryRef)
    else StrLeq(a.artifact.sha256, b.artifact.sha256)
  }

  lemma ArtifactLeqIsPreorder()
    ensures TotalPreorder(ArtifactLeq)
  {
    forall a: ArtifactRef, b: ArtifactRef {
      StrLeqTotal(a.repositoryRef, b.repositoryRef);
    }
    forall a: ArtifactRef, b: ArtifactRef, c: ArtifactRef | ArtifactLeq(a, b) && ArtifactLeq(b, c)
      ensures ArtifactLeq(a, c)
    {
      StrLeqTransitive(a.repositoryRef, b.repositoryRef, c.repositoryRef);
    }
  }

  lemma DependencyLeqTotal(a: DependencyRef, b: DependencyRef)
    ensures DependencyLeq(a, b) || DependencyLeq(b, a)
  {
    StrLeqTotal(a.stepId, b.stepId);
    StrLeqTotal(a.artifact.repositoryRef, b.artifact.repositoryRef);
    StrLeqTotal(a.artifact.sha256, b.artifact.sha256);
  }

  lemma DependencyLeqTransitive(a: DependencyRef, b: DependencyRef, c: DependencyRef)
    requires DependencyLeq(a, b) && DependencyLeq(b, c)
    ensures DependencyLeq(a, c)
  {
    if a.stepId == c.stepId && a.stepId != b.stepId {
      StrLeqAntisymmetric(a.stepId, b.stepId);
    } else if a.stepId != b.stepId && b.stepId != c.stepId {
      StrLeqTransitive(a.stepId, b.stepId, c.stepId);
    } else if a.stepId == b.stepId == c.stepId {
      var x, y, z := a.artifact, b.artifact, c.artifact;
      if x.repositoryRef == z.repositoryRef && x.repositoryRef != y.repositoryRef {
        StrLeqAntisymmetric(x.repositoryRef, y.repositoryRef);
      } else if x.repositoryRef != y.repositoryRef && y.repositoryRef != z.repositoryRef {
        StrLeqTransitive(x.repositoryRef, y.repositoryRef, z.repositoryRef);
      } else if x.repositoryRef == y.repositoryRef == z.repositoryRef {
        StrLeqTransitive(x.sha256, y.sha256, z.sha256);
      }
    }
  }

  lemma DependencyLeqIsPreorder()
    ensures TotalPreorder(DependencyLeq)
  {
    forall a: DependencyRef, b: DependencyRef {
      DependencyLeqTotal(a, b);
    }
    forall a: DependencyRef, b: DependencyRef, c: DependencyRef | DependencyLeq(a, b) && DependencyLeq(b, c)
      ensures DependencyLeq(a, c)
    {
      DependencyLeqTransitive(a, b, c);
    }
  }

  // ----- what a manifest accepts

  function RepositoryOf(a: ArtifactRef): string {
    a.repositoryRef
  }

  function UniqueKey(d: DependencyRef): string {
    d.stepId + "\0" + d.artifact.repositoryRef
  }

  function ArtifactSize(a: ArtifactRef): int {
    a.sizeBytes as int
  }

  function SizeOf(d: DependencyRef): int {
    ArtifactSize(d.artifact)
  }

  ghost predicate AcceptableArtifacts(s: seq<ArtifactRef>) {
    && 1 <= |s| <= MAX_ARTIFACTS
    && (forall k | 0 <= k < |s| :: ValidArtifact(s[k]))
    && DistinctBy(RepositoryOf, s)
  }

  /** No step contributes two patches to one repository. */
  ghost predicate DistinctTargets(s: seq<DependencyRef>) {
    forall i, j | 0 <= i < j < |s| ::
      s[i].stepId != s[j].stepId || s[i].artifact.repositoryRef != s[j].artifact.repositoryRef
  }

  ghost predicate AcceptableDependencies(s: seq<DependencyRef>) {
    && |s| <= MAX_DEPENDENCY_REFERENCES
    && (forall d | d in s :: ValidDependency(d))
    && DistinctTargets(s)
    && Sum(SizeOf, s) <= MAX_DEPENDENCY_BYTES as int
  }

  /** The NUL-joined key separates every pair of targets: neither half can hold a NUL. */
  lemma UniqueKeyInjective(a: DependencyRef, b: DependencyRef)
    requires ValidDependency(a) && ValidDependency(b)
    ensures UniqueKey(a) == UniqueKey(b) <==>
            a.stepId == b.stepId && a.artifact.repositoryRef == b.artifact.repositoryRef
  {
    if UniqueKey(a) == UniqueKey(b) {
      assert a.stepId == UniqueKey(a)[..36] && b.stepId == UniqueKey(b)[..36];
      assert a.artifact.repositoryRef == UniqueKey(a)[37..];
      assert b.artifact.repositoryRef == UniqueKey(b)[37..];
    }
  }

  lemma DistinctTargetsByKey(s: seq<DependencyRef>)
    requires forall d | d in s :: ValidDependency(d)
    ensures DistinctTargets(s) <==> DistinctBy(UniqueKey, s)
  {
    forall i, j | 0 <= i < j < |s|
      ensures UniqueKey(s[i]) == UniqueKey(s[j]) <==>
              s[i].stepId == s[j].stepId && s[i].artifact.repositoryRef == s[j].artifact.repositoryRef
    {
      UniqueKeyInjective(s[i], s[j]);
    }
  }

  /** Acceptance does not depend on the order in which the references are listed. */
  lemma DependencyAcceptancePermutes(a: seq<DependencyRef>, b: seq<DependencyRef>)
    requires Permutes(a, b) && AcceptableDependencies(a)
    ensures AcceptableDependencies(b)
  {
    PermutesLength(a, b);
    forall d | d in b
      ensures ValidDependency(d)
    {
      PermutesMembers(a, b, d);
    }
    DistinctTargetsByKey(a);
    DistinctByPermutes(UniqueKey, a, b);
    DistinctTargetsByKey(b);
    SumPermutes(SizeOf, a, b);
  }

  lemma ArtifactAcceptancePermutes(a: seq<ArtifactRef>, b: seq<ArtifactRef>)
    requires Permutes(a, b) && AcceptableArtifacts(a)
    ensures AcceptableArtifacts(b)
  {
    PermutesLength(a, b);
    forall x | x in b
      ensures ValidArtifact(x)
    {
      PermutesMembers(a, b, x);
    }
    DistinctByPermutes(RepositoryOf, a, b);
  }

  // ----- the text of an accepted list is unique, whatever the sort does with ties

  lemma DependencyNoTies(s: seq<DependencyRef>)
    requires DistinctTargets(s)
    ensures NoTies(DependencyLeq, s)
  {
    forall x, y | x in s && y in s && DependencyLeq(x, y) && DependencyLeq(y, x)
      ensures x == y
    {
      if x.stepId != y.stepId {
        StrLeqAntisymmetric(x.stepId, y.stepId);
      } else if x.artifact.repositoryRef != y.artifact.repositoryRef {
        StrLeqAntisymmetric(x.artifact.repositoryRef, y.artifact.repositoryRef);
      }
      var i :| 0 <= i < |s| && s[i] == x;
      var j :| 0 <= j < |s| && s[j] == y;
    }
  }

  lemma ArtifactNoTies(s: seq<ArtifactRef>)
    requires DistinctBy(RepositoryOf, s)
    ensures NoTies(ArtifactLeq, s)
  {
    forall x, y | x in s && y in s && ArtifactLeq(x, y) && ArtifactLeq(y, x)
      ensures x == y
    {
      StrLeqAntisymmetric(x.repositoryRef, y.repositoryRef);
      var i :| 0 <= i < |s| && s[i] == x;
      var j :| 0 <= j < |s| && s[j] == y;
      assert RepositoryOf(s[i]) == RepositoryOf(s[j]);
    }
  }

  ghost predicate IsDependencyText(s: seq<DependencyRef>, text: string) {
    exists ordered :: Arranges(DependencyLeq, s, ordered) && text == Text(DependencyFields, ordered)
  }

  ghost predicate IsArtifactText(s: seq<ArtifactRef>, text: string) {
    exists ordered :: Arranges(ArtifactLeq, s, ordered) && text == Text(ArtifactFields, ordered)
  }

  /** Two orders of one accepted set have one text. */
  lemma DependencyTextUnique(a: seq<DependencyRef>, b: seq<DependencyRef>, s: string, t: string)
    requires AcceptableDependencies(a) && Permutes(a, b)
    requires IsDependencyText(a, s) && IsDependencyText(b, t)
    ensures s == t
  {
    var x :| Arranges(DependencyLeq, a, x) && s == Text(DependencyFields, x);
    var y :| Arranges(DependencyLeq, b, y) && t == Text(DependencyFields, y);
    DependencyAcceptancePermutes(a, x);
    DependencyNoTies(x);
    SortedUnique(DependencyLeq, x, y);
  }

  lemma ArtifactTextUnique(a: seq<ArtifactRef>, b: seq<ArtifactRef>, s: string, t: string)
    requires AcceptableArtifacts(a) && Permutes(a, b)
    requires IsArtifactText(a, s) && IsArtifactText(b, t)
    ensures s == t
  {
    var x :| Arranges(ArtifactLeq, a, x) && s == Text(ArtifactFields, x);
    var y :| Arranges(ArtifactLeq, b, y) && t == Text(ArtifactFields, y);
    ArtifactAcceptancePermutes(a, x);
    ArtifactNoTies(x);
    SortedUnique(ArtifactLeq, x, y);
  }

  /** Reading the text of an accepted list back gives that list in sorted order. */
  lemma DependencyTextParses(a: seq<DependencyRef>, text: string) returns (ordered: seq<DependencyRef>)
    requires AcceptableDependencies(a) && IsDependencyText(a, text)
    ensures Arranges(DependencyLeq, a, ordered)
    ensures ParseText(ParseDependency, 5, text) == Some(ordered)
  {
    ordered :| Arranges(DependencyLeq, a, ordered) && text == Text(DependencyFields, ordered);
    DependencyAcceptancePermutes(a, ordered);
    forall d | d in ordered
      ensures RowCodec(DependencyFields, ParseDependency, 5, d)
    {
      DependencyCodec(d);
    }
    TextRoundTrip(DependencyFields, ParseDependency, 5, ordered);
  }

  lemma ArtifactTextParses(a: seq<ArtifactRef>, text: string) returns (ordered: seq<ArtifactRef>)
    requires AcceptableArtifacts(a) && IsArtifactText(a, text)
    ensures Arranges(ArtifactLeq, a, ordered)
    ensures ParseText(ParseArtifact, 4, text) == Some(ordered)
  {
    ordered :| Arranges(ArtifactLeq, a, ordered) && text == Text(ArtifactFields, ordered);
    ArtifactAcceptancePermutes(a, ordered);
    forall x | x in ordered
      ensures RowCodec(ArtifactFields, ParseArtifact, 4, x)
    {
      ArtifactCodec(x);
    }
    TextRoundTrip(ArtifactFields, ParseArtifact, 4, ordered);
  }

  /** Accepted lists with one text are the same set of references. */
  lemma DependencyTextBinds(a: seq<DependencyRef>, b: seq<DependencyRef>, text: string)
    requires AcceptableDependencies(a) && AcceptableDependencies(b)
    requires IsDependencyText(a, text) && IsDependencyText(b, text)
    ensures Permutes(a, b)
  {
    var x := DependencyTextParses(a, text);
    var y := DependencyTextParses(b, text);
  }

  lemma ArtifactTextBinds(a: seq<ArtifactRef>, b: seq<ArtifactRef>, text: string)
    requires AcceptableArtifacts(a) && AcceptableArtifacts(b)
    requires IsArtifactText(a, text) && IsArtifactText(b, text)
    ensures Permutes(a, b)
  {
    var x := ArtifactTextParses(a, text);
    var y := ArtifactTextParses(b, text);
  }

  /** Unless SHA-256 collides on the two texts, equal manifest digests mean equal reference sets. */
  lemma DependencyDigestBinds(h: Hash, a: seq<DependencyRef>, b: seq<DependencyRef>, s: string, t: string)
    requires AcceptableDependencies(a) && IsDependencyText(a, s)
    requires AcceptableDependencies(b) && IsDependencyText(b, t)
    requires NoCollision(h, s, t)
    ensures Hex(h.Of(s)) == Hex(h.Of(t)) <==> Permutes(a, b)
  {
    if Hex(h.Of(s)) == Hex(h.Of(t)) {
      HexInjective(h.Of(s), h.Of(t));
      DependencyTextBinds(a, b, s);
    }
    if Permutes(a, b) {
      DependencyTextUnique(a, b, s, t);
    }
  }

  lemma ArtifactDigestBinds(h: Hash, a: seq<ArtifactRef>, b: seq<ArtifactRef>, s: string, t: string)
    requires AcceptableArtifacts(a) && IsArtifactText(a, s)
    requires AcceptableArtifacts(b) && IsArtifactText(b, t)
    requires NoCollision(h, s, t)
    ensures Hex(h.Of(s)) == Hex(h.Of(t)) <==> Permutes(a, b)
  {
    if Hex(h.Of(s)) == Hex(h.Of(t)) {
      HexInjective(h.Of(s), h.Of(t));
      ArtifactTextBinds(a, b, s);
    }
    if Permutes(a, b) {
      ArtifactTextUnique(a, b, s, t);
    }
  }

  // ----- the two digest computations

  ghost predicate Writable<T>(
      valid: T -> bool, key: T -> string, size: T -> int, limit: Option<int64>, s: seq<T>) {
    && (forall k | 0 <= k < |s| :: valid(s[k]))
    && DistinctBy(key, s)
    && (limit.Some? ==> Sum(size, s) <= limit.value as int)
  }

  /**
  The loop of both manifests: check each row, its key and, under a limit, the running total,
  then append the row. `totalBytes` is an int64, so no accepted or refused input wraps it.
  */
  method WriteManifest<T>(valid: T -> bool, key: T -> string, size: T -> int, limit: Option<int64>,
                          fields: T -> seq<string>, ordered: seq<T>)
    returns (r: Result<string, Refusal>)
    requires forall k | 0 <= k < |ordered| && valid(ordered[k]) ::
      1 <= size(ordered[k]) <= MAX_ARTIFACT_BYTES as int
    requires limit.Some? ==> MAX_ARTIFACT_BYTES <= limit.value
    ensures r.Ok? <==> Writable(valid, key, size, limit, ordered)
    ensures r.Ok? ==> r.value == Text(fields, ordered)
  {
    var manifest := "";
    var totalBytes: int64 := 0;
    var seen: set<string> := {};
    PrefixesUnrepeated(key, ordered);
    for i := 0 to |ordered|
      invariant forall k | 0 <= k < i :: valid(ordered[k])
      invariant seen == Keys(key, ordered, i) && Unrepeated(key, ordered, i)
      invariant limit.Some? ==> totalBytes as int == SumTo(size, ordered, i)
      invariant limit.Some? ==> 0 <= totalBytes <= limit.value
      invariant manifest == Text(fields, ordered[..i])
    {
      if !valid(ordered[i]) {
        return Err(InvalidReference);
      }
      if key(ordered[i]) in seen {
        assert !Unrepeated(key, ordered, i + 1);
        return Err(DuplicateRepository);
      }
      seen := seen + {key(ordered[i])};
      if limit.Some? {
        TotalStep(valid, size, ordered, i);
        var sizeBytes := size(ordered[i]) as int64;
        if totalBytes > limit.value - sizeBytes {
          return Err(TotalSizeExceeded);
        }
        totalBytes := totalBytes + sizeBytes;
      }
      TextStep(fields, ordered, i);
      manifest := manifest + JoinLines(fields(ordered[i]));
    }
    assert ordered[..|ordered|] == ordered;
    return Ok(manifest);
  }

  // ----- the `seen` maps of the Go loops

  /** The keys of the first `i` elements. */
  function Keys<T, K>(key: T -> K, s: seq<T>, i: nat): set<K>
    requires i <= |s|
  {
    if i == 0 then {} else Keys(key, s, i - 1) + {key(s[i - 1])}
  }

  /** None of the first `i` elements repeats the key of an earlier one. */
  predicate Unrepeated<T, K(==)>(key: T -> K, s: seq<T>, i: nat)
    requires i <= |s|
  {
    i == 0 || (Unrepeated(key, s, i - 1) && key(s[i - 1]) !in Keys(key, s, i - 1))
  }

  lemma {:induction false} KeysMembers<T, K>(key: T -> K, s: seq<T>, i: nat, k: K)
    requires i <= |s|
    ensures k in Keys(key, s, i) <==> exists a | 0 <= a < i :: key(s[a]) == k
  {
    if i > 0 {
      KeysMembers(key, s, i - 1, k);
    }
  }

  lemma {:induction false} UnrepeatedPrefix<T, K>(key: T -> K, s: seq<T>, i: nat, j: nat)
    requires i <= j <= |s| && Unrepeated(key, s, j)
    ensures Unrepeated(key, s, i)
  {
    if i < j {
      UnrepeatedPrefix(key, s, i, j - 1);
    }
  }

  lemma UnrepeatedIsDistinct<T, K>(key: T -> K, s: seq<T>)
    ensures Unrepeated(key, s, |s|) <==> DistinctBy(key, s)
  {
    if Unrepeated(key, s, |s|) {
      forall a, b | 0 <= a < b < |s|
        ensures key(s[a]) != key(s[b])
      {
        UnrepeatedPrefix(key, s, b + 1, |s|);
        KeysMembers(key, s, b, key(s[b]));
      }
    }
    if DistinctBy(key, s) {
      DistinctIsUnrepeated(key, s, |s|);
    }
  }

  lemma PrefixesUnrepeated<T, K>(key: T -> K, s: seq<T>)
    ensures Unrepeated(key, s, |s|) <==> DistinctBy(key, s)
    ensures DistinctBy(key, s) ==> forall i | 0 <= i <= |s| :: Unrepeated(key, s, i)
  {
    UnrepeatedIsDistinct(key, s);
    if DistinctBy(key, s) {
      forall i | 0 <= i <= |s|
        ensures Unrepeated(key, s, i)
      {
        DistinctIsUnrepeated(key, s, i);
      }
    }
  }

  lemma {:induction false} DistinctIsUnrepeated<T, K>(key: T -> K, s: seq<T>, i: nat)
    requires i <= |s| && DistinctBy(key, s)
    ensures Unrepeated(key, s, i)
  {
    if i > 0 {
      DistinctIsUnrepeated(key, s, i - 1);
      KeysMembers(key, s, i - 1, key(s[i - 1]));
    }
  }

  /** The running total stays below the limit whenever the whole sum does. */
  lemma TotalStep<T>(valid: T -> bool, size: T -> int, s: seq<T>, i: nat)
    requires i < |s|
    requires forall k | 0 <= k < |s| && valid(s[k]) :: 1 <= size(s[k])
    ensures (forall k | 0 <= k < |s| :: valid(s[k])) ==> SumTo(size, s, i + 1) <= Sum(size, s)
  {
    if forall k | 0 <= k < |s| :: valid(s[k]) {
      SumToMonotone(size, s, i + 1, |s|);
    }
  }

  method SortDependencies(references: seq<DependencyRef>) returns (ordered: seq<DependencyRef>)
    ensures Arranges(DependencyLeq, references, ordered)
  {
    DependencyLeqIsPreorder();
    ordered := Sort(DependencyLeq, references);
  }

  method SortArtifacts(artifacts: seq<ArtifactRef>) returns (ordered: seq<ArtifactRef>)
    ensures Arranges(ArtifactLeq, artifacts, ordered)
  {
    ArtifactLeqIsPreorder();
    ordered := Sort(ArtifactLeq, artifacts);
  }

  /** Acceptance of the caller's list is what the loop checks on the sorted copy. */
  lemma DependencyWritable(references: seq<DependencyRef>, ordered: seq<DependencyRef>)
    requires Permutes(references, ordered) && |references| <= MAX_DEPENDENCY_REFERENCES
    ensures AcceptableDependencies(references) <==>
            Writable(ValidDependency, UniqueKey, SizeOf, Some(MAX_DEPENDENCY_BYTES), ordered)
  {
    PermutesLength(references, ordered);
    if AcceptableDependencies(references) {
      DependencyAcceptancePermutes(references, ordered);
      DistinctTargetsByKey(ordered);
    }
    if Writable(ValidDependency, UniqueKey, SizeOf, Some(MAX_DEPENDENCY_BYTES), ordered) {
      DistinctTargetsByKey(ordered);
      DependencyAcceptancePermutes(ordered, references);
    }
  }

  lemma ArtifactWritable(artifacts: seq<ArtifactRef>, ordered: seq<ArtifactRef>)
    requires Permutes(artifacts, ordered) && 1 <= |artifacts| <= MAX_ARTIFACTS
    ensures AcceptableArtifacts(artifacts) <==>
            Writable(ValidArtifact, RepositoryOf, ArtifactSize, None, ordered)
  {
    PermutesLength(artifacts, ordered);
    if AcceptableArtifacts(artifacts) {
      ArtifactAcceptancePermutes(artifacts, ordered);
    }
    if Writable(ValidArtifact, RepositoryOf, ArtifactSize, None, ordered) {
      ArtifactAcceptancePermutes(ordered, artifacts);
    }
  }

  method DependencyManifest(h: Hash, references: seq<DependencyRef>) returns (r: Result<string, Refusal>)
    ensures r.Ok? <==> AcceptableDependencies(references)
    ensures r.Ok? ==> exists text :: IsDependencyText(references, text) && r.value == Hex(h.Of(text))
  {
    if |references| > MAX_DEPENDENCY_REFERENCES {
      return Err(CountOutOfBounds);
    }
    var ordered := SortDependencies(references);
    DependencyWritable(references, ordered);
    var manifest := WriteManifest(
      ValidDependency, UniqueKey, SizeOf, Some(MAX_DEPENDENCY_BYTES), DependencyFields, ordered);
    if manifest.Err? {
      return manifest;
    }
    assert IsDependencyText(references, manifest.value);
    return Ok(Hex(h.Of(manifest.value)));
  }

  method ArtifactManifest(h: Hash, artifacts: seq<ArtifactRef>) returns (r: Result<string, Refusal>)
    ensures r.Ok? <==> AcceptableArtifacts(artifacts)
    ensures r.Ok? ==> exists text :: IsArtifactText(artifacts, text) && r.value == Hex(h.Of(text))
  {
    if |artifacts| == 0 || |artifacts| > MAX_ARTIFACTS {
      return Err(CountOutOfBounds);
    }
    var ordered := SortArtifacts(artifacts);
    ArtifactWritable(artifacts, ordered);
    var manifest := WriteManifest(ValidArtifact, RepositoryOf, ArtifactSize, None, ArtifactFields, ordered);
    if manifest.Err? {
      return manifest;
    }
    assert IsArtifactText(artifacts, manifest.value);
    return Ok(Hex(h.Of(manifest.value)));
  }
}
