/**
The byte stream whose SHA-256 binds a sandbox worktree, its two producers (the snapshot of
a walked directory and the digest of a prepared package) and the candidate verifier that
compares them.
*/
module Worktree {
  import opened Wrappers
  import opened Sequences
  import opened ByteStrings

  const MAX_FILES := 4096
  const MAX_DEPTH := 32
  const MAX_FILE_BYTES := 8 * 1024 * 1024
  const MAX_TOTAL_BYTES := 64 * 1024 * 1024
  const CANDIDATE_MODE: nat := 420 // 0644 in octal

  datatype Refusal =
    | CredentialMaterial | Symlink | InvalidPath | TooManyFiles | NotRegular | OversizedFile | OversizedTree

  /** `path` and `content` are bytes; `depth` is the number of components of the path. */
  datatype File = File(path: string, depth: nat, regular: bool, mode: nat, content: string)

  /** What the walk meets outside the excluded directories, in any order. */
  datatype Visit = Directory(name: string, symlink: bool) | Name(name: string, file: File)

  datatype Policy = Policy(excluded: set<string>, credential: string -> bool)

  predicate Executable(mode: nat) {
    mode % 2 == 1 || mode / 8 % 2 == 1 || mode / 64 % 2 == 1
  }

  // ----- the stream

  const HEADER := "itbem-sandbox-source-v1\n"

  function ModeByte(executable: bool): char {
    if executable then 1 as char else 0 as char
  }

  /** One file as both producers write it. */
  function Frame(h: Hash, path: string, executable: bool, content: string): string {
    BigEndian(|path|, 8) + (path + ([ModeByte(executable)] + (BigEndian(|content|, 8) + h.Of(content))))
  }

  function FileFrame(h: Hash, f: File): string {
    Frame(h, f.path, Executable(f.mode), f.content)
  }

  /** The header and the frames of the first `i` files. */
  function StreamTo(h: Hash, s: seq<File>, i: nat): string
    requires i <= |s|
  {
    if i == 0 then HEADER else StreamTo(h, s, i - 1) + FileFrame(h, s[i - 1])
  }

  function Stream(h: Hash, s: seq<File>): string {
    StreamTo(h, s, |s|)
  }

  /** What one frame says about its file. */
  datatype Record = Record(path: string, executable: bool, size: nat, contentHash: string)

  function RecordOf(h: Hash, f: File): Record {
    Record(f.path, Executable(f.mode), |f.content|, h.Of(f.content))
  }

  function Records(h: Hash, s: seq<File>): seq<Record> {
    if s == [] then [] else [RecordOf(h, s[0])] + Records(h, s[1..])
  }

  // ----- reading a stream back

  function Split(s: string, n: nat): Option<(string, string)> {
    if n <= |s| then Some((s[..n], s[n..])) else None
  }

  function DecodeFrame(s: string): (r: Option<(Record, string)>)
    ensures r.Some? ==> |r.value.1| < |s|
  {
    match Split(s, 8)
    case None => None
    case Some((lengthBytes, s1)) =>
      match Split(s1, FromBigEndian(lengthBytes))
      case None => None
      case Some((path, s2)) =>
        match Split(s2, 1)
        case None => None
        case Some((mode, s3)) =>
          match Split(s3, 8)
          case None => None
          case Some((sizeBytes, s4)) =>
            match Split(s4, 32)
            case None => None
            case Some((contentHash, rest)) =>
              Some((Record(path, mode[0] as int != 0, FromBigEndian(sizeBytes), contentHash), rest))
  }

  function DecodeFrames(s: string): Option<seq<Record>>
    decreases |s|
  {
    if s == "" then Some([]) else
      match DecodeFrame(s)
      case None => None
      case Some((record, rest)) =>
        match DecodeFrames(rest)
        case None => None
        case Some(records) => Some([record] + records)
  }

  function Decode(s: string): Option<seq<Record>> {
    if HEADER <= s then DecodeFrames(s[|HEADER|..]) else None
  }

  /** Lengths that struct.pack('>Q') can write. */
  predicate Framable(f: File) {
    |f.path| < Power256(8) && |f.content| < Power256(8)
  }

  lemma SplitAppend(a: string, b: string)
    ensures Split(a + b, |a|) == Some((a, b))
  {
  }

  lemma FrameAppend(h: Hash, f: File, rest: string)
    ensures FileFrame(h, f) + rest ==
            BigEndian(|f.path|, 8) + (f.path + ([ModeByte(Executable(f.mode))]
            + (BigEndian(|f.content|, 8) + (h.Of(f.content) + rest))))
  {
    var e := [ModeByte(Executable(f.mode))];
    var c := BigEndian(|f.content|, 8);
    ConcatAssociative(c, h.Of(f.content), rest);
    ConcatAssociative(e, c + h.Of(f.content), rest);
    ConcatAssociative(f.path, e + (c + h.Of(f.content)), rest);
    ConcatAssociative(BigEndian(|f.path|, 8), f.path + (e + (c + h.Of(f.content))), rest);
  }

  lemma FrameRoundTrip(h: Hash, f: File, rest: string)
    requires Framable(f)
    ensures DecodeFrame(FileFrame(h, f) + rest) == Some((RecordOf(h, f), rest))
  {
    FrameAppend(h, f, rest);
    var s4 := h.Of(f.content) + rest;
    var s3 := BigEndian(|f.content|, 8) + s4;
    var s2 := [ModeByte(Executable(f.mode))] + s3;
    var s1 := f.path + s2;
    SplitAppend(BigEndian(|f.path|, 8), s1);
    BigEndianRoundTrip(|f.path|, 8);
    SplitAppend(f.path, s2);
    SplitAppend([ModeByte(Executable(f.mode))], s3);
    SplitAppend(BigEndian(|f.content|, 8), s4);
    BigEndianRoundTrip(|f.content|, 8);
    SplitAppend(h.Of(f.content), rest);
  }

  /** The same frames written from the front. */
  function Frames(h: Hash, s: seq<File>): string {
    if s == [] then "" else FileFrame(h, s[0]) + Frames(h, s[1..])
  }

  lemma {:induction false} StreamSplits(h: Hash, s: seq<File>, i: nat)
    requires i <= |s|
    ensures Stream(h, s) == StreamTo(h, s, i) + Frames(h, s[i..])
    decreases |s| - i
  {
    if i < |s| {
      StreamSplits(h, s, i + 1);
      assert s[i..][1..] == s[i + 1..];
      ConcatAssociative(StreamTo(h, s, i), FileFrame(h, s[i]), Frames(h, s[i + 1..]));
    }
  }

  lemma {:induction false} FramesRoundTrip(h: Hash, s: seq<File>)
    requires forall f | f in s :: Framable(f)
    ensures DecodeFrames(Frames(h, s)) == Some(Records(h, s))
  {
    if s != [] {
      FrameRoundTrip(h, s[0], Frames(h, s[1..]));
      FramesRoundTrip(h, s[1..]);
    }
  }

  lemma HeaderStripped(header: string, rest: string)
    ensures header <= header + rest && (header + rest)[|header|..] == rest
  {
  }

  /** A stream has one reading, for any number of files. */
  lemma StreamRoundTrip(h: Hash, s: seq<File>)
    requires forall f | f in s :: Framable(f)
    ensures Decode(Stream(h, s)) == Some(Records(h, s))
  {
    FramesRoundTrip(h, s);
    StreamSplits(h, s, 0);
    assert s[0..] == s;
    HeaderStripped(HEADER, Frames(h, s));
  }

  lemma StreamInjective(h: Hash, a: seq<File>, b: seq<File>)
    requires forall f | f in a :: Framable(f)
    requires forall f | f in b :: Framable(f)
    requires Stream(h, a) == Stream(h, b)
    ensures Records(h, a) == Records(h, b)
  {
    StreamRoundTrip(h, a);
    StreamRoundTrip(h, b);
  }

  // ----- the snapshot of a worktree

  function PathOf(f: File): string {
    f.path
  }

  function SizeOf(f: File): int {
    |f.content|
  }

  predicate PathLeq(a: File, b: File) {
    StrLeq(a.path, b.path)
  }

  /** The file a visit adds to the snapshot, if it adds one. */
  function Picked(policy: Policy, v: Visit): seq<File> {
    if v.Name? && v.name !in policy.excluded then [v.file] else []
  }

  function Collected(policy: Policy, visits: seq<Visit>): seq<File> {
    if visits == [] then [] else
      Collected(policy, visits[..|visits| - 1]) + Picked(policy, visits[|visits| - 1])
  }

  predicate VisitAllowed(policy: Policy, v: Visit) {
    match v
    case Directory(name, symlink) => !policy.credential(name) && !symlink
    case Name(name, file) => name in policy.excluded || (!policy.credential(name) && file.depth <= MAX_DEPTH)
  }

  predicate FileAllowed(f: File) {
    f.regular && |f.content| <= MAX_FILE_BYTES
  }

  ghost predicate FilesAccepted(files: seq<File>) {
    && |files| <= MAX_FILES
    && (forall i | 0 <= i < |files| :: FileAllowed(files[i]))
    && Sum(SizeOf, files) <= MAX_TOTAL_BYTES
  }

  ghost predicate WalkAccepted(policy: Policy, visits: seq<Visit>) {
    && (forall i | 0 <= i < |visits| :: VisitAllowed(policy, visits[i]))
    && FilesAccepted(Collected(policy, visits))
  }

  lemma PathLeqIsPreorder()
    ensures TotalPreorder(PathLeq)
  {
    forall a: File, b: File {
      StrLeqTotal(a.path, b.path);
    }
    forall a: File, b: File, c: File | PathLeq(a, b) && PathLeq(b, c)
      ensures PathLeq(a, c)
    {
      StrLeqTransitive(a.path, b.path, c.path);
    }
  }

  lemma DistinctPathsDoNotTie(s: seq<File>)
    requires DistinctBy(PathOf, s)
    ensures NoTies(PathLeq, s)
  {
    forall x, y | x in s && y in s && PathLeq(x, y) && PathLeq(y, x)
      ensures x == y
    {
      StrLeqAntisymmetric(x.path, y.path);
      var i :| 0 <= i < |s| && s[i] == x;
      var j :| 0 <= j < |s| && s[j] == y;
      assert PathOf(s[i]) == PathOf(s[j]);
    }
  }

  /** `stream` is the stream of these files in path order. */
  ghost predicate IsStreamOf(h: Hash, files: seq<File>, stream: string) {
    exists ordered :: Arranges(PathLeq, files, ordered) && stream == Stream(h, ordered)
  }

  /** The stream of files with different paths does not depend on the walk order. */
  lemma StreamUnique(h: Hash, a: seq<File>, b: seq<File>, s: string, t: string)
    requires Permutes(a, b) && DistinctBy(PathOf, a)
    requires IsStreamOf(h, a, s) && IsStreamOf(h, b, t)
    ensures s == t
  {
    var x :| Arranges(PathLeq, a, x) && s == Stream(h, x);
    var y :| Arranges(PathLeq, b, y) && t == Stream(h, y);
    DistinctByPermutes(PathOf, a, x);
    DistinctPathsDoNotTie(x);
    SortedUnique(PathLeq, x, y);
  }

  lemma FilesAcceptedPermutes(a: seq<File>, b: seq<File>)
    requires Permutes(a, b) && FilesAccepted(a)
    ensures FilesAccepted(b)
  {
    PermutesLength(a, b);
    SumPermutes(SizeOf, a, b);
    forall i | 0 <= i < |b|
      ensures FileAllowed(b[i])
    {
      PermutesMembers(a, b, b[i]);
    }
  }

  lemma {:induction false} CollectedAppend(policy: Policy, a: seq<Visit>, b: seq<Visit>)
    ensures Collected(policy, a + b) == Collected(policy, a) + Collected(policy, b)
  {
    if b == [] {
      assert a + b == a;
    } else {
      var front, last := b[..|b| - 1], b[|b| - 1];
      CollectedAppend(policy, a, front);
      assert (a + b)[..|a + b| - 1] == a + front;
      ConcatAssociative(Collected(policy, a), Collected(policy, front), Picked(policy, last));
    }
  }

  lemma CollectedOne(policy: Policy, v: Visit)
    ensures Collected(policy, [v]) == Picked(policy, v)
  {
    assert [v][..0] == [];
  }

  lemma CollectedWithout(policy: Policy, s: seq<Visit>, k: nat)
    requires k < |s|
    ensures multiset(Collected(policy, s))
         == multiset(Collected(policy, Without(s, k))) + multiset(Picked(policy, s[k]))
  {
    var a, b := s[..k], s[k + 1..];
    SplitAt(s, k);
    CollectedAppend(policy, a + [s[k]], b);
    CollectedAppend(policy, a, [s[k]]);
    CollectedOne(policy, s[k]);
    CollectedAppend(policy, a, b);
  }

  lemma {:induction false} CollectedPermutes(policy: Policy, a: seq<Visit>, b: seq<Visit>)
    requires Permutes(a, b)
    ensures Permutes(Collected(policy, a), Collected(policy, b))
    decreases |a|
  {
    PermutesLength(a, b);
    if a != [] {
      var last := |a| - 1;
      PermutesMembers(a, b, a[last]);
      var k :| 0 <= k < |b| && b[k] == a[last];
      assert a == a[..last] + [a[last]];
      WithoutMultiset(b, k);
      MultisetCancel(multiset(a[..last]), multiset(Without(b, k)), a[last]);
      CollectedPermutes(policy, a[..last], Without(b, k));
      CollectedWithout(policy, b, k);
    }
  }

  /** What the walk accepts, and the stream it hashes, do not depend on its order. */
  lemma SnapshotIgnoresWalkOrder(h: Hash, policy: Policy, a: seq<Visit>, b: seq<Visit>)
    requires Permutes(a, b)
    ensures WalkAccepted(policy, a) <==> WalkAccepted(policy, b)
    ensures DistinctBy(PathOf, Collected(policy, a)) ==>
      forall s, t | IsStreamOf(h, Collected(policy, a), s) && IsStreamOf(h, Collected(policy, b), t) :: s == t
  {
    CollectedPermutes(policy, a, b);
    SortedFilesAccepted(Collected(policy, a), Collected(policy, b));
    VisitsAllowedPermute(policy, a, b);
    VisitsAllowedPermute(policy, b, a);
    if DistinctBy(PathOf, Collected(policy, a)) {
      forall s, t | IsStreamOf(h, Collected(policy, a), s) && IsStreamOf(h, Collected(policy, b), t)
        ensures s == t
      {
        StreamUnique(h, Collected(policy, a), Collected(policy, b), s, t);
      }
    }
  }

  lemma VisitsAllowedPermute(policy: Policy, a: seq<Visit>, b: seq<Visit>)
    requires Permutes(a, b)
    ensures (forall i | 0 <= i < |a| :: VisitAllowed(policy, a[i])) ==>
            (forall i | 0 <= i < |b| :: VisitAllowed(policy, b[i]))
  {
    forall i | 0 <= i < |b|
      ensures b[i] in a
    {
      PermutesMembers(a, b, b[i]);
    }
  }

  lemma CollectedNext(policy: Policy, visits: seq<Visit>, i: nat)
    requires i < |visits|
    ensures Collected(policy, visits[..i + 1]) == Collected(policy, visits[..i]) + Picked(policy, visits[i])
  {
    assert visits[..i + 1][..i] == visits[..i];
  }

  lemma CollectedLength(policy: Policy, visits: seq<Visit>, i: nat)
    requires i <= |visits|
    ensures |Collected(policy, visits[..i])| <= |Collected(policy, visits)|
    decreases |visits| - i
  {
    if i < |visits| {
      CollectedNext(policy, visits, i);
      CollectedLength(policy, visits, i + 1);
    } else {
      assert visits[..i] == visits;
    }
  }

  method Collect(policy: Policy, visits: seq<Visit>) returns (r: Result<seq<File>, Refusal>)
    ensures r.Ok? <==> (forall i | 0 <= i < |visits| :: VisitAllowed(policy, visits[i]))
                       && |Collected(policy, visits)| <= MAX_FILES
    ensures r.Ok? ==> r.value == Collected(policy, visits)
  {
    var files: seq<File> := [];
    for i := 0 to |visits|
      invariant forall k | 0 <= k < i :: VisitAllowed(policy, visits[k])
      invariant files == Collected(policy, visits[..i])
      invariant |files| <= MAX_FILES
    {
      CollectedNext(policy, visits, i);
      match visits[i]
      case Directory(name, symlink) =>
        if policy.credential(name) {
          return Err(CredentialMaterial);
        }
        if symlink {
          return Err(Symlink);
        }
      case Name(name, file) =>
        if name !in policy.excluded {
          if policy.credential(name) {
            return Err(CredentialMaterial);
          }
          if file.depth > MAX_DEPTH {
            return Err(InvalidPath);
          }
          files := files + [file];
          if |files| > MAX_FILES {
            CollectedLength(policy, visits, i + 1);
            return Err(TooManyFiles);
          }
        }
    }
    assert visits[..|visits|] == visits;
    return Ok(files);
  }

  method WriteStream(h: Hash, ordered: seq<File>) returns (r: Result<string, Refusal>)
    ensures r.Ok? <==> (forall i | 0 <= i < |ordered| :: FileAllowed(ordered[i]))
                       && Sum(SizeOf, ordered) <= MAX_TOTAL_BYTES
    ensures r.Ok? ==> r.value == Stream(h, ordered)
  {
    var stream := HEADER;
    var total := 0;
    for i := 0 to |ordered|
      invariant forall k | 0 <= k < i :: FileAllowed(ordered[k])
      invariant total == SumTo(SizeOf, ordered, i) <= MAX_TOTAL_BYTES
      invariant stream == StreamTo(h, ordered, i)
    {
      var file := ordered[i];
      if !file.regular {
        return Err(NotRegular);
      }
      if |file.content| > MAX_FILE_BYTES {
        return Err(OversizedFile);
      }
      total := total + |file.content|;
      if total > MAX_TOTAL_BYTES {
        SumToMonotone(SizeOf, ordered, i + 1, |ordered|);
        return Err(OversizedTree);
      }
      stream := stream + FileFrame(h, file);
    }
    return Ok(stream);
  }

  method SortFiles(files: seq<File>) returns (ordered: seq<File>)
    ensures Arranges(PathLeq, files, ordered)
  {
    PathLeqIsPreorder();
    ordered := Sort(PathLeq, files);
  }

  method Snapshot(h: Hash, policy: Policy, visits: seq<Visit>) returns (r: Result<string, Refusal>)
    ensures r.Ok? <==> WalkAccepted(policy, visits)
    ensures r.Ok? ==> exists stream ::
      IsStreamOf(h, Collected(policy, visits), stream) && r.value == Hex(h.Of(stream))
  {
    var collected := Collect(policy, visits);
    if collected.Err? {
      return Err(collected.error);
    }
    var ordered := SortFiles(collected.value);
    SortedFilesAccepted(collected.value, ordered);
    var written := WriteStream(h, ordered);
    if written.Err? {
      return written;
    }
    assert IsStreamOf(h, Collected(policy, visits), written.value);
    return Ok(Hex(h.Of(written.value)));
  }

  lemma SortedFilesAccepted(files: seq<File>, ordered: seq<File>)
    requires Permutes(files, ordered)
    ensures FilesAccepted(files) <==> FilesAccepted(ordered)
    ensures |files| == |ordered|
  {
    PermutesLength(files, ordered);
    if FilesAccepted(files) {
      FilesAcceptedPermutes(files, ordered);
    }
    if FilesAccepted(ordered) {
      FilesAcceptedPermutes(ordered, files);
    }
  }

  // ----- the digest of a prepared package and the candidate verifier

  /** One entry of the candidate's root directory; `regular` is false for a directory or a link. */
  datatype RootEntry = RootEntry(regular: bool, mode: nat, content: string)

  /** `names` lists the keys once each, in some order. */
  ghost predicate Lists<V>(names: seq<string>, m: map<string, V>) {
    DistinctBy(Itself, names) && forall n :: n in names <==> n in m
  }

  function PackageFile(name: string, content: string): File {
    File(name, 1, true, CANDIDATE_MODE, content)
  }

  function PackageFiles(names: seq<string>, files: map<string, string>): seq<File>
    requires forall n | n in names :: n in files
  {
    seq(|names|, i requires 0 <= i < |names| => PackageFile(names[i], files[names[i]]))
  }

  function RootVisit(name: string, root: map<string, RootEntry>): Visit
    requires name in root
  {
    Name(name, File(name, 1, root[name].regular, root[name].mode, root[name].content))
  }

  function RootVisits(names: seq<string>, root: map<string, RootEntry>): seq<Visit>
    requires forall n | n in names :: n in root
  {
    seq(|names|, i requires 0 <= i < |names| => RootVisit(names[i], root))
  }

  method ListKeys<V>(m: map<string, V>) returns (names: seq<string>)
    ensures Lists(names, m)
  {
    names := [];
    var rest := m.Keys;
    while rest != {}
      invariant DistinctBy(Itself, names)
      invariant forall n :: n in m <==> n in rest || n in names
      invariant forall n | n in names :: n !in rest
      decreases rest
    {
      var n :| n in rest;
      names := names + [n];
      rest := rest - {n};
    }
  }

  method SortNames(names: seq<string>) returns (ordered: seq<string>)
    ensures Arranges(StrLeq, names, ordered)
  {
    StrLeqIsPreorder();
    ordered := Sort(StrLeq, names);
  }

  lemma ListsPermutes<V>(a: seq<string>, b: seq<string>, m: map<string, V>)
    requires Lists(a, m) && Permutes(a, b)
    ensures Lists(b, m)
  {
    DistinctByPermutes(Itself, a, b);
    forall n
      ensures n in b <==> n in m
    {
      PermutesMembers(a, b, n);
    }
  }

  ghost predicate IsPackageStream(h: Hash, files: map<string, string>, stream: string) {
    exists names :: Lists(names, files) && IsStreamOf(h, PackageFiles(names, files), stream)
  }

  method PackageDigest(h: Hash, files: map<string, string>) returns (digest: string)
    ensures exists stream :: IsPackageStream(h, files, stream) && digest == Hex(h.Of(stream))
  {
    var names := ListKeys(files);
    var ordered := SortNames(names);
    ListsPermutes(names, ordered, files);
    var stream := WritePackage(h, ordered, files);
    SortedPackage(h, ordered, files);
    digest := Hex(h.Of(stream));
  }

  method WritePackage(h: Hash, ordered: seq<string>, files: map<string, string>) returns (stream: string)
    requires forall n | n in ordered :: n in files
    ensures stream == Stream(h, PackageFiles(ordered, files))
  {
    stream := HEADER;
    for i := 0 to |ordered|
      invariant stream == StreamTo(h, PackageFiles(ordered, files), i)
    {
      PackageStep(h, ordered, files, i);
      stream := stream + Frame(h, ordered[i], false, files[ordered[i]]);
    }
  }

  lemma PackageStep(h: Hash, ordered: seq<string>, files: map<string, string>, i: nat)
    requires i < |ordered| && forall n | n in ordered :: n in files
    ensures StreamTo(h, PackageFiles(ordered, files), i + 1)
         == StreamTo(h, PackageFiles(ordered, files), i) + Frame(h, ordered[i], false, files[ordered[i]])
  {
    assert !Executable(CANDIDATE_MODE);
    assert PackageFiles(ordered, files)[i] == PackageFile(ordered[i], files[ordered[i]]);
  }

  lemma SortedPackage(h: Hash, ordered: seq<string>, files: map<string, string>)
    requires Lists(ordered, files) && SortedBy(StrLeq, ordered)
    ensures IsPackageStream(h, files, Stream(h, PackageFiles(ordered, files)))
  {
    var all := PackageFiles(ordered, files);
    assert Arranges(PathLeq, all, all);
    assert IsStreamOf(h, all, Stream(h, all));
  }

  ghost predicate IsRootStream(h: Hash, policy: Policy, root: map<string, RootEntry>, stream: string) {
    exists names :: Lists(names, root)
      && WalkAccepted(policy, RootVisits(names, root))
      && IsStreamOf(h, Collected(policy, RootVisits(names, root)), stream)
  }

  /** The inventory and the modes of the prepared package. */
  predicate SameInventory(files: map<string, string>, root: map<string, RootEntry>) {
    root.Keys == files.Keys && forall n | n in root :: root[n].regular && root[n].mode == CANDIDATE_MODE
  }

  ghost predicate CandidateAccepted(
      h: Hash, policy: Policy, files: map<string, string>, root: map<string, RootEntry>) {
    SameInventory(files, root)
    && exists s, t :: IsRootStream(h, policy, root, s) && IsPackageStream(h, files, t) && h.Of(s) == h.Of(t)
  }

  method VerifyCandidate(h: Hash, policy: Policy, files: map<string, string>, root: map<string, RootEntry>)
    returns (accepted: bool)
    ensures accepted <==> CandidateAccepted(h, policy, files, root)
  {
    if !SameInventory(files, root) {
      return false;
    }
    var names := ListKeys(root);
    var snapshot := Snapshot(h, policy, RootVisits(names, root));
    if snapshot.Err? {
      RootWalkAccepted(policy, root, names);
      return false;
    }
    var digest := PackageDigest(h, files);
    ghost var s :| IsStreamOf(h, Collected(policy, RootVisits(names, root)), s) && snapshot.value == Hex(h.Of(s));
    ghost var t :| IsPackageStream(h, files, t) && digest == Hex(h.Of(t));
    assert IsRootStream(h, policy, root, s);
    StreamsUnique(h, policy, files, root, s, t);
    if snapshot.value == digest {
      HexInjective(h.Of(s), h.Of(t));
    }
    return snapshot.value == digest;
  }

  lemma RootVisitsPermute(a: seq<string>, b: seq<string>, root: map<string, RootEntry>)
    requires Lists(a, root) && Lists(b, root)
    ensures Permutes(RootVisits(a, root), RootVisits(b, root))
  {
    RootVisitsMembers(a, root);
    RootVisitsMembers(b, root);
    DistinctMembersPermute(RootVisits(a, root), RootVisits(b, root));
  }

  lemma RootVisitsMembers(names: seq<string>, root: map<string, RootEntry>)
    requires Lists(names, root)
    ensures forall i, j | 0 <= i < j < |names| :: RootVisits(names, root)[i] != RootVisits(names, root)[j]
    ensures forall v: Visit :: v in RootVisits(names, root) <==>
              v.Name? && v.name in root && v == RootVisit(v.name, root)
  {
    var visits := RootVisits(names, root);
    forall i, j | 0 <= i < j < |names|
      ensures visits[i] != visits[j]
    {
      assert Itself(names[i]) != Itself(names[j]);
    }
    forall v: Visit | v.Name? && v.name in root && v == RootVisit(v.name, root)
      ensures v in visits
    {
      var i :| 0 <= i < |names| && names[i] == v.name;
      assert visits[i] == v;
    }
  }

  lemma PackageFilesPermute(a: seq<string>, b: seq<string>, files: map<string, string>)
    requires Lists(a, files) && Lists(b, files)
    ensures Permutes(PackageFiles(a, files), PackageFiles(b, files))
  {
    PackageFilesMembers(a, files);
    PackageFilesMembers(b, files);
    DistinctMembersPermute(PackageFiles(a, files), PackageFiles(b, files));
  }

  lemma PackageFilesMembers(names: seq<string>, files: map<string, string>)
    requires Lists(names, files)
    ensures forall i, j | 0 <= i < j < |names| :: PackageFiles(names, files)[i] != PackageFiles(names, files)[j]
    ensures DistinctBy(PathOf, PackageFiles(names, files))
    ensures forall f: File :: f in PackageFiles(names, files) <==>
              f.path in files && f == PackageFile(f.path, files[f.path])
  {
    var all := PackageFiles(names, files);
    forall i, j | 0 <= i < j < |names|
      ensures all[i] != all[j] && PathOf(all[i]) != PathOf(all[j])
    {
      assert Itself(names[i]) != Itself(names[j]);
    }
    forall f: File | f.path in files && f == PackageFile(f.path, files[f.path])
      ensures f in all
    {
      var i :| 0 <= i < |names| && names[i] == f.path;
      assert all[i] == f;
    }
  }

  lemma {:induction false} CollectedComeFromVisits(policy: Policy, visits: seq<Visit>, f: File) returns (k: nat)
    requires f in Collected(policy, visits)
    ensures k < |visits| && visits[k].Name? && visits[k].file == f
  {
    var front, last := visits[..|visits| - 1], visits[|visits| - 1];
    if f in Picked(policy, last) {
      k := |visits| - 1;
    } else {
      k := CollectedComeFromVisits(policy, front, f);
    }
  }

  /** Visits with different paths collect files with different paths. */
  lemma {:induction false} CollectedPathsDistinct(policy: Policy, visits: seq<Visit>)
    requires forall i, j | 0 <= i < j < |visits| && visits[i].Name? && visits[j].Name? ::
               visits[i].file.path != visits[j].file.path
    ensures DistinctBy(PathOf, Collected(policy, visits))
  {
    if visits != [] {
      var front, last := visits[..|visits| - 1], visits[|visits| - 1];
      CollectedPathsDistinct(policy, front);
      forall i | 0 <= i < |Collected(policy, front)| && last.Name?
        ensures PathOf(Collected(policy, front)[i]) != PathOf(last.file)
      {
        var k := CollectedComeFromVisits(policy, front, Collected(policy, front)[i]);
        assert visits[k] == front[k];
      }
    }
  }

  lemma RootPathsDistinct(policy: Policy, names: seq<string>, root: map<string, RootEntry>)
    requires Lists(names, root)
    ensures DistinctBy(PathOf, Collected(policy, RootVisits(names, root)))
  {
    forall i, j | 0 <= i < j < |names|
      ensures RootVisits(names, root)[i].file.path != RootVisits(names, root)[j].file.path
    {
      assert Itself(names[i]) != Itself(names[j]);
    }
    CollectedPathsDistinct(policy, RootVisits(names, root));
  }

  lemma CollectedFromRoot(policy: Policy, names: seq<string>, root: map<string, RootEntry>, f: File)
    requires Lists(names, root) && f in Collected(policy, RootVisits(names, root))
    ensures f.path in root && f == RootVisit(f.path, root).file
  {
    var k := CollectedComeFromVisits(policy, RootVisits(names, root), f);
    assert names[k] in names;
  }

  /** Neither digest depends on the order in which a directory or a dictionary lists its names. */
  lemma StreamsUnique(h: Hash, policy: Policy, files: map<string, string>, root: map<string, RootEntry>,
                      s: string, t: string)
    requires IsRootStream(h, policy, root, s) && IsPackageStream(h, files, t)
    ensures forall s' | IsRootStream(h, policy, root, s') :: s' == s
    ensures forall t' | IsPackageStream(h, files, t') :: t' == t
  {
    forall s' | IsRootStream(h, policy, root, s')
      ensures s' == s
    {
      RootStreamUnique(h, policy, root, s, s');
    }
    forall t' | IsPackageStream(h, files, t')
      ensures t' == t
    {
      PackageStreamUnique(h, files, t, t');
    }
  }

  lemma RootStreamUnique(h: Hash, policy: Policy, root: map<string, RootEntry>, s: string, t: string)
    requires IsRootStream(h, policy, root, s) && IsRootStream(h, policy, root, t)
    ensures s == t
  {
    var a :| Lists(a, root) && IsStreamOf(h, Collected(policy, RootVisits(a, root)), s);
    var b :| Lists(b, root) && IsStreamOf(h, Collected(policy, RootVisits(b, root)), t);
    RootVisitsPermute(a, b, root);
    RootPathsDistinct(policy, a, root);
    SnapshotIgnoresWalkOrder(h, policy, RootVisits(a, root), RootVisits(b, root));
  }

  lemma PackageStreamUnique(h: Hash, files: map<string, string>, s: string, t: string)
    requires IsPackageStream(h, files, s) && IsPackageStream(h, files, t)
    ensures s == t
  {
    var a :| Lists(a, files) && IsStreamOf(h, PackageFiles(a, files), s);
    var b :| Lists(b, files) && IsStreamOf(h, PackageFiles(b, files), t);
    PackageFilesMembers(a, files);
    PackageFilesPermute(a, b, files);
    StreamUnique(h, PackageFiles(a, files), PackageFiles(b, files), s, t);
  }

  lemma RootWalkAccepted(policy: Policy, root: map<string, RootEntry>, names: seq<string>)
    requires Lists(names, root) && !WalkAccepted(policy, RootVisits(names, root))
    ensures forall h, s :: !IsRootStream(h, policy, root, s)
  {
    forall h, s
      ensures !IsRootStream(h, policy, root, s)
    {
      if IsRootStream(h, policy, root, s) {
        var b :| Lists(b, root) && WalkAccepted(policy, RootVisits(b, root));
        RootVisitsPermute(b, names, root);
        SnapshotIgnoresWalkOrder(h, policy, RootVisits(b, root), RootVisits(names, root));
      }
    }
  }

  /** The worktree holds exactly the prepared files. */
  predicate SameFiles(files: map<string, string>, root: map<string, RootEntry>) {
    SameInventory(files, root) && forall n | n in files :: root[n].content == files[n]
  }

  predicate Packable(files: map<string, string>) {
    forall n | n in files :: |n| < Power256(8) && |files[n]| < Power256(8)
  }

  ghost predicate NoContentCollision(h: Hash, files: map<string, string>, root: map<string, RootEntry>) {
    forall n | n in files && n in root :: NoCollision(h, root[n].content, files[n])
  }

  lemma RecordsContain(h: Hash, s: seq<File>, f: File)
    requires f in s
    ensures RecordOf(h, f) in Records(h, s)
  {
    if f != s[0] {
      RecordsContain(h, s[1..], f);
    }
  }

  lemma {:induction false} RecordComesFrom(h: Hash, s: seq<File>, r: Record) returns (f: File)
    requires r in Records(h, s)
    ensures f in s && r == RecordOf(h, f)
  {
    if r == RecordOf(h, s[0]) {
      f := s[0];
    } else {
      f := RecordComesFrom(h, s[1..], r);
    }
  }

  /**
  What acceptance of a candidate means. Unless SHA-256 collides on two contents of one name or
  on the two streams, a candidate whose walk is within bounds is accepted exactly when the
  worktree holds the prepared files, byte for byte, and nothing else.
  */
  lemma CandidateBinding(h: Hash, policy: Policy, files: map<string, string>, root: map<string, RootEntry>,
                         s: string, t: string)
    requires IsRootStream(h, policy, root, s) && IsPackageStream(h, files, t)
    requires NoCollision(h, s, t) && NoContentCollision(h, files, root) && Packable(files)
    requires forall n | n in files :: n !in policy.excluded
    ensures CandidateAccepted(h, policy, files, root) <==> SameFiles(files, root)
  {
    StreamsUnique(h, policy, files, root, s, t);
    if CandidateAccepted(h, policy, files, root) {
      EqualStreamsEqualFiles(h, policy, files, root, s);
    }
    if SameFiles(files, root) {
      SameFilesSameStream(h, policy, files, root, s);
    }
  }

  lemma EqualStreamsEqualFiles(h: Hash, policy: Policy, files: map<string, string>, root: map<string, RootEntry>,
                               stream: string)
    requires IsRootStream(h, policy, root, stream) && IsPackageStream(h, files, stream)
    requires NoContentCollision(h, files, root) && Packable(files) && SameInventory(files, root)
    ensures SameFiles(files, root)
  {
    var a :| Lists(a, root) && WalkAccepted(policy, RootVisits(a, root))
      && IsStreamOf(h, Collected(policy, RootVisits(a, root)), stream);
    var b :| Lists(b, files) && IsStreamOf(h, PackageFiles(b, files), stream);
    var walked := Collected(policy, RootVisits(a, root));
    PackageFilesMembers(b, files);
    forall f | f in walked
      ensures Framable(f)
    {
      CollectedFromRoot(policy, a, root, f);
      WalkedContentBounded(policy, RootVisits(a, root), f);
    }
    forall n | n in files
      ensures root[n].content == files[n]
    {
      var f := SameStreamSameRecord(h, walked, PackageFiles(b, files), stream, PackageFile(n, files[n]));
      CollectedFromRoot(policy, a, root, f);
    }
  }

  /** Two file lists with one stream tell the same about every file. */
  lemma SameStreamSameRecord(h: Hash, a: seq<File>, b: seq<File>, stream: string, p: File) returns (f: File)
    requires IsStreamOf(h, a, stream) && IsStreamOf(h, b, stream)
    requires forall f | f in a :: Framable(f)
    requires forall f | f in b :: Framable(f)
    requires p in b
    ensures f in a && RecordOf(h, f) == RecordOf(h, p)
  {
    var x :| Arranges(PathLeq, a, x) && stream == Stream(h, x);
    var y :| Arranges(PathLeq, b, y) && stream == Stream(h, y);
    FramablePermutes(a, x);
    FramablePermutes(b, y);
    StreamInjective(h, x, y);
    PermutesMembers(b, y, p);
    RecordsContain(h, y, p);
    f := RecordComesFrom(h, x, RecordOf(h, p));
    PermutesMembers(a, x, f);
  }

  lemma FramablePermutes(a: seq<File>, b: seq<File>)
    requires Permutes(a, b) && forall f | f in a :: Framable(f)
    ensures forall f | f in b :: Framable(f)
  {
    forall f | f in b
      ensures Framable(f)
    {
      PermutesMembers(a, b, f);
    }
  }

  lemma WalkedContentBounded(policy: Policy, visits: seq<Visit>, f: File)
    requires WalkAccepted(policy, visits) && f in Collected(policy, visits)
    ensures |f.content| < Power256(8)
  {
    assert FileAllowed(f);
    assert Power256(8) == 256 * Power256(7) && Power256(7) == 256 * Power256(6);
    assert Power256(6) == 256 * Power256(5) && Power256(5) == 256 * Power256(4);
    assert Power256(4) == 256 * Power256(3) && Power256(3) == 256 * Power256(2);
    assert Power256(2) == 256 * Power256(1) && Power256(1) == 256;
  }

  lemma SameFilesSameStream(h: Hash, policy: Policy, files: map<string, string>, root: map<string, RootEntry>,
                            stream: string)
    requires IsRootStream(h, policy, root, stream) && SameFiles(files, root)
    requires forall n | n in files :: n !in policy.excluded
    ensures IsPackageStream(h, files, stream)
  {
    var names :| Lists(names, root) && IsStreamOf(h, Collected(policy, RootVisits(names, root)), stream);
    assert Lists(names, files);
    var visits, all := RootVisits(names, root), PackageFiles(names, files);
    forall i | 0 <= i < |names|
      ensures Picked(policy, visits[i]) == [all[i]]
    {
      assert names[i] in files;
    }
    AllPicked(policy, visits, all);
  }

  lemma {:induction false} AllPicked(policy: Policy, visits: seq<Visit>, all: seq<File>)
    requires |visits| == |all|
    requires forall i | 0 <= i < |visits| :: Picked(policy, visits[i]) == [all[i]]
    ensures Collected(policy, visits) == all
  {
    if visits != [] {
      var last := |visits| - 1;
      AllPicked(policy, visits[..last], all[..last]);
      assert all == all[..last] + [all[last]];
    }
  }
}
