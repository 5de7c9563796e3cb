/** The validator of the typed details that a terminal activity event may carry. */
module ActivityDetails {
  import opened Wrappers
  import opened Sequences
  import opened ByteStrings
  import opened PatchManifests

  datatype Refusal =
    | NotTerminal | BadDependencyManifest | BadPatchArtifacts | BadAcceptanceEvidence | BadCommand
    | BadResourceReferences | BadChangedFiles | EmptyDetails

  const MAX_ARGUMENTS := 128
  const MAX_OUTPUT_BYTES := 24000
  const MAX_RESOURCE_REFERENCES := 16
  const MAX_CHANGED_FILES := 50

  datatype Action = Inference | Tool | FileRead | FileChange | Command | Validation | Evidence | OtherAction

  datatype Phase = Started | Completed | Failed | OtherPhase

  datatype AcceptanceCheck = AcceptanceCheck(criterionSha256: string, passed: bool)

  datatype Details = Details(
    executableName: string,
    argumentCount: Option<int>,
    exitCode: Option<int>,
    capturedOutputBytes: Option<int>,
    resourceReferences: seq<string>,
    changedFiles: seq<string>,
    acceptanceChecks: seq<AcceptanceCheck>,
    reviewDiffSha256: string,
    patchArtifacts: seq<ArtifactRef>,
    dependencyManifestSha256: string,
    dependencyPatchCount: Option<int>
  ) {
    predicate HasCommand() {
      executableName != "" || argumentCount.Some? || exitCode.Some? || capturedOutputBytes.Some?
    }

    predicate HasArtifacts() {
      patchArtifacts != []
    }

    predicate HasDependencyManifest() {
      dependencyManifestSha256 != "" || dependencyPatchCount.Some?
    }

    predicate HasAcceptance() {
      acceptanceChecks != [] || (reviewDiffSha256 != "" && !HasArtifacts())
    }

    predicate Empty() {
      && !HasCommand() && !HasArtifacts() && !HasDependencyManifest() && !HasAcceptance()
      && resourceReferences == [] && changedFiles == []
    }
  }

  /** The checks the repository makes outside this model: relative paths and executable names. */
  datatype Lists = Lists(validPath: string -> bool, executables: set<string>)

  predicate Within(o: Option<int>, low: int, high: int) {
    o.Some? && low <= o.value <= high
  }

  predicate ValidCheck(c: AcceptanceCheck) {
    ValidSha256(c.criterionSha256) && c.passed
  }

  function CriterionOf(c: AcceptanceCheck): string {
    c.criterionSha256
  }

  // ----- what the validator accepts

  /** `digest` is the manifest digest of `s` under `h`, in whatever order `s` is listed. */
  ghost predicate IsArtifactDigest(h: Hash, s: seq<ArtifactRef>, digest: string) {
    exists text :: IsArtifactText(s, text) && digest == Hex(h.Of(text))
  }

  ghost predicate ArtifactsAccepted(h: Hash, s: seq<ArtifactRef>, reviewDiffSha256: string) {
    AcceptableArtifacts(s) && IsArtifactDigest(h, s, reviewDiffSha256)
  }

  ghost predicate ChecksAccepted(s: seq<AcceptanceCheck>, reviewDiffSha256: string) {
    && ValidSha256(reviewDiffSha256)
    && s != []
    && (forall i | 0 <= i < |s| :: ValidCheck(s[i]))
    && DistinctBy(CriterionOf, s)
  }

  ghost predicate NamesAccepted(valid: string -> bool, limit: nat, s: seq<string>) {
    |s| <= limit && (forall i | 0 <= i < |s| :: valid(s[i])) && DistinctBy(Itself, s)
  }

  predicate CommandAccepted(lists: Lists, d: Details) {
    && d.executableName in lists.executables
    && Within(d.argumentCount, 0, MAX_ARGUMENTS)
    && Within(d.exitCode, 0, 255)
    && Within(d.capturedOutputBytes, 0, MAX_OUTPUT_BYTES)
  }

  predicate DependencyClaimAccepted(sha256: string, count: Option<int>) {
    ValidSha256(sha256) && Within(count, 0, MAX_DEPENDENCY_REFERENCES)
  }

  ghost predicate ListsAccepted(
      lists: Lists, action: Action, resourceReferences: seq<string>, changedFiles: seq<string>) {
    && (resourceReferences != [] ==> !action.Inference? && !action.Tool? && !action.OtherAction?)
    && NamesAccepted(s => ValidResourceReference(lists.validPath, s), MAX_RESOURCE_REFERENCES, resourceReferences)
    && (changedFiles != [] ==> action.FileChange?)
    && NamesAccepted(lists.validPath, MAX_CHANGED_FILES, changedFiles)
  }

  /** The parts that only completed evidence events may carry. */
  ghost predicate EvidenceAccepted(h: Hash, action: Action, phase: Phase, d: Details) {
    && (d.HasArtifacts() || d.HasDependencyManifest() || d.HasAcceptance() ==>
          action.Evidence? && phase.Completed?)
    && (d.HasDependencyManifest() ==> DependencyClaimAccepted(d.dependencyManifestSha256, d.dependencyPatchCount))
    && (d.HasArtifacts() ==> ArtifactsAccepted(h, d.patchArtifacts, d.reviewDiffSha256))
    && (d.HasAcceptance() ==>
          && ChecksAccepted(d.acceptanceChecks, d.reviewDiffSha256)
          && !d.HasCommand() && d.resourceReferences == [] && d.changedFiles == [])
  }

  ghost predicate Accepted(h: Hash, lists: Lists, action: Action, phase: Phase, d: Details) {
    && (phase.Completed? || phase.Failed?)
    && EvidenceAccepted(h, action, phase, d)
    && (d.HasCommand() ==> (action.Command? || action.Validation?) && CommandAccepted(lists, d))
    && ListsAccepted(lists, action, d.resourceReferences, d.changedFiles)
    && !d.Empty()
  }

  // ----- its loops

  method AllValidAndDistinct<T>(valid: T -> bool, key: T -> string, s: seq<T>) returns (ok: bool)
    ensures ok <==> (forall i | 0 <= i < |s| :: valid(s[i])) && DistinctBy(key, s)
  {
    var seen: set<string> := {};
    PrefixesUnrepeated(key, s);
    for i := 0 to |s|
      invariant forall k | 0 <= k < i :: valid(s[k])
      invariant seen == Keys(key, s, i) && Unrepeated(key, s, i)
    {
      if !valid(s[i]) {
        return false;
      }
      if key(s[i]) in seen {
        assert !Unrepeated(key, s, i + 1);
        return false;
      }
      seen := seen + {key(s[i])};
    }
    return true;
  }

  method ArtifactsMatchReview(h: Hash, artifacts: seq<ArtifactRef>, reviewDiffSha256: string) returns (ok: bool)
    ensures ok <==> ArtifactsAccepted(h, artifacts, reviewDiffSha256)
  {
    if |artifacts| > MAX_ARTIFACTS {
      return false;
    }
    var each := AllValidAndDistinct(ValidArtifact, RepositoryOf, artifacts);
    if !each {
      return false;
    }
    var manifest := ArtifactManifest(h, artifacts);
    if manifest.Err? {
      return false;
    }
    DigestIsFunctional(h, artifacts, artifacts, manifest.value, reviewDiffSha256);
    return ValidSha256(reviewDiffSha256) && reviewDiffSha256 == manifest.value;
  }

  /** One accepted set of artifacts has one digest, and it has the shape of a digest. */
  lemma DigestIsFunctional(h: Hash, a: seq<ArtifactRef>, b: seq<ArtifactRef>, d: string, e: string)
    requires AcceptableArtifacts(a) && Permutes(a, b) && IsArtifactDigest(h, a, d)
    ensures IsArtifactDigest(h, b, e) <==> d == e
    ensures ValidSha256(d)
  {
    var s :| IsArtifactText(a, s) && d == Hex(h.Of(s));
    ArtifactTextPermutes(a, b, s);
    if IsArtifactDigest(h, b, e) {
      var t :| IsArtifactText(b, t) && e == Hex(h.Of(t));
      ArtifactTextUnique(a, b, s, t);
    }
  }

  lemma ArtifactTextPermutes(a: seq<ArtifactRef>, b: seq<ArtifactRef>, text: string)
    requires Permutes(a, b) && IsArtifactText(a, text)
    ensures IsArtifactText(b, text)
  {
    var ordered :| Arranges(ArtifactLeq, a, ordered) && text == Text(ArtifactFields, ordered);
    assert Arranges(ArtifactLeq, b, ordered);
  }

  method ValidateLists(lists: Lists, action: Action, d: Details) returns (r: Result<(), Refusal>)
    ensures r.Ok? <==> ListsAccepted(lists, action, d.resourceReferences, d.changedFiles)
  {
    if |d.resourceReferences| > MAX_RESOURCE_REFERENCES {
      return Err(BadResourceReferences);
    }
    if d.resourceReferences != [] && (action.Inference? || action.Tool? || action.OtherAction?) {
      return Err(BadResourceReferences);
    }
    var references := AllValidAndDistinct(
      s => ValidResourceReference(lists.validPath, s), Itself, d.resourceReferences);
    if !references {
      return Err(BadResourceReferences);
    }
    if |d.changedFiles| > MAX_CHANGED_FILES {
      return Err(BadChangedFiles);
    }
    if d.changedFiles != [] && !action.FileChange? {
      return Err(BadChangedFiles);
    }
    var files := AllValidAndDistinct(lists.validPath, Itself, d.changedFiles);
    if !files {
      return Err(BadChangedFiles);
    }
    return Ok(());
  }

  method ValidateEvidence(h: Hash, action: Action, phase: Phase, d: Details) returns (r: Result<(), Refusal>)
    ensures r.Ok? <==> EvidenceAccepted(h, action, phase, d)
  {
    var evidence := action.Evidence? && phase.Completed?;
    var claim := DependencyClaimAccepted(d.dependencyManifestSha256, d.dependencyPatchCount);
    if d.HasDependencyManifest() && !(evidence && claim) {
      return Err(BadDependencyManifest);
    }
    if d.HasArtifacts() {
      if !evidence {
        return Err(BadPatchArtifacts);
      }
      var matching := ArtifactsMatchReview(h, d.patchArtifacts, d.reviewDiffSha256);
      if !matching {
        return Err(BadPatchArtifacts);
      }
    }
    if d.HasAcceptance() {
      if !evidence || d.acceptanceChecks == [] || !ValidSha256(d.reviewDiffSha256) {
        return Err(BadAcceptanceEvidence);
      }
      if d.HasCommand() || d.resourceReferences != [] || d.changedFiles != [] {
        return Err(BadAcceptanceEvidence);
      }
      var checks := AllValidAndDistinct(ValidCheck, CriterionOf, d.acceptanceChecks);
      if !checks {
        return Err(BadAcceptanceEvidence);
      }
    }
    return Ok(());
  }

  method Validate(h: Hash, lists: Lists, action: Action, phase: Phase, details: Option<Details>)
    returns (r: Result<(), Refusal>)
    ensures r.Ok? <==> details.None? || Accepted(h, lists, action, phase, details.value)
  {
    if details.None? {
      return Ok(());
    }
    var d := details.value;
    if !phase.Completed? && !phase.Failed? {
      return Err(NotTerminal);
    }
    r := ValidateEvidence(h, action, phase, d);
    if r.Err? {
      return;
    }
    if d.HasCommand() {
      if !action.Command? && !action.Validation? {
        return Err(BadCommand);
      }
      if !CommandAccepted(lists, d) {
        return Err(BadCommand);
      }
    }
    r := ValidateLists(lists, action, d);
    if r.Err? {
      return;
    }
    if d.Empty() {
      return Err(EmptyDetails);
    }
  }

  // ----- consequences

  /** Reordering the patch artifacts never changes the verdict. */
  lemma VerdictIgnoresArtifactOrder(
      h: Hash, lists: Lists, action: Action, phase: Phase, d: Details, reordered: seq<ArtifactRef>)
    requires Permutes(d.patchArtifacts, reordered)
    ensures Accepted(h, lists, action, phase, d) <==>
            Accepted(h, lists, action, phase, d.(patchArtifacts := reordered))
  {
    EvidenceIgnoresArtifactOrder(h, action, phase, d, reordered);
    PermutesLength(d.patchArtifacts, reordered);
  }

  lemma EvidenceIgnoresArtifactOrder(
      h: Hash, action: Action, phase: Phase, d: Details, reordered: seq<ArtifactRef>)
    requires Permutes(d.patchArtifacts, reordered)
    ensures EvidenceAccepted(h, action, phase, d) <==>
            EvidenceAccepted(h, action, phase, d.(patchArtifacts := reordered))
  {
    PermutesLength(d.patchArtifacts, reordered);
    ReviewIgnoresOrder(h, d.patchArtifacts, reordered, d.reviewDiffSha256);
  }

  lemma ReviewIgnoresOrder(h: Hash, a: seq<ArtifactRef>, b: seq<ArtifactRef>, digest: string)
    requires Permutes(a, b)
    ensures ArtifactsAccepted(h, a, digest) <==> ArtifactsAccepted(h, b, digest)
  {
    if AcceptableArtifacts(a) {
      ArtifactAcceptancePermutes(a, b);
    }
    if AcceptableArtifacts(b) {
      ArtifactAcceptancePermutes(b, a);
    }
    if ArtifactsAccepted(h, a, digest) {
      DigestIsFunctional(h, a, b, digest, digest);
    }
    if ArtifactsAccepted(h, b, digest) {
      DigestIsFunctional(h, b, a, digest, digest);
    }
  }

  /**
  The review digest of an accepted upload names its patches: short of a collision, another
  accepted event with that digest lists the same artifacts.
  */
  lemma ReviewDigestNamesArtifacts(h: Hash, a: seq<ArtifactRef>, b: seq<ArtifactRef>, digest: string)
    requires ArtifactsAccepted(h, a, digest) && ArtifactsAccepted(h, b, digest)
    requires forall s, t | IsArtifactText(a, s) && IsArtifactText(b, t) :: NoCollision(h, s, t)
    ensures Permutes(a, b)
  {
    var s :| IsArtifactText(a, s) && digest == Hex(h.Of(s));
    var t :| IsArtifactText(b, t) && digest == Hex(h.Of(t));
    ArtifactDigestBinds(h, a, b, s, t);
  }
}
