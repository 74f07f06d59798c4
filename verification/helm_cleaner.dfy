/** `ReplaceManifestData` of the cluster provisioner's Helm cleaner, as its
    test table (pkg/controllers/management/clusterprovisioner/helm_cleaner_test.go)
    pins it: documents of a release manifest whose API was removed at or
    before the cluster's Kubernetes version are rewritten to the successor API,
    or dropped when there is none. A manifest is given already split into
    documents, each headed by its apiVersion and kind; the mapping table is a
    parameter. */
module HelmCleaner {
  import opened Wrappers
  import opened Text

  datatype Header = Header(apiVersion: string, kind: string)

  /** One YAML document: its header and the text after it. */
  datatype Doc = Doc(header: Header, body: string)

  /** A manifest: whether it opens with "---", its documents, and whether it
      ends with a newline. */
  datatype Manifest = Manifest(leadingSeparator: bool, docs: seq<Doc>, trailingNewline: bool)

  datatype Version = Version(major: nat, minor: nat, patch: nat)

  /** A mapping-table row: a deprecated API, its successor if any, and the
      version (as text) in which it was removed. */
  datatype Mapping = Mapping(deprecated: Header, replacement: Option<Header>, removedIn: string)

  /** What `ReplaceManifestData` returns. */
  datatype Replacement = Replacement(replaced: bool, manifest: string, err: Option<string>)

  const KubeVersionError := "Invalid format for Kubernetes semantic version"
  const MappingVersionError := "Failed to get the deprecated or removed Kubernetes version for API"

  // ------------------------------------------------------------ rendering

  function HeaderText(h: Header): string {
    "apiVersion: " + h.apiVersion + "\nkind: " + h.kind + "\n"
  }

  function DocText(d: Doc): string {
    HeaderText(d.header) + d.body
  }

  /** Documents separated by "\n---\n". */
  function JoinDocs(docs: seq<Doc>): string {
    if |docs| == 0 then ""
    else if |docs| == 1 then DocText(docs[0])
    else DocText(docs[0]) + "\n---\n" + JoinDocs(docs[1..])
  }

  function Render(m: Manifest): string {
    (if m.leadingSeparator then "---\n" else "") + JoinDocs(m.docs) + (if m.trailingNewline then "\n" else "")
  }

  /** The shape of a manifest the cleaner has dropped documents from: each
      survivor as "---\n" + document, joined by newlines. */
  function Reemitted(docs: seq<Doc>): string {
    if |docs| == 0 then ""
    else if |docs| == 1 then "---\n" + DocText(docs[0])
    else "---\n" + DocText(docs[0]) + "\n" + Reemitted(docs[1..])
  }

  lemma {:induction false} RenderReemitted(docs: seq<Doc>)
    requires |docs| > 0
    ensures Render(Manifest(true, docs, false)) == Reemitted(docs)
  {
    if |docs| > 1 {
      RenderReemitted(docs[1..]);
      assert "---\n" + (DocText(docs[0]) + "\n---\n" + JoinDocs(docs[1..]))
          == "---\n" + DocText(docs[0]) + "\n" + ("---\n" + JoinDocs(docs[1..]));
    }
  }

  // ------------------------------------------------------------- versions

  predicate IsDigits(s: string) {
    |s| > 0 && forall k :: 0 <= k < |s| ==> '0' <= s[k] <= '9'
  }

  function DigitsValue(s: string): nat
    requires IsDigits(s)
    decreases |s|
  {
    if |s| == 1 then (s[0] as int - '0' as int) as nat
    else DigitsValue(s[..|s| - 1]) * 10 + (s[|s| - 1] as int - '0' as int) as nat
  }

  /** "v<major>.<minor>[.<patch>]", the leading "v" optional. */
  function ParseVersion(s: string): (v: Option<Version>)
    ensures v.Some? ==> 2 <= |Split(TrimPrefix(s, "v"), '.')| <= 3
    ensures '.' !in s ==> v.None?
  {
    var parts := Split(TrimPrefix(s, "v"), '.');
    if |parts| < 2 || |parts| > 3 then None
    else if !IsDigits(parts[0]) || !IsDigits(parts[1]) then None
    else if |parts| == 3 && !IsDigits(parts[2]) then None
    else Some(Version(DigitsValue(parts[0]), DigitsValue(parts[1]), if |parts| == 3 then DigitsValue(parts[2]) else 0))
  }

  predicate VersionLe(a: Version, b: Version) {
    a.major < b.major || (a.major == b.major && (a.minor < b.minor || (a.minor == b.minor && a.patch <= b.patch)))
  }

  /** "v<a>.<b>" parses to version a.b.0. */
  lemma ParseMajorMinor(a: string, b: string)
    requires IsDigits(a) && IsDigits(b)
    ensures ParseVersion("v" + a + "." + b) == Some(Version(DigitsValue(a), DigitsValue(b), 0))
  {
    var s := "v" + a + "." + b;
    assert s == "v" + (a + "." + b);
    assert HasPrefix(s, "v");
    assert TrimPrefix(s, "v") == a + ['.'] + b;
    assert '.' !in a && '.' !in b by {
      assert forall k :: 0 <= k < |a| ==> a[k] != '.';
      assert forall k :: 0 <= k < |b| ==> b[k] != '.';
    }
    SplitJoined(a, '.', b);
  }

  lemma Version125()
    ensures ParseVersion("v1.25") == Some(Version(1, 25, 0))
  {
    assert DigitsValue("25") == 25 by { assert "25"[..1] == "2"; }
    assert "v1.25" == "v" + "1" + "." + "25";
    ParseMajorMinor("1", "25");
  }

  lemma Version124()
    ensures ParseVersion("v1.24") == Some(Version(1, 24, 0))
  {
    assert DigitsValue("24") == 24 by { assert "24"[..1] == "2"; }
    assert "v1.24" == "v" + "1" + "." + "24";
    ParseMajorMinor("1", "24");
  }

  // ------------------------------------------------------------ rewriting

  predicate Uses(m: Manifest, h: Header) {
    exists k :: 0 <= k < |m.docs| && m.docs[k].header == h
  }

  /** The documents whose header is not `h`, in order. */
  function DropAll(docs: seq<Doc>, h: Header): (r: seq<Doc>)
    ensures forall k :: 0 <= k < |r| ==> r[k].header != h && r[k] in docs
    ensures forall k :: 0 <= k < |docs| && docs[k].header != h ==> docs[k] in r
    ensures |r| <= |docs|
  {
    if |docs| == 0 then []
    else if docs[0].header == h then DropAll(docs[1..], h)
    else [docs[0]] + DropAll(docs[1..], h)
  }

  /** Every document headed `from` re-headed `to`, the rest untouched. */
  function Retarget(docs: seq<Doc>, from: Header, to: Header): (r: seq<Doc>)
    ensures |r| == |docs|
    ensures forall k :: 0 <= k < |docs| ==>
              r[k].body == docs[k].body && r[k].header == (if docs[k].header == from then to else docs[k].header)
  {
    seq(|docs|, k requires 0 <= k < |docs| => if docs[k].header == from then Doc(to, docs[k].body) else docs[k])
  }

  /** One mapping applied to a manifest that uses its deprecated API. */
  function ApplyMapping(m: Manifest, mp: Mapping): (r: Manifest)
    ensures mp.replacement.None? ==> r == Manifest(true, DropAll(m.docs, mp.deprecated), false)
    ensures mp.replacement.Some? ==>
              r.leadingSeparator == m.leadingSeparator && r.trailingNewline == m.trailingNewline &&
              r.docs == Retarget(m.docs, mp.deprecated, mp.replacement.value)
    ensures mp.replacement.Some? && mp.replacement.value != mp.deprecated ==> !Uses(r, mp.deprecated)
    ensures mp.replacement.None? ==> !Uses(r, mp.deprecated)
  {
    match mp.replacement
    case None => Manifest(true, DropAll(m.docs, mp.deprecated), false)
    case Some(successor) => m.(docs := Retarget(m.docs, mp.deprecated, successor))
  }

  /** The mapping loop: stop at a mapping whose version does not parse; skip
      one whose API the manifest does not use or that was removed after the
      cluster's version; apply the others in table order. */
  function ApplyAll(mappings: seq<Mapping>, kube: Version, m: Manifest, replaced: bool): (r: Result<(Manifest, bool)>)
    ensures r.Ok? && !r.value.1 ==> r.value.0 == m && !replaced
    ensures r.Ok? && replaced ==> r.value.1
    ensures r.Err? <==> exists k :: 0 <= k < |mappings| && ParseVersion(mappings[k].removedIn).None?
    decreases |mappings|
  {
    if |mappings| == 0 then Ok((m, replaced))
    else
      var mp := mappings[0];
      assert forall k :: 1 <= k < |mappings| ==> mappings[k] == mappings[1..][k - 1];
      match ParseVersion(mp.removedIn)
      case None => Err(MappingVersionError + ": " + HeaderText(mp.deprecated))
      case Some(removedIn) =>
        if !Uses(m, mp.deprecated) || !VersionLe(removedIn, kube) then ApplyAll(mappings[1..], kube, m, replaced)
        else ApplyAll(mappings[1..], kube, ApplyMapping(m, mp), true)
  }

  /** `ReplaceManifestData(mappings, manifest, kubernetesVersion)`. */
  function ReplaceManifestData(mappings: seq<Mapping>, m: Manifest, kubeVersion: string): (r: Replacement)
    ensures r.err.Some? ==> !r.replaced && r.manifest == ""
    ensures ParseVersion(kubeVersion).None? ==> r.err.Some? && HasPrefix(r.err.value, KubeVersionError)
    ensures r.err.None? && !r.replaced ==> r.manifest == Render(m)
  {
    match ParseVersion(kubeVersion)
    case None => Replacement(false, "", Some(KubeVersionError + " " + kubeVersion))
    case Some(kube) =>
      match ApplyAll(mappings, kube, m, false)
      case Err(e) => Replacement(false, "", Some(e))
      case Ok((result, replaced)) => Replacement(replaced, if replaced then Render(result) else Render(m), None)
  }

  // ----------------------------------------------------------- properties

  /** A table whose every version parses. */
  predicate WellFormed(mappings: seq<Mapping>) {
    forall k :: 0 <= k < |mappings| ==> ParseVersion(mappings[k].removedIn).Some?
  }

  /** Below every removal version, or with no deprecated API in use, the
      manifest comes back byte for byte with replaced=false. */
  lemma {:induction false} NothingDueIsUnchanged(mappings: seq<Mapping>, kube: Version, m: Manifest, replaced: bool)
    requires WellFormed(mappings)
    requires forall k :: 0 <= k < |mappings| ==>
               !Uses(m, mappings[k].deprecated) || !VersionLe(ParseVersion(mappings[k].removedIn).value, kube)
    ensures ApplyAll(mappings, kube, m, replaced) == Ok((m, replaced))
    decreases |mappings|
  {
    if |mappings| > 0 {
      assert forall k :: 1 <= k < |mappings| ==> mappings[k] == mappings[1..][k - 1];
      NothingDueIsUnchanged(mappings[1..], kube, m, replaced);
    }
  }

  /** A mapping table with a version that does not parse fails the call,
      whatever the manifest holds. */
  lemma BadMappingFails(mappings: seq<Mapping>, m: Manifest, kubeVersion: string)
    requires ParseVersion(kubeVersion).Some?
    requires !WellFormed(mappings)
    ensures var r := ReplaceManifestData(mappings, m, kubeVersion);
            r.err.Some? && HasPrefix(r.err.value, MappingVersionError) && !r.replaced && r.manifest == ""
  {
    var r := ApplyAll(mappings, ParseVersion(kubeVersion).value, m, false);
    assert r.Err?;
    MappingErrorText(mappings, ParseVersion(kubeVersion).value, m, false);
  }

  lemma {:induction false} MappingErrorText(mappings: seq<Mapping>, kube: Version, m: Manifest, replaced: bool)
    requires ApplyAll(mappings, kube, m, replaced).Err?
    ensures HasPrefix(ApplyAll(mappings, kube, m, replaced).error, MappingVersionError)
    decreases |mappings|
  {
    var mp := mappings[0];
    match ParseVersion(mp.removedIn)
    case None =>
    case Some(removedIn) =>
      if !Uses(m, mp.deprecated) || !VersionLe(removedIn, kube) {
        MappingErrorText(mappings[1..], kube, m, replaced);
      } else {
        MappingErrorText(mappings[1..], kube, ApplyMapping(m, mp), true);
      }
  }

  // ---------------------------------------------- the table the tests use

  const PodSecurityPolicyV1beta1 := Header("policy/v1beta1", "PodSecurityPolicy")
  const PodDisruptionBudgetV1beta1 := Header("policy/v1beta1", "PodDisruptionBudget")
  const CronJobV1beta1 := Header("batch/v1beta1", "CronJob")
  const HpaV2beta1 := Header("autoscaling/v2beta1", "HorizontalPodAutoscaler")

  /** The deprecated APIs of the table are four different ones. */
  lemma DeprecatedDistinct()
    ensures PodSecurityPolicyV1beta1 != PodDisruptionBudgetV1beta1
    ensures PodSecurityPolicyV1beta1 != CronJobV1beta1 && PodSecurityPolicyV1beta1 != HpaV2beta1
    ensures PodDisruptionBudgetV1beta1 != CronJobV1beta1 && PodDisruptionBudgetV1beta1 != HpaV2beta1
    ensures CronJobV1beta1 != HpaV2beta1
  {
    assert PodSecurityPolicyV1beta1.kind[3] != PodDisruptionBudgetV1beta1.kind[3];
    assert PodSecurityPolicyV1beta1.kind[0] != CronJobV1beta1.kind[0];
    assert PodSecurityPolicyV1beta1.kind[0] != HpaV2beta1.kind[0];
    assert PodDisruptionBudgetV1beta1.kind[0] != CronJobV1beta1.kind[0];
    assert PodDisruptionBudgetV1beta1.kind[0] != HpaV2beta1.kind[0];
    assert CronJobV1beta1.kind[0] != HpaV2beta1.kind[0];
  }

  /** The four rows the tests exercise, all removed in the same release
      (written "v1.25" in the tests, see `Version125`). */
  function TestedMappings(removedIn: string): (t: seq<Mapping>)
    ensures |t| == 4
    ensures forall k :: 0 <= k < 4 ==> t[k].removedIn == removedIn
  {
    [
      Mapping(PodSecurityPolicyV1beta1, None, removedIn),
      Mapping(PodDisruptionBudgetV1beta1, Some(Header("policy/v1", "PodDisruptionBudget")), removedIn),
      Mapping(CronJobV1beta1, Some(Header("batch/v1", "CronJob")), removedIn),
      Mapping(HpaV2beta1, Some(Header("autoscaling/v2", "HorizontalPodAutoscaler")), removedIn)
    ]
  }

  /** Below the removal release, nothing in the table is due: every manifest
      is returned as it came, PSP, PDB, CronJob and HPA documents included. */
  lemma BelowRemovalUnchanged(m: Manifest, removedIn: string, kubeVersion: string)
    requires ParseVersion(removedIn).Some? && ParseVersion(kubeVersion).Some?
    requires !VersionLe(ParseVersion(removedIn).value, ParseVersion(kubeVersion).value)
    ensures ReplaceManifestData(TestedMappings(removedIn), m, kubeVersion) == Replacement(false, Render(m), None)
  {
    NothingDueIsUnchanged(TestedMappings(removedIn), ParseVersion(kubeVersion).value, m, false);
  }

  /** In the tests' terms: at v1.24 nothing changes. */
  lemma At124Unchanged(m: Manifest, removedIn: string, kubeVersion: string)
    requires ParseVersion(removedIn) == Some(Version(1, 25, 0)) && ParseVersion(kubeVersion) == Some(Version(1, 24, 0))
    ensures ReplaceManifestData(TestedMappings(removedIn), m, kubeVersion) == Replacement(false, Render(m), None)
  {
    BelowRemovalUnchanged(m, removedIn, kubeVersion);
  }

  /** One step of the mapping loop over a row that is due. */
  lemma ApplyAllDue(mappings: seq<Mapping>, kube: Version, m: Manifest, replaced: bool)
    requires |mappings| > 0 && ParseVersion(mappings[0].removedIn).Some?
    requires Uses(m, mappings[0].deprecated) && VersionLe(ParseVersion(mappings[0].removedIn).value, kube)
    ensures ApplyAll(mappings, kube, m, replaced) == ApplyAll(mappings[1..], kube, ApplyMapping(m, mappings[0]), true)
  {
  }

  /** One step of the mapping loop over a row whose API is not in use. */
  lemma ApplyAllUnused(mappings: seq<Mapping>, kube: Version, m: Manifest, replaced: bool)
    requires |mappings| > 0 && ParseVersion(mappings[0].removedIn).Some?
    requires !Uses(m, mappings[0].deprecated)
    ensures ApplyAll(mappings, kube, m, replaced) == ApplyAll(mappings[1..], kube, m, replaced)
  {
  }

  /** From the removal release on, in a manifest using no other deprecated
      API, every PodSecurityPolicy document is dropped, wherever and however
      often it occurs, and the survivors are re-emitted in order, each as
      "---\n" + document, with no trailing newline. */
  lemma AtRemovalDropsPsps(m: Manifest, removedIn: string, kubeVersion: string)
    requires ParseVersion(removedIn).Some? && ParseVersion(kubeVersion).Some?
    requires VersionLe(ParseVersion(removedIn).value, ParseVersion(kubeVersion).value)
    requires Uses(m, PodSecurityPolicyV1beta1)
    requires !Uses(m, PodDisruptionBudgetV1beta1) && !Uses(m, CronJobV1beta1) && !Uses(m, HpaV2beta1)
    requires exists k :: 0 <= k < |m.docs| && m.docs[k].header != PodSecurityPolicyV1beta1
    ensures var r := ReplaceManifestData(TestedMappings(removedIn), m, kubeVersion);
            && r.err.None? && r.replaced
            && r.manifest == Reemitted(DropAll(m.docs, PodSecurityPolicyV1beta1))
  {
    DeprecatedDistinct();
    var table := TestedMappings(removedIn);
    var kube := ParseVersion(kubeVersion).value;
    var dropped := Manifest(true, DropAll(m.docs, PodSecurityPolicyV1beta1), false);
    assert ApplyMapping(m, table[0]) == dropped;
    ApplyAllDue(table, kube, m, false);
    NotUsedAfterDrop(m, PodSecurityPolicyV1beta1, PodDisruptionBudgetV1beta1);
    NotUsedAfterDrop(m, PodSecurityPolicyV1beta1, CronJobV1beta1);
    NotUsedAfterDrop(m, PodSecurityPolicyV1beta1, HpaV2beta1);
    NothingDueIsUnchanged(table[1..], kube, dropped, true);
    var k :| 0 <= k < |m.docs| && m.docs[k].header != PodSecurityPolicyV1beta1;
    assert m.docs[k] in DropAll(m.docs, PodSecurityPolicyV1beta1);
    RenderReemitted(DropAll(m.docs, PodSecurityPolicyV1beta1));
  }

  lemma NotUsedAfterDrop(m: Manifest, dropped: Header, h: Header)
    requires !Uses(m, h)
    ensures !Uses(Manifest(true, DropAll(m.docs, dropped), false), h)
  {
  }

  /** From the removal release on, a PodDisruptionBudget on policy/v1beta1
      is moved to policy/v1 in place: same documents, same bodies, same
      framing, replaced=true. */
  lemma AtRemovalRewritesPdbs(m: Manifest, removedIn: string, kubeVersion: string)
    requires ParseVersion(removedIn).Some? && ParseVersion(kubeVersion).Some?
    requires VersionLe(ParseVersion(removedIn).value, ParseVersion(kubeVersion).value)
    requires Uses(m, PodDisruptionBudgetV1beta1)
    requires !Uses(m, PodSecurityPolicyV1beta1) && !Uses(m, CronJobV1beta1) && !Uses(m, HpaV2beta1)
    ensures var r := ReplaceManifestData(TestedMappings(removedIn), m, kubeVersion);
            && r.err.None? && r.replaced
            && r.manifest == Render(m.(docs := Retarget(m.docs, PodDisruptionBudgetV1beta1, Header("policy/v1", "PodDisruptionBudget"))))
  {
    DeprecatedDistinct();
    var table := TestedMappings(removedIn);
    var kube := ParseVersion(kubeVersion).value;
    var rewritten := ApplyMapping(m, table[1]);
    ApplyAllUnused(table, kube, m, false);
    ApplyAllDue(table[1..], kube, m, false);
    assert !Uses(rewritten, CronJobV1beta1) && !Uses(rewritten, HpaV2beta1);
    assert table[1..][1..] == table[2..];
    NothingDueIsUnchanged(table[2..], kube, rewritten, true);
  }

  /** A Kubernetes version without a dot, such as "invalid-kube-version",
      is reported as malformed. */
  lemma InvalidKubeVersion(mappings: seq<Mapping>, m: Manifest, kubeVersion: string)
    requires '.' !in kubeVersion
    ensures var r := ReplaceManifestData(mappings, m, kubeVersion);
            r.err.Some? && HasPrefix(r.err.value, KubeVersionError) && r.manifest == "" && !r.replaced
  {
  }

  /** A table row whose version has no dot, such as "some-invalid-version",
      fails the call with an empty manifest. */
  lemma InvalidMappingVersion(m: Manifest, removedIn: string, kubeVersion: string)
    requires '.' !in removedIn
    requires ParseVersion(kubeVersion).Some?
    ensures var r := ReplaceManifestData([Mapping(PodSecurityPolicyV1beta1, None, removedIn)], m, kubeVersion);
            r.err.Some? && HasPrefix(r.err.value, MappingVersionError) && r.manifest == "" && !r.replaced
  {
    assert [Mapping(PodSecurityPolicyV1beta1, None, removedIn)][0].removedIn == removedIn;
    BadMappingFails([Mapping(PodSecurityPolicyV1beta1, None, removedIn)], m, kubeVersion);
  }

  /** The malformed strings of the tests have no dot. */
  lemma TestInvalidVersionStrings()
    ensures '.' !in "invalid-kube-version"
    ensures '.' !in "some-invalid-version"
  {
  }
}
