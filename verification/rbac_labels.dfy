/** The pod-security-admission key helpers of the RBAC validation suite
    (tests/v2/validation/rbac/rbac.go): picking the expected PSA labels out of
    a namespace, and stripping them from a key map. */
module RbacLabels {
  import opened Text

  const PsaWarn := "pod-security.kubernetes.io/warn"
  const PsaAudit := "pod-security.kubernetes.io/audit"
  const PsaEnforce := "pod-security.kubernetes.io/enforce"

  type Labels = map<string, string>

  /** `getPSALabels`: the labels named in the response that the namespace
      actually has, with the namespace's values. */
  function GetPsaLabels(responseLabels: Labels, actualLabels: Labels): (expected: Labels)
    ensures expected.Keys == responseLabels.Keys * actualLabels.Keys
    ensures forall key :: key in expected ==> expected[key] == actualLabels[key]
  {
    map key | key in responseLabels && key in actualLabels :: actualLabels[key]
  }

  /** Picking is a projection: the result agrees with the namespace's labels,
      asking again changes nothing, and asking for all of them gives them all. */
  lemma GetPsaLabelsProjection(responseLabels: Labels, actualLabels: Labels)
    ensures var e := GetPsaLabels(responseLabels, actualLabels);
            && e.Keys <= actualLabels.Keys
            && GetPsaLabels(responseLabels, e) == e
            && GetPsaLabels(actualLabels, actualLabels) == actualLabels
  {
  }

  /** A key `deleteLabels` removes: one containing any of the three PSA keys. */
  predicate IsPsaLabel(key: string) {
    Contains(key, PsaWarn) || Contains(key, PsaAudit) || Contains(key, PsaEnforce)
  }

  /** `deleteLabels`, as a function returning the map it leaves. */
  function DeleteLabels(labels: Labels): (r: Labels)
    ensures forall key :: key in r <==> key in labels && !IsPsaLabel(key)
    ensures forall key :: key in r ==> r[key] == labels[key]
  {
    map key | key in labels && !IsPsaLabel(key) :: labels[key]
  }

  /** A key contains itself. */
  lemma ContainsSelf(s: string)
    ensures Contains(s, s)
  {
    assert OccursAt(s, s, 0);
  }

  /** A key contains any of its prefixes. */
  lemma ContainsPrefix(s: string, p: string)
    requires HasPrefix(s, p)
    ensures Contains(s, p)
  {
    assert OccursAt(s, p, 0);
  }

  /** The three PSA mode labels and their "-version" companions go; deleting
      twice is deleting once; a map without PSA keys is left as it is. */
  lemma DeleteLabelsRemovesModes(labels: Labels)
    ensures PsaWarn !in DeleteLabels(labels) && PsaAudit !in DeleteLabels(labels) && PsaEnforce !in DeleteLabels(labels)
    ensures PsaEnforce + "-version" !in DeleteLabels(labels)
    ensures DeleteLabels(DeleteLabels(labels)) == DeleteLabels(labels)
    ensures (forall key :: key in labels ==> !IsPsaLabel(key)) ==> DeleteLabels(labels) == labels
  {
    ContainsSelf(PsaWarn);
    ContainsSelf(PsaAudit);
    ContainsSelf(PsaEnforce);
    ContainsPrefix(PsaEnforce + "-version", PsaEnforce);
  }
}
