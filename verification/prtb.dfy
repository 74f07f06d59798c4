/** The provisioning-side PRTB handler
    (pkg/controllers/management/authprovisioningv2/prtb.go): a project member
    gets a RoleBinding to the "view" Role of the provisioning cluster that
    hosts the project. Cluster lookup, subject construction, the apply call
    and wrangler's name shortening are oracles. */
module PrtbHandler {
  import opened Wrappers
  import opened Text
  import opened AuthzTypes

  type Prtb = ProjectRoleTemplateBinding

  const RbacGroup := "rbac.authorization.k8s.io"
  const PrtbRoleBindingId := "auth-prov-v2-prtb-rolebinding"
  const RequeueSeconds: nat := 10

  /** A provisioning cluster object. */
  datatype ProvCluster = ProvCluster(name: string, namespace: string, apiVersion: string, kind: string, uid: string)

  datatype OwnerReference = OwnerReference(apiVersion: string, kind: string, name: string, uid: string)
  datatype RoleRef = RoleRef(apiGroup: string, kind: string, name: string)
  datatype RoleBinding = RoleBinding(
    name: string,
    namespace: string,
    ownerReferences: seq<OwnerReference>,
    roleRef: RoleRef,
    subjects: seq<Subject>)

  datatype Env = Env(
    safeConcatName: seq<string> -> string,
    clustersByName: string -> Result<seq<ProvCluster>>,
    buildSubject: Prtb -> Result<Subject>,
    apply: RoleBinding -> Option<string>)

  /** What the handler asked for besides its return value. */
  datatype Effect =
    | NoEffect
    | EnqueueAfter(namespace: string, name: string, seconds: nat)
    | Apply(rb: RoleBinding, setId: string)

  datatype Outcome = Outcome(returned: Option<Prtb>, err: Option<string>, effect: Effect)

  /** "r-cluster-<name>-view", shortened by the name oracle. */
  function ClusterViewName(env: Env, cluster: ProvCluster): (n: string)
    ensures n == env.safeConcatName(["r-cluster", cluster.name, "view"])
  {
    env.safeConcatName(["r-cluster", cluster.name, "view"])
  }

  /** The RoleBinding granting the PRTB's subject the cluster view Role. */
  function ClusterViewBinding(env: Env, cluster: ProvCluster, prtb: Prtb, subject: Subject): (rb: RoleBinding)
    ensures rb.name == env.safeConcatName([ClusterViewName(env, cluster), prtb.meta.name])
    ensures rb.namespace == cluster.namespace
    ensures rb.roleRef == RoleRef(RbacGroup, "Role", ClusterViewName(env, cluster))
    ensures rb.subjects == [subject]
    ensures rb.ownerReferences == [OwnerReference(cluster.apiVersion, cluster.kind, cluster.name, cluster.uid)]
  {
    RoleBinding(
      env.safeConcatName([ClusterViewName(env, cluster), prtb.meta.name]),
      cluster.namespace,
      [OwnerReference(cluster.apiVersion, cluster.kind, cluster.name, cluster.uid)],
      RoleRef(RbacGroup, "Role", ClusterViewName(env, cluster)),
      [subject])
  }

  /** `ensureClusterViewBinding`: build the subject, then apply the binding. */
  function EnsureClusterViewBinding(env: Env, cluster: ProvCluster, prtb: Prtb): (r: (Option<string>, Effect))
    ensures env.buildSubject(prtb).Err? ==> r == (Some(env.buildSubject(prtb).error), NoEffect)
    ensures env.buildSubject(prtb).Ok? ==>
              var rb := ClusterViewBinding(env, cluster, prtb, env.buildSubject(prtb).value);
              r == (env.apply(rb), Apply(rb, PrtbRoleBindingId))
  {
    match env.buildSubject(prtb)
    case Err(e) => (Some(e), NoEffect)
    case Ok(subject) =>
      var rb := ClusterViewBinding(env, cluster, prtb, subject);
      (env.apply(rb), Apply(rb, PrtbRoleBindingId))
  }

  /** A PRTB the handler leaves alone. */
  predicate Ignored(prtb: Option<Prtb>): (r: bool)
    ensures prtb.None? ==> r
    ensures prtb.Some? && (prtb.value.meta.deleting || prtb.value.roleTemplateName == "") ==> r
    ensures !r ==> prtb.Some? && |prtb.value.projectName| > 0 && |prtb.value.roleTemplateName| > 0
  {
    prtb.None? || prtb.value.meta.deleting || prtb.value.roleTemplateName == "" || prtb.value.projectName == ""
  }

  /** `OnPRTB`. The PRTB itself is always returned unchanged. */
  function OnPrtb(env: Env, prtb: Option<Prtb>): (o: Outcome)
    ensures o.returned == prtb
    ensures Ignored(prtb) ==> o == Outcome(prtb, None, NoEffect)
    ensures !Ignored(prtb) && ':' !in prtb.value.projectName ==>
              o == Outcome(prtb, Some("cannot determine project and cluster from " + prtb.value.projectName), NoEffect)
    // whenever a binding is applied, it is the view binding of the first
    // cluster found, holding exactly the PRTB's subject
    ensures o.effect.Apply? ==>
              var p := prtb.value;
              var parts := SplitFirst(p.projectName, ':');
              && |parts| == 2
              && env.clustersByName(parts[0]).Ok?
              && |env.clustersByName(parts[0]).value| > 0
              && env.buildSubject(p).Ok?
              && var c := env.clustersByName(parts[0]).value[0];
                 && o.effect.rb == ClusterViewBinding(env, c, p, env.buildSubject(p).value)
                 && o.err == env.apply(o.effect.rb)
    ensures o.effect.EnqueueAfter? ==>
              o.err.None? && o.effect == EnqueueAfter(prtb.value.meta.namespace, prtb.value.meta.name, RequeueSeconds)
  {
    if Ignored(prtb) then Outcome(prtb, None, NoEffect)
    else
      var p := prtb.value;
      var parts := SplitFirst(p.projectName, ':');
      if |parts| < 2 then Outcome(prtb, Some("cannot determine project and cluster from " + p.projectName), NoEffect)
      else
        var clusterName := parts[0];
        match env.clustersByName(clusterName)
        case Err(e) => Outcome(prtb, Some(e), NoEffect)
        case Ok(clusters) =>
          if |clusters| == 0 then Outcome(prtb, None, EnqueueAfter(p.meta.namespace, p.meta.name, RequeueSeconds))
          else
            var (err, effect) := EnsureClusterViewBinding(env, clusters[0], p);
            Outcome(prtb, err, effect)
  }

  /** The cluster the handler looks up is the cluster part of the project
      name, the same one the PRTB's own ObjClusterName reports. */
  lemma OnPrtbLooksUpObjCluster(env: Env, p: Prtb, cluster: string, project: string)
    requires !Ignored(Some(p))
    requires ':' !in cluster && p.projectName == cluster + ":" + project
    ensures PrtbClusterName(p) == cluster
    ensures env.clustersByName(cluster) == Ok([]) ==>
              OnPrtb(env, Some(p)) == Outcome(Some(p), None, EnqueueAfter(p.meta.namespace, p.meta.name, 10))
    ensures forall c: ProvCluster, s: Subject | env.clustersByName(cluster) == Ok([c]) && env.buildSubject(p) == Ok(s) ::
              OnPrtb(env, Some(p)).effect == Apply(ClusterViewBinding(env, c, p, s), PrtbRoleBindingId)
  {
    PrtbClusterNameOfJoined(p, cluster, project);
    SplitFirstJoined(cluster, ':', project);
  }
}
