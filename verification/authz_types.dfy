/** The management API types whose methods say which cluster an object
    belongs to (pkg/apis/management.cattle.io/v3/authz_types.go), and the
    status a cluster binding carries. */
module AuthzTypes {
  import opened Wrappers
  import opened Text
  import opened StatusConditions

  /** The part of Kubernetes object metadata the modelled code reads. */
  datatype ObjectMeta = ObjectMeta(
    name: string,
    namespace: string,
    uid: string,
    generation: int,
    labels: map<string, string>,
    annotations: map<string, string>,
    deleting: bool)

  /** An RBAC subject: a user, a group or a service account. */
  datatype Subject = Subject(kind: string, name: string)

  /** `labels[key]` as Go reads it: the empty string when absent. */
  function Label(m: map<string, string>, key: string): string {
    if key in m then m[key] else ""
  }

  datatype ProjectSpec = ProjectSpec(displayName: string, clusterName: string)

  datatype Project = Project(name: string, spec: ProjectSpec)

  /** A binding of a subject to a role template inside one project; the
      project is named "<cluster>:<project>". */
  datatype ProjectRoleTemplateBinding = ProjectRoleTemplateBinding(
    meta: ObjectMeta,
    userName: string,
    userPrincipalName: string,
    groupName: string,
    groupPrincipalName: string,
    projectName: string,
    roleTemplateName: string,
    serviceAccount: string)

  /** A project spec names its cluster directly. */
  function ProjectSpecClusterName(spec: ProjectSpec): (r: string)
    ensures r == spec.clusterName
  {
    spec.clusterName
  }

  /** A project belongs to the cluster its spec names. */
  function ProjectClusterName(p: Project): (r: string)
    ensures r == p.spec.clusterName
  {
    ProjectSpecClusterName(p.spec)
  }

  /** The cluster part of a PRTB's "<cluster>:<project>" name, or "" when the
      name holds no ':'. */
  function PrtbClusterName(b: ProjectRoleTemplateBinding): (r: string)
    ensures ':' !in r
    ensures ':' in b.projectName ==> exists rest :: b.projectName == r + ":" + rest
    ensures ':' !in b.projectName ==> r == ""
  {
    var parts := SplitFirst(b.projectName, ':');
    if |parts| == 2 then
      assert b.projectName == parts[0] + ":" + parts[1];
      parts[0]
    else ""
  }

  /** For every cluster name without ':' and any project id, the cluster part
      is recovered from the joined name. */
  lemma PrtbClusterNameOfJoined(b: ProjectRoleTemplateBinding, cluster: string, project: string)
    requires ':' !in cluster
    requires b.projectName == cluster + ":" + project
    ensures PrtbClusterName(b) == cluster
  {
    SplitFirstJoined(cluster, ':', project);
  }

  /** A PRTB in project `p`, named the usual way "<cluster>:<project>",
      reports the same cluster as the project itself. */
  lemma PrtbAndProjectAgree(b: ProjectRoleTemplateBinding, p: Project)
    requires ':' !in ProjectClusterName(p)
    requires b.projectName == ProjectClusterName(p) + ":" + p.name
    ensures PrtbClusterName(b) == ProjectClusterName(p)
  {
    PrtbClusterNameOfJoined(b, ProjectClusterName(p), p.name);
  }

  /** A binding of a subject to a role template in a whole cluster, with the
      status its lifecycle controller maintains. */
  datatype ClusterRoleTemplateBinding = ClusterRoleTemplateBinding(
    meta: ObjectMeta,
    userName: string,
    userPrincipalName: string,
    groupName: string,
    groupPrincipalName: string,
    clusterName: string,
    roleTemplateName: string,
    status: BindingStatus)

  /** A CRTB names its cluster directly. */
  function CrtbClusterName(b: ClusterRoleTemplateBinding): (r: string)
    ensures r == b.clusterName
  {
    b.clusterName
  }

  /** What a role template applies to: projects, clusters, or (the empty
      string) neither in particular. */
  datatype RoleTemplateContext = ProjectContext | ClusterContext | NoContext

  /** The string a context is stored as. */
  function ContextName(c: RoleTemplateContext): (s: string)
    ensures s == "" <==> c == NoContext
  {
    match c
    case ProjectContext => "project"
    case ClusterContext => "cluster"
    case NoContext => ""
  }

  /** The context a stored string names; any other string is rejected. */
  function ParseContext(s: string): (r: Option<RoleTemplateContext>)
    ensures r.Some? ==> ContextName(r.value) == s
  {
    if s == "project" then Some(ProjectContext)
    else if s == "cluster" then Some(ClusterContext)
    else if s == "" then Some(NoContext)
    else None
  }

  /** A role template's context is valid exactly when it parses. */
  predicate ValidContext(s: string): (r: bool)
    ensures r <==> exists c :: ContextName(c) == s
  {
    ParseContext(s).Some?
  }

  /** The only valid contexts are "project", "cluster" and "". */
  lemma ValidContextValues(s: string)
    ensures ValidContext(s) <==> s in {"project", "cluster", ""}
  {
  }

  /** Every context survives being stored and read back. */
  lemma ContextRoundTrip(c: RoleTemplateContext)
    ensures ParseContext(ContextName(c)) == Some(c)
  {
  }
}
