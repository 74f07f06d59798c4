/** The ClusterRoleTemplateBinding lifecycle
    (pkg/controllers/management/auth/crtb_handler.go): the skip guard, subject
    resolution, binding materialisation, legacy-label migration, the delete
    path, and the status summary computed from the per-step conditions.

    Every call into the API server, the user manager or the role-graph
    manager is an oracle field of `Env`. UpdateStatus is modelled as a write
    that either fails or stores exactly the object sent, so copying the
    returned object back over the binding changes nothing. */
module CrtbHandler {
  import opened Wrappers
  import opened Text
  import opened StatusConditions
  import opened AuthzTypes

  type Crtb = ClusterRoleTemplateBinding

  /** Condition types and reasons written by this controller. */
  const SubjectExists := "SubjectExists"
  const FailedToGetSubject := "FailedToGetSubject"
  const LocalBindingsExist := "LocalBindingsExist"
  const FailedToGetCluster := "FailedToGetCluster"
  const BadRoleReferences := "BadRoleReferences"
  const FailedToBuildSubject := "FailedToBuildSubject"
  const FailedToEnsureClusterMembership := "FailedToEnsureClusterMembership"
  const FailedToGrantManagementPlanePrivileges := "FailedToGrantManagementPlanePrivileges"
  const FailedToGetNamespace := "FailedToGetNamespace"
  const FailedToGrantManagementClusterPrivileges := "FailedToGrantManagementClusterPrivileges"
  const LocalLabelsSet := "LocalLabelsSet"
  const LocalFailedToGetLabelRequirements := "LocalFailedToGetLabelRequirements"
  const LocalFailedToGetClusterRoleBindings := "LocalFailedToGetClusterRoleBindings"
  const LocalFailedToUpdateClusterRoleBindings := "LocalFailedToUpdateClusterRoleBindings"
  const FailedToGetRoleBindings := "FailedToGetRoleBindings"
  const FailedToUpdateRoleBindings := "FailedToUpdateRoleBindings"
  const LocalFailedToUpdateCRTBLabels := "LocalFailedToUpdateCRTBLabels"
  const ClusterMembershipBindingForDeleteOk := "ClusterMembershipBindingForDeleteOk"
  const FailedClusterMembershipBindingForDelete := "FailedClusterMembershipBindingForDelete"
  const LocalCRTBDeleteOk := "LocalCRTBDeleteOk"
  const FailedRemovalOfMGMTClusterScopedPrivilegesInProjectNamespace :=
    "FailedRemovalOfMGMTClusterScopedPrivilegesInProjectNamespace"
  const AuthV2PermissionsOk := "AuthV2PermissionsOk"
  const FailedRemovalOfAuthV2Permissions := "FailedRemovalOfAuthV2Permissions"

  /** Label marking a binding whose legacy CRB/RB labels were migrated. */
  const RtbCrbRbLabelsUpdated := "auth.management.cattle.io/crb-rb-labels-updated"
  const PrincipalDisplayNameAnnotation := "auth.cattle.io/principal-display-name"

  /** A project as listed in the binding's cluster namespace. */
  datatype ProjectRef = ProjectRef(name: string, deleting: bool)

  /** The side effects the lifecycle issues, in order. */
  datatype Call =
    | WriteStatus(status: BindingStatus)
    | EnsureUser(principal: string)
    | EnsureMembership(roleName: string, isOwner: bool, subject: Subject)
    | GrantManagementPlane(subject: Subject)
    | GrantInProject(project: string, subject: Subject)
    | UpdateCrbLabels(crb: string)
    | UpdateRbLabels(namespace: string, rb: string)
    | MarkLabelsUpdated
    | DeleteMembership
    | DeleteProjectRb(namespace: string, rb: string)
    | RemoveAuthV2

  /** What the outside world answers. Each field stands for one lookup or
      write; for the retried writes it is the final outcome of the retry. */
  datatype Env = Env(
    sets: ConditionSets,
    statusWrite: Crtb -> Option<string>,
    ensureUser: (string, string) -> Result<string>,
    userPrincipalIds: string -> Result<seq<string>>,
    clusterExists: string -> Result<bool>,
    isOwnerRole: string -> Result<bool>,
    buildSubject: Crtb -> Result<Subject>,
    ensureMembership: (string, bool, Subject) -> Option<string>,
    grantManagementPlane: Subject -> Option<string>,
    listProjects: string -> Result<seq<ProjectRef>>,
    grantInProject: (string, Subject) -> Option<string>,
    labelRequirements: Crtb -> Option<string>,
    legacyCrbs: Crtb -> Result<seq<string>>,
    updateCrb: string -> Option<string>,
    legacyRbs: Crtb -> Result<seq<(string, string)>>,
    updateRb: (string, string) -> Option<string>,
    markLabelsUpdated: Crtb -> Option<string>,
    deleteMembership: Crtb -> Option<string>,
    projectRbs: (string, Crtb) -> Result<seq<string>>,
    deleteRb: (string, string) -> Option<string>,
    removeAuthV2: Crtb -> Option<string>)

  /** One step's effect: the binding as mutated, the error it returns, and
      the calls it made. */
  datatype Step = Step(b: Crtb, err: Option<string>, calls: seq<Call>)

  /** A handler's result: the mutated binding, the object it returns (None
      for Go's nil), its error and its calls. */
  datatype Outcome = Outcome(b: Crtb, returned: Option<Crtb>, err: Option<string>, calls: seq<Call>)

  // ---------------------------------------------------------------------
  // Conditions and summary

  function Conditions(b: Crtb): seq<Condition> {
    b.status.conditions
  }

  /** `after` has exactly one more condition than `before`, at the end. */
  predicate AddsOne(before: Crtb, after: Crtb) {
    |Conditions(after)| == |Conditions(before)| + 1 &&
    Conditions(after)[..|Conditions(before)|] == Conditions(before)
  }

  /** The condition one step records: True with "<name> created" on success,
      False with "<name> not created: <err>" on failure. */
  function MakeCondition(ctype: string, reason: string, name: string, err: Option<string>): (c: Condition)
    ensures c.ctype == ctype && c.reason == reason
    ensures c.status <==> err.None?
    ensures err.None? ==> c.message == name + " created"
    ensures err.Some? ==> c.message == name + " not created: " + err.value
  {
    match err
    case None => Condition(ctype, true, reason, name + " created")
    case Some(e) => Condition(ctype, false, reason, name + " not created: " + e)
  }

  /** `addCondition`: append exactly one condition and change nothing else. */
  function AddCondition(b: Crtb, ctype: string, reason: string, name: string, err: Option<string>): (r: Crtb)
    ensures Conditions(r) == Conditions(b) + [MakeCondition(ctype, reason, name, err)]
    ensures r == b.(status := b.status.(conditions := Conditions(r)))
  {
    b.(status := b.status.(conditions := b.status.conditions + [MakeCondition(ctype, reason, name, err)]))
  }

  /** The guard of Create and Updated: the last reconcile of this generation
      has finished, or every local step already reports success. */
  predicate NothingToDo(sets: ConditionSets, b: Crtb): (r: bool)
    ensures HasAllOf(b.status.conditions, sets.localSuccesses) ==> r
    ensures b.status.summary == InProgress && !HasAllOf(b.status.conditions, sets.localSuccesses) ==> !r
    ensures b.status.observedGeneration != b.meta.generation && !HasAllOf(b.status.conditions, sets.localSuccesses) ==> !r
  {
    (b.status.observedGeneration == b.meta.generation && b.status.summary != InProgress)
    || HasAllOf(b.status.conditions, sets.localSuccesses)
  }

  /** `setCRTBAsInProgress`: drop the locally managed conditions, keep the
      remote ones, mark the summary InProgress and write the status. */
  function SetInProgress(env: Env, b: Crtb): (s: Step)
    ensures Conditions(s.b) == RemoveConditions(Conditions(b), env.sets.localTypes)
    ensures s.b.status.summary == InProgress
    ensures s.b == b.(status := s.b.status)
    ensures s.b.status.observedGeneration == b.status.observedGeneration
    ensures s.err == env.statusWrite(s.b) && s.calls == [WriteStatus(s.b.status)]
  {
    var st := b.status.(conditions := RemoveConditions(b.status.conditions, env.sets.localTypes),
                        summary := InProgress);
    var b' := b.(status := st);
    Step(b', env.statusWrite(b'), [WriteStatus(st)])
  }

  /** The summary `setCRTBAsCompleted` settles on. */
  function CompletedSummary(sets: ConditionSets, st: BindingStatus): (r: Summary)
    ensures r != st.summary ==> r in {Error, Completed}
    ensures r == Completed && st.summary != Completed ==> AllTrue(st.conditions) && HasAllOf(st.conditions, sets.successes)
    ensures !AllTrue(st.conditions) ==> r == Error
    ensures AllTrue(st.conditions) && HasAllOf(st.conditions, sets.successes) ==> r == Completed
    ensures AllTrue(st.conditions) && !HasAllOf(st.conditions, sets.successes) ==> r == st.summary
  {
    if !AllTrue(st.conditions) then Error
    else if HasAllOf(st.conditions, sets.successes) then Completed
    else st.summary
  }

  /** `setCRTBAsCompleted`: settle the summary, record the observed
      generation and write the status. The conditions are kept. */
  function SetCompleted(env: Env, b: Crtb): (s: Step)
    ensures s.b.status.summary == CompletedSummary(env.sets, b.status)
    ensures s.b.status.observedGeneration == b.meta.generation
    ensures Conditions(s.b) == Conditions(b)
    ensures s.b == b.(status := s.b.status)
    ensures s.err == env.statusWrite(s.b) && s.calls == [WriteStatus(s.b.status)]
  {
    var st := b.status.(summary := CompletedSummary(env.sets, b.status),
                        observedGeneration := b.meta.generation);
    var b' := b.(status := st);
    Step(b', env.statusWrite(b'), [WriteStatus(st)])
  }

  /** `setCRTBAsTerminating`: clear every condition and mark the summary. */
  function SetTerminating(env: Env, b: Crtb): (s: Step)
    ensures Conditions(s.b) == [] && s.b.status.summary == Terminating
    ensures s.b == b.(status := s.b.status)
    ensures s.err == env.statusWrite(s.b) && s.calls == [WriteStatus(s.b.status)]
  {
    var st := b.status.(conditions := [], summary := Terminating);
    var b' := b.(status := st);
    Step(b', env.statusWrite(b'), [WriteStatus(st)])
  }

  // ---------------------------------------------------------------------
  // Subject resolution

  /** The first principal id ending in `userName`, if any. */
  function FirstWithSuffix(ids: seq<string>, userName: string): (r: Option<nat>)
    ensures r.Some? ==> r.value < |ids| && HasSuffix(ids[r.value], userName)
    ensures r.Some? ==> forall k | 0 <= k < r.value :: !HasSuffix(ids[k], userName)
    ensures r.None? ==> forall k | 0 <= k < |ids| :: !HasSuffix(ids[k], userName)
  {
    if |ids| == 0 then None
    else if HasSuffix(ids[0], userName) then Some(0)
    else
      match FirstWithSuffix(ids[1..], userName)
      case None => None
      case Some(i) => Some(i + 1)
  }

  predicate HasGroup(b: Crtb) {
    b.groupName != "" || b.groupPrincipalName != ""
  }

  /** `reconcileSubject`: decide who the binding is for, and record one
      SubjectExists-typed condition. */
  function ReconcileSubject(env: Env, b: Crtb): (s: Step)
    ensures AddsOne(b, s.b)
    ensures Conditions(s.b)[|Conditions(b)|].ctype == SubjectExists
    ensures Conditions(s.b)[|Conditions(b)|].status <==> s.err.None?
    ensures s.b.meta == b.meta && s.b.clusterName == b.clusterName
    ensures s.b.status == b.status.(conditions := Conditions(s.b))
  {
    if HasGroup(b) || (b.userPrincipalName != "" && b.userName != "") then
      Step(AddCondition(b, SubjectExists, SubjectExists, b.userName, None), None, [])
    else if b.userPrincipalName != "" && b.userName == "" then
      var displayName := Label(b.meta.annotations, PrincipalDisplayNameAnnotation);
      match env.ensureUser(b.userPrincipalName, displayName)
      case Err(e) =>
        Step(AddCondition(b, SubjectExists, FailedToGetSubject, b.userPrincipalName, Some(e)),
             Some(e), [EnsureUser(b.userPrincipalName)])
      case Ok(user) =>
        var b' := b.(userName := user);
        Step(AddCondition(b', SubjectExists, SubjectExists, user, None), None, [EnsureUser(b.userPrincipalName)])
    else if b.userPrincipalName == "" && b.userName != "" then
      match env.userPrincipalIds(b.userName)
      case Err(e) =>
        Step(AddCondition(b, SubjectExists, FailedToGetSubject, b.userName, Some(e)), Some(e), [])
      case Ok(ids) =>
        var b' := match FirstWithSuffix(ids, b.userName)
                  case None => b
                  case Some(i) => b.(userPrincipalName := ids[i]);
        Step(AddCondition(b', SubjectExists, SubjectExists, b'.userPrincipalName, None), None, [])
    else
      var e := "ClusterRoleTemplateBinding " + b.meta.name + " has no subject";
      Step(AddCondition(b, SubjectExists, FailedToGetSubject, b.meta.name, Some(e)), Some(e), [])
  }

  /** A binding that already names a group, or both a user and a user
      principal, is left as it is and SubjectExists is recorded. */
  lemma ReconcileSubjectKnown(env: Env, b: Crtb)
    requires HasGroup(b) || (b.userPrincipalName != "" && b.userName != "")
    ensures var s := ReconcileSubject(env, b);
            s.err == None && s.calls == [] &&
            s.b == AddCondition(b, SubjectExists, SubjectExists, b.userName, None)
  {
  }

  /** A binding with no user or group field fails with FailedToGetSubject. */
  lemma ReconcileSubjectMissing(env: Env, b: Crtb)
    requires b.userName == "" && b.userPrincipalName == "" && !HasGroup(b)
    ensures var s := ReconcileSubject(env, b);
            && s.err == Some("ClusterRoleTemplateBinding " + b.meta.name + " has no subject")
            && s.b == AddCondition(b, SubjectExists, FailedToGetSubject, b.meta.name, s.err)
            && s.calls == []
  {
  }

  /** A binding with only a user name takes the first of that user's
      principal ids that ends in the user name, or stays without a principal
      when none does. Nothing but the principal field and the conditions
      changes. */
  lemma ReconcileSubjectByUserName(env: Env, b: Crtb, ids: seq<string>)
    requires !HasGroup(b) && b.userPrincipalName == "" && b.userName != ""
    requires env.userPrincipalIds(b.userName) == Ok(ids)
    ensures var s := ReconcileSubject(env, b);
            && s.err == None
            && s.b.(userPrincipalName := "", status := b.status) == b
            && (s.b.userPrincipalName == "" || s.b.userPrincipalName in ids)
            && (s.b.userPrincipalName != "" ==> HasSuffix(s.b.userPrincipalName, b.userName))
            && (forall k | 0 <= k < |ids| && HasSuffix(ids[k], b.userName) ::
                  s.b.userPrincipalName != "" &&
                  exists j | 0 <= j <= k :: ids[j] == s.b.userPrincipalName)
  {
    var s := ReconcileSubject(env, b);
    match FirstWithSuffix(ids, b.userName)
    case None =>
    case Some(i) =>
      assert s.b.userPrincipalName == ids[i];
      forall k | 0 <= k < |ids| && HasSuffix(ids[k], b.userName)
        ensures exists j | 0 <= j <= k :: ids[j] == s.b.userPrincipalName
      {
        assert i <= k;
      }
  }

  /** A binding with only a user principal gets the name of the user the
      user manager ensures for that principal. */
  lemma ReconcileSubjectByPrincipal(env: Env, b: Crtb, user: string)
    requires !HasGroup(b) && b.userPrincipalName != "" && b.userName == ""
    requires env.ensureUser(b.userPrincipalName, Label(b.meta.annotations, PrincipalDisplayNameAnnotation)) == Ok(user)
    ensures var s := ReconcileSubject(env, b);
            s.err == None && s.b.userName == user && s.calls == [EnsureUser(b.userPrincipalName)]
  {
  }

  // ---------------------------------------------------------------------
  // Binding materialisation

  /** The cluster role a member of the cluster is bound to. */
  function MembershipRoleName(clusterName: string, isOwner: bool): (r: string)
    ensures isOwner ==> r == ToLower(clusterName) + "-clusterowner"
    ensures !isOwner ==> r == ToLower(clusterName) + "-clustermember"
    ensures IsLower(r)
  {
    var suffix := if isOwner then "-clusterowner" else "-clustermember";
    var r := ToLower(clusterName + suffix);
    assert r == ToLower(clusterName) + suffix;
    ToLowerIsLower(clusterName + suffix);
    r
  }

  /** Owner and member roles of one cluster never share a name. */
  lemma MembershipRoleNamesDiffer(clusterName: string)
    ensures MembershipRoleName(clusterName, true) != MembershipRoleName(clusterName, false)
  {
    var n := |ToLower(clusterName)|;
    assert MembershipRoleName(clusterName, true)[n + 8] == 'o';
    assert MembershipRoleName(clusterName, false)[n + 8] == 'm';
  }

  /** Grant the management-cluster privileges in each live project, in
      order, stopping at the first failure. Returns the failure and calls. */
  function GrantInProjects(env: Env, projects: seq<ProjectRef>, subject: Subject): (r: (Option<string>, seq<Call>))
    ensures r.0.None? ==> r.1 == GrantCalls(projects, subject)
    ensures |r.1| <= |projects|
  {
    if |projects| == 0 then (None, [])
    else if projects[0].deleting then GrantInProjects(env, projects[1..], subject)
    else
      var call := GrantInProject(projects[0].name, subject);
      match env.grantInProject(projects[0].name, subject)
      case Some(e) => (Some(e), [call])
      case None =>
        var rest := GrantInProjects(env, projects[1..], subject);
        (rest.0, [call] + rest.1)
  }

  /** The grants a fully successful pass issues: one per project not being
      deleted. */
  function GrantCalls(projects: seq<ProjectRef>, subject: Subject): seq<Call> {
    if |projects| == 0 then []
    else if projects[0].deleting then GrantCalls(projects[1..], subject)
    else [GrantInProject(projects[0].name, subject)] + GrantCalls(projects[1..], subject)
  }

  lemma {:induction false} GrantCallsSkipDeleting(projects: seq<ProjectRef>, subject: Subject, c: Call)
    requires c in GrantCalls(projects, subject)
    ensures exists k | 0 <= k < |projects| :: !projects[k].deleting && c == GrantInProject(projects[k].name, subject)
  {
    if |projects| > 0 {
      if projects[0].deleting || c != GrantInProject(projects[0].name, subject) {
        GrantCallsSkipDeleting(projects[1..], subject, c);
        var k :| 0 <= k < |projects[1..]| && !projects[1..][k].deleting && c == GrantInProject(projects[1..][k].name, subject);
        assert projects[k + 1] == projects[1..][k];
      }
    }
  }

  predicate HasSubjectForBindings(b: Crtb) {
    b.userName != "" || b.groupPrincipalName != "" || b.groupName != ""
  }

  /** `reconcileBindings`: create the cluster membership binding, the
      management-plane grants and the per-project grants, recording one
      LocalBindingsExist-typed condition. */
  function ReconcileBindings(env: Env, b: Crtb): (s: Step)
    ensures AddsOne(b, s.b)
    ensures Conditions(s.b)[|Conditions(b)|].ctype == LocalBindingsExist
    ensures Conditions(s.b)[|Conditions(b)|].status <==> s.err.None?
    ensures s.b == AddCondition(b, LocalBindingsExist, Conditions(s.b)[|Conditions(b)|].reason, b.meta.name, s.err)
  {
    var fail := (reason: string, e: string) => Step(AddCondition(b, LocalBindingsExist, reason, b.meta.name, Some(e)), Some(e), []);
    if !HasSubjectForBindings(b) then
      Step(AddCondition(b, LocalBindingsExist, LocalBindingsExist, b.meta.name, None), None, [])
    else match env.clusterExists(b.clusterName)
    case Err(e) => fail(FailedToGetCluster, e)
    case Ok(false) => fail(FailedToGetCluster, "cannot create binding because cluster " + b.clusterName + " was not found")
    case Ok(true) =>
      match env.isOwnerRole(b.roleTemplateName)
      case Err(e) => fail(BadRoleReferences, e)
      case Ok(isOwner) =>
        match env.buildSubject(b)
        case Err(e) => fail(FailedToBuildSubject, e)
        case Ok(subject) =>
          var roleName := MembershipRoleName(b.clusterName, isOwner);
          var c1 := [EnsureMembership(roleName, isOwner, subject)];
          match env.ensureMembership(roleName, isOwner, subject)
          case Some(e) => fail(FailedToEnsureClusterMembership, e).(calls := c1)
          case None =>
            var c2 := c1 + [GrantManagementPlane(subject)];
            match env.grantManagementPlane(subject)
            case Some(e) => fail(FailedToGrantManagementPlanePrivileges, e).(calls := c2)
            case None =>
              match env.listProjects(b.meta.namespace)
              case Err(e) => fail(FailedToGetNamespace, e).(calls := c2)
              case Ok(projects) =>
                var (err, grants) := GrantInProjects(env, projects, subject);
                match err
                case Some(e) => fail(FailedToGrantManagementClusterPrivileges, e).(calls := c2 + grants)
                case None =>
                  Step(AddCondition(b, LocalBindingsExist, LocalBindingsExist, b.meta.name, None), None, c2 + grants)
  }

  /** The membership binding is made for the owner role name exactly when
      the role template resolves to an owner role, and otherwise for the
      member role name. */
  lemma ReconcileBindingsRoleName(env: Env, b: Crtb, isOwner: bool, subject: Subject)
    requires HasSubjectForBindings(b)
    requires env.clusterExists(b.clusterName) == Ok(true)
    requires env.isOwnerRole(b.roleTemplateName) == Ok(isOwner)
    requires env.buildSubject(b) == Ok(subject)
    ensures var s := ReconcileBindings(env, b);
            |s.calls| >= 1 &&
            s.calls[0] == EnsureMembership(
              ToLower(b.clusterName) + (if isOwner then "-clusterowner" else "-clustermember"), isOwner, subject)
  {
  }

  /** On success every live project in the binding's namespace was granted
      the cluster-scoped privileges, and no project being deleted was. */
  lemma ReconcileBindingsSuccessGrants(env: Env, b: Crtb, projects: seq<ProjectRef>, subject: Subject)
    requires HasSubjectForBindings(b)
    requires env.buildSubject(b) == Ok(subject)
    requires env.listProjects(b.meta.namespace) == Ok(projects)
    requires ReconcileBindings(env, b).err == None
    ensures var s := ReconcileBindings(env, b);
            && s.calls[2..] == GrantCalls(projects, subject)
            && Conditions(s.b)[|Conditions(b)|].reason == LocalBindingsExist
  {
  }

  // ---------------------------------------------------------------------
  // Legacy label migration

  /** `errors.Join` of two possibly-nil errors. */
  function JoinErr(a: Option<string>, b: Option<string>): (r: Option<string>)
    ensures r.None? <==> a.None? && b.None?
  {
    if a.None? then b else if b.None? then a else Some(a.value + "\n" + b.value)
  }

  /** Relabel each legacy cluster role binding; every failure records a
      condition, and all failures are joined. */
  function UpdateCrbs(env: Env, b: Crtb, crbs: seq<string>, acc: Option<string>): (r: (Crtb, Option<string>, seq<Call>))
    ensures r.1.None? <==> acc.None? && forall k | 0 <= k < |crbs| :: env.updateCrb(crbs[k]).None?
    ensures r.2 == seq(|crbs|, k requires 0 <= k < |crbs| => UpdateCrbLabels(crbs[k]))
    ensures r.0 == b.(status := r.0.status) && |Conditions(b)| <= |Conditions(r.0)|
    ensures Conditions(r.0)[..|Conditions(b)|] == Conditions(b)
    decreases |crbs|
  {
    if |crbs| == 0 then (b, acc, [])
    else
      var e := env.updateCrb(crbs[0]);
      var b' := if e.Some? then AddCondition(b, LocalLabelsSet, LocalFailedToUpdateClusterRoleBindings, b.meta.name, e) else b;
      var rest := UpdateCrbs(env, b', crbs[1..], JoinErr(acc, e));
      (rest.0, rest.1, [UpdateCrbLabels(crbs[0])] + rest.2)
  }

  /** Relabel each legacy role binding, joining the failures. */
  function UpdateRbs(env: Env, rbs: seq<(string, string)>, acc: Option<string>): (r: (Option<string>, seq<Call>))
    ensures r.0.None? <==> acc.None? && forall k | 0 <= k < |rbs| :: env.updateRb(rbs[k].0, rbs[k].1).None?
    ensures r.1 == seq(|rbs|, k requires 0 <= k < |rbs| => UpdateRbLabels(rbs[k].0, rbs[k].1))
    decreases |rbs|
  {
    if |rbs| == 0 then (acc, [])
    else
      var e := env.updateRb(rbs[0].0, rbs[0].1);
      var rest := UpdateRbs(env, rbs[1..], JoinErr(acc, e));
      (rest.0, [UpdateRbLabels(rbs[0].0, rbs[0].1)] + rest.1)
  }

  predicate LabelsMigrated(b: Crtb) {
    Label(b.meta.labels, RtbCrbRbLabelsUpdated) == "true"
  }

  /** `reconcileLabels`: move the bindings created before label version 2.5
      onto the namespace-and-name label, then mark the binding. */
  function ReconcileLabels(env: Env, b: Crtb): (s: Step)
    ensures s.b == b.(status := s.b.status)
    ensures |Conditions(b)| < |Conditions(s.b)| && Conditions(s.b)[..|Conditions(b)|] == Conditions(b)
    ensures (MarkLabelsUpdated in s.calls) ==> s.calls[|s.calls| - 1] == MarkLabelsUpdated
  {
    var fail := (bb: Crtb, reason: string, e: string, calls: seq<Call>) =>
      Step(AddCondition(bb, LocalLabelsSet, reason, b.meta.name, Some(e)), Some(e), calls);
    if LabelsMigrated(b) then
      Step(AddCondition(b, LocalLabelsSet, LocalLabelsSet, b.meta.name, None), None, [])
    else match env.labelRequirements(b)
    case Some(e) => fail(b, LocalFailedToGetLabelRequirements, e, [])
    case None =>
      match env.legacyCrbs(b)
      case Err(e) => fail(b, LocalFailedToGetClusterRoleBindings, e, [])
      case Ok(crbs) =>
        var (b1, crbErr, crbCalls) := UpdateCrbs(env, b, crbs, None);
        match env.legacyRbs(b)
        case Err(e) => fail(b1, FailedToGetRoleBindings, e, crbCalls)
        case Ok(rbs) =>
          var (joined, rbCalls) := UpdateRbs(env, rbs, crbErr);
          var calls := crbCalls + rbCalls;
          if joined.Some? then fail(b1, FailedToUpdateRoleBindings, joined.value, calls)
          else match env.markLabelsUpdated(b)
          case Some(e) => fail(b1, LocalFailedToUpdateCRTBLabels, e, calls + [MarkLabelsUpdated])
          case None =>
            Step(AddCondition(b1, LocalLabelsSet, LocalLabelsSet, b.meta.name, None), None, calls + [MarkLabelsUpdated])
  }

  /** A binding already carrying the migration label only records
      LocalLabelsSet: no lookup, no write. */
  lemma ReconcileLabelsAlreadyMigrated(env: Env, b: Crtb)
    requires LabelsMigrated(b)
    ensures ReconcileLabels(env, b) == Step(AddCondition(b, LocalLabelsSet, LocalLabelsSet, b.meta.name, None), None, [])
  {
  }

  /** The binding is marked as migrated only after every cluster role
      binding and role binding update succeeded, and then the step succeeds
      exactly when the mark is written. */
  lemma ReconcileLabelsMarksOnlyAfterAllUpdates(env: Env, b: Crtb)
    requires MarkLabelsUpdated in ReconcileLabels(env, b).calls
    ensures !LabelsMigrated(b)
    ensures env.legacyCrbs(b).Ok? && env.legacyRbs(b).Ok?
    ensures forall k | 0 <= k < |env.legacyCrbs(b).value| :: env.updateCrb(env.legacyCrbs(b).value[k]).None?
    ensures forall k | 0 <= k < |env.legacyRbs(b).value| ::
              env.updateRb(env.legacyRbs(b).value[k].0, env.legacyRbs(b).value[k].1).None?
    ensures ReconcileLabels(env, b).err == env.markLabelsUpdated(b)
  {
    var s := ReconcileLabels(env, b);
    assert env.labelRequirements(b).None?;
    var crbs := env.legacyCrbs(b).value;
    var (b1, crbErr, crbCalls) := UpdateCrbs(env, b, crbs, None);
    assert MarkLabelsUpdated !in crbCalls;
    var rbs := env.legacyRbs(b).value;
    var (joined, rbCalls) := UpdateRbs(env, rbs, crbErr);
    assert MarkLabelsUpdated !in rbCalls;
    assert joined.None?;
  }

  // ---------------------------------------------------------------------
  // Delete path

  /** `reconcileClusterMembershipBindingForDelete`. On failure it records a
      failure condition AND then an OK condition, and still returns the
      error, exactly as the source does. */
  function DeleteMembershipStep(env: Env, b: Crtb): (s: Step)
    ensures s.err == env.deleteMembership(b) && s.calls == [DeleteMembership]
    ensures s.err.None? ==> (Conditions(s.b) == Conditions(b) +
              [MakeCondition(ClusterMembershipBindingForDeleteOk, ClusterMembershipBindingForDeleteOk, b.userName, None)])
    ensures s.err.Some? ==> (Conditions(s.b) == Conditions(b) +
              [MakeCondition(ClusterMembershipBindingForDeleteOk, FailedClusterMembershipBindingForDelete, b.userName, s.err),
               MakeCondition(ClusterMembershipBindingForDeleteOk, ClusterMembershipBindingForDeleteOk, b.userName, None)])
  {
    var e := env.deleteMembership(b);
    var b1 := if e.Some? then AddCondition(b, ClusterMembershipBindingForDeleteOk, FailedClusterMembershipBindingForDelete, b.userName, e) else b;
    var b2 := AddCondition(b1, ClusterMembershipBindingForDeleteOk, ClusterMembershipBindingForDeleteOk, b.userName, None);
    Step(b2, e, [DeleteMembership])
  }

  /** `removeAuthV2Permissions`, with the same failure-then-OK quirk. */
  function RemoveAuthV2Step(env: Env, b: Crtb): (s: Step)
    ensures s.err == env.removeAuthV2(b) && s.calls == [RemoveAuthV2]
    ensures s.err.None? ==> (Conditions(s.b) == Conditions(b) +
              [MakeCondition(AuthV2PermissionsOk, AuthV2PermissionsOk, b.userName, None)])
    ensures s.err.Some? ==> (Conditions(s.b) == Conditions(b) +
              [MakeCondition(AuthV2PermissionsOk, FailedRemovalOfAuthV2Permissions, b.userName, s.err),
               MakeCondition(AuthV2PermissionsOk, AuthV2PermissionsOk, b.userName, None)])
  {
    var e := env.removeAuthV2(b);
    var b1 := if e.Some? then AddCondition(b, AuthV2PermissionsOk, FailedRemovalOfAuthV2Permissions, b.userName, e) else b;
    var b2 := AddCondition(b1, AuthV2PermissionsOk, AuthV2PermissionsOk, b.userName, None);
    Step(b2, e, [RemoveAuthV2])
  }

  /** `rb` is listed as owned by the binding in namespace `ns`. */
  predicate Owned(env: Env, b: Crtb, ns: string, rb: string) {
    env.projectRbs(ns, b).Ok? && rb in env.projectRbs(ns, b).value
  }

  /** `c` deletes a role binding the binding owns in one of `projects`. */
  predicate DeletesOwned(env: Env, b: Crtb, projects: seq<ProjectRef>, c: Call) {
    && c.DeleteProjectRb?
    && (exists p | p in projects :: p.name == c.namespace)
    && Owned(env, b, c.namespace, c.rb)
  }

  /** Every project namespace was listed, and every role binding the listing
      showed as owned was deleted. */
  predicate DeletedAllOwned(env: Env, b: Crtb, projects: seq<ProjectRef>, calls: seq<Call>) {
    forall p | p in projects ::
      && env.projectRbs(p.name, b).Ok?
      && forall rb | rb in env.projectRbs(p.name, b).value :: DeleteProjectRb(p.name, rb) in calls
  }

  /** Delete the project-namespace role bindings this binding owns, project
      by project, stopping at the first failure. */
  function DeleteProjectRbs(env: Env, b: Crtb, projects: seq<ProjectRef>): (r: (Option<string>, seq<Call>))
    decreases |projects|
  {
    if |projects| == 0 then (None, [])
    else
      var ns := projects[0].name;
      match env.projectRbs(ns, b)
      case Err(e) => (Some(e), [])
      case Ok(rbs) =>
        var (e, calls) := DeleteRbsIn(env, ns, rbs);
        if e.Some? then (e, calls)
        else
          var rest := DeleteProjectRbs(env, b, projects[1..]);
          (rest.0, calls + rest.1)
  }

  /** Only owned role bindings of the listed projects are deleted. */
  lemma {:induction false} DeleteProjectRbsOnlyOwned(env: Env, b: Crtb, projects: seq<ProjectRef>)
    ensures forall c | c in DeleteProjectRbs(env, b, projects).1 :: DeletesOwned(env, b, projects, c)
    decreases |projects|
  {
    if |projects| > 0 {
      var ns := projects[0].name;
      assert projects[0] in projects;
      if env.projectRbs(ns, b).Ok? {
        var (e, calls) := DeleteRbsIn(env, ns, env.projectRbs(ns, b).value);
        assert forall c | c in calls :: DeletesOwned(env, b, projects, c);
        if e.None? {
          DeleteProjectRbsOnlyOwned(env, b, projects[1..]);
          var rest := DeleteProjectRbs(env, b, projects[1..]).1;
          forall c | c in rest ensures DeletesOwned(env, b, projects, c) {
            var p :| p in projects[1..] && p.name == c.namespace;
            assert p in projects;
          }
        }
      }
    }
  }

  /** On success every project was listed and every role binding it showed
      as owned was deleted. */
  lemma {:induction false} DeleteProjectRbsAllOwned(env: Env, b: Crtb, projects: seq<ProjectRef>)
    ensures var r := DeleteProjectRbs(env, b, projects);
            r.0.None? ==> DeletedAllOwned(env, b, projects, r.1)
    decreases |projects|
  {
    if |projects| > 0 {
      var ns := projects[0].name;
      if env.projectRbs(ns, b).Ok? {
        var (e, calls) := DeleteRbsIn(env, ns, env.projectRbs(ns, b).value);
        if e.None? {
          DeleteProjectRbsAllOwned(env, b, projects[1..]);
          assert forall p | p in projects :: p == projects[0] || p in projects[1..];
        }
      }
    }
  }

  /** A failure is a project listing's error or the error of the last delete. */
  lemma {:induction false} DeleteProjectRbsFailure(env: Env, b: Crtb, projects: seq<ProjectRef>)
    ensures var r := DeleteProjectRbs(env, b, projects);
            r.0.Some? ==>
              || (exists p | p in projects :: env.projectRbs(p.name, b) == Err(r.0.value))
              || (|r.1| > 0 && r.1[|r.1| - 1].DeleteProjectRb? &&
                  r.0 == env.deleteRb(r.1[|r.1| - 1].namespace, r.1[|r.1| - 1].rb))
    decreases |projects|
  {
    if |projects| > 0 {
      var ns := projects[0].name;
      assert projects[0] in projects;
      if env.projectRbs(ns, b).Ok? {
        var (e, calls) := DeleteRbsIn(env, ns, env.projectRbs(ns, b).value);
        if e.None? {
          DeleteProjectRbsFailure(env, b, projects[1..]);
          assert forall p | p in projects[1..] :: p in projects;
        }
      }
    }
  }

  function DeleteRbsIn(env: Env, ns: string, rbs: seq<string>): (r: (Option<string>, seq<Call>))
    ensures r.0.None? ==> r.1 == seq(|rbs|, k requires 0 <= k < |rbs| => DeleteProjectRb(ns, rbs[k]))
    ensures r.0.None? ==> forall rb | rb in rbs :: DeleteProjectRb(ns, rb) in r.1
    ensures forall k | 0 <= k < |r.1| :: r.1[k].DeleteProjectRb? && r.1[k].namespace == ns && r.1[k].rb in rbs
    ensures r.0.Some? ==> |r.1| >= 1 && r.0 == env.deleteRb(ns, r.1[|r.1| - 1].rb)
    decreases |rbs|
  {
    if |rbs| == 0 then (None, [])
    else
      match env.deleteRb(ns, rbs[0])
      case Some(e) => (Some(e), [DeleteProjectRb(ns, rbs[0])])
      case None =>
        var rest := DeleteRbsIn(env, ns, rbs[1..]);
        assert forall rb | rb in rbs :: rb == rbs[0] || rb in rbs[1..];
        (rest.0, [DeleteProjectRb(ns, rbs[0])] + rest.1)
  }

  /** `removeMGMTClusterScopedPrivilegesInProjectNamespace`. */
  function RemoveProjectPrivilegesStep(env: Env, b: Crtb): (s: Step)
    ensures AddsOne(b, s.b)
    ensures Conditions(s.b)[|Conditions(b)|].ctype == LocalCRTBDeleteOk
    ensures Conditions(s.b)[|Conditions(b)|].status <==> s.err.None?
    ensures env.listProjects(b.meta.namespace).Err? ==>
              s.err == Some(env.listProjects(b.meta.namespace).error) && s.calls == []
    ensures env.listProjects(b.meta.namespace).Ok? ==>
              forall c | c in s.calls :: DeletesOwned(env, b, env.listProjects(b.meta.namespace).value, c)
    ensures s.err.None? ==>
              env.listProjects(b.meta.namespace).Ok? &&
              DeletedAllOwned(env, b, env.listProjects(b.meta.namespace).value, s.calls)
  {
    match env.listProjects(b.meta.namespace)
    case Err(e) =>
      Step(AddCondition(b, LocalCRTBDeleteOk, FailedRemovalOfMGMTClusterScopedPrivilegesInProjectNamespace, b.userName, Some(e)), Some(e), [])
    case Ok(projects) =>
      DeleteProjectRbsOnlyOwned(env, b, projects);
      DeleteProjectRbsAllOwned(env, b, projects);
      var (e, calls) := DeleteProjectRbs(env, b, projects);
      if e.Some? then
        Step(AddCondition(b, LocalCRTBDeleteOk, FailedRemovalOfMGMTClusterScopedPrivilegesInProjectNamespace, b.userName, e), e, calls)
      else
        Step(AddCondition(b, LocalCRTBDeleteOk, LocalCRTBDeleteOk, b.userName, None), None, calls)
  }

  // ---------------------------------------------------------------------
  // The handlers

  /** The steps the handlers are made of, in the order the source calls them. */
  datatype StepKind =
    | InProgressStep | SubjectStep | LabelsStep | BindingsStep | CompletedStep
    | MembershipDeleteStep | ProjectPrivilegesDeleteStep | AuthV2DeleteStep

  function RunStep(env: Env, k: StepKind, b: Crtb): Step {
    match k
    case InProgressStep => SetInProgress(env, b)
    case SubjectStep => ReconcileSubject(env, b)
    case LabelsStep => ReconcileLabels(env, b)
    case BindingsStep => ReconcileBindings(env, b)
    case CompletedStep => SetCompleted(env, b)
    case MembershipDeleteStep => DeleteMembershipStep(env, b)
    case ProjectPrivilegesDeleteStep => RemoveProjectPrivilegesStep(env, b)
    case AuthV2DeleteStep => RemoveAuthV2Step(env, b)
  }

  /** Run the steps in order, each on the binding the previous one left,
      stopping at (and returning) the first error. */
  function RunSteps(env: Env, ks: seq<StepKind>, b: Crtb): (s: Step)
    ensures |ks| == 0 ==> s == Step(b, None, [])
    ensures |ks| > 0 && RunStep(env, ks[0], b).err.Some? ==> s == RunStep(env, ks[0], b)
    decreases |ks|
  {
    if |ks| == 0 then Step(b, None, [])
    else
      var t := RunStep(env, ks[0], b);
      if t.err.Some? then t
      else
        var r := RunSteps(env, ks[1..], t.b);
        Step(r.b, r.err, t.calls + r.calls)
  }

  const CreateSteps: seq<StepKind> := [InProgressStep, SubjectStep, BindingsStep, CompletedStep]
  const UpdatedSteps: seq<StepKind> := [InProgressStep, SubjectStep, LabelsStep, BindingsStep, CompletedStep]
  const RemoveSteps: seq<StepKind> := [MembershipDeleteStep, ProjectPrivilegesDeleteStep, AuthV2DeleteStep]

  /** `Create`: skip when nothing needs doing; otherwise in progress, subject,
      bindings, completed, stopping at the first error. */
  function Create(env: Env, b: Crtb): (o: Outcome)
    ensures o.returned == Some(o.b)
    ensures NothingToDo(env.sets, b) ==> o == Outcome(b, Some(b), None, [])
    ensures !NothingToDo(env.sets, b) ==> |o.calls| >= 1 && o.calls[0].WriteStatus? && o.calls[0].status.summary == InProgress
  {
    if NothingToDo(env.sets, b) then Outcome(b, Some(b), None, [])
    else
      var s := RunSteps(env, CreateSteps, b);
      Outcome(s.b, Some(s.b), s.err, s.calls)
  }

  /** `Updated`: as Create, with the label migration between the subject and
      the bindings. */
  function Updated(env: Env, b: Crtb): (o: Outcome)
    ensures o.returned == Some(o.b)
    ensures NothingToDo(env.sets, b) ==> o == Outcome(b, Some(b), None, [])
    ensures !NothingToDo(env.sets, b) ==> |o.calls| >= 1 && o.calls[0].WriteStatus? && o.calls[0].status.summary == InProgress
  {
    if NothingToDo(env.sets, b) then Outcome(b, Some(b), None, [])
    else
      var s := RunSteps(env, UpdatedSteps, b);
      Outcome(s.b, Some(s.b), s.err, s.calls)
  }

  /** `Remove`: terminating, then the three removal steps, stopping at the
      first error. Only a failed status write returns the binding; every
      other exit returns nil. */
  function Remove(env: Env, b: Crtb): (o: Outcome)
    ensures o.returned.Some? <==> env.statusWrite(SetTerminating(env, b).b).Some?
    ensures o.returned.Some? ==> o.err == env.statusWrite(SetTerminating(env, b).b)
  {
    var t := SetTerminating(env, b);
    if t.err.Some? then Outcome(t.b, Some(t.b), t.err, t.calls)
    else
      var s := RunSteps(env, RemoveSteps, t.b);
      Outcome(s.b, None, s.err, t.calls + s.calls)
  }

  /** Every step but the in-progress one keeps the conditions already
      recorded as a prefix and leaves the metadata and cluster alone. */
  lemma StepKeepsPrefix(env: Env, k: StepKind, b: Crtb)
    requires k != InProgressStep
    ensures var t := RunStep(env, k, b);
            && |Conditions(b)| <= |Conditions(t.b)|
            && Conditions(t.b)[..|Conditions(b)|] == Conditions(b)
            && t.b.meta == b.meta && t.b.clusterName == b.clusterName
  {
    var t := RunStep(env, k, b);
    match k
    case SubjectStep =>
    case LabelsStep =>
    case BindingsStep =>
    case CompletedStep =>
    case MembershipDeleteStep =>
    case ProjectPrivilegesDeleteStep =>
    case AuthV2DeleteStep =>
  }

  lemma {:induction false} RunStepsKeepsPrefix(env: Env, ks: seq<StepKind>, b: Crtb)
    requires forall k | 0 <= k < |ks| :: ks[k] != InProgressStep
    ensures var s := RunSteps(env, ks, b);
            && |Conditions(b)| <= |Conditions(s.b)|
            && Conditions(s.b)[..|Conditions(b)|] == Conditions(b)
            && s.b.meta == b.meta && s.b.clusterName == b.clusterName
    decreases |ks|
  {
    if |ks| > 0 {
      var t := RunStep(env, ks[0], b);
      StepKeepsPrefix(env, ks[0], b);
      if t.err.None? {
        RunStepsKeepsPrefix(env, ks[1..], t.b);
        var r := RunSteps(env, ks[1..], t.b);
        assert Conditions(r.b)[..|Conditions(b)|] == Conditions(r.b)[..|Conditions(t.b)|][..|Conditions(b)|];
      }
    }
  }

  /** Running a list of steps without error runs its head without error and
      then its tail from where the head left off. */
  lemma RunStepsUnfold(env: Env, ks: seq<StepKind>, b: Crtb)
    requires |ks| > 0
    requires RunSteps(env, ks, b).err == None
    ensures RunStep(env, ks[0], b).err == None
    ensures var t := RunStep(env, ks[0], b);
            var r := RunSteps(env, ks[1..], t.b);
            RunSteps(env, ks, b) == Step(r.b, None, t.calls + r.calls)
  {
  }

  /** A Create that runs to the end without error leaves the remote
      conditions in place, adds exactly one successful subject condition and
      one successful bindings condition, records the generation it observed,
      and settles the summary from the resulting conditions. */
  lemma {:induction false} CreateSucceeds(env: Env, b: Crtb)
    requires !NothingToDo(env.sets, b)
    requires Create(env, b).err == None
    ensures var o := Create(env, b);
            && o.b.status.observedGeneration == b.meta.generation
            && |Conditions(o.b)| == |RemoveConditions(Conditions(b), env.sets.localTypes)| + 2
            && Conditions(o.b)[..|Conditions(o.b)| - 2] == RemoveConditions(Conditions(b), env.sets.localTypes)
            && Conditions(o.b)[|Conditions(o.b)| - 2].ctype == SubjectExists
            && Conditions(o.b)[|Conditions(o.b)| - 2].status
            && Conditions(o.b)[|Conditions(o.b)| - 1].ctype == LocalBindingsExist
            && Conditions(o.b)[|Conditions(o.b)| - 1].status
            && (AllTrue(Conditions(o.b)) ==> o.b.status.summary in {Completed, InProgress})
            && (!AllTrue(Conditions(o.b)) ==> o.b.status.summary == Error)
            && o.b.meta == b.meta && o.b.clusterName == b.clusterName
  {
    CreateWalk(env, CreateSteps, b);
    var s0 := SetInProgress(env, b);
    var s1 := ReconcileSubject(env, s0.b);
    CompletedAfterSubjectAndBindings(env, b, s0.b, s1.b);
  }

  /** The binding SetCompleted leaves after a successful subject step and a
      successful bindings step, run on the in-progress binding. */
  lemma CompletedAfterSubjectAndBindings(env: Env, b: Crtb, b0: Crtb, b1: Crtb)
    requires b0 == SetInProgress(env, b).b
    requires b1 == ReconcileSubject(env, b0).b && ReconcileSubject(env, b0).err == None
    requires ReconcileBindings(env, b1).err == None
    ensures var f := SetCompleted(env, ReconcileBindings(env, b1).b).b;
            && f.status.observedGeneration == b.meta.generation
            && |Conditions(f)| == |RemoveConditions(Conditions(b), env.sets.localTypes)| + 2
            && Conditions(f)[..|Conditions(f)| - 2] == RemoveConditions(Conditions(b), env.sets.localTypes)
            && Conditions(f)[|Conditions(f)| - 2].ctype == SubjectExists
            && Conditions(f)[|Conditions(f)| - 2].status
            && Conditions(f)[|Conditions(f)| - 1].ctype == LocalBindingsExist
            && Conditions(f)[|Conditions(f)| - 1].status
            && (AllTrue(Conditions(f)) ==> f.status.summary in {Completed, InProgress})
            && (!AllTrue(Conditions(f)) ==> f.status.summary == Error)
            && f.meta == b.meta && f.clusterName == b.clusterName
  {
    var s2 := ReconcileBindings(env, b1);
    var c1 := Conditions(b1)[|Conditions(b0)|];
    var c2 := Conditions(s2.b)[|Conditions(b1)|];
    assert Conditions(b1) == Conditions(b0) + [c1];
    assert Conditions(s2.b) == Conditions(b0) + [c1, c2];
    assert s2.b.status.summary == InProgress;
  }

  /** The walk behind CreateSucceeds, over any step list shaped like the
      create list: the final binding is the completed-step result of the
      bindings step, run on the subject step's result. */
  lemma CreateWalk(env: Env, ks: seq<StepKind>, b: Crtb)
    requires |ks| == 4 && ks[0] == InProgressStep && ks[1] == SubjectStep
    requires ks[2] == BindingsStep && ks[3] == CompletedStep
    requires RunSteps(env, ks, b).err == None
    ensures var s0 := SetInProgress(env, b);
            var s1 := ReconcileSubject(env, s0.b);
            var s2 := ReconcileBindings(env, s1.b);
            && s0.err == None && s1.err == None && s2.err == None
            && RunSteps(env, ks, b).b == SetCompleted(env, s2.b).b
  {
    RunStepsUnfold(env, ks, b);
    var s0 := SetInProgress(env, b);
    RunStepsUnfold(env, ks[1..], s0.b);
    var s1 := ReconcileSubject(env, s0.b);
    RunStepsUnfold(env, ks[2..], s1.b);
    var s2 := ReconcileBindings(env, s1.b);
    RunStepsUnfold(env, ks[3..], s2.b);
    assert ks[1..][1..] == ks[2..] && ks[2..][1..] == ks[3..] && ks[3..][1..] == [];
  }

  /** Walking a successful run: the tail after the first `n` steps is run
      from the binding those `n` steps left behind. */
  lemma {:induction false} RunStepsSuffix(env: Env, ks: seq<StepKind>, b: Crtb)
    requires RunSteps(env, ks, b).err == None
    ensures |ks| > 0 && ks[|ks| - 1] == CompletedStep ==>
              RunSteps(env, ks, b).b.status.observedGeneration == b.meta.generation
    decreases |ks|
  {
    if |ks| > 0 && ks[|ks| - 1] == CompletedStep {
      RunStepsUnfold(env, ks, b);
      var t := RunStep(env, ks[0], b);
      StepKeepsMeta(env, ks[0], b);
      if |ks| > 1 {
        assert ks[1..][|ks[1..]| - 1] == CompletedStep;
        RunStepsSuffix(env, ks[1..], t.b);
      }
    }
  }

  /** No step touches the binding's metadata. */
  lemma StepKeepsMeta(env: Env, k: StepKind, b: Crtb)
    ensures RunStep(env, k, b).b.meta == b.meta
  {
    if k != InProgressStep { StepKeepsPrefix(env, k, b); }
  }

  /** An Updated that runs to the end without error records the generation
      it observed. */
  lemma UpdatedRecordsGeneration(env: Env, b: Crtb)
    requires !NothingToDo(env.sets, b)
    requires Updated(env, b).err == None
    ensures Updated(env, b).b.status.observedGeneration == b.meta.generation
  {
    RunStepsSuffix(env, UpdatedSteps, b);
  }

  /** An Updated that runs to the end without error has migrated the labels:
      either they were already migrated, or every legacy binding was
      relabelled and the mark was written. */
  lemma {:induction false} UpdatedMigratesLabels(env: Env, b: Crtb)
    requires !NothingToDo(env.sets, b)
    requires Updated(env, b).err == None
    ensures LabelsMigrated(b) || MarkLabelsUpdated in Updated(env, b).calls
  {
    LabelsStepMarks(env, UpdatedSteps, b);
  }

  /** A successful run whose third step is the label migration, after the
      in-progress and subject steps, has migrated the labels. */
  lemma LabelsStepMarks(env: Env, ks: seq<StepKind>, b: Crtb)
    requires |ks| >= 3 && ks[0] == InProgressStep && ks[1] == SubjectStep && ks[2] == LabelsStep
    requires RunSteps(env, ks, b).err == None
    ensures LabelsMigrated(b) || MarkLabelsUpdated in RunSteps(env, ks, b).calls
  {
    RunStepsUnfold(env, ks, b);
    var s0 := SetInProgress(env, b);
    RunStepsUnfold(env, ks[1..], s0.b);
    var s1 := ReconcileSubject(env, s0.b);
    assert ks[1..][1..] == ks[2..];
    RunStepsUnfold(env, ks[2..], s1.b);
    if !LabelsMigrated(b) {
      assert LabelsMigrated(s1.b) == LabelsMigrated(b);
      LabelsSuccessMarks(env, s1.b);
      assert MarkLabelsUpdated in RunSteps(env, ks[2..], s1.b).calls;
      assert MarkLabelsUpdated in RunSteps(env, ks[1..], s0.b).calls;
    }
  }

  /** A successful label migration on an unmigrated binding wrote the mark. */
  lemma LabelsSuccessMarks(env: Env, b: Crtb)
    requires !LabelsMigrated(b) && ReconcileLabels(env, b).err == None
    ensures MarkLabelsUpdated in ReconcileLabels(env, b).calls
  {
  }

  /** Updated, whatever its outcome once started, keeps the conditions it does
      not manage in front of the ones it records. */
  lemma UpdatedKeepsRemoteConditions(env: Env, b: Crtb)
    requires !NothingToDo(env.sets, b)
    ensures var kept := RemoveConditions(Conditions(b), env.sets.localTypes);
            && |kept| <= |Conditions(Updated(env, b).b)|
            && Conditions(Updated(env, b).b)[..|kept|] == kept
  {
    var ks := UpdatedSteps;
    var s0 := SetInProgress(env, b);
    if s0.err.None? {
      RunStepsKeepsPrefix(env, ks[1..], s0.b);
    }
  }

  /** The delete-path quirk: when removing the membership binding fails,
      Remove records the failure condition followed by an OK condition for
      the same step, returns nil together with the error, and goes no
      further. */
  lemma RemoveMembershipFailure(env: Env, b: Crtb, e: string)
    requires env.statusWrite(SetTerminating(env, b).b) == None
    requires env.deleteMembership(SetTerminating(env, b).b) == Some(e)
    ensures var o := Remove(env, b);
            && o.returned == None && o.err == Some(e)
            && Conditions(o.b) == [
                 MakeCondition(ClusterMembershipBindingForDeleteOk, FailedClusterMembershipBindingForDelete, b.userName, Some(e)),
                 MakeCondition(ClusterMembershipBindingForDeleteOk, ClusterMembershipBindingForDeleteOk, b.userName, None)]
            && o.calls == [WriteStatus(SetTerminating(env, b).b.status), DeleteMembership]
  {
  }

  /** The same quirk on the last removal step. */
  lemma RemoveAuthV2Failure(env: Env, b: Crtb, e: string)
    requires env.statusWrite(SetTerminating(env, b).b) == None
    requires env.deleteMembership(SetTerminating(env, b).b) == None
    requires RemoveProjectPrivilegesStep(env, DeleteMembershipStep(env, SetTerminating(env, b).b).b).err == None
    requires env.removeAuthV2(RemoveProjectPrivilegesStep(env, DeleteMembershipStep(env, SetTerminating(env, b).b).b).b) == Some(e)
    ensures var o := Remove(env, b);
            && o.returned == None && o.err == Some(e)
            && |Conditions(o.b)| == 4
            && !Conditions(o.b)[2].status && Conditions(o.b)[2].reason == FailedRemovalOfAuthV2Permissions
            && Conditions(o.b)[3].status && Conditions(o.b)[3].reason == AuthV2PermissionsOk
  {
    var t := SetTerminating(env, b);
    var s1 := DeleteMembershipStep(env, t.b);
    var s2 := RemoveProjectPrivilegesStep(env, s1.b);
    var s3 := RemoveAuthV2Step(env, s2.b);
    assert |Conditions(s1.b)| == 1;
    assert |Conditions(s2.b)| == 2;
  }

}
