/** The fleet-workspace part of the GlobalRole controller, as its tests
    (pkg/controllers/management/auth/globalroles/fleetworkspace_role_handler_test.go)
    pin it: a GlobalRole with inherited fleet-workspace permissions is backed
    by two ClusterRoles, one holding its fleet resource rules and one granting
    its workspace verbs on every fleet workspace but fleet-local. Each is
    created, updated or deleted to match the GlobalRole. The cluster holds a
    name-to-role map; API failures and name shortening are oracles. */
module FleetWorkspaceRoles {
  import opened Wrappers

  const ErrorPrefix := "error reconciling fleet permissions cluster role: "
  const FleetLocal := "fleet-local"

  datatype PolicyRule = PolicyRule(verbs: seq<string>, apiGroups: seq<string>, resources: seq<string>, resourceNames: seq<string>)
  datatype OwnerReference = OwnerReference(apiVersion: string, kind: string, name: string, uid: string)
  datatype ClusterRole = ClusterRole(name: string, ownerReferences: seq<OwnerReference>, labels: map<string, string>, rules: seq<PolicyRule>)

  datatype FleetWorkspacePermission = FleetWorkspacePermission(resourceRules: seq<PolicyRule>, workspaceVerbs: seq<string>)
  datatype GlobalRole = GlobalRole(name: string, uid: string, inherited: Option<FleetWorkspacePermission>)

  /** What the handler asks the API server to do. */
  datatype Action = Create(role: ClusterRole) | Update(role: ClusterRole) | Delete(name: string)

  /** The cluster's ClusterRoles and the API's behaviour. Names and labels
      that come from code outside the tests are parameters too. */
  datatype Env = Env(
    roles: map<string, ClusterRole>,
    getErr: string -> Option<string>,
    createErr: ClusterRole -> Option<string>,
    updateErr: ClusterRole -> Option<string>,
    deleteErr: string -> Option<string>,
    workspaces: Result<seq<string>>,
    safeConcatName: seq<string> -> string,
    clusterRulesSuffix: string,
    verbsSuffix: string,
    grOwnerLabel: string,
    managedByKey: string,
    managerValue: string,
    verbsErrorPrefix: string)

  datatype Outcome = Outcome(actions: seq<Action>, err: Option<string>)

  /** What one backing role should be. */
  datatype Desired = Absent | Present(rules: seq<PolicyRule>) | Untouched

  function ClusterRulesName(env: Env, gr: GlobalRole): string {
    env.safeConcatName([gr.name, env.clusterRulesSuffix])
  }

  function VerbsName(env: Env, gr: GlobalRole): string {
    env.safeConcatName([gr.name, env.verbsSuffix])
  }

  /** A new backing role: owned by the GlobalRole and labelled as managed. */
  function NewRole(env: Env, gr: GlobalRole, name: string, rules: seq<PolicyRule>): (cr: ClusterRole)
    ensures cr.ownerReferences == [OwnerReference("management.cattle.io/v3", "GlobalRole", gr.name, gr.uid)]
    ensures cr.labels.Keys == {env.grOwnerLabel, env.managedByKey}
    ensures env.managedByKey != env.grOwnerLabel ==> cr.labels[env.grOwnerLabel] == env.safeConcatName([gr.name])
    ensures cr.labels[env.managedByKey] == env.managerValue
    ensures cr.name == name && cr.rules == rules
  {
    ClusterRole(name, [OwnerReference("management.cattle.io/v3", "GlobalRole", gr.name, gr.uid)],
                map[env.grOwnerLabel := env.safeConcatName([gr.name]), env.managedByKey := env.managerValue], rules)
  }

  /** Fleet workspaces other than fleet-local, in listing order. */
  function NonLocal(workspaces: seq<string>): (r: seq<string>)
    ensures forall w :: w in r <==> w in workspaces && w != FleetLocal
    ensures |r| <= |workspaces|
  {
    if |workspaces| == 0 then []
    else if workspaces[0] == FleetLocal then NonLocal(workspaces[1..])
    else [workspaces[0]] + NonLocal(workspaces[1..])
  }

  function VerbsRule(verbs: seq<string>, workspaces: seq<string>): PolicyRule {
    PolicyRule(verbs, ["management.cattle.io"], ["fleetworkspaces"], workspaces)
  }

  /** The role `name` already is as `desired` wants it. */
  predicate AsDesired(roles: map<string, ClusterRole>, name: string, desired: Desired) {
    match desired
    case Untouched => true
    case Absent => name !in roles
    case Present(rules) => name in roles && roles[name].rules == rules
  }

  /** Bring one backing role in line with what it should be: at most one
      write, none exactly when the lookup fails or the role is already as
      wanted, and the error is the lookup's or the write's. */
  function ReconcileRole(env: Env, gr: GlobalRole, name: string, desired: Desired): (o: Outcome)
    ensures |o.actions| <= 1
    ensures o.actions == [] <==> env.getErr(name).Some? || AsDesired(env.roles, name, desired)
    ensures o.actions == [] ==> o.err == env.getErr(name)
    ensures env.getErr(name).Some? ==> o == Outcome([], env.getErr(name))
    ensures env.getErr(name).None? && desired == Untouched ==> o == Outcome([], None)
    ensures env.getErr(name).None? && desired == Absent ==>
              o == (if name in env.roles then Outcome([Delete(name)], env.deleteErr(name)) else Outcome([], None))
    ensures env.getErr(name).None? && desired.Present? && name !in env.roles ==>
              o == Outcome([Create(NewRole(env, gr, name, desired.rules))], env.createErr(NewRole(env, gr, name, desired.rules)))
    ensures env.getErr(name).None? && desired.Present? && name in env.roles ==>
              if env.roles[name].rules == desired.rules then o == Outcome([], None)
              else o == Outcome([Update(env.roles[name].(rules := desired.rules))], env.updateErr(env.roles[name].(rules := desired.rules)))
  {
    if env.getErr(name).Some? then Outcome([], env.getErr(name))
    else match desired
      case Untouched => Outcome([], None)
      case Absent =>
        if name in env.roles then Outcome([Delete(name)], env.deleteErr(name)) else Outcome([], None)
      case Present(rules) =>
        if name !in env.roles then
          var cr := NewRole(env, gr, name, rules);
          Outcome([Create(cr)], env.createErr(cr))
        else if env.roles[name].rules == rules then Outcome([], None)
        else
          var cr := env.roles[name].(rules := rules);
          Outcome([Update(cr)], env.updateErr(cr))
  }

  function Prefixed(prefix: string, err: Option<string>): Option<string> {
    match err
    case None => None
    case Some(e) => Some(prefix + e)
  }

  /** What the cluster-rules role should be. */
  function DesiredClusterRules(gr: GlobalRole): Desired {
    match gr.inherited
    case None => Absent
    case Some(p) => Present(p.resourceRules)
  }

  /** What the workspace-verbs role should be, given the workspaces. */
  function DesiredVerbs(gr: GlobalRole, workspaces: seq<string>): Desired {
    match gr.inherited
    case None => Absent
    case Some(p) =>
      var names := NonLocal(workspaces);
      if |names| == 0 then Untouched else Present([VerbsRule(p.workspaceVerbs, names)])
  }

  /** `reconcileFleetWorkspacePermissions`: the cluster-rules role first, and
      on success the workspace-verbs role. Workspaces are listed only when
      the GlobalRole has inherited permissions. */
  function ReconcileFleetWorkspacePermissions(env: Env, gr: GlobalRole): (o: Outcome)
    ensures var first := ReconcileRole(env, gr, ClusterRulesName(env, gr), DesiredClusterRules(gr));
            first.err.Some? ==> o == Outcome(first.actions, Some(ErrorPrefix + first.err.value))
    ensures |o.actions| <= 2
  {
    var first := ReconcileRole(env, gr, ClusterRulesName(env, gr), DesiredClusterRules(gr));
    if first.err.Some? then Outcome(first.actions, Prefixed(ErrorPrefix, first.err))
    else
      var desired :=
        if gr.inherited.None? then Ok(Absent)
        else match env.workspaces
          case Err(e) => Err(e)
          case Ok(ws) => Ok(DesiredVerbs(gr, ws));
      match desired
      case Err(e) => Outcome(first.actions, Some(env.verbsErrorPrefix + e))
      case Ok(d) =>
        var second := ReconcileRole(env, gr, VerbsName(env, gr), d);
        Outcome(first.actions + second.actions, Prefixed(env.verbsErrorPrefix, second.err))
  }

  /** The API never fails. */
  ghost predicate Healthy(env: Env) {
    && (forall n :: env.getErr(n).None?)
    && (forall cr :: env.createErr(cr).None? && env.updateErr(cr).None?)
    && (forall n :: env.deleteErr(n).None?)
    && env.workspaces.Ok?
  }

  /** Every ClusterRole is stored under its own name. */
  ghost predicate WellKeyed(roles: map<string, ClusterRole>) {
    forall n :: n in roles ==> roles[n].name == n
  }

  /** The two backing roles have different names. */
  predicate DistinctNames(env: Env, gr: GlobalRole) {
    ClusterRulesName(env, gr) != VerbsName(env, gr)
  }

  /** A new GlobalRole with permissions and a workspace besides fleet-local:
      both backing roles are created, the cluster-rules role first, the
      verbs role granting the verbs on the non-local workspaces. */
  lemma CreatesBoth(env: Env, gr: GlobalRole)
    requires Healthy(env) && gr.inherited.Some?
    requires ClusterRulesName(env, gr) !in env.roles && VerbsName(env, gr) !in env.roles
    requires |NonLocal(env.workspaces.value)| > 0
    ensures var p := gr.inherited.value;
            ReconcileFleetWorkspacePermissions(env, gr) == Outcome(
              [Create(NewRole(env, gr, ClusterRulesName(env, gr), p.resourceRules)),
               Create(NewRole(env, gr, VerbsName(env, gr), [VerbsRule(p.workspaceVerbs, NonLocal(env.workspaces.value))]))],
              None)
  {
  }

  /** Both roles present with the rules they should have: nothing is
      created, updated or deleted. */
  lemma UnchangedIsNoop(env: Env, gr: GlobalRole)
    requires Healthy(env) && gr.inherited.Some?
    requires |NonLocal(env.workspaces.value)| > 0
    requires ClusterRulesName(env, gr) in env.roles && VerbsName(env, gr) in env.roles
    requires env.roles[ClusterRulesName(env, gr)].rules == gr.inherited.value.resourceRules
    requires env.roles[VerbsName(env, gr)].rules == [VerbsRule(gr.inherited.value.workspaceVerbs, NonLocal(env.workspaces.value))]
    ensures ReconcileFleetWorkspacePermissions(env, gr) == Outcome([], None)
  {
  }

  /** Changed rules are written with Update on the existing object, only its
      rules replaced. */
  lemma ChangedRulesUpdate(env: Env, gr: GlobalRole)
    requires Healthy(env) && gr.inherited.Some?
    requires ClusterRulesName(env, gr) in env.roles
    requires env.roles[ClusterRulesName(env, gr)].rules != gr.inherited.value.resourceRules
    ensures var existing := env.roles[ClusterRulesName(env, gr)];
            var o := ReconcileFleetWorkspacePermissions(env, gr);
            |o.actions| >= 1 && o.actions[0] == Update(existing.(rules := gr.inherited.value.resourceRules))
  {
  }

  /** With only fleet-local, the verbs role is not created. */
  lemma OnlyLocalWorkspace(env: Env, gr: GlobalRole)
    requires Healthy(env) && gr.inherited.Some?
    requires ClusterRulesName(env, gr) !in env.roles && VerbsName(env, gr) !in env.roles
    requires forall k :: 0 <= k < |env.workspaces.value| ==> env.workspaces.value[k] == FleetLocal
    ensures ReconcileFleetWorkspacePermissions(env, gr) ==
              Outcome([Create(NewRole(env, gr, ClusterRulesName(env, gr), gr.inherited.value.resourceRules))], None)
  {
    assert NonLocal(env.workspaces.value) == [] by {
      if |NonLocal(env.workspaces.value)| > 0 {
        assert NonLocal(env.workspaces.value)[0] in NonLocal(env.workspaces.value);
      }
    }
  }

  /** Without inherited permissions, existing backing roles are deleted and
      absent ones are left alone. */
  lemma NoPermissionsDeletes(env: Env, gr: GlobalRole)
    requires Healthy(env) && gr.inherited.None?
    ensures ReconcileFleetWorkspacePermissions(env, gr).err.None?
    ensures ReconcileFleetWorkspacePermissions(env, gr).actions ==
              (if ClusterRulesName(env, gr) in env.roles then [Delete(ClusterRulesName(env, gr))] else []) +
              (if VerbsName(env, gr) in env.roles then [Delete(VerbsName(env, gr))] else [])
  {
  }

  /** An error on the cluster-rules role stops the pass, whatever the
      operation was: nothing is done to the verbs role. */
  lemma ClusterRulesErrorStops(env: Env, gr: GlobalRole)
    requires DistinctNames(env, gr) && WellKeyed(env.roles)
    requires ReconcileRole(env, gr, ClusterRulesName(env, gr), DesiredClusterRules(gr)).err.Some?
    ensures var o := ReconcileFleetWorkspacePermissions(env, gr);
            && o.err.Some? && |o.err.value| >= |ErrorPrefix| && o.err.value[..|ErrorPrefix|] == ErrorPrefix
            && forall k :: 0 <= k < |o.actions| ==>
                 (!(o.actions[k].Delete? && o.actions[k].name == VerbsName(env, gr)) &&
                  (o.actions[k].Delete? || o.actions[k].role.name == ClusterRulesName(env, gr)))
  {
  }

  /** The cluster after the actions have been carried out. */
  function Perform(roles: map<string, ClusterRole>, actions: seq<Action>): map<string, ClusterRole>
    decreases |actions|
  {
    if |actions| == 0 then roles
    else
      var a := actions[0];
      var next := match a
        case Create(cr) => roles[cr.name := cr]
        case Update(cr) => roles[cr.name := cr]
        case Delete(n) => roles - {n};
      Perform(next, actions[1..])
  }

  /** Convergence: on a healthy API, once the actions of one pass have been
      carried out, a second pass has nothing left to do. */
  lemma ReconcileConverges(env: Env, gr: GlobalRole)
    requires Healthy(env) && DistinctNames(env, gr) && WellKeyed(env.roles)
    ensures var o := ReconcileFleetWorkspacePermissions(env, gr);
            ReconcileFleetWorkspacePermissions(env.(roles := Perform(env.roles, o.actions)), gr).actions == []
  {
    var o := ReconcileFleetWorkspacePermissions(env, gr);
    var a := ClusterRulesName(env, gr);
    var b := VerbsName(env, gr);
    var first := ReconcileRole(env, gr, a, DesiredClusterRules(gr));
    var after1 := Perform(env.roles, first.actions);
    var env1 := env.(roles := after1);
    RoleSettles(env, gr, a, DesiredClusterRules(gr));
    var d := if gr.inherited.None? then Absent else DesiredVerbs(gr, env.workspaces.value);
    var second := ReconcileRole(env1, gr, b, d);
    assert ReconcileRole(env, gr, b, d) == second by {
      assert (b in env.roles) == (b in after1);
      assert b in env.roles ==> env.roles[b] == after1[b];
    }
    PerformAppend(env.roles, first.actions, second.actions);
    RoleSettles(env1, gr, b, d);
    var env2 := env.(roles := Perform(after1, second.actions));
    assert (a in env2.roles) == (a in after1) && (a in after1 ==> env2.roles[a] == after1[a]);
    assert ReconcileRole(env2, gr, a, DesiredClusterRules(gr)) == ReconcileRole(env1, gr, a, DesiredClusterRules(gr));
  }

  lemma {:induction false} PerformAppend(roles: map<string, ClusterRole>, xs: seq<Action>, ys: seq<Action>)
    ensures Perform(roles, xs + ys) == Perform(Perform(roles, xs), ys)
    decreases |xs|
  {
    if |xs| > 0 {
      assert (xs + ys)[1..] == xs[1..] + ys;
      var a := xs[0];
      var next := match a
        case Create(cr) => roles[cr.name := cr]
        case Update(cr) => roles[cr.name := cr]
        case Delete(n) => roles - {n};
      PerformAppend(next, xs[1..], ys);
    } else {
      assert xs + ys == ys;
    }
  }

  /** One role's actions touch only that role, and leave it as desired. */
  lemma RoleSettles(env: Env, gr: GlobalRole, name: string, desired: Desired)
    requires Healthy(env) && WellKeyed(env.roles)
    ensures var o := ReconcileRole(env, gr, name, desired);
            var after := Perform(env.roles, o.actions);
            && (forall n :: n != name ==> (n in after <==> n in env.roles) && (n in after ==> after[n] == env.roles[n]))
            && WellKeyed(after)
            && ReconcileRole(env.(roles := after), gr, name, desired).actions == []
  {
    var o := ReconcileRole(env, gr, name, desired);
    assert |o.actions| <= 1;
    if |o.actions| == 1 {
      assert o.actions[1..] == [];
    }
  }
}
