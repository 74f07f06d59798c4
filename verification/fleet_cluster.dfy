/** The agent-customization mapping of the provisioning `createCluster`
    handler (pkg/controllers/provisioningv2/fleetcluster), as its tests pin
    it: the fleet Cluster written for a provisioning cluster takes its agent
    affinity, resources and tolerations from the management cluster's
    `FleetAgentDeploymentCustomization`, and the local (internal) cluster
    also gets its default cluster group. The management-cluster cache is an
    input. */
module FleetCluster {
  import opened Wrappers

  const AgentLabel := "fleet.cattle.io/agent"

  datatype NodeSelectorOp = OpIn | OpOther(op: string)
  datatype Requirement = Requirement(key: string, operator: NodeSelectorOp, values: seq<string>)
  datatype PreferredTerm = PreferredTerm(weight: int, matchExpressions: seq<Requirement>)
  datatype Affinity = Affinity(preferred: seq<PreferredTerm>, required: seq<seq<Requirement>>)

  /** Quantities are kept as their text (`"1"`, `"1Gi"`). */
  datatype Resources = Resources(limits: map<string, string>, requests: map<string, string>)
  datatype Toleration = Toleration(key: string, operator: string, value: string)

  /** `Option` models a Go pointer or slice that may be nil; nil and empty
      slices are told apart, as the comparisons in the tests do. */
  datatype Customization = Customization(
    overrideAffinity: Option<Affinity>,
    overrideResources: Option<Resources>,
    appendTolerations: Option<seq<Toleration>>)

  datatype MgmtCluster = MgmtCluster(
    name: string,
    labels: map<string, string>,
    internal: bool,
    fleetAgentCustomization: Option<Customization>)

  datatype ProvCluster = ProvCluster(name: string, namespace: string)
  datatype ClusterStatus = ClusterStatus(clusterName: string, clientSecretName: string)

  datatype AgentSpec = AgentSpec(
    agentAffinity: Affinity,
    agentResources: Option<Resources>,
    agentTolerations: Option<seq<Toleration>>)

  /** What `createCluster` returns: the fleet Cluster first, then, for the
      local cluster only, its cluster group. */
  datatype Object = FleetClusterObject(cluster: ProvCluster, spec: AgentSpec) | LocalClusterGroup

  /** The built-in agent affinity: prefer, with weight 1, nodes labelled
      `fleet.cattle.io/agent=true`. */
  const BuiltinAffinity := Affinity([PreferredTerm(1, [Requirement(AgentLabel, OpIn, ["true"])])], [])

  /** The agent settings derived from a management cluster. */
  function AgentSettings(mgmt: MgmtCluster): (s: AgentSpec)
    ensures mgmt.fleetAgentCustomization.None? ==> s == AgentSpec(BuiltinAffinity, None, None)
    ensures mgmt.fleetAgentCustomization.Some? ==>
              var c := mgmt.fleetAgentCustomization.value;
              && (c.overrideAffinity.Some? ==> s.agentAffinity == c.overrideAffinity.value)
              && (c.overrideAffinity.None? ==> s.agentAffinity == BuiltinAffinity)
              && s.agentResources == c.overrideResources
              && s.agentTolerations == c.appendTolerations
  {
    match mgmt.fleetAgentCustomization
    case None => AgentSpec(BuiltinAffinity, None, None)
    case Some(c) =>
      AgentSpec(
        if c.overrideAffinity.Some? then c.overrideAffinity.value else BuiltinAffinity,
        c.overrideResources,
        c.appendTolerations)
  }

  /** `createCluster(cluster, status)`: the management cluster named by the
      status is looked up through `getCluster`; its failure is returned. */
  function CreateCluster(getCluster: string -> Result<MgmtCluster>, cluster: ProvCluster, status: ClusterStatus): (r: Result<seq<Object>>)
    ensures getCluster(status.clusterName).Err? <==> r.Err?
    ensures r.Err? ==> r.error == getCluster(status.clusterName).error
    ensures r.Ok? ==>
              var mgmt := getCluster(status.clusterName).value;
              && |r.value| == (if mgmt.internal then 2 else 1)
              && r.value[0] == FleetClusterObject(cluster, AgentSettings(mgmt))
              && (mgmt.internal ==> r.value[1] == LocalClusterGroup)
  {
    match getCluster(status.clusterName)
    case Err(e) => Err(e)
    case Ok(mgmt) =>
      Ok([FleetClusterObject(cluster, AgentSettings(mgmt))] + (if mgmt.internal then [LocalClusterGroup] else []))
  }

  /** The one fleet Cluster among the returned objects. */
  function FleetSpecOf(objs: seq<Object>): (s: Option<AgentSpec>)
    ensures s.Some? <==> exists k :: 0 <= k < |objs| && objs[k].FleetClusterObject?
    ensures s.Some? ==> exists k :: 0 <= k < |objs| && objs[k].FleetClusterObject? && objs[k].spec == s.value
  {
    if |objs| == 0 then None
    else if objs[0].FleetClusterObject? then Some(objs[0].spec)
    else
      var rest := FleetSpecOf(objs[1..]);
      assert forall k :: 1 <= k < |objs| ==> objs[k] == objs[1..][k - 1];
      rest
  }

  /** Whatever the customization, exactly one fleet Cluster is produced;
      its affinity is the built-in one exactly when no override is given,
      and the resources and tolerations are those of the customization,
      unchanged. */
  lemma AgentAffinityDefaultsToBuiltin(getCluster: string -> Result<MgmtCluster>, cluster: ProvCluster, status: ClusterStatus, c: Customization)
    requires getCluster(status.clusterName).Ok?
    requires getCluster(status.clusterName).value.fleetAgentCustomization == Some(c)
    requires c.overrideAffinity != Some(BuiltinAffinity)
    ensures var r := CreateCluster(getCluster, cluster, status);
            && r.Ok? && FleetSpecOf(r.value).Some?
            && (FleetSpecOf(r.value).value.agentAffinity == BuiltinAffinity <==> c.overrideAffinity.None?)
            && FleetSpecOf(r.value).value.agentResources == c.overrideResources
            && FleetSpecOf(r.value).value.agentTolerations == c.appendTolerations
  {
    var r := CreateCluster(getCluster, cluster, status);
    assert r.value[0].FleetClusterObject?;
  }

  /** The test clusters: no customization; an affinity override with empty
      resources and tolerations; custom resources and tolerations without an
      affinity override. */
  lemma TestClusterCustomization(linux: Affinity, req: Resources, tols: seq<Toleration>, labels: map<string, string>)
    requires linux.preferred == []
    ensures var none := MgmtCluster("cluster-name", labels, false, None);
            AgentSettings(none) == AgentSpec(BuiltinAffinity, None, None)
    ensures var over := MgmtCluster("cluster-name", labels, false,
                                    Some(Customization(Some(linux), Some(Resources(map[], map[])), Some([]))));
            AgentSettings(over) == AgentSpec(linux, Some(Resources(map[], map[])), Some([]))
            && AgentSettings(over).agentAffinity != BuiltinAffinity
    ensures var custom := MgmtCluster("cluster-name", labels, false, Some(Customization(None, Some(req), Some(tols))));
            AgentSettings(custom) == AgentSpec(BuiltinAffinity, Some(req), Some(tols))
  {
  }
}
