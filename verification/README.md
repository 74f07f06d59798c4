# Rancher authorization and provisioning core, modelled in Dafny

This project models, as pure Dafny functions over immutable data, the
decision logic of a set of Rancher controllers, API handlers and helpers.

- **ClusterRoleTemplateBinding lifecycle** (`CrtbHandler`). This is the
  management controller that turns a cluster role binding (CRTB) into
  membership bindings and management-plane privileges. As it goes it
  records one status condition per step and settles a summary
  (InProgress, Completed, Error, Terminating). It has three handlers:
  Create, Updated and Remove.
- **Cluster of a binding** (`AuthzTypes`). A project-role binding (PRTB)
  finds its cluster from the "<cluster>:<project>" project name.
- **Cluster view binding for PRTBs** (`PrtbHandler`). The provisioning-v2
  handler grants a PRTB's subject the "r-cluster-<name>-view" Role.
- **LDAP provider** (`LdapProvider`). This covers the provider scopes, the
  parsing of principal ids, and how search results are flagged "me" and
  "member of".
- **Multi-cluster app actions** (`MultiClusterApp`). These are rollback,
  addProjects, removeProjects, and the checks they share.
- **Preference store transform** (`PreferenceStore`). It strips the
  namespace from a preference id.
- **Jail clean-up cron** (`JailSync`). It deletes the jail directories of
  clusters that no longer exist.
- **Start-up helpers** (`RancherApp`). These are the local-cluster
  decision and the alternate-command registry.
- **PSA label helpers of the RBAC validation suite** (`RbacLabels`).
- **Helm manifest cleaner** (`HelmCleaner`). It rewrites or drops
  deprecated APIs once the cluster's Kubernetes version has reached their
  removal release.
- **Fleet workspace backing roles** (`FleetWorkspaceRoles`). This covers
  how the backing ClusterRoles of a GlobalRole's fleet-workspace
  permissions are reconciled.
- **Principal attachment** (`UserManager`). A login principal is attached
  to a user without taking it from another user.
- **Fleet agent customization** (`FleetCluster`). This is the
  agent-customization mapping of the provisioning fleet-cluster handler.

The Kubernetes API, listers, clients and caches do not appear as code.
They become inputs: record fields of function type, named `Env` in each
module, that answer each lookup or write with a value or an error. Every
side effect a handler issues is returned as data (a list of calls or
actions) next to the error it returns.

Shared definitions live in three modules:
- `Wrappers` defines `Option` and `Result`.
- `Text` models the Go `strings` functions the code uses, such as
  `SplitN(s, sep, 2)`, `Split`, `TrimPrefix`, `HasPrefix`, `HasSuffix`,
  `Contains` and ASCII `ToLower`.
- `StatusConditions` models the status-condition helpers of the CRTB
  controller.

## Model

| member | source | states |
|---|---|---|
| StatusConditions.RemoveConditions | pkg/controllers/management/auth/crtb_handler.go:412-416 | no more conditions than before; every kept condition has a type outside the managed set and came from the input, and every input condition of another type is kept |
| StatusConditions.RemoveConditionsInOrder | pkg/controllers/management/auth/crtb_handler.go:412-416 | removal equals a filter built independently from the end of the list, so the other conditions keep their order and multiplicity |
| StatusConditions.RemoveConditionsIdempotent | pkg/controllers/management/auth/crtb_handler.go:412-416 | wiping the local conditions twice is the same as wiping them once |
| StatusConditions.RemoveConditionsNone | pkg/controllers/management/auth/crtb_handler.go:412-416 | a list holding only remote conditions is kept as it is |
| StatusConditions.RemoveConditionsAppend | pkg/controllers/management/auth/crtb_handler.go:412-416 | removal distributes over concatenation, so conditions appended later are filtered independently |
| CrtbHandler.MakeCondition | pkg/controllers/management/auth/crtb_handler.go:464-475 | a step's condition is True with "<name> created" on success and False with "<name> not created: <err>" on failure |
| CrtbHandler.AddCondition | pkg/controllers/management/auth/crtb_handler.go:464-475 | addCondition appends exactly one condition and changes nothing else in the binding |
| CrtbHandler.SetInProgress | pkg/controllers/management/auth/crtb_handler.go:412-426 | wipes the local conditions, keeps the remote ones, sets summary InProgress, writes the status, and returns the write's error |
| CrtbHandler.CompletedSummary | pkg/controllers/management/auth/crtb_handler.go:428-443 | the summary only ever moves to Error or Completed, and moves to Completed only when every condition is True and every success reason is present; Error if any condition is not True, otherwise Completed when every success reason is present, otherwise unchanged |
| CrtbHandler.SetCompleted | pkg/controllers/management/auth/crtb_handler.go:428-454 | settles the summary, records the observed generation, keeps the conditions, and writes the status |
| CrtbHandler.SetTerminating | pkg/controllers/management/auth/crtb_handler.go:456-462 | clears every condition, sets summary Terminating, and writes the status |
| CrtbHandler.FirstWithSuffix | pkg/controllers/management/auth/crtb_handler.go:173-178 | the index of the first principal id ending in the user name, and None only when no id does |
| CrtbHandler.ReconcileSubject | pkg/controllers/management/auth/crtb_handler.go:145-186 | records exactly one SubjectExists-typed condition, which is True exactly when no error is returned |
| CrtbHandler.ReconcileSubjectKnown | pkg/controllers/management/auth/crtb_handler.go:148-152 | a binding naming a group, or both a user and a user principal, succeeds without any lookup |
| CrtbHandler.ReconcileSubjectMissing | pkg/controllers/management/auth/crtb_handler.go:183-185 | a binding with no subject fails with "ClusterRoleTemplateBinding <name> has no subject" and reason FailedToGetSubject |
| CrtbHandler.ReconcileSubjectByUserName | pkg/controllers/management/auth/crtb_handler.go:167-181 | a user-only binding takes the first of the user's principal ids that ends in the user name, or stays unchanged if none does |
| CrtbHandler.ReconcileSubjectByPrincipal | pkg/controllers/management/auth/crtb_handler.go:154-165 | a principal-only binding gets the name of the user that EnsureUser returns |
| CrtbHandler.MembershipRoleName | pkg/controllers/management/auth/crtb_handler.go:218-223 | the lower-cased "<cluster>-clusterowner" or "<cluster>-clustermember" role name |
| CrtbHandler.MembershipRoleNamesDiffer | pkg/controllers/management/auth/crtb_handler.go:218-223 | the owner and member role names of one cluster never coincide |
| CrtbHandler.GrantInProjects | pkg/controllers/management/auth/crtb_handler.go:246-255 | when no grant fails, exactly the grants for the projects not being deleted are issued, in order |
| CrtbHandler.GrantCallsSkipDeleting | pkg/controllers/management/auth/crtb_handler.go:246-250 | every grant issued is for a project that is not being deleted |
| CrtbHandler.ReconcileBindings | pkg/controllers/management/auth/crtb_handler.go:193-259 | records exactly one LocalBindingsExist-typed condition, True exactly on success, carrying the binding's name |
| CrtbHandler.ReconcileBindingsRoleName | pkg/controllers/management/auth/crtb_handler.go:213-233 | the membership binding is requested for the owner role name exactly when the role template is an owner role |
| CrtbHandler.ReconcileBindingsSuccessGrants | pkg/controllers/management/auth/crtb_handler.go:241-258 | on success every live project in the binding's namespace was granted and no project being deleted was |
| CrtbHandler.JoinErr | pkg/controllers/management/auth/crtb_handler.go:358 | the joined error is nil exactly when both parts are nil |
| CrtbHandler.UpdateCrbs | pkg/controllers/management/auth/crtb_handler.go:341-359 | every legacy CRB is relabelled; the joined error is nil only if every update succeeded; earlier conditions are kept |
| CrtbHandler.UpdateRbs | pkg/controllers/management/auth/crtb_handler.go:368-383 | every legacy RB is relabelled; the joined error is nil only if every update succeeded |
| CrtbHandler.ReconcileLabels | pkg/controllers/management/auth/crtb_handler.go:314-408 | keeps the earlier conditions as a prefix, records at least one more, and makes marking the CRTB its last call |
| CrtbHandler.ReconcileLabelsAlreadyMigrated | pkg/controllers/management/auth/crtb_handler.go:322-325 | a binding already labelled as migrated only records LocalLabelsSet, with no lookup or write |
| CrtbHandler.ReconcileLabelsMarksOnlyAfterAllUpdates | pkg/controllers/management/auth/crtb_handler.go:384-407 | the CRTB is marked only after both listings and every CRB and RB update succeeded, and the step then returns the mark's error |
| CrtbHandler.LabelsSuccessMarks | pkg/controllers/management/auth/crtb_handler.go:384-407 | a label migration that succeeds on a binding not yet migrated has written the migration mark |
| CrtbHandler.DeleteMembershipStep | pkg/controllers/management/auth/crtb_handler.go:261-271 | on failure records the failed condition and then also the OK condition, and returns the error |
| CrtbHandler.RemoveAuthV2Step | pkg/controllers/management/auth/crtb_handler.go:273-283 | the same failure-then-OK recording for the auth-provisioning-v2 permissions |
| CrtbHandler.DeleteRbsIn | pkg/controllers/management/auth/crtb_handler.go:301-307 | deletes the owned role bindings of one project namespace in order, stopping at the first failure and returning its error |
| CrtbHandler.DeleteProjectRbsOnlyOwned | pkg/controllers/management/auth/crtb_handler.go:293-308 | removal deletes only role bindings that a listing showed as owned by the binding, in one of the listed projects |
| CrtbHandler.DeleteProjectRbsAllOwned | pkg/controllers/management/auth/crtb_handler.go:293-308 | when removal succeeds, every project was listed and every role binding it showed as owned was deleted |
| CrtbHandler.DeleteProjectRbsFailure | pkg/controllers/management/auth/crtb_handler.go:296-306 | a failed removal returns either a project listing's error or the error of the delete it issued last |
| CrtbHandler.RemoveProjectPrivilegesStep | pkg/controllers/management/auth/crtb_handler.go:285-312 | records exactly one LocalCRTBDeleteOk-typed condition, True exactly on success; a failed project listing deletes nothing; only owned role bindings of the listed projects are deleted, and on success all of them are |
| CrtbHandler.RunSteps | pkg/controllers/management/auth/crtb_handler.go:92-102 | steps run in order on the binding the previous step left, stopping at and returning the first error |
| CrtbHandler.Create | pkg/controllers/management/auth/crtb_handler.go:83-103 | a binding with nothing to do is returned untouched with no calls; otherwise the first call writes an InProgress status |
| CrtbHandler.NothingToDo | pkg/controllers/management/auth/crtb_handler.go:87-91 | a binding with every local success condition is skipped; one still InProgress, or whose generation was not yet observed, is reconciled unless every local success is present |
| CrtbHandler.Updated | pkg/controllers/management/auth/crtb_handler.go:105-129 | the same guard and first call as Create |
| CrtbHandler.Remove | pkg/controllers/management/auth/crtb_handler.go:131-143 | the object is returned only when the terminating status write fails, with that error; every later exit returns nil |
| CrtbHandler.StepKeepsPrefix | pkg/controllers/management/auth/crtb_handler.go:464-475 | every step except setCRTBAsInProgress only appends conditions and leaves the metadata and cluster name alone |
| CrtbHandler.RunStepsKeepsPrefix | pkg/controllers/management/auth/crtb_handler.go:95-102 | a sequence of such steps keeps the conditions already present as a prefix |
| CrtbHandler.RunStepsUnfold | pkg/controllers/management/auth/crtb_handler.go:92-102 | a run without error runs its first step without error and then the rest from where that step left the binding |
| CrtbHandler.CreateSucceeds | pkg/controllers/management/auth/crtb_handler.go:83-103 | a successful Create keeps the remote conditions, adds True SubjectExists and LocalBindingsExist, records the generation, and sets the summary Error exactly when some condition is False |
| CrtbHandler.RunStepsSuffix | pkg/controllers/management/auth/crtb_handler.go:115-128 | a successful run that ends with setCRTBAsCompleted records the binding's generation |
| CrtbHandler.UpdatedRecordsGeneration | pkg/controllers/management/auth/crtb_handler.go:105-129 | a successful Updated records the generation it observed |
| CrtbHandler.UpdatedMigratesLabels | pkg/controllers/management/auth/crtb_handler.go:121-123 | after a successful Updated the binding was already migrated or the migration mark was written |
| CrtbHandler.LabelsStepMarks | pkg/controllers/management/auth/crtb_handler.go:115-128 | any successful run whose third step is the label migration, after the in-progress and subject steps, has migrated the labels or written the mark |
| CrtbHandler.UpdatedKeepsRemoteConditions | pkg/controllers/management/auth/crtb_handler.go:412-416 | whatever its outcome, Updated keeps the conditions it does not manage in front of those it records |
| CrtbHandler.RemoveMembershipFailure | pkg/controllers/management/auth/crtb_handler.go:131-137 | a failed membership removal returns nil and the error, and leaves a False condition followed by a True one |
| CrtbHandler.RemoveAuthV2Failure | pkg/controllers/management/auth/crtb_handler.go:138-142 | a failed auth-v2 removal leaves four conditions, the last two False and then True |
| AuthzTypes.PrtbClusterName | pkg/apis/management.cattle.io/v3/authz_types.go:253-258 | the cluster part before the first ':' of the project name, or "" when there is no ':' |
| AuthzTypes.PrtbClusterNameOfJoined | pkg/apis/management.cattle.io/v3/authz_types.go:253-258 | for every cluster name without ':' and any project id, the cluster is recovered from "<cluster>:<project>" |
| AuthzTypes.PrtbAndProjectAgree | pkg/apis/management.cattle.io/v3/authz_types.go:39-41 | a PRTB named after its project reports the same cluster as the project |
| AuthzTypes.ProjectSpecClusterName | pkg/apis/management.cattle.io/v3/authz_types.go:74-76 | a project spec names its cluster directly |
| AuthzTypes.ProjectClusterName | pkg/apis/management.cattle.io/v3/authz_types.go:39-41 | a project delegates to its spec, so it reports the spec's cluster name |
| AuthzTypes.CrtbClusterName | pkg/apis/management.cattle.io/v3/authz_types.go:277-279 | a CRTB reports its ClusterName field unchanged |
| AuthzTypes.ContextName | pkg/apis/management.cattle.io/v3/authz_types.go:170-173 | the stored string of a role-template context; only the "no context" context is stored as "" |
| AuthzTypes.ParseContext | pkg/apis/management.cattle.io/v3/authz_types.go:170-173 | a string that parses is the stored form of the context it parses to |
| AuthzTypes.ValidContextValues | pkg/apis/management.cattle.io/v3/authz_types.go:170-173 | a role-template context is valid exactly when it is "project", "cluster" or "" |
| AuthzTypes.ValidContext | pkg/apis/management.cattle.io/v3/authz_types.go:170-173 | a string is a valid context exactly when it is the name of one of the three contexts |
| AuthzTypes.ContextRoundTrip | pkg/apis/management.cattle.io/v3/authz_types.go:170-173 | every context parses back from its stored string |
| PrtbHandler.ClusterViewBinding | pkg/controllers/management/authprovisioningv2/prtb.go:53-88 | the RoleBinding lives in the cluster's namespace, is owned by the cluster, binds the one subject, and refers to the view Role |
| PrtbHandler.ClusterViewName | pkg/controllers/management/authprovisioningv2/prtb.go:90-92 | the view Role name is the shortened join of "r-cluster", the cluster name and "view" |
| PrtbHandler.EnsureClusterViewBinding | pkg/controllers/management/authprovisioningv2/prtb.go:53-88 | a subject that cannot be built is returned as the error with nothing applied; otherwise the view binding is applied |
| PrtbHandler.OnPrtb | pkg/controllers/management/authprovisioningv2/prtb.go:19-51 | returns the PRTB unchanged; skips deleted or subject-less PRTBs; reports a project name without ':'; requeues after 10 s when the cluster is missing; applies only the first cluster's view binding |
| PrtbHandler.Ignored | pkg/controllers/management/authprovisioningv2/prtb.go:20-22 | a missing, deleting or role-less PRTB is ignored; a handled one exists and names both a role template and a project |
| PrtbHandler.OnPrtbLooksUpObjCluster | pkg/controllers/management/authprovisioningv2/prtb.go:19-51 | the cluster looked up is the PRTB's own cluster name; with no cluster it requeues, and with one it applies that cluster's view binding |
| LdapProvider.Configure | pkg/auth/providers/ldap/ldap_provider.go:54-66 | the user and group scopes are the provider name followed by "_user" and "_group", and they differ |
| LdapProvider.SamlSearchProviderOnlyShibboleth | pkg/auth/providers/ldap/ldap_provider.go:289-294 | only the shibboleth provider is a SAML search provider |
| LdapProvider.SamlSearchProvider | pkg/auth/providers/ldap/ldap_provider.go:289-294 | only a provider named "shibboleth" is a SAML search provider; openldap and freeipa never are |
| LdapProvider.ParsePrincipalId | pkg/auth/providers/ldap/ldap_provider.go:278-286 | an error "invalid id <id>" exactly when there is no ':'; otherwise the scope before the first ':' and the rest with one leading "//" dropped |
| LdapProvider.ParsePrincipalIdRoundTrip | pkg/auth/providers/ldap/ldap_provider.go:278-286 | parsing inverts scope + "://" + external id, for any external id |
| LdapProvider.ParsePrincipalIdNoSlashes | pkg/auth/providers/ldap/ldap_provider.go:278-286 | without "//" the remainder is returned as it is |
| LdapProvider.UserScopeParsesBack | pkg/auth/providers/ldap/ldap_provider.go:54-66 | an id built on a configured provider's user scope parses back to that scope |
| LdapProvider.IsMemberOf | pkg/auth/providers/ldap/ldap_provider.go:212-219 | true exactly when some group of the token matches the principal on both name and type |
| LdapProvider.IsThisUserMeIgnoresFlags | pkg/auth/providers/ldap/ldap_provider.go:205-210 | the "me" test looks only at name, login name and type, and it is symmetric |
| LdapProvider.IsThisUserMe | pkg/auth/providers/ldap/ldap_provider.go:205-210 | two principals are the same user exactly when name, login name and type agree; every principal is itself |
| LdapProvider.Marked | pkg/auth/providers/ldap/ldap_provider.go:121-131 | a user principal gains Me exactly when it is the caller, a group gains MemberOf exactly when the caller is in it, and nothing else changes |
| LdapProvider.MarkAll | pkg/auth/providers/ldap/ldap_provider.go:121-131 | every principal is marked in place and the length is kept |
| LdapProvider.SearchPrincipalsAsWritten | pkg/auth/providers/ldap/ldap_provider.go:102-135 | with the range-copy loop the search result is returned unflagged, and no principals are returned without a connection |
| LdapProvider.SearchPrincipals | pkg/auth/providers/ldap/ldap_provider.go:102-135 | on a successful search every principal comes back marked; on a failed search the result comes back as it is; the error is never returned |
| LdapProvider.SearchPrincipalsLosesMe | pkg/auth/providers/ldap/ldap_provider.go:121-125 | a search that finds the caller does not flag Me as written, and does as intended |
| LdapProvider.SearchPrincipalsLosesMemberOf | pkg/auth/providers/ldap/ldap_provider.go:126-129 | a group the caller belongs to does not get MemberOf as written, and does as intended |
| LdapProvider.MarkAllAgreesWhenNothingMatches | pkg/auth/providers/ldap/ldap_provider.go:119-134 | when nothing in the result matches the token, the written and intended versions agree |
| MultiClusterApp.RollbackRevisionId | pkg/api/customization/multiclusterapp/multi_cluster_app.go:52-56 | an id that splits on ':' into exactly two parts is replaced by its second part; any other id is used whole |
| MultiClusterApp.RollbackRevisionIdQualified | pkg/api/customization/multiclusterapp/multi_cluster_app.go:52-56 | "<namespace>:<name>" yields the name |
| MultiClusterApp.RollbackRevisionIdTwoColons | pkg/api/customization/multiclusterapp/multi_cluster_app.go:52-56 | an id with two colons is looked up whole |
| MultiClusterApp.RollbackInputId | pkg/api/customization/multiclusterapp/multi_cluster_app.go:44-51 | a failed body read is returned wrapped in "reading request body error", a failed decode wrapped in "unmarshal input error", otherwise the decoded revision id |
| MultiClusterApp.RollbackRevision | pkg/api/customization/multiclusterapp/multi_cluster_app.go:52-60 | a body error stops before the lookup; otherwise the revision is looked up in the global namespace under the shortened id |
| MultiClusterApp.RollbackBadBody | pkg/api/customization/multiclusterapp/multi_cluster_app.go:44-51 | a bad body makes the rollback fail with its wrapped error and write nothing |
| MultiClusterApp.Rollback | pkg/api/customization/multiclusterapp/multi_cluster_app.go:43-72 | an unreadable or undecodable body, a failed revision lookup and a failed app lookup are each returned with nothing written; the app is written exactly when both lookups succeed and it does not already run the revision, and then it is the current app with the revision's template version and answers, with the error of the update |
| MultiClusterApp.RollbackToCurrentIsNoop | pkg/api/customization/multiclusterapp/multi_cluster_app.go:65-67 | rolling back to the revision already running writes nothing and returns no error |
| MultiClusterApp.RollbackKeepsTheRest | pkg/api/customization/multiclusterapp/multi_cluster_app.go:68-71 | a rollback changes only the template version and answers |
| MultiClusterApp.ToAnswers | pkg/api/customization/multiclusterapp/multi_cluster_app.go:197-203 | each input answer becomes one answer with its project, cluster and values, in order |
| MultiClusterApp.TargetNames | pkg/api/customization/multiclusterapp/multi_cluster_app.go:181-183 | the existing-projects set is exactly the project names of the targets |
| MultiClusterApp.FirstBadAnswer | pkg/api/customization/multiclusterapp/multi_cluster_app.go:212-219 | the first answer that is not scoped to an input project, or None when every answer is |
| MultiClusterApp.ValidateAnswers | pkg/api/customization/multiclusterapp/multi_cluster_app.go:204-220 | no error exactly when every answer names one of the input projects; otherwise the error of a rejected answer |
| MultiClusterApp.ModifyProjectsAsWritten | pkg/api/customization/multiclusterapp/multi_cluster_app.go:134-222 | rejects an id without ':', passes only admitted callers and valid answers, and always returns an empty role map |
| MultiClusterApp.ModifyProjects | pkg/api/customization/multiclusterapp/multi_cluster_app.go:134-222 | the same checks, the existing set from the targets, and the derived role map when roles are derived |
| MultiClusterApp.ModifyProjectsDifferOnlyInRoles | pkg/api/customization/multiclusterapp/multi_cluster_app.go:189-195 | the written and intended versions succeed together, fail with the same error, and differ only in the role map |
| MultiClusterApp.FirstDuplicate | pkg/api/customization/multiclusterapp/multi_cluster_app.go:89-94 | the first input project that is already a target or repeats an earlier input, or None when there is none |
| MultiClusterApp.NewTargets | pkg/api/customization/multiclusterapp/multi_cluster_app.go:97-99 | one target per input project, in order |
| MultiClusterApp.AddTo | pkg/api/customization/multiclusterapp/multi_cluster_app.go:87-109 | a duplicate fails with "duplicate projects in targets <p>"; nothing to add writes nothing; otherwise targets and answers are appended |
| MultiClusterApp.Finish | pkg/api/customization/multiclusterapp/multi_cluster_app.go:107-111 | an update is written and its error returned; with no update nothing is written |
| MultiClusterApp.AddProjectsAsWritten | pkg/api/customization/multiclusterapp/multi_cluster_app.go:82-112 | an app written after adding projects always carries an empty role map |
| MultiClusterApp.AddProjects | pkg/api/customization/multiclusterapp/multi_cluster_app.go:82-112 | a written app has passed the duplicate check, appends the new targets and answers to the old ones, and carries the role map modifyProjects returned |
| MultiClusterApp.AddProjectsDropsDerivedRoles | pkg/api/customization/multiclusterapp/multi_cluster_app.go:184-196 | with roles derived for the caller, the written version stores an empty map and the intended version stores the derived one |
| MultiClusterApp.RemoveProjects | pkg/api/customization/multiclusterapp/multi_cluster_app.go:114-132 | a failed check writes nothing; otherwise the app is written with the listed projects removed from the targets |
| MultiClusterApp.Without | pkg/api/customization/multiclusterapp/multi_cluster_app.go:120-130 | keeps exactly the targets whose project is not listed |
| MultiClusterApp.WithoutKeepsOrder | pkg/api/customization/multiclusterapp/multi_cluster_app.go:125-129 | the kept targets are a subsequence of the old ones |
| MultiClusterApp.WithoutNothing | pkg/api/customization/multiclusterapp/multi_cluster_app.go:125-129 | removing no projects keeps every target |
| MultiClusterApp.RemoveUndoesAdd | pkg/api/customization/multiclusterapp/multi_cluster_app.go:97-99 | removing the projects just added gives back the old targets |
| MultiClusterApp.WithoutNew | pkg/api/customization/multiclusterapp/multi_cluster_app.go:122-129 | removing every project of a list of new targets leaves none |
| MultiClusterApp.ActionHandler | pkg/api/customization/multiclusterapp/multi_cluster_app.go:37-80 | a lookup failure is returned; an unknown action fails with "bad action for multiclusterapp <action>"; rollback and removeProjects run as modelled, and addProjects runs as written, with the shadowed role map |
| MultiClusterApp.ActionHandlerIntended | pkg/api/customization/multiclusterapp/multi_cluster_app.go:73-74 | the dispatcher with the corrected addProjects; every other action dispatches as the written one does |
| MultiClusterApp.AddToDifferOnlyInRoles | pkg/api/customization/multiclusterapp/multi_cluster_app.go:87-106 | the update built from a modification depends on its role map only through the new app's own role map |
| MultiClusterApp.AddProjectsDifferOnlyInRoles | pkg/api/customization/multiclusterapp/multi_cluster_app.go:82-112 | addProjects as written and as intended writes on the same inputs, returns the same result when nothing is written, and writes apps that differ only in their role map |
| MultiClusterApp.ActionHandlersDifferOnlyInRoles | pkg/api/customization/multiclusterapp/multi_cluster_app.go:37-80 | as written and as intended the dispatcher writes on the same inputs, returns the same result when nothing is written, and writes apps that differ only in their role map |
| PreferenceStore.Transform | pkg/api/store/preference/store.go:31-45 | nil stays nil; otherwise the id loses one "<namespaceId>:" prefix, name equals id, and other fields are unchanged |
| PreferenceStore.TransformStripsNamespace | pkg/api/store/preference/store.go:36-42 | "<ns>:<name>" is shown as "<name>" in both id and name, whatever the name holds |
| PreferenceStore.TransformStripsOnce | pkg/api/store/preference/store.go:39 | only one namespace prefix is removed |
| PreferenceStore.TransformWithoutPrefix | pkg/api/store/preference/store.go:39-42 | an id without the prefix is kept, and transforming again changes nothing |
| JailSync.Selected | pkg/cron/jailsync.go:71-88 | the selected names are at most the listed entries |
| JailSync.SelectedExactly | pkg/cron/jailsync.go:71-88 | a name is selected exactly when it is a readable directory, not the driver jail, and has no cluster |
| JailSync.ShouldRemove | pkg/cron/jailsync.go:72-84 | plain files, the driver jail and the jail of a known cluster are never removed; every other directory is |
| JailSync.NeverSelected | pkg/cron/jailsync.go:74-80 | the driver jail, plain files and directories of existing clusters are never removed |
| JailSync.ClusterSet | pkg/cron/jailsync.go:53-56 | the cluster map's keys are exactly the listed cluster names |
| JailSync.Failures | pkg/cron/jailsync.go:81-85 | at most one warning per removal attempted |
| JailSync.SyncJails | pkg/cron/jailsync.go:46-89 | removes exactly the selected jails in listing order, warns once for each failed removal, and carries on after a failure |
| JailSync.SyncJailsAsWritten | pkg/cron/jailsync.go:62-72 | the pass panics exactly when some entry's information could not be read; otherwise it attempts exactly the selected jails |
| JailSync.VanishedEntryStopsPass | pkg/cron/jailsync.go:63-72 | an unreadable entry ahead of a stale jail stops the written pass before any removal, while the corrected pass removes the jail |
| RancherApp.LocalAction | app/app.go:154-162 | adds the local cluster exactly for "true", or "auto" when not embedded; removes it exactly for "false" |
| RancherApp.LocalActionAuto | app/app.go:154-162 | "auto" depends on embedding, and unknown values do nothing |
| RancherApp.Register | app/app.go:194-200 | registering a taken name fails with `alt-cmd func already registered under name "<name>"`; otherwise exactly that name is added |
| RancherApp.RegisterKeepsFirst | app/app.go:194-200 | a second registration under a name fails and the first one stays |
| RancherApp.Init | app/app.go:204-218 | the intended version never panics, runs an initializer exactly when some "--alt-cmd=" argument names a registered one, and runs the one named by the first such argument |
| RancherApp.InitAsWritten | app/app.go:204-218 | as written, nothing runs when no argument starts with "--alt-cmd="; a panic means args[1] carries no "="; whatever ran was named by args[1] |
| RancherApp.AltCmdHasName | app/app.go:206-210 | every "--alt-cmd=" argument carries a name, possibly an empty one |
| RancherApp.InitAsWrittenClosedForm | app/app.go:204-218 | as written, the outcome depends only on whether some argument matches and on what args[1] holds |
| RancherApp.InitAgreesOnFirstArgument | app/app.go:204-218 | when the only alt-cmd argument is args[1], the two versions agree |
| RancherApp.InitAfterLast | app/app.go:204-218 | with no alt-cmd argument left, nothing runs |
| RancherApp.AltCmdName | app/app.go:206-210 | "--alt-cmd=<name>" carries <name> when the name has no "=" |
| RancherApp.InitReadsWrongArgument | app/app.go:209-210 | "rancher --debug --alt-cmd=x" panics as written and runs x as intended |
| RancherApp.InitIgnoresLaterArguments | app/app.go:205-215 | "rancher --alt-cmd=x --alt-cmd=y" with only y registered runs nothing as written and runs y as intended |
| RbacLabels.GetPsaLabels | tests/v2/validation/rbac/rbac.go:94-103 | the keys are exactly those in both the response and the actual labels, and the values come from the actual labels |
| RbacLabels.GetPsaLabelsProjection | tests/v2/validation/rbac/rbac.go:94-103 | the result agrees with the actual labels, picking again changes nothing, and asking for every label returns them all |
| RbacLabels.DeleteLabels | tests/v2/validation/rbac/rbac.go:154-160 | exactly the keys containing a PSA warn, audit or enforce key are removed, and the other values are kept |
| RbacLabels.DeleteLabelsRemovesModes | tests/v2/validation/rbac/rbac.go:154-160 | the three mode labels and their -version companions go, deleting twice is deleting once, and a map without PSA keys is kept |
| HelmCleaner.RenderReemitted | pkg/controllers/management/clusterprovisioner/helm_cleaner_test.go:30-91 | a cleaned manifest is each surviving document as "---" plus a newline plus the document, joined by newlines |
| HelmCleaner.ParseVersion | pkg/controllers/management/clusterprovisioner/helm_cleaner_test.go:477-489 | a parsed version has two or three dot-separated parts, and a string without a dot never parses |
| HelmCleaner.ParseMajorMinor | pkg/controllers/management/clusterprovisioner/helm_cleaner_test.go:64 | "v<a>.<b>" parses to a.b.0 |
| HelmCleaner.Version125 | pkg/controllers/management/clusterprovisioner/helm_cleaner_test.go:64 | "v1.25" is version 1.25.0 |
| HelmCleaner.Version124 | pkg/controllers/management/clusterprovisioner/helm_cleaner_test.go:381 | "v1.24" is version 1.24.0 |
| HelmCleaner.DropAll | pkg/controllers/management/clusterprovisioner/helm_cleaner_test.go:284-349 | drops every document with the deprecated header and keeps the others |
| HelmCleaner.Retarget | pkg/controllers/management/clusterprovisioner/helm_cleaner_test.go:556-620 | moves every document from the deprecated header to the successor, keeping bodies and order |
| HelmCleaner.ApplyMapping | pkg/controllers/management/clusterprovisioner/helm_cleaner_test.go:30-349 | a mapping without a successor drops its documents and one with a successor retargets them; either way the deprecated API is gone |
| HelmCleaner.ApplyAll | pkg/controllers/management/clusterprovisioner/helm_cleaner_test.go:886-900 | fails exactly when some row's version does not parse; when nothing was replaced the manifest is the input |
| HelmCleaner.ReplaceManifestData | pkg/controllers/management/clusterprovisioner/helm_cleaner_test.go:870-883 | an error comes with an empty manifest and replaced=false; a bad Kubernetes version is reported; when nothing was replaced the input is returned unchanged |
| HelmCleaner.NothingDueIsUnchanged | pkg/controllers/management/clusterprovisioner/helm_cleaner_test.go:415-476 | when no row is due or in use, the loop returns the manifest and flag it was given |
| HelmCleaner.BadMappingFails | pkg/controllers/management/clusterprovisioner/helm_cleaner_test.go:886-900 | a table with an unparsable version fails with the mapping error, an empty manifest and replaced=false |
| HelmCleaner.MappingErrorText | pkg/controllers/management/clusterprovisioner/helm_cleaner_test.go:898 | the loop's only error starts "Failed to get the deprecated or removed Kubernetes version for API" |
| HelmCleaner.DeprecatedDistinct | pkg/controllers/management/clusterprovisioner/helm_cleaner_test.go:30-867 | the four deprecated APIs of the tests are different |
| HelmCleaner.TestedMappings | pkg/controllers/management/clusterprovisioner/helm_cleaner_test.go:30-867 | four rows, all removed in the same release |
| HelmCleaner.BelowRemovalUnchanged | pkg/controllers/management/clusterprovisioner/helm_cleaner_test.go:350-414 | below the removal release every manifest comes back byte for byte with replaced=false |
| HelmCleaner.At124Unchanged | pkg/controllers/management/clusterprovisioner/helm_cleaner_test.go:490-555 | at v1.24 PSP, PDB, CronJob and HPA documents are kept |
| HelmCleaner.ApplyAllDue | pkg/controllers/management/clusterprovisioner/helm_cleaner_test.go:30-91 | a due row that is in use is applied and sets replaced |
| HelmCleaner.ApplyAllUnused | pkg/controllers/management/clusterprovisioner/helm_cleaner_test.go:415-476 | a row whose API is not in use is skipped |
| HelmCleaner.AtRemovalDropsPsps | pkg/controllers/management/clusterprovisioner/helm_cleaner_test.go:30-349 | at v1.25 every PSP document is dropped wherever it occurs, and the survivors are re-emitted in order with replaced=true |
| HelmCleaner.NotUsedAfterDrop | pkg/controllers/management/clusterprovisioner/helm_cleaner_test.go:30-91 | dropping documents never introduces an API |
| HelmCleaner.AtRemovalRewritesPdbs | pkg/controllers/management/clusterprovisioner/helm_cleaner_test.go:556-620 | at v1.25 policy/v1beta1 PodDisruptionBudgets move to policy/v1 in place with replaced=true |
| HelmCleaner.InvalidKubeVersion | pkg/controllers/management/clusterprovisioner/helm_cleaner_test.go:477-489 | a Kubernetes version without a dot fails with "Invalid format for Kubernetes semantic version" and an empty manifest |
| HelmCleaner.InvalidMappingVersion | pkg/controllers/management/clusterprovisioner/helm_cleaner_test.go:886-900 | a row removed in "some-invalid-version" fails the call with an empty manifest |
| HelmCleaner.TestInvalidVersionStrings | pkg/controllers/management/clusterprovisioner/helm_cleaner_test.go:484 | the malformed version strings of the tests contain no dot |
| FleetWorkspaceRoles.NewRole | pkg/controllers/management/auth/globalroles/fleetworkspace_role_handler_test.go:413-431 | a created role is owned by its GlobalRole and labelled with the owner label and the managed-by label |
| FleetWorkspaceRoles.NonLocal | pkg/controllers/management/auth/globalroles/fleetworkspace_role_handler_test.go:449-455 | the workspaces other than fleet-local |
| FleetWorkspaceRoles.ReconcileRole | pkg/controllers/management/auth/globalroles/fleetworkspace_role_handler_test.go:42-242 | at most one write, and none exactly when the lookup fails or the role already is as wanted; a get error stops; a role to be removed is deleted if present; a missing role is created; differing rules are updated in place |
| FleetWorkspaceRoles.ReconcileFleetWorkspacePermissions | pkg/controllers/management/auth/globalroles/fleetworkspace_role_handler_test.go:32-260 | the cluster-rules role is reconciled first and the verbs role only after it succeeds; at most two actions |
| FleetWorkspaceRoles.CreatesBoth | pkg/controllers/management/auth/globalroles/fleetworkspace_role_handler_test.go:42-61 | a new GlobalRole with permissions gets both roles, the cluster-rules role first |
| FleetWorkspaceRoles.UnchangedIsNoop | pkg/controllers/management/auth/globalroles/fleetworkspace_role_handler_test.go:62-78 | roles that are present and unchanged cause no action |
| FleetWorkspaceRoles.ChangedRulesUpdate | pkg/controllers/management/auth/globalroles/fleetworkspace_role_handler_test.go:79-146 | changed rules are written with Update on the existing object, with only the rules replaced |
| FleetWorkspaceRoles.OnlyLocalWorkspace | pkg/controllers/management/auth/globalroles/fleetworkspace_role_handler_test.go:147-199 | with only fleet-local, the verbs role is not created |
| FleetWorkspaceRoles.NoPermissionsDeletes | pkg/controllers/management/auth/globalroles/fleetworkspace_role_handler_test.go:200-242 | without inherited permissions, existing roles are deleted and absent ones are left alone |
| FleetWorkspaceRoles.ClusterRulesErrorStops | pkg/controllers/management/auth/globalroles/fleetworkspace_role_handler_test.go:262-390 | any error on the cluster-rules role is returned with the reconcile prefix, and nothing is done to the verbs role |
| FleetWorkspaceRoles.ReconcileConverges | pkg/controllers/management/auth/globalroles/fleetworkspace_role_handler_test.go:42-78 | once one pass's actions are carried out, a second pass does nothing |
| FleetWorkspaceRoles.RoleSettles | pkg/controllers/management/auth/globalroles/fleetworkspace_role_handler_test.go:42-242 | one role's actions touch only that role and leave it as desired |
| UserManager.SetPrincipal | pkg/auth/providers/common/usermanager_test.go:28-105 | succeeds only when both lookups succeed and no other UID holds the principal; a lookup error is returned unchanged; a principal held by another UID is refused; otherwise the principal is appended |
| UserManager.SetPrincipalAppends | pkg/auth/providers/common/usermanager_test.go:29-56 | on success the name and UID are kept and the principal list is the old one with the principal appended at the end |
| UserManager.ConflictLeavesHolder | pkg/auth/providers/common/usermanager_test.go:72-105 | a principal bound to another user is refused with "refusing to set principal on user that is already bound to another user" |
| UserManager.Replaced | pkg/auth/providers/common/usermanager_test.go:125-128 | the stored user list after an update that stores what it is given |
| UserManager.SetPrincipalIdempotent | pkg/auth/providers/common/usermanager_test.go:29-56 | setting the same principal again on the stored result succeeds and changes nothing |
| FleetCluster.AgentSettings | pkg/controllers/provisioningv2/fleetcluster/fleetcluster_test.go:101-171 | with no customization, the built-in affinity and no resources or tolerations; otherwise the override affinity if given, with resources and tolerations copied verbatim |
| FleetCluster.CreateCluster | pkg/controllers/provisioningv2/fleetcluster/fleetcluster_test.go:175-182 | one object for a non-internal cluster and two for an internal one, the first being the fleet Cluster with the derived agent settings |
| FleetCluster.FleetSpecOf | pkg/controllers/provisioningv2/fleetcluster/fleetcluster_test.go:182-189 | finds the fleet Cluster among the returned objects exactly when there is one |
| FleetCluster.AgentAffinityDefaultsToBuiltin | pkg/controllers/provisioningv2/fleetcluster/fleetcluster_test.go:118-171 | the agent affinity is the built-in one exactly when no override is given; resources and tolerations are unchanged |
| FleetCluster.TestClusterCustomization | pkg/controllers/provisioningv2/fleetcluster/fleetcluster_test.go:24-41 | the three customizations of the test map to the expected agent settings |

## Left out

- CrtbHandler.SetInProgress: the source copies the object UpdateStatus returns back over the binding (crtb_handler.go:424). The model takes the server to store and return exactly the object sent, so the copy-back changes nothing. A server that alters the object, for example by resetting fields the controller filled in, is not modelled.
- CrtbHandler.SetCompleted: the same copy-back (crtb_handler.go:452), abstracted in the same way.
- CrtbHandler.SetTerminating: its write is modelled the same way; the source does not copy this answer back, so nothing is lost here.
- Timestamps: LastUpdateTime and LastTransitionTime are not modelled. The summary and conditions do not depend on them.
- I/O and the Kubernetes API: every lister, client, cache, HTTP body read, JSON decode and file-system call is an input function. Retries on conflict (`retry.RetryOnConflict`) are folded into one answer per update.
- `name.SafeConcatName` and the ownership-label helpers are uninterpreted input functions, because the name hashing is not part of this model.
- The condition sets of the CRTB controller (local condition types, local successes, all successes) live in pkg/controllers/status/crtb, which is not part of this model. They are a parameter, and `HasAllOf` is read as "every listed reason occurs".
- LDAP connection, configuration loading, `GetPrincipal`, `AuthenticateUser` and the search itself: the search result is an input.
- LdapProvider.SearchPrincipals: the error of the underlying search is dropped, as in the source. The model does not say what the search itself returns.
- The helm-mapkubeapis mapping table and its YAML matching are not modelled. A manifest is modelled as structured documents (header and body), and the mapping table holds the four rows the tests use. The semantic-version parser is a simplified one: an optional "v" and two or three dot-separated digit groups.
- HelmCleaner.ParseVersion: states only the shape of a parsed version and that a string without a dot is rejected. It does not state the full grammar of semantic versions.
- FleetWorkspaceRoles.ReconcileFleetWorkspacePermissions: the verbs role is left untouched when there are no workspaces besides fleet-local. The tests fix that it is not created, not what happens to one that already exists. The error prefix of the workspace listing is a parameter.
- fleetcluster: only the agent-customization mapping and the object count are modelled. The fleet Cluster's other fields, the cluster group's contents and the private-repo URL are not part of this model.
- FleetCluster.CreateCluster: a failed management-cluster lookup is returned unchanged. The tests do not exercise this path.
- UserManager.SetPrincipal: a principal the user already holds is not appended a second time, and a failed user listing is returned unchanged. The tests do not exercise either case.
- Go's `%q` quoting is written as plain double quotes, so names with quotes or escapes are not escaped in the Register error.
- RancherApp.Register: the source panics on a duplicate name. The model returns the panic message as an error.
- `convert.ToString` of non-string field values is not modelled: preference fields are strings.
- JailSync.SyncJails: a failed cluster listing is treated as an empty list of given names, and a failed directory read as an empty listing. The warnings of those two failures are not modelled. `path.Join` is modelled as "/opt/jail/" + name.
- The `meta.Accessor` failure of modifyProjects is not modelled; it cannot fail for a MultiClusterApp.
- The rest of `addData` in app/app.go and the server start-up `Run` are not modelled: they only sequence I/O.
- `ToLower` is ASCII-only; the names concerned are Kubernetes names.

## Findings

| source | as written | input that shows it | evidently intended | confidence | as-written member | corrected member |
|---|---|---|---|---|---|---|
| pkg/auth/providers/ldap/ldap_provider.go:121-131 | `for _, principal := range principals` sets Me and MemberOf on a copy, so the returned principals are never flagged | a search that finds the caller's own user principal (`SearchPrincipalsLosesMe`), or a group the caller belongs to (`SearchPrincipalsLosesMemberOf`) | flag the elements of the returned slice | high, not executed | LdapProvider.SearchPrincipalsAsWritten | LdapProvider.SearchPrincipals |
| pkg/api/customization/multiclusterapp/multi_cluster_app.go:191 | `targetsToRole, err := ma.DeriveRolesInTargets(...)` declares new variables inside the block, so the derived roles are discarded and addProjects stores an empty TargetToRole | an app without roles, one new project, and roles derived for the caller (`AddProjectsDropsDerivedRoles`) | assign to the outer `targetsToRole` | high, not executed | MultiClusterApp.AddProjectsAsWritten | MultiClusterApp.AddProjects |
| app/app.go:209 | the name is read from `os.Args[1]` whatever argument matched | `rancher --debug --alt-cmd=x` panics on `s[1]`; `rancher --alt-cmd=x --alt-cmd=y` with only y registered runs nothing (`InitReadsWrongArgument`, `InitIgnoresLaterArguments`) | read the name from the matching `arg` | high, not executed | RancherApp.InitAsWritten | RancherApp.Init |
| pkg/cron/jailsync.go:63-72 | when `entry.Info()` fails, the warning is logged but the nil FileInfo is still appended, and `file.IsDir()` on it panics | a directory removed between the listing and the information read, placed before a stale jail (`VanishedEntryStopsPass`) | skip the entry after logging the error | medium, not executed | JailSync.SyncJailsAsWritten | JailSync.SyncJails |
