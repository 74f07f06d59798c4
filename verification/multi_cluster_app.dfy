/** The multi-cluster-app API actions
    (pkg/api/customization/multiclusterapp/multi_cluster_app.go): rollback to
    a revision, and adding or removing target projects. Listers, the access
    checker, the request bodies and the Update call are oracles of `Env`. */
module MultiClusterApp {
  import opened Wrappers
  import opened Text

  const AddProjectsAction := "addProjects"
  const RemoveProjectsAction := "removeProjects"
  const RollbackAction := "rollback"

  datatype Target = Target(projectName: string, appName: string)
  datatype Answer = Answer(projectName: string, clusterName: string, values: map<string, string>)

  datatype McAppSpec = McAppSpec(
    templateVersionName: string,
    answers: seq<Answer>,
    targets: seq<Target>,
    roles: seq<string>,
    members: seq<string>,
    targetToRole: map<string, seq<string>>)

  datatype McApp = McApp(name: string, annotations: map<string, string>, spec: McAppSpec, revisionName: string)

  datatype Revision = Revision(name: string, templateVersionName: string, answers: seq<Answer>)

  /** An answer as the action input carries it. */
  datatype AnswerInput = AnswerInput(projectId: string, clusterId: string, values: map<string, string>)
  datatype TargetsInput = TargetsInput(projects: seq<string>, answers: seq<AnswerInput>)

  /** The caller's access to an app; only owners may change its targets. */
  datatype AccessType = OwnerAccess | OtherAccess(kind: string)

  datatype Env = Env(
    globalNamespace: string,
    creatorIdAnnotation: string,
    getApp: (string, string) -> Result<McApp>,
    getRevision: (string, string) -> Result<Revision>,
    accessTypeOf: (string, string, McApp) -> Result<AccessType>,
    readBody: Result<TargetsInput>,
    readRollbackBody: Result<string>,
    decodeRollbackInput: string -> Result<string>,
    ensureRoleInTargets: (seq<string>, seq<string>, string) -> Option<string>,
    deriveRolesInTargets: (string, seq<string>) -> Result<map<string, seq<string>>>,
    update: McApp -> Option<string>)

  /** The result of an action: its error, and the object sent to Update if any. */
  datatype Outcome = Outcome(err: Option<string>, written: Option<McApp>)

  // ---------------------------------------------------------------- rollback

  /** A revision id "<namespace>:<name>" names the revision by its second part;
      any id that does not split into exactly two parts is used whole. */
  function RollbackRevisionId(revisionId: string): (id: string)
    ensures ':' !in revisionId ==> id == revisionId
    ensures |Split(revisionId, ':')| != 2 ==> id == revisionId
    ensures |Split(revisionId, ':')| == 2 ==> id == Split(revisionId, ':')[1] && ':' !in id
  {
    var parts := Split(revisionId, ':');
    if |parts| == 2 then parts[1] else revisionId
  }

  lemma RollbackRevisionIdQualified(namespace: string, name: string)
    requires ':' !in namespace && ':' !in name
    ensures RollbackRevisionId(namespace + ":" + name) == name
  {
    assert namespace + ":" + name == namespace + [':'] + name;
    SplitJoined(namespace, ':', name);
  }

  /** An id with more than one colon is looked up whole. */
  lemma RollbackRevisionIdTwoColons(a: string, b: string, c: string)
    requires ':' !in a && ':' !in b && ':' !in c
    ensures RollbackRevisionId(a + ":" + b + ":" + c) == a + ":" + b + ":" + c
  {
    var s := a + ":" + b + ":" + c;
    assert s == a + [':'] + (b + [':'] + c);
    SplitJoined(a, ':', b + [':'] + c);
    SplitJoined(b, ':', c);
  }

  /** The error text of `errors.Wrap(err, message)`. */
  function Wrapped(message: string, err: string): string {
    message + ": " + err
  }

  /** The revision id of the rollback input: the request body is read, then
      decoded, and a failure of either is returned wrapped in its own message. */
  function RollbackInputId(env: Env): (r: Result<string>)
    ensures env.readRollbackBody.Err? ==> r == Err(Wrapped("reading request body error", env.readRollbackBody.error))
    ensures env.readRollbackBody.Ok? ==>
              match env.decodeRollbackInput(env.readRollbackBody.value)
              case Err(e) => r == Err(Wrapped("unmarshal input error", e))
              case Ok(id) => r == Ok(id)
  {
    match env.readRollbackBody
    case Err(e) => Err(Wrapped("reading request body error", e))
    case Ok(data) =>
      match env.decodeRollbackInput(data)
      case Err(e) => Err(Wrapped("unmarshal input error", e))
      case Ok(id) => Ok(id)
  }

  /** The revision a rollback asks for, looked up in the global namespace. */
  function RollbackRevision(env: Env): (r: Result<Revision>)
    ensures RollbackInputId(env).Err? ==> r == Err(RollbackInputId(env).error)
    ensures RollbackInputId(env).Ok? ==>
              r == env.getRevision(env.globalNamespace, RollbackRevisionId(RollbackInputId(env).value))
  {
    match RollbackInputId(env)
    case Err(e) => Err(e)
    case Ok(id) => env.getRevision(env.globalNamespace, RollbackRevisionId(id))
  }

  /** `rollback`: set the app back to a revision's template version and
      answers, unless it already runs that revision. */
  function Rollback(env: Env, appName: string): (o: Outcome)
    ensures RollbackRevision(env).Err? ==> o == Outcome(Some(RollbackRevision(env).error), None)
    ensures RollbackRevision(env).Ok? && env.getApp(env.globalNamespace, appName).Err? ==>
              o == Outcome(Some(env.getApp(env.globalNamespace, appName).error), None)
    ensures o.written.Some? <==>
              && RollbackRevision(env).Ok?
              && env.getApp(env.globalNamespace, appName).Ok?
              && env.getApp(env.globalNamespace, appName).value.revisionName != RollbackRevision(env).value.name
    ensures o.written.Some? ==>
              var rev := RollbackRevision(env).value;
              var app := env.getApp(env.globalNamespace, appName).value;
              && o.written.value == app.(spec := app.spec.(templateVersionName := rev.templateVersionName, answers := rev.answers))
              && o.err == env.update(o.written.value)
  {
    match RollbackRevision(env)
    case Err(e) => Outcome(Some(e), None)
    case Ok(revision) =>
      match env.getApp(env.globalNamespace, appName)
      case Err(e) => Outcome(Some(e), None)
      case Ok(app) =>
        if app.revisionName == revision.name then Outcome(None, None)
        else
          var toUpdate := app.(spec := app.spec.(templateVersionName := revision.templateVersionName, answers := revision.answers));
          Outcome(env.update(toUpdate), Some(toUpdate))
  }

  /** A body that cannot be read or decoded stops the rollback before any
      lookup, with its wrapped error. */
  lemma RollbackBadBody(env: Env, appName: string)
    requires RollbackInputId(env).Err?
    ensures Rollback(env, appName).written.None?
    ensures env.readRollbackBody.Err? ==>
              Rollback(env, appName).err == Some(Wrapped("reading request body error", env.readRollbackBody.error))
    ensures env.readRollbackBody.Ok? ==>
              Rollback(env, appName).err == Some(Wrapped("unmarshal input error", env.decodeRollbackInput(env.readRollbackBody.value).error))
  {
  }

  /** Rolling back to the revision the app already runs changes nothing. */
  lemma RollbackToCurrentIsNoop(env: Env, appName: string)
    requires RollbackRevision(env).Ok?
    requires env.getApp(env.globalNamespace, appName).Ok?
    requires env.getApp(env.globalNamespace, appName).value.revisionName == RollbackRevision(env).value.name
    ensures Rollback(env, appName) == Outcome(None, None)
  {
  }

  /** Rollback touches only the template version and the answers: targets,
      roles, members, annotations and the name are kept. */
  lemma RollbackKeepsTheRest(env: Env, appName: string)
    requires Rollback(env, appName).written.Some?
    ensures var app := env.getApp(env.globalNamespace, appName).value;
            var w := Rollback(env, appName).written.value;
            && w.name == app.name && w.annotations == app.annotations && w.revisionName == app.revisionName
            && w.spec.targets == app.spec.targets && w.spec.roles == app.spec.roles
            && w.spec.members == app.spec.members && w.spec.targetToRole == app.spec.targetToRole
  {
  }

  // ------------------------------------------------------- modify projects

  /** The values `modifyProjects` hands to its two callers. */
  datatype Modified = Modified(
    app: McApp,
    existing: set<string>,
    inputProjects: seq<string>,
    inputAnswers: seq<Answer>,
    targetsToRole: map<string, seq<string>>)

  function ToAnswer(a: AnswerInput): Answer {
    Answer(a.projectId, a.clusterId, a.values)
  }

  function ToAnswers(inputs: seq<AnswerInput>): (r: seq<Answer>)
    ensures |r| == |inputs|
    ensures forall k :: 0 <= k < |inputs| ==> r[k] == ToAnswer(inputs[k])
  {
    seq(|inputs|, k requires 0 <= k < |inputs| => ToAnswer(inputs[k]))
  }

  function TargetNames(targets: seq<Target>): (r: set<string>)
    ensures forall p :: p in r <==> exists k :: 0 <= k < |targets| && targets[k].projectName == p
  {
    set k | 0 <= k < |targets| :: targets[k].projectName
  }

  /** An answer `modifyProjects` accepts: scoped to one of the input projects. */
  predicate AnswerOk(a: Answer, projects: seq<string>) {
    a.projectName != "" && a.projectName in projects
  }

  /** The error reported for a rejected answer. */
  function AnswerError(a: Answer): string {
    if a.projectName == "" then
      "can only provide project-scoped answers for new projects through add/remove projects action"
    else
      "the project " + a.projectName + " is not among the ones provided in input"
  }

  /** The position of the first rejected answer. */
  function FirstBadAnswer(answers: seq<Answer>, projects: seq<string>): (r: Option<nat>)
    ensures r.None? <==> forall k :: 0 <= k < |answers| ==> AnswerOk(answers[k], projects)
    ensures r.Some? ==> r.value < |answers| && !AnswerOk(answers[r.value], projects)
                        && forall j :: 0 <= j < r.value ==> AnswerOk(answers[j], projects)
  {
    if |answers| == 0 then None
    else if !AnswerOk(answers[0], projects) then Some(0)
    else
      assert forall k :: 1 <= k < |answers| ==> answers[k] == answers[1..][k - 1];
      match FirstBadAnswer(answers[1..], projects)
      case None => None
      case Some(i) => Some(i + 1)
  }

  /** The answer check of `modifyProjects`: the first rejected answer's
      error, or None when every answer is acceptable. */
  function ValidateAnswers(answers: seq<Answer>, projects: seq<string>): (err: Option<string>)
    ensures err.None? <==> forall k :: 0 <= k < |answers| ==> AnswerOk(answers[k], projects)
    ensures err.Some? ==> exists k :: 0 <= k < |answers| && !AnswerOk(answers[k], projects) && err.value == AnswerError(answers[k])
  {
    match FirstBadAnswer(answers, projects)
    case None => None
    case Some(i) => Some(AnswerError(answers[i]))
  }

  /** `modifyProjects`, with the roles derived at line 191 either dropped
      (as written: the `:=` declares a new variable) or kept. */
  function ModifyProjectsWith(env: Env, requestId: string, callerId: string, action: string, keepDerived: bool): (r: Result<Modified>)
  {
    var split := SplitFirst(requestId, ':');
    if |split| != 2 then Err("incorrect multi cluster app ID " + requestId)
    else match env.getApp(split[0], split[1])
    case Err(e) => Err(e)
    case Ok(app) =>
      if env.creatorIdAnnotation !in app.annotations then
        Err("multiclusterapp " + app.name + " has no creatorId annotation")
      else
        var creatorId := app.annotations[env.creatorIdAnnotation];
        match env.accessTypeOf(callerId, creatorId, app)
        case Err(e) => Err(e)
        case Ok(access) =>
          if access != OwnerAccess then Err("only owners can modify projects of multiclusterapp")
          else match env.readBody
          case Err(e) => Err(e)
          case Ok(input) =>
            var inputProjects := input.projects;
            var existing := TargetNames(app.spec.targets);
            var roles: Result<map<string, seq<string>>> :=
              if action == AddProjectsAction && |inputProjects| > 0 then
                if |app.spec.roles| > 0 then
                  match env.ensureRoleInTargets(inputProjects, app.spec.roles, callerId)
                  case Some(e) => Err(e)
                  case None => Ok(map[])
                else
                  match env.deriveRolesInTargets(callerId, inputProjects)
                  case Err(e) => Err(e)
                  case Ok(derived) => Ok(if keepDerived then derived else map[])
              else Ok(map[]);
            match roles
            case Err(e) => Err(e)
            case Ok(targetsToRole) =>
              var inputAnswers := ToAnswers(input.answers);
              match ValidateAnswers(inputAnswers, inputProjects)
              case Some(e) => Err(e)
              case None => Ok(Modified(app, existing, inputProjects, inputAnswers, targetsToRole))
  }

  /** The checks every add or remove passes, in the order they are made. */
  predicate Admitted(env: Env, requestId: string, callerId: string)
  {
    var split := SplitFirst(requestId, ':');
    && |split| == 2
    && env.getApp(split[0], split[1]).Ok?
    && var app := env.getApp(split[0], split[1]).value;
       && env.creatorIdAnnotation in app.annotations
       && env.accessTypeOf(callerId, app.annotations[env.creatorIdAnnotation], app) == Ok(OwnerAccess)
       && env.readBody.Ok?
  }

  /** `modifyProjects` as written: whatever roles are derived, the returned
      map is the empty one made at its start. */
  function ModifyProjectsAsWritten(env: Env, requestId: string, callerId: string, action: string): (r: Result<Modified>)
    ensures ':' !in requestId ==> r == Err("incorrect multi cluster app ID " + requestId)
    ensures r.Ok? ==> Admitted(env, requestId, callerId)
    ensures r.Ok? ==> r.value.targetsToRole == map[]
    ensures r.Ok? ==> r.value.inputProjects == env.readBody.value.projects
    ensures r.Ok? ==> forall k :: 0 <= k < |r.value.inputAnswers| ==> AnswerOk(r.value.inputAnswers[k], r.value.inputProjects)
  {
    ModifyProjectsWith(env, requestId, callerId, action, false)
  }

  /** `modifyProjects` as intended: the roles derived for the caller in the
      new target projects are returned. */
  function ModifyProjects(env: Env, requestId: string, callerId: string, action: string): (r: Result<Modified>)
    ensures ':' !in requestId ==> r == Err("incorrect multi cluster app ID " + requestId)
    ensures r.Ok? ==> Admitted(env, requestId, callerId)
    ensures r.Ok? ==> r.value.inputProjects == env.readBody.value.projects
    ensures r.Ok? ==> r.value.existing == TargetNames(r.value.app.spec.targets)
    ensures r.Ok? ==> forall k :: 0 <= k < |r.value.inputAnswers| ==> AnswerOk(r.value.inputAnswers[k], r.value.inputProjects)
    ensures r.Ok? && action == AddProjectsAction && |r.value.inputProjects| > 0 && |r.value.app.spec.roles| == 0 ==>
              env.deriveRolesInTargets(callerId, r.value.inputProjects) == Ok(r.value.targetsToRole)
  {
    ModifyProjectsWith(env, requestId, callerId, action, true)
  }

  /** The two differ only in the role map. */
  lemma ModifyProjectsDifferOnlyInRoles(env: Env, requestId: string, callerId: string, action: string)
    ensures ModifyProjects(env, requestId, callerId, action).Ok? <==> ModifyProjectsAsWritten(env, requestId, callerId, action).Ok?
    ensures ModifyProjects(env, requestId, callerId, action).Err? ==>
              ModifyProjectsAsWritten(env, requestId, callerId, action) == ModifyProjects(env, requestId, callerId, action)
    ensures ModifyProjects(env, requestId, callerId, action).Ok? ==>
              ModifyProjectsAsWritten(env, requestId, callerId, action).value
              == ModifyProjects(env, requestId, callerId, action).value.(targetsToRole := map[])
  {
  }

  // ---------------------------------------------------- add / remove

  /** The first input project that is already a target or repeats an
      earlier input project. */
  function FirstDuplicate(existing: set<string>, projects: seq<string>): (d: Option<string>)
    ensures d.None? <==> forall k :: 0 <= k < |projects| ==>
                           projects[k] !in existing && projects[k] !in projects[..k]
    ensures d.Some? ==> exists k :: 0 <= k < |projects| && projects[k] == d.value &&
                           (projects[k] in existing || projects[k] in projects[..k])
    decreases |projects|
  {
    if |projects| == 0 then None
    else if projects[0] in existing then Some(projects[0])
    else
      var d := FirstDuplicate(existing + {projects[0]}, projects[1..]);
      assert forall k :: 1 <= k < |projects| ==>
               projects[k] == projects[1..][k - 1] && projects[..k] == [projects[0]] + projects[1..][..k - 1];
      d
  }

  function NewTargets(projects: seq<string>): (ts: seq<Target>)
    ensures |ts| == |projects|
    ensures forall k :: 0 <= k < |projects| ==> ts[k] == Target(projects[k], "")
  {
    seq(|projects|, k requires 0 <= k < |projects| => Target(projects[k], ""))
  }

  /** The update `addProjects` builds from what `modifyProjects` returned. */
  function AddTo(m: Modified): (r: Result<Option<McApp>>)
    ensures FirstDuplicate(m.existing, m.inputProjects).Some? ==>
              r == Err("duplicate projects in targets " + FirstDuplicate(m.existing, m.inputProjects).value)
    ensures FirstDuplicate(m.existing, m.inputProjects).None? && |m.inputProjects| == 0 && |m.inputAnswers| == 0 ==>
              r == Ok(None)
    ensures r.Ok? && r.value.Some? ==>
              var spec := r.value.value.spec;
              && r.value.value.name == m.app.name
              && spec.targets == m.app.spec.targets + NewTargets(m.inputProjects)
              && spec.answers == m.app.spec.answers + m.inputAnswers
              && spec.targetToRole == (if |m.inputProjects| > 0 then m.targetsToRole else m.app.spec.targetToRole)
              && spec.templateVersionName == m.app.spec.templateVersionName
              && spec.roles == m.app.spec.roles && spec.members == m.app.spec.members
  {
    if |m.inputProjects| > 0 && FirstDuplicate(m.existing, m.inputProjects).Some? then
      Err("duplicate projects in targets " + FirstDuplicate(m.existing, m.inputProjects).value)
    else
      var withTargets :=
        if |m.inputProjects| > 0 then
          Some(m.app.(spec := m.app.spec.(targetToRole := m.targetsToRole,
                                           targets := m.app.spec.targets + NewTargets(m.inputProjects))))
        else None;
      var withAnswers :=
        if |m.inputAnswers| > 0 then
          var base := withTargets.GetOr(m.app);
          Some(base.(spec := base.spec.(answers := base.spec.answers + m.inputAnswers)))
        else withTargets;
      Ok(withAnswers)
  }

  function Finish(env: Env, update: Result<Option<McApp>>): (o: Outcome)
    ensures update.Err? ==> o == Outcome(Some(update.error), None)
    ensures update == Ok(None) ==> o == Outcome(None, None)
    ensures update.Ok? && update.value.Some? ==> o == Outcome(env.update(update.value.value), update.value)
  {
    match update
    case Err(e) => Outcome(Some(e), None)
    case Ok(None) => Outcome(None, None)
    case Ok(Some(app)) => Outcome(env.update(app), Some(app))
  }

  /** `addProjects` as written, on top of the shadowed role map. */
  function AddProjectsAsWritten(env: Env, requestId: string, callerId: string): (o: Outcome)
    ensures o.written.Some? ==> ModifyProjectsAsWritten(env, requestId, callerId, AddProjectsAction).Ok?
    ensures o.written.Some? && |env.readBody.value.projects| > 0 ==> o.written.value.spec.targetToRole == map[]
  {
    match ModifyProjectsAsWritten(env, requestId, callerId, AddProjectsAction)
    case Err(e) => Outcome(Some(e), None)
    case Ok(m) => Finish(env, AddTo(m))
  }

  /** `addProjects` as intended: the new role map is the derived one. */
  function AddProjects(env: Env, requestId: string, callerId: string): (o: Outcome)
    ensures ModifyProjects(env, requestId, callerId, AddProjectsAction).Err? ==>
              o == Outcome(Some(ModifyProjects(env, requestId, callerId, AddProjectsAction).error), None)
    ensures o.written.Some? ==>
              var m := ModifyProjects(env, requestId, callerId, AddProjectsAction).value;
              && FirstDuplicate(m.existing, m.inputProjects).None?
              && o.written.value.spec.targets == m.app.spec.targets + NewTargets(m.inputProjects)
              && o.written.value.spec.answers == m.app.spec.answers + m.inputAnswers
              && (|m.inputProjects| > 0 ==> o.written.value.spec.targetToRole == m.targetsToRole)
              && o.err == env.update(o.written.value)
  {
    match ModifyProjects(env, requestId, callerId, AddProjectsAction)
    case Err(e) => Outcome(Some(e), None)
    case Ok(m) => Finish(env, AddTo(m))
  }

  /** An app with no roles of its own, one new project and roles derived for
      the caller: as written the update carries an empty role map, as
      intended it carries the derived one. */
  lemma AddProjectsDropsDerivedRoles(env: Env, requestId: string, callerId: string, project: string, derived: map<string, seq<string>>)
    requires derived != map[]
    requires Admitted(env, requestId, callerId)
    requires env.readBody == Ok(TargetsInput([project], []))
    requires var split := SplitFirst(requestId, ':');
             var app := env.getApp(split[0], split[1]).value;
             |app.spec.roles| == 0 && project !in TargetNames(app.spec.targets)
    requires env.deriveRolesInTargets(callerId, [project]) == Ok(derived)
    ensures AddProjectsAsWritten(env, requestId, callerId).written.Some?
    ensures AddProjectsAsWritten(env, requestId, callerId).written.value.spec.targetToRole == map[]
    ensures AddProjects(env, requestId, callerId).written.Some?
    ensures AddProjects(env, requestId, callerId).written.value.spec.targetToRole == derived
  {
    var m := ModifyProjects(env, requestId, callerId, AddProjectsAction);
    assert m.Ok?;
    assert FirstDuplicate(m.value.existing, [project]).None?;
  }

  /** `removeProjects`: keep the targets whose project is not in the input,
      in their order, and always write the result. */
  function RemoveProjects(env: Env, requestId: string, callerId: string): (o: Outcome)
    ensures ModifyProjects(env, requestId, callerId, RemoveProjectsAction).Err? ==> o.written.None? && o.err.Some?
    ensures ModifyProjects(env, requestId, callerId, RemoveProjectsAction).Ok? ==>
              var m := ModifyProjects(env, requestId, callerId, RemoveProjectsAction).value;
              && o.written.Some?
              && o.written.value == m.app.(spec := m.app.spec.(targets := Without(m.app.spec.targets, m.inputProjects)))
              && o.err == env.update(o.written.value)
  {
    match ModifyProjects(env, requestId, callerId, RemoveProjectsAction)
    case Err(e) => Outcome(Some(e), None)
    case Ok(m) =>
      var toUpdate := m.app.(spec := m.app.spec.(targets := Without(m.app.spec.targets, m.inputProjects)));
      Outcome(env.update(toUpdate), Some(toUpdate))
  }

  /** The targets whose project is not listed, in their original order. */
  function Without(targets: seq<Target>, projects: seq<string>): (r: seq<Target>)
    ensures forall k :: 0 <= k < |r| ==> r[k] in targets && r[k].projectName !in projects
    ensures forall k :: 0 <= k < |targets| && targets[k].projectName !in projects ==> targets[k] in r
    ensures |r| <= |targets|
  {
    if |targets| == 0 then []
    else if targets[0].projectName in projects then Without(targets[1..], projects)
    else [targets[0]] + Without(targets[1..], projects)
  }

  /** Removal keeps order: the kept targets are a subsequence of the old ones. */
  predicate IsSubsequence(a: seq<Target>, b: seq<Target>) {
    |a| == 0 || (|b| > 0 && ((a[0] == b[0] && IsSubsequence(a[1..], b[1..])) || IsSubsequence(a, b[1..])))
  }

  lemma {:induction false} WithoutKeepsOrder(targets: seq<Target>, projects: seq<string>)
    ensures IsSubsequence(Without(targets, projects), targets)
  {
    if |targets| > 0 {
      WithoutKeepsOrder(targets[1..], projects);
      var r := Without(targets, projects);
      if targets[0].projectName !in projects {
        assert r[0] == targets[0] && r[1..] == Without(targets[1..], projects);
      }
    }
  }

  /** Removing nothing keeps every target; removing everything leaves none. */
  lemma {:induction false} WithoutNothing(targets: seq<Target>)
    ensures Without(targets, []) == targets
  {
    if |targets| > 0 {
      WithoutNothing(targets[1..]);
      assert targets == [targets[0]] + targets[1..];
    }
  }

  /** Adding projects and then removing them gives back the old targets. */
  lemma {:induction false} RemoveUndoesAdd(targets: seq<Target>, projects: seq<string>)
    requires forall k :: 0 <= k < |targets| ==> targets[k].projectName !in projects
    ensures Without(targets + NewTargets(projects), projects) == targets
  {
    if |targets| == 0 {
      assert targets + NewTargets(projects) == NewTargets(projects);
      WithoutNew(projects, projects);
    } else {
      assert (targets + NewTargets(projects))[1..] == targets[1..] + NewTargets(projects);
      RemoveUndoesAdd(targets[1..], projects);
    }
  }

  lemma {:induction false} WithoutNew(ps: seq<string>, projects: seq<string>)
    requires forall k :: 0 <= k < |ps| ==> ps[k] in projects
    ensures Without(NewTargets(ps), projects) == []
  {
    if |ps| > 0 {
      assert NewTargets(ps)[1..] == NewTargets(ps[1..]);
      WithoutNew(ps[1..], projects);
    }
  }

  /** `ActionHandler` as written: dispatch on the action name once the app
      is found, with "addProjects" going to `addProjects` as written. */
  function ActionHandler(env: Env, found: Option<string>, actionName: string, appName: string,
                         requestId: string, callerId: string): (o: Outcome)
    ensures found.Some? ==> o == Outcome(found, None)
    ensures found.None? && actionName !in {RollbackAction, AddProjectsAction, RemoveProjectsAction} ==>
              o == Outcome(Some("bad action for multiclusterapp " + actionName), None)
    ensures found.None? && actionName == RollbackAction ==> o == Rollback(env, appName)
    ensures found.None? && actionName == AddProjectsAction ==> o == AddProjectsAsWritten(env, requestId, callerId)
    ensures found.None? && actionName == RemoveProjectsAction ==> o == RemoveProjects(env, requestId, callerId)
  {
    if found.Some? then Outcome(found, None)
    else if actionName == RollbackAction then Rollback(env, appName)
    else if actionName == AddProjectsAction then AddProjectsAsWritten(env, requestId, callerId)
    else if actionName == RemoveProjectsAction then RemoveProjects(env, requestId, callerId)
    else Outcome(Some("bad action for multiclusterapp " + actionName), None)
  }

  /** The dispatcher with the corrected `addProjects`. */
  function ActionHandlerIntended(env: Env, found: Option<string>, actionName: string, appName: string,
                                 requestId: string, callerId: string): (o: Outcome)
    ensures found.None? && actionName == AddProjectsAction ==> o == AddProjects(env, requestId, callerId)
    ensures actionName != AddProjectsAction || found.Some? ==>
              o == ActionHandler(env, found, actionName, appName, requestId, callerId)
  {
    if found.None? && actionName == AddProjectsAction then AddProjects(env, requestId, callerId)
    else ActionHandler(env, found, actionName, appName, requestId, callerId)
  }

  /** The update built from a modification does not depend on its role map
      except for the new app's own role map. */
  lemma AddToDifferOnlyInRoles(m: Modified, roles: map<string, seq<string>>)
    ensures AddTo(m.(targetsToRole := roles)).Ok? <==> AddTo(m).Ok?
    ensures AddTo(m).Ok? ==> (AddTo(m.(targetsToRole := roles)).value.Some? <==> AddTo(m).value.Some?)
    ensures AddTo(m).Ok? && AddTo(m).value.Some? ==>
              var w := AddTo(m).value.value;
              var v := AddTo(m.(targetsToRole := roles)).value.value;
              v == w.(spec := w.spec.(targetToRole := v.spec.targetToRole))
  {
  }

  /** As written and as intended, addProjects writes on the same inputs,
      returns the same result when nothing is written, and the apps written
      differ only in their role map. */
  lemma AddProjectsDifferOnlyInRoles(env: Env, requestId: string, callerId: string)
    ensures var w := AddProjectsAsWritten(env, requestId, callerId);
            var v := AddProjects(env, requestId, callerId);
            && (w.written.Some? <==> v.written.Some?)
            && (w.written.None? ==> w == v)
            && (w.written.Some? ==> w.written.value == v.written.value.(spec := v.written.value.spec.(targetToRole := w.written.value.spec.targetToRole)))
  {
    ModifyProjectsDifferOnlyInRoles(env, requestId, callerId, AddProjectsAction);
    var mi := ModifyProjects(env, requestId, callerId, AddProjectsAction);
    var mw := ModifyProjectsAsWritten(env, requestId, callerId, AddProjectsAction);
    if mi.Ok? {
      AddToDifferOnlyInRoles(mi.value, map[]);
      assert mw.value == mi.value.(targetsToRole := map[]);
      assert AddProjectsAsWritten(env, requestId, callerId) == Finish(env, AddTo(mw.value));
      assert AddProjects(env, requestId, callerId) == Finish(env, AddTo(mi.value));
    }
  }

  /** The same for the whole dispatcher. */
  lemma ActionHandlersDifferOnlyInRoles(env: Env, found: Option<string>, actionName: string, appName: string,
                                        requestId: string, callerId: string)
    ensures var w := ActionHandler(env, found, actionName, appName, requestId, callerId);
            var v := ActionHandlerIntended(env, found, actionName, appName, requestId, callerId);
            && (w.written.Some? <==> v.written.Some?)
            && (w.written.None? ==> w == v)
            && (w.written.Some? ==> w.written.value == v.written.value.(spec := v.written.value.spec.(targetToRole := w.written.value.spec.targetToRole)))
  {
    if found.None? && actionName == AddProjectsAction {
      AddProjectsDifferOnlyInRoles(env, requestId, callerId);
    }
  }
}
