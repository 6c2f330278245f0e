/** The change set of an image update passes every check on change sets, so the guard lets
    through the deployment it exists for. */
module Scenarios {
  import opened Text
  import opened Json
  import opened ImageTags
  import opened Roles
  import opened ChangeSet
  import opened Guard
  import opened GuardTheorems
  import opened DeployExact

  // ---------------------------------------------------------------- the expected change set

  function TargetOf(name: string, recreation: string, path: Option<string>): Json {
    var m := map["Attribute" := Str("Properties"), "Name" := Str(name), "RequiresRecreation" := Str(recreation)];
    var order := ["Attribute", "Name", "RequiresRecreation"];
    match path
    case None => Obj(order, m)
    case Some(p) => Obj(order + ["Path"], m["Path" := Str(p)])
  }

  function Detail(name: string, recreation: string, evaluation: string, source: string, cause: Option<string>,
                  path: Option<string>): Json
  {
    var m := map["Target" := TargetOf(name, recreation, path), "Evaluation" := Str(evaluation),
                 "ChangeSource" := Str(source)];
    var order := ["Target", "Evaluation", "ChangeSource"];
    match cause
    case None => Obj(order, m)
    case Some(c) => Obj(order + ["CausingEntity"], m["CausingEntity" := Str(c)])
  }

  /** A missing field reads as None. */
  function OrNull(s: Option<string>): Json { if s.Some? then Str(s.value) else Null }

  function ResourceChangeOf(id: string, resourceType: string, replacement: string, detail: Json): Json {
    Obj(["Action", "LogicalResourceId", "PhysicalResourceId", "ResourceType", "Replacement", "Scope", "Details"],
        map["Action" := Str("Modify"), "LogicalResourceId" := Str(id), "PhysicalResourceId" := Str("arn"),
            "ResourceType" := Str(resourceType), "Replacement" := Str(replacement),
            "Scope" := Arr([Str("Properties")]), "Details" := Arr([detail])])
  }

  function ChangeOf(id: string, resourceType: string, replacement: string, detail: Json): Json {
    Obj(["Type", "ResourceChange"],
        map["Type" := Str("Resource"), "ResourceChange" := ResourceChangeOf(id, resourceType, replacement, detail)])
  }

  const IMAGE_PATH := "/ContainerDefinitions/0/Image"

  function TaskDetail(): Json {
    Detail("ContainerDefinitions", "Always", "Static", "DirectModification", None, Some(IMAGE_PATH))
  }

  function ServiceDetail(taskId: string, evaluation: string): Json {
    Detail("TaskDefinition", "Never", evaluation, "ResourceReference", Some(taskId), None)
  }

  function TaskChange(id: string): Json {
    ChangeOf(id, "AWS::ECS::TaskDefinition", "True", TaskDetail())
  }

  function ServiceChange(id: string, taskId: string, evaluation: string): Json {
    ChangeOf(id, "AWS::ECS::Service", "False", ServiceDetail(taskId, evaluation))
  }

  /** Both tasks replaced by a direct image modification, both services updated by the
      reference that causes; the reference may be reported as Static or as Dynamic. */
  function ImageUpdate(roles: map<string, Role>, evaluation: string): Json
    requires Injective(roles) && roles.Values == AllRoles
  {
    TablesInverse(roles);
    var ids := LogicalByRole(roles);
    Obj(["Status", "ExecutionStatus", "StatusReason", "Changes"],
        map["Status" := Str("CREATE_COMPLETE"), "ExecutionStatus" := Str("AVAILABLE"),
            "StatusReason" := Str("The change set is ready."),
            "Changes" := Arr([TaskChange(ids[WebTask]), TaskChange(ids[WorkerTask]),
                              ServiceChange(ids[WebService], ids[WebTask], evaluation),
                              ServiceChange(ids[WorkerService], ids[WorkerTask], evaluation)])])
  }

  lemma ChangeOfFields(id: string, resourceType: string, replacement: string, detail: Json)
    ensures var change := ChangeOf(id, resourceType, replacement, detail);
            var rc := Get(change, "ResourceChange");
            && Envelope(change)
            && Is(rc, "LogicalResourceId", id) && Is(rc, "Action", "Modify") && HasText(rc, "PhysicalResourceId")
            && Is(rc, "ResourceType", resourceType) && Is(rc, "Replacement", replacement)
            && ScopeIsProperties(rc) && Absent(rc, "PolicyAction") && Get(rc, "Details") == Arr([detail])
  {
    hide ResourceChangeOf, Is, HasText, ScopeIsProperties, OnlyKeys, Absent;
    OuterFields(id, resourceType, replacement, detail);
    ResourceChangeFields(id, resourceType, replacement, detail);
    NoUnknownFields(id, resourceType, replacement, detail);
  }

  lemma OuterFields(id: string, resourceType: string, replacement: string, detail: Json)
    ensures var change := ChangeOf(id, resourceType, replacement, detail);
            && OnlyKeys(change, CHANGE_KEYS) && Is(change, "Type", "Resource") && Absent(change, "HookInvocationCount")
            && Get(change, "ResourceChange") == ResourceChangeOf(id, resourceType, replacement, detail)
  {
  }

  lemma ResourceChangeFields(id: string, resourceType: string, replacement: string, detail: Json)
    ensures var rc := ResourceChangeOf(id, resourceType, replacement, detail);
            && Is(rc, "LogicalResourceId", id) && Is(rc, "Action", "Modify") && HasText(rc, "PhysicalResourceId")
            && Is(rc, "ResourceType", resourceType) && Is(rc, "Replacement", replacement)
            && ScopeIsProperties(rc) && Absent(rc, "PolicyAction") && Get(rc, "Details") == Arr([detail])
  {
  }

  lemma NoUnknownFields(id: string, resourceType: string, replacement: string, detail: Json)
    ensures var rc := ResourceChangeOf(id, resourceType, replacement, detail);
            OnlyKeys(rc, RESOURCE_CHANGE_KEYS) && forall k <- NULL_ONLY_KEYS :: Absent(rc, k)
  {
    var rc := ResourceChangeOf(id, resourceType, replacement, detail);
    assert rc.m.Keys ==
      {"Action", "LogicalResourceId", "PhysicalResourceId", "ResourceType", "Replacement", "Scope", "Details"};
    assert forall k <- NULL_ONLY_KEYS :: k !in rc.m.Keys;
  }

  lemma TargetFields(name: string, recreation: string, path: Option<string>)
    ensures var target := TargetOf(name, recreation, path);
            && OnlyKeys(target, TARGET_KEYS)
            && Is(target, "Attribute", "Properties") && Is(target, "Name", name)
            && Is(target, "RequiresRecreation", recreation) && Get(target, "Path") == OrNull(path)
            && forall k | k in {"BeforeValue", "AfterValue", "Drift", "BeforeValueFrom", "AfterValueFrom"} ::
                 Absent(target, k)
  {
  }

  lemma DetailFields(name: string, recreation: string, evaluation: string, source: string, cause: Option<string>,
                     path: Option<string>)
    ensures var d := Detail(name, recreation, evaluation, source, cause, path);
            && OnlyKeys(d, DETAIL_KEYS) && Get(d, "Target") == TargetOf(name, recreation, path)
            && Is(d, "Evaluation", evaluation) && Is(d, "ChangeSource", source)
            && Get(d, "CausingEntity") == OrNull(cause)
  {
    hide TargetOf;
  }

  lemma ReadString(j: Json, key: string, s: string)
    requires Is(j, key, s)
    ensures Get(j, key) == Str(s)
  {
  }

  lemma ImagePathMatches()
    ensures ImagePath(IMAGE_PATH)
  {
    var start, end := |IMAGE_PATH_START|, |IMAGE_PATH| - |IMAGE_PATH_END|;
    assert IMAGE_PATH == IMAGE_PATH_START + "0" + IMAGE_PATH_END;
    assert IMAGE_PATH[..start] == IMAGE_PATH_START && IMAGE_PATH[end..] == IMAGE_PATH_END;
    assert IMAGE_PATH[start..end] == "0";
  }

  lemma TaskDetailAccepted(py: Python, repository: string, tag: string)
    ensures TaskDetailOk(py, TaskDetail(), repository, tag) && KnownFields(TaskDetail())
  {
    hide Detail, TargetOf, ValuesOk, ImagePath;
    DetailFields("ContainerDefinitions", "Always", "Static", "DirectModification", None, Some(IMAGE_PATH));
    TargetFields("ContainerDefinitions", "Always", Some(IMAGE_PATH));
    ImagePathMatches();
  }

  lemma TaskChangeAccepted(py: Python, id: string, roles: map<string, Role>, repository: string, tag: string)
    requires Injective(roles) && roles.Values == AllRoles && id in roles && IsTask(roles[id])
    ensures ChangedRole(py, TaskChange(id), roles, repository, tag) == Some(roles[id])
  {
    hide ChangeOf, TaskDetail, Envelope, Is, Absent, HasText, ScopeIsProperties, KnownFields, OneOf, TaskDetailOk;
    ChangeOfFields(id, "AWS::ECS::TaskDefinition", "True", TaskDetail());
    TaskDetailAccepted(py, repository, tag);
    ReadString(Get(TaskChange(id), "ResourceChange"), "LogicalResourceId", id);
  }

  lemma ServiceDetailAccepted(taskId: string, evaluation: string)
    requires evaluation == "Static" || evaluation == "Dynamic"
    ensures ServiceDetailOk(ServiceDetail(taskId, evaluation), taskId) && KnownFields(ServiceDetail(taskId, evaluation))
  {
    hide Detail, TargetOf;
    DetailFields("TaskDefinition", "Never", evaluation, "ResourceReference", Some(taskId), None);
    TargetFields("TaskDefinition", "Never", None);
  }

  lemma ServiceChangeAccepted(py: Python, id: string, evaluation: string, roles: map<string, Role>,
                              repository: string, tag: string)
    requires Injective(roles) && roles.Values == AllRoles && id in roles && !IsTask(roles[id])
    requires evaluation == "Static" || evaluation == "Dynamic"
    ensures TaskOf(roles[id]) in LogicalByRole(roles)
    ensures var change := ServiceChange(id, LogicalByRole(roles)[TaskOf(roles[id])], evaluation);
            ChangedRole(py, change, roles, repository, tag) == Some(roles[id])
  {
    hide ChangeOf, ServiceDetail, Envelope, Is, Absent, HasText, ScopeIsProperties, KnownFields, OneOf, ServiceDetailOk;
    TablesInverse(roles);
    var taskId := LogicalByRole(roles)[TaskOf(roles[id])];
    ChangeOfFields(id, "AWS::ECS::Service", "False", ServiceDetail(taskId, evaluation));
    ServiceDetailAccepted(taskId, evaluation);
    ReadString(Get(ServiceChange(id, taskId, evaluation), "ResourceChange"), "LogicalResourceId", id);
  }

  lemma FourAllowedChanges(py: Python, changes: seq<Json>, roles: map<string, Role>, repository: string, tag: string)
    requires Injective(roles) && roles.Values == AllRoles && |changes| == 4
    requires ChangedRole(py, changes[0], roles, repository, tag) == Some(WebTask)
    requires ChangedRole(py, changes[1], roles, repository, tag) == Some(WorkerTask)
    requires ChangedRole(py, changes[2], roles, repository, tag) == Some(WebService)
    requires ChangedRole(py, changes[3], roles, repository, tag) == Some(WorkerService)
    ensures ChangesOk(py, changes, roles, repository, tag)
  {
    hide ChangedRole, Injective;
    assert changes == [changes[0], changes[1], changes[2], changes[3]];
    assert changes[0] in changes && changes[1] in changes && changes[2] in changes && changes[3] in changes;
  }

  lemma ImageUpdateChanges(py: Python, roles: map<string, Role>, evaluation: string, repository: string, tag: string)
    requires Injective(roles) && roles.Values == AllRoles
    requires evaluation == "Static" || evaluation == "Dynamic"
    ensures Get(ImageUpdate(roles, evaluation), "Changes").Arr?
    ensures ChangesOk(py, Get(ImageUpdate(roles, evaluation), "Changes").items, roles, repository, tag)
  {
    hide ChangedRole, TaskChange, ServiceChange, LogicalByRole, ChangesOk;
    TablesInverse(roles);
    var ids := LogicalByRole(roles);
    TaskChangeAccepted(py, ids[WebTask], roles, repository, tag);
    TaskChangeAccepted(py, ids[WorkerTask], roles, repository, tag);
    ServiceChangeAccepted(py, ids[WebService], evaluation, roles, repository, tag);
    ServiceChangeAccepted(py, ids[WorkerService], evaluation, roles, repository, tag);
    FourAllowedChanges(py, Get(ImageUpdate(roles, evaluation), "Changes").items, roles, repository, tag);
  }

  /** The change set of an image update passes all change-set checks. */
  lemma ImageUpdateOk(py: Python, roles: map<string, Role>, evaluation: string, repository: string, tag: string)
    requires Injective(roles) && roles.Values == AllRoles
    requires evaluation == "Static" || evaluation == "Dynamic"
    ensures ChangeSetOk(py, ImageUpdate(roles, evaluation), roles, repository, tag)
  {
    hide ChangesOk, TaskChange, ServiceChange, LogicalByRole, Injective;
    ImageUpdateChanges(py, roles, evaluation, repository, tag);
    HeadersOf(ImageUpdate(roles, evaluation));
  }

  lemma HeadersOf(cs: Json)
    requires cs.Obj? && "NextToken" !in cs.m && Get(cs, "StatusReason").Str? && Is(cs, "Status", "CREATE_COMPLETE")
    ensures !Truthy(Get(cs, "NextToken")) && ChangeSet.Noop(cs) == NotNoop
  {
    assert "CREATE_COMPLETE"[0] != "FAILED"[0];
  }

  /** An image update whose templates differ by the two image tags is accepted exactly when
      neither task's logical id is dotted. */
  lemma ImageUpdateDeploysIff(py: Python, current: Json, proposed: Json, evaluation: string, uri: string,
                              repository: string, stack: string)
    requires Identified(current, stack) && RolesOf(proposed, stack) == RolesOf(current, stack)
    requires evaluation == "Static" || evaluation == "Dynamic"
    requires ParseImageUri(py, uri, repository).Some? && TagOf(py, uri, repository) != "dev"
    requires WebTask in RoleIds(current, stack) && WorkerTask in RoleIds(current, stack)
    requires OnlyTwoImageTagsChange(current, proposed, RoleIds(current, stack)[WebTask],
                                    RoleIds(current, stack)[WorkerTask], repository, TagOf(py, uri, repository))
    ensures Accepted(py, ImageUpdate(RolesOf(current, stack).value, evaluation), current, proposed, uri, repository,
                     stack)
            <==> TaskIdsUndotted(current, stack)
  {
    hide Accepted, OnlyTwoImageTagsChange, ParseImageUri, RolesOf, LogicalByRole, ImageUpdate, ChangeSetOk,
         TaskIdsUndotted;
    var roles := RolesOf(current, stack).value;
    ImageUpdateOk(py, roles, evaluation, repository, TagOf(py, uri, repository));
    PlanAcceptedIff(py, ImageUpdate(roles, evaluation), current, proposed, uri, repository, stack);
  }
}
