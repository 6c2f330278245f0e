/** The review of one resource change as a table of fields and allowed values, with the texts
    written out, and the law that each field decides on its own. */
module ReviewRules {
  import opened Text
  import opened Decimal
  import opened Json
  import opened TreeDiff
  import opened DiffTheorems
  import opened ImageTags
  import opened ImageRules
  import opened Roles
  import opened ChangeSet
  import opened ChangeSetTheorems

  // ---------------------------------------------------------------- the table

  /** The field holds one of these values; a missing field reads as Null. */
  datatype Rule = Rule(key: string, allowed: set<Json>)

  predicate Obeys(j: Json, rules: seq<Rule>) {
    forall rule <- rules :: Get(j, rule.key) in rule.allowed
  }

  const CHANGE_RULES := [Rule("Type", {Str("Resource")}), Rule("HookInvocationCount", {Null})]

  const COMMON_RULES := [Rule("Action", {Str("Modify")}), Rule("Scope", {Arr([Str("Properties")])})]

  const UNUSED_RULES := [
    Rule("ModuleInfo", {Null}),
    Rule("ResourceDriftStatus", {Null}),
    Rule("ResourceDriftIgnoredAttributes", {Null}),
    Rule("BeforeContext", {Null}),
    Rule("AfterContext", {Null}),
    Rule("PreviousDeploymentContext", {Null})]

  const TASK_RULES := [
    Rule("ResourceType", {Str("AWS::ECS::TaskDefinition")}),
    Rule("Replacement", {Str("True")}),
    Rule("PolicyAction", {Null, Str("ReplaceAndDelete"), Str("ReplaceAndRetain")})]

  const SERVICE_RULES := [
    Rule("ResourceType", {Str("AWS::ECS::Service")}),
    Rule("Replacement", {Str("False")}),
    Rule("PolicyAction", {Null})]

  function ResourceRules(r: Role): seq<Rule> {
    COMMON_RULES + UNUSED_RULES + if r == WebTask || r == WorkerTask then TASK_RULES else SERVICE_RULES
  }

  function DetailRules(r: Role, taskId: string): seq<Rule> {
    if r == WebTask || r == WorkerTask then
      [Rule("Evaluation", {Str("Static")}),
       Rule("ChangeSource", {Str("DirectModification")}),
       Rule("CausingEntity", {Null})]
    else
      [Rule("Evaluation", {Str("Static"), Str("Dynamic")}),
       Rule("ChangeSource", {Str("ResourceReference")}),
       Rule("CausingEntity", {Str(taskId)})]
  }

  function TargetRules(r: Role): seq<Rule> {
    if r == WebTask || r == WorkerTask then
      [Rule("Attribute", {Str("Properties")}),
       Rule("Name", {Str("ContainerDefinitions")}),
       Rule("RequiresRecreation", {Str("Always")}),
       Rule("Drift", {Null}),
       Rule("BeforeValueFrom", {Null, Str("PREVIOUS_DEPLOYMENT_STATE")}),
       Rule("AfterValueFrom", {Null, Str("TEMPLATE")})]
    else
      [Rule("Attribute", {Str("Properties")}),
       Rule("Name", {Str("TaskDefinition")}),
       Rule("RequiresRecreation", {Str("Never")}),
       Rule("Path", {Null}),
       Rule("BeforeValue", {Null}),
       Rule("AfterValue", {Null}),
       Rule("Drift", {Null})]
  }

  const KNOWN_OF_CHANGE := {"Type", "ResourceChange", "HookInvocationCount"}
  const KNOWN_OF_RESOURCE := {
    "Action", "LogicalResourceId", "PhysicalResourceId", "ResourceType", "Replacement", "Scope", "Details",
    "ChangeSetId", "PolicyAction", "ModuleInfo", "ResourceDriftStatus", "ResourceDriftIgnoredAttributes",
    "BeforeContext", "AfterContext", "PreviousDeploymentContext"}
  const KNOWN_OF_DETAIL := {"Target", "Evaluation", "ChangeSource", "CausingEntity"}
  const KNOWN_OF_TARGET := {
    "Attribute", "Name", "RequiresRecreation", "Path", "BeforeValue", "AfterValue", "BeforeValueFrom",
    "AfterValueFrom", "Drift"}

  // ---------------------------------------------------------------- the values of a task's detail

  /** `/ContainerDefinitions/[0-9]+/Image`. */
  ghost predicate WrittenImagePath(s: string, digits: string) {
    && s == "/ContainerDefinitions/" + (digits + "/Image")
    && digits != "" && forall c <- digits :: 48 <= c as int <= 57
  }

  lemma ImagePathWritten(s: string)
    ensures ImagePath(s) <==> exists digits :: WrittenImagePath(s, digits)
    ensures ImagePath(s) ==> EndsWith(s, "/Image")
  {
    if digits :| WrittenImagePath(s, digits) {
      EndsWithConcat("/ContainerDefinitions/" + digits, "/Image");
      assert s == ("/ContainerDefinitions/" + digits) + "/Image";
      assert s[22..|s| - 6] == digits;
    }
    if ImagePath(s) {
      assert |IMAGE_PATH_START| == 22 && |IMAGE_PATH_END| == 6;
      var digits := s[22..|s| - 6];
      assert forall c <- digits :: IsDigit(c);
      assert s == "/ContainerDefinitions/" + (digits + "/Image");
      assert WrittenImagePath(s, digits);
    }
  }

  /** The trees differ at one place, by an expected tag change. */
  ghost predicate OneTagMoved(x: Json, y: Json, e: Entry, repository: string, tag: string) {
    && (forall f :: f in DiffsAt(x, y, []) <==> f == e)
    && e.kind == ValueKind
    && exists front, oldTag :: WrittenChange(e.before, e.after, front, repository, oldTag, tag)
  }

  /** What a task's detail may say about values: nothing, the two image texts under an image path,
      or two JSON texts whose trees differ by one tag. */
  ghost predicate ValuesAllowed(py: Python, path: Json, before: Json, after: Json, repository: string, tag: string) {
    && (path == Null || (path.Str? && exists digits :: WrittenImagePath(path.s, digits)))
    && ((before == Null && after == Null)
        || (before.Str? && after.Str? && before.s != "" && after.s != "" &&
            if path != Null then exists front, oldTag :: WrittenChange(before, after, front, repository, oldTag, tag)
            else py.loads(before.s).Some? && py.loads(after.s).Some? &&
                 exists e :: OneTagMoved(py.loads(before.s).value, py.loads(after.s).value, e, repository, tag)))
  }

  ghost predicate WrittenValues(py: Python, target: Json, repository: string, tag: string) {
    ValuesAllowed(py, Get(target, "Path"), Get(target, "BeforeValue"), Get(target, "AfterValue"), repository, tag)
  }

  lemma OneDifferenceIff(x: Json, y: Json, repository: string, tag: string)
    ensures (|Differences(x, y, "")| == 1 && IsImageDifference(Differences(x, y, "")[0], repository, tag)) <==>
            exists e :: OneTagMoved(x, y, e, repository, tag)
  {
    hide DiffsAt, Differences, IsExpectedImageChange, WrittenChange;
    var es := DiffsAt(x, y, []);
    RenderedDiff(x, y, []);
    RenderNil();
    if |es| == 1 {
      assert es == [es[0]];
      ChangeWritten(es[0].before, es[0].after, repository, tag);
      if IsImageDifference(RenderEntry(es[0]), repository, tag) { assert OneTagMoved(x, y, es[0], repository, tag); }
    }
    if e :| OneTagMoved(x, y, e, repository, tag) {
      DiffPathsDistinct(x, y, []);
      OneByMembership(es, e);
    }
  }

  lemma OneByMembership(es: seq<Entry>, e: Entry)
    requires DistinctPaths(es) && forall f :: f in es <==> f == e
    ensures es == [e]
  {
    assert e in es;
    forall i | 0 <= i < |es| ensures es[i] == e { assert es[i] in es; }
    assert |es| >= 2 ==> es[0].path != es[1].path;
  }

  lemma ValuesOfTarget(py: Python, target: Json, repository: string, tag: string)
    ensures WrittenValues(py, target, repository, tag) <==>
            && (Absent(target, "Path") || (Get(target, "Path").Str? && ImagePath(Get(target, "Path").s)))
            && ((Absent(target, "BeforeValue") && Absent(target, "AfterValue"))
                || (HasText(target, "BeforeValue") && HasText(target, "AfterValue") &&
                    ValuesOk(py, Get(target, "BeforeValue"), Get(target, "AfterValue"), Get(target, "Path"),
                             repository, tag)))
  {
    hide Differences, IsExpectedImageChange, WrittenChange, ImagePath, WrittenImagePath, OneTagMoved, IsImageDifference,
         EndsWith;
    var path, before, after := Get(target, "Path"), Get(target, "BeforeValue"), Get(target, "AfterValue");
    if path.Str? { ImagePathWritten(path.s); }
    ChangeWritten(before, after, repository, tag);
    if before.Str? && after.Str? && py.loads(before.s).Some? && py.loads(after.s).Some? {
      OneDifferenceIff(py.loads(before.s).value, py.loads(after.s).value, repository, tag);
    }
  }

  /** The parsed trees of an allowed detail without path are one tree but for one tag. */
  lemma OneTagMovedIsPatch(x: Json, y: Json, e: Entry, repository: string, tag: string)
    requires OneTagMoved(x, y, e, repository, tag)
    ensures SameTree(Patch(x, [], [e]), y)
  {
    hide DiffsAt, WrittenChange, Patch, SameTree;
    DiffPathsDistinct(x, y, []);
    OneByMembership(DiffsAt(x, y, []), e);
    DiffIsPatch(x, y, [e]);
  }

  // ---------------------------------------------------------------- the review is the table

  function ResourceOfChange(change: Json): Json { Get(change, "ResourceChange") }

  function DetailsOf(change: Json): seq<Json> {
    var details := Get(ResourceOfChange(change), "Details");
    if details.Arr? then details.items else []
  }

  /** No dict of the change has a field outside the known ones, and there are details. */
  ghost predicate KnownShape(change: Json) {
    var rc := ResourceOfChange(change);
    && change.Obj? && change.m.Keys <= KNOWN_OF_CHANGE
    && rc.Obj? && rc.m.Keys <= KNOWN_OF_RESOURCE
    && Get(rc, "Details").Arr? && DetailsOf(change) != []
    && forall d <- DetailsOf(change) :: KnownDetail(d)
  }

  ghost predicate KnownDetail(d: Json) {
    d.Obj? && d.m.Keys <= KNOWN_OF_DETAIL && Get(d, "Target").Obj? && Get(d, "Target").m.Keys <= KNOWN_OF_TARGET
  }

  /** The change names a physical resource and the logical id that holds this role. */
  ghost predicate Names(change: Json, roles: map<string, Role>, r: Role) {
    var rc := ResourceOfChange(change);
    && Get(rc, "PhysicalResourceId").Str? && Get(rc, "PhysicalResourceId").s != ""
    && Get(rc, "LogicalResourceId").Str? && Get(rc, "LogicalResourceId").s in roles
    && roles[Get(rc, "LogicalResourceId").s] == r
  }

  /** The logical id of the task that a role's details must name as their cause. */
  ghost function CauseOf(roles: map<string, Role>, r: Role): string
    requires Injective(roles) && roles.Values == AllRoles
  {
    TablesInverse(roles);
    match r
    case WebService => LogicalByRole(roles)[WebTask]
    case WorkerService => LogicalByRole(roles)[WorkerTask]
    case _ => ""
  }

  ghost predicate DetailReviewed(py: Python, d: Json, r: Role, taskId: string, repository: string, tag: string) {
    && Obeys(d, DetailRules(r, taskId))
    && Obeys(Get(d, "Target"), TargetRules(r))
    && (r == WebTask || r == WorkerTask ==> WrittenValues(py, Get(d, "Target"), repository, tag))
  }

  ghost predicate Reviewed(py: Python, change: Json, roles: map<string, Role>, r: Role, repository: string, tag: string)
    requires Injective(roles) && roles.Values == AllRoles
  {
    && KnownShape(change) && Names(change, roles, r)
    && Obeys(change, CHANGE_RULES) && Obeys(ResourceOfChange(change), ResourceRules(r))
    && forall d <- DetailsOf(change) :: DetailReviewed(py, d, r, CauseOf(roles, r), repository, tag)
  }

  lemma SameConstants()
    ensures CHANGE_KEYS == KNOWN_OF_CHANGE && RESOURCE_CHANGE_KEYS == KNOWN_OF_RESOURCE
    ensures DETAIL_KEYS == KNOWN_OF_DETAIL && TARGET_KEYS == KNOWN_OF_TARGET
  {
  }

  lemma ObeysConcat(j: Json, a: seq<Rule>, b: seq<Rule>)
    ensures Obeys(j, a + b) <==> Obeys(j, a) && Obeys(j, b)
  {
  }

  lemma CommonIff(rc: Json)
    ensures Obeys(rc, COMMON_RULES) <==> Is(rc, "Action", "Modify") && ScopeIsProperties(rc)
  {
    hide Get;
    var rules := COMMON_RULES;
    if Obeys(rc, rules) { assert rules[0] in rules && rules[1] in rules; }
  }

  ghost predicate NoUnused(rc: Json) {
    && Get(rc, "ModuleInfo") == Null && Get(rc, "ResourceDriftStatus") == Null
    && Get(rc, "ResourceDriftIgnoredAttributes") == Null && Get(rc, "BeforeContext") == Null
    && Get(rc, "AfterContext") == Null && Get(rc, "PreviousDeploymentContext") == Null
  }

  lemma UnusedIff(rc: Json)
    ensures Obeys(rc, UNUSED_RULES) <==> NoUnused(rc)
  {
    hide Get;
    var rules := UNUSED_RULES;
    if Obeys(rc, rules) {
      assert rules[0] in rules && rules[1] in rules && rules[2] in rules;
      assert rules[3] in rules && rules[4] in rules && rules[5] in rules;
    }
  }

  lemma NullOnlyIff(rc: Json)
    ensures NoUnused(rc) <==> forall k <- NULL_ONLY_KEYS :: Absent(rc, k)
  {
    hide Get;
    if forall k <- NULL_ONLY_KEYS :: Absent(rc, k) {
      assert Absent(rc, "ModuleInfo") && Absent(rc, "ResourceDriftStatus");
      assert Absent(rc, "ResourceDriftIgnoredAttributes") && Absent(rc, "BeforeContext");
      assert Absent(rc, "AfterContext") && Absent(rc, "PreviousDeploymentContext");
    }
  }

  lemma TaskRulesIff(rc: Json)
    ensures Obeys(rc, TASK_RULES) <==>
            && Is(rc, "ResourceType", "AWS::ECS::TaskDefinition") && Is(rc, "Replacement", "True")
            && (Absent(rc, "PolicyAction") || OneOf(rc, "PolicyAction", TASK_POLICY_ACTIONS))
  {
    var rules := TASK_RULES;
    if Obeys(rc, rules) { assert rules[0] in rules && rules[1] in rules && rules[2] in rules; }
  }

  lemma ServiceRulesIff(rc: Json)
    ensures Obeys(rc, SERVICE_RULES) <==>
            && Is(rc, "ResourceType", "AWS::ECS::Service") && Is(rc, "Replacement", "False")
            && Absent(rc, "PolicyAction")
  {
    var rules := SERVICE_RULES;
    if Obeys(rc, rules) { assert rules[0] in rules && rules[1] in rules && rules[2] in rules; }
  }

  lemma ChangeRulesIff(change: Json)
    ensures Obeys(change, CHANGE_RULES) <==> Is(change, "Type", "Resource") && Absent(change, "HookInvocationCount")
  {
    var rules := CHANGE_RULES;
    if Obeys(change, rules) { assert rules[0] in rules && rules[1] in rules; }
  }

  lemma TaskDetailIff(py: Python, d: Json, r: Role, taskId: string, repository: string, tag: string)
    requires r == WebTask || r == WorkerTask
    ensures TaskDetailOk(py, d, repository, tag) <==> DetailReviewed(py, d, r, taskId, repository, tag)
  {
    hide WrittenValues, ImagePath, ValuesOk, Obeys, Get, TargetRules;
    var target := Get(d, "Target");
    ValuesOfTarget(py, target, repository, tag);
    TaskTargetIff(target, r);
    TaskDetailRulesIff(d, r, taskId);
  }

  lemma TaskDetailRulesIff(d: Json, r: Role, taskId: string)
    requires r == WebTask || r == WorkerTask
    ensures Obeys(d, DetailRules(r, taskId)) <==>
            Is(d, "Evaluation", "Static") && Is(d, "ChangeSource", "DirectModification") && Absent(d, "CausingEntity")
  {
    hide Get;
    var rules := DetailRules(r, taskId);
    if Obeys(d, rules) { assert rules[0] in rules && rules[1] in rules && rules[2] in rules; }
  }

  lemma TaskTargetIff(target: Json, r: Role)
    requires r == WebTask || r == WorkerTask
    ensures Obeys(target, TargetRules(r)) <==>
            && Is(target, "Attribute", "Properties") && Is(target, "Name", "ContainerDefinitions")
            && Is(target, "RequiresRecreation", "Always") && Absent(target, "Drift")
            && (Absent(target, "BeforeValueFrom") || Is(target, "BeforeValueFrom", "PREVIOUS_DEPLOYMENT_STATE"))
            && (Absent(target, "AfterValueFrom") || Is(target, "AfterValueFrom", "TEMPLATE"))
  {
    var rules := TargetRules(r);
    if Obeys(target, rules) {
      assert rules[0] in rules && rules[1] in rules && rules[2] in rules;
      assert rules[3] in rules && rules[4] in rules && rules[5] in rules;
    }
  }

  lemma ServiceDetailIff(py: Python, d: Json, r: Role, taskId: string, repository: string, tag: string)
    requires r == WebService || r == WorkerService
    ensures ServiceDetailOk(d, taskId) <==> DetailReviewed(py, d, r, taskId, repository, tag)
  {
    hide WrittenValues;
    var rules := DetailRules(r, taskId);
    if Obeys(d, rules) { assert rules[0] in rules && rules[1] in rules && rules[2] in rules; }
    ServiceTargetIff(Get(d, "Target"), r);
  }

  lemma ServiceTargetIff(target: Json, r: Role)
    requires r == WebService || r == WorkerService
    ensures Obeys(target, TargetRules(r)) <==>
            && Is(target, "Attribute", "Properties") && Is(target, "Name", "TaskDefinition")
            && Is(target, "RequiresRecreation", "Never")
            && Absent(target, "Path") && Absent(target, "BeforeValue") && Absent(target, "AfterValue")
            && Absent(target, "Drift")
  {
    var rules := TargetRules(r);
    if Obeys(target, rules) {
      assert rules[0] in rules && rules[1] in rules && rules[2] in rules;
      assert rules[3] in rules && rules[4] in rules && rules[5] in rules && rules[6] in rules;
    }
  }

  /** A resource change is allowed for a role if and only if every field holds a value of the
      table, there are no other fields, and its details say nothing but the tag change. */
  lemma ReviewIff(py: Python, change: Json, roles: map<string, Role>, r: Role, repository: string, tag: string)
    requires Injective(roles) && roles.Values == AllRoles
    ensures ChangedRole(py, change, roles, repository, tag) == Some(r) <==>
            Reviewed(py, change, roles, r, repository, tag)
  {
    hide Obeys, NoUnused, WrittenValues, TaskDetailOk, ServiceDetailOk, DetailReviewed, Is, Absent, OneOf,
         ScopeIsProperties, LogicalByRole, Injective;
    var rc := ResourceOfChange(change);
    SameConstants();
    TablesInverse(roles);
    ObeysConcat(rc, COMMON_RULES, UNUSED_RULES);
    ObeysConcat(rc, COMMON_RULES + UNUSED_RULES, if r == WebTask || r == WorkerTask then TASK_RULES else SERVICE_RULES);
    CommonIff(rc);
    UnusedIff(rc);
    NullOnlyIff(rc);
    ChangeRulesIff(change);
    TaskRulesIff(rc);
    ServiceRulesIff(rc);
    forall d
      ensures IsTask(r) ==>
                (TaskDetailOk(py, d, repository, tag) <==> DetailReviewed(py, d, r, CauseOf(roles, r), repository, tag))
      ensures !IsTask(r) ==>
                (ServiceDetailOk(d, CauseOf(roles, r)) <==>
                 DetailReviewed(py, d, r, CauseOf(roles, r), repository, tag))
    {
      if IsTask(r) { TaskDetailIff(py, d, r, CauseOf(roles, r), repository, tag); }
      else { ServiceDetailIff(py, d, r, CauseOf(roles, r), repository, tag); }
    }
  }
}
