/** The CloudFormation change set: joining its pages, recognising a no-op, and checking
    each listed resource change. */
module ChangeSet {
  import opened Text
  import opened Decimal
  import opened Json
  import opened TreeDiff
  import opened ImageTags
  import opened Roles

  // ---------------------------------------------------------------- reading fields

  /** The field is this string. */
  predicate Is(j: Json, key: string, s: string) { Get(j, key) == Str(s) }

  /** The field is missing or None. */
  predicate Absent(j: Json, key: string) { Get(j, key) == Null }

  /** The field is one of these strings. */
  predicate OneOf(j: Json, key: string, ss: set<string>) { Get(j, key).Str? && Get(j, key).s in ss }

  /** The field is a non-empty string. */
  predicate HasText(j: Json, key: string) { Get(j, key).Str? && Get(j, key).s != "" }

  predicate OnlyKeys(j: Json, allowed: set<string>) { j.Obj? && j.m.Keys <= allowed }

  // ---------------------------------------------------------------- pages

  const HEADERS := {"Status", "ExecutionStatus", "StatusReason", "ChangeSetName"}

  /** A page's change list; a missing or None list is empty, anything else is refused. */
  function PageChanges(page: Json): Option<seq<Json>> {
    var changes := Get(page, "Changes");
    if changes.Null? then Some([])
    else if changes.Arr? then Some(changes.items)
    else None
  }

  /** The continuation token: present and a non-empty string before the last page, falsy on it. */
  predicate TokenOk(page: Json, last: bool) {
    var token := Get(page, "NextToken");
    if last then !Truthy(token) else Truthy(token) && token.Str?
  }

  predicate PageOk(pages: seq<Json>, i: nat)
    requires i < |pages|
  {
    && pages[i].Obj?
    && (i > 0 ==> forall h <- HEADERS :: PyEq(Get(pages[i], h), Get(pages[0], h)))
    && PageChanges(pages[i]).Some?
    && TokenOk(pages[i], i == |pages| - 1)
  }

  ghost predicate PagesOk(pages: seq<Json>) {
    pages != [] && forall i :: 0 <= i < |pages| ==> PageOk(pages, i)
  }

  /** The change lists of all pages, in order. */
  function AllChanges(pages: seq<Json>): seq<Json> {
    if pages == [] then []
    else AllChanges(pages[..|pages| - 1]) + PageChanges(pages[|pages| - 1]).GetOr([])
  }

  function Without(order: seq<string>, key: string): seq<string> {
    if order == [] then []
    else (if order[0] == key then [] else [order[0]]) + Without(order[1..], key)
  }

  /** The first page without its token, holding the given changes. */
  function Merged(first: Json, changes: seq<Json>): Json
    requires first.Obj?
  {
    var order := Without(first.order, "NextToken");
    Obj(if "Changes" in first.m then order else order + ["Changes"],
        (first.m - {"NextToken"})["Changes" := Arr(changes)])
  }

  ghost function MergePages(pages: seq<Json>): Option<Json> {
    if !PagesOk(pages) then None
    else
      assert PageOk(pages, 0);
      Some(Merged(pages[0], AllChanges(pages)))
  }

  /** `merge_change_set_pages`. */
  method MergeChangeSetPages(pages: seq<Json>) returns (r: Option<Json>)
    ensures r == MergePages(pages)
  {
    if pages == [] { return None; }
    var first := pages[0];
    if !first.Obj? {
      Refused(pages, 0);
      return None;
    }
    var changes: seq<Json> := [];
    var index := 0;
    while index < |pages|
      invariant 0 <= index <= |pages|
      invariant forall i :: 0 <= i < index ==> PageOk(pages, i)
      invariant changes == AllChanges(pages[..index])
    {
      hide PyEq, Truthy, AllChanges, MergePages;
      Refused(pages, index);
      var page := pages[index];
      if !page.Obj? { return None; }
      if index > 0 {
        if exists key :: key in HEADERS && !PyEq(Get(page, key), Get(first, key)) { return None; }
      }
      var pageChanges := Get(page, "Changes");
      if pageChanges.Null? { pageChanges := Arr([]); }
      if !pageChanges.Arr? { return None; }
      changes := changes + pageChanges.items;
      OneMorePage(pages, index);
      var raw := Get(page, "NextToken");
      var token := if Truthy(raw) then raw else Str("");
      TruthyText(raw);
      if !token.Str? { return None; }
      if index < |pages| - 1 && token.s == "" { return None; }
      if index == |pages| - 1 && token.s != "" { return None; }
      index := index + 1;
    }
    assert pages[..index] == pages;
    r := Some(Merged(first, changes));
  }

  lemma Refused(pages: seq<Json>, i: nat)
    requires i < |pages|
    ensures !PageOk(pages, i) ==> MergePages(pages) == None
  {
    hide PageOk;
  }

  lemma OneMorePage(pages: seq<Json>, i: nat)
    requires i < |pages|
    ensures AllChanges(pages[..i + 1]) == AllChanges(pages[..i]) + PageChanges(pages[i]).GetOr([])
  {
    assert pages[..i + 1][..i] == pages[..i];
  }

  lemma TruthyText(j: Json)
    ensures j.Str? ==> (Truthy(j) <==> j.s != "")
  {
  }

  // ---------------------------------------------------------------- no-op status

  datatype NoopStatus = NotNoop | IsNoop | BadNoop

  const NO_CHANGE_PREFIXES :=
    ["The submitted information didn't contain changes.", "No updates are to be performed."]

  predicate NoChangeReason(reason: string) {
    exists i :: 0 <= i < |NO_CHANGE_PREFIXES| && NO_CHANGE_PREFIXES[i] <= reason
  }

  /** `_noop_reason`: not a failed change set, a recognised empty one, or a refusal. */
  function Noop(cs: Json): NoopStatus {
    var raw := Get(cs, "StatusReason");
    var reason := if Truthy(raw) then raw else Str("");
    if !reason.Str? then BadNoop
    else if !Is(cs, "Status", "FAILED") then NotNoop
    else if !NoChangeReason(reason.s) then BadNoop
    else if PageChanges(cs) == Some([]) then IsNoop
    else BadNoop
  }

  // ---------------------------------------------------------------- one resource change

  const CHANGE_KEYS := {"Type", "ResourceChange", "HookInvocationCount"}
  const NULL_ONLY_KEYS :=
    {"ModuleInfo", "ResourceDriftStatus", "ResourceDriftIgnoredAttributes",
     "BeforeContext", "AfterContext", "PreviousDeploymentContext"}
  const RESOURCE_CHANGE_KEYS :=
    {"Action", "LogicalResourceId", "PhysicalResourceId", "ResourceType", "Replacement",
     "Scope", "Details", "ChangeSetId", "PolicyAction"} + NULL_ONLY_KEYS
  const TASK_POLICY_ACTIONS := {"ReplaceAndDelete", "ReplaceAndRetain"}
  const DETAIL_KEYS := {"Target", "Evaluation", "ChangeSource", "CausingEntity"}
  const TARGET_KEYS :=
    {"Attribute", "Name", "RequiresRecreation", "Path", "BeforeValue", "AfterValue",
     "BeforeValueFrom", "AfterValueFrom", "Drift"}

  const IMAGE_PATH_START := "/ContainerDefinitions/"
  const IMAGE_PATH_END := "/Image"

  /** TASK_IMAGE_PATH_RE: `/ContainerDefinitions/`, ASCII digits, `/Image`. */
  predicate ImagePath(s: string) {
    && IMAGE_PATH_START <= s && EndsWith(s, IMAGE_PATH_END)
    && |s| > |IMAGE_PATH_START| + |IMAGE_PATH_END|
    && forall c <- s[|IMAGE_PATH_START|..|s| - |IMAGE_PATH_END|] :: IsDigit(c)
  }

  /** One difference, and it is the expected tag change. */
  predicate IsImageDifference(d: Difference, repository: string, tag: string) {
    d.kind == ValueKind && IsExpectedImageChange(d.before, d.after, repository, tag)
  }

  /** `_validate_task_before_after`. */
  predicate BeforeAfterOk(py: Python, target: Json, repository: string, tag: string) {
    && Absent(target, "Drift")
    && (Absent(target, "BeforeValueFrom") || Is(target, "BeforeValueFrom", "PREVIOUS_DEPLOYMENT_STATE"))
    && (Absent(target, "AfterValueFrom") || Is(target, "AfterValueFrom", "TEMPLATE"))
    && ((Absent(target, "BeforeValue") && Absent(target, "AfterValue"))
        || (HasText(target, "BeforeValue") && HasText(target, "AfterValue") &&
            ValuesOk(py, Get(target, "BeforeValue"), Get(target, "AfterValue"), Get(target, "Path"), repository, tag)))
  }

  predicate ValuesOk(py: Python, before: Json, after: Json, path: Json, repository: string, tag: string)
    requires before.Str? && after.Str?
  {
    if path.Str? && EndsWith(path.s, IMAGE_PATH_END) then IsExpectedImageChange(before, after, repository, tag)
    else match (py.loads(before.s), py.loads(after.s))
      case (Some(x), Some(y)) =>
        var ds := Differences(x, y, "");
        |ds| == 1 && IsImageDifference(ds[0], repository, tag)
      case _ => false
  }

  predicate KnownFields(d: Json) {
    OnlyKeys(d, DETAIL_KEYS) && OnlyKeys(Get(d, "Target"), TARGET_KEYS)
  }

  /** `_require_details` and `_require_target`: the shape of the detail list. */
  predicate DetailShape(rc: Json) {
    && Get(rc, "Details").Arr? && Get(rc, "Details").items != []
    && forall d <- Get(rc, "Details").items :: KnownFields(d)
  }

  predicate ScopeIsProperties(rc: Json) { Get(rc, "Scope") == Arr([Str("Properties")]) }

  predicate TaskDetailOk(py: Python, d: Json, repository: string, tag: string) {
    var target := Get(d, "Target");
    && Is(target, "Attribute", "Properties") && Is(target, "Name", "ContainerDefinitions")
    && Is(target, "RequiresRecreation", "Always")
    && (Absent(target, "Path") || (Get(target, "Path").Str? && ImagePath(Get(target, "Path").s)))
    && Is(d, "Evaluation", "Static") && Is(d, "ChangeSource", "DirectModification")
    && Absent(d, "CausingEntity")
    && BeforeAfterOk(py, target, repository, tag)
  }

  /** `_validate_task_change`. */
  predicate TaskChangeOk(py: Python, rc: Json, repository: string, tag: string) {
    && Is(rc, "ResourceType", "AWS::ECS::TaskDefinition")
    && Is(rc, "Replacement", "True")
    && (Absent(rc, "PolicyAction") || OneOf(rc, "PolicyAction", TASK_POLICY_ACTIONS))
    && ScopeIsProperties(rc) && DetailShape(rc)
    && forall d <- Get(rc, "Details").items :: TaskDetailOk(py, d, repository, tag)
  }

  predicate ServiceDetailOk(d: Json, taskId: string) {
    var target := Get(d, "Target");
    && Is(target, "Attribute", "Properties") && Is(target, "Name", "TaskDefinition")
    && Is(target, "RequiresRecreation", "Never")
    && Absent(target, "Path") && Absent(target, "BeforeValue") && Absent(target, "AfterValue")
    && Absent(target, "Drift")
    && OneOf(d, "Evaluation", {"Static", "Dynamic"})
    && Is(d, "ChangeSource", "ResourceReference")
    && Is(d, "CausingEntity", taskId)
  }

  /** `_validate_service_change`. */
  predicate ServiceChangeOk(rc: Json, taskId: string) {
    && Is(rc, "ResourceType", "AWS::ECS::Service")
    && Is(rc, "Replacement", "False")
    && Absent(rc, "PolicyAction")
    && ScopeIsProperties(rc) && DetailShape(rc)
    && forall d <- Get(rc, "Details").items :: ServiceDetailOk(d, taskId)
  }

  /** SERVICE_TASK_ROLE. */
  function TaskOf(service: Role): Role
    requires !IsTask(service)
  {
    if service.WebService? then WebTask else WorkerTask
  }

  predicate Envelope(change: Json) {
    && OnlyKeys(change, CHANGE_KEYS) && Is(change, "Type", "Resource")
    && Absent(change, "HookInvocationCount")
    && OnlyKeys(Get(change, "ResourceChange"), RESOURCE_CHANGE_KEYS)
    && forall k <- NULL_ONLY_KEYS :: Absent(Get(change, "ResourceChange"), k)
  }

  /** `_validate_resource_change`: the role the change belongs to, None where it is refused. */
  function ChangedRole(py: Python, change: Json, roles: map<string, Role>, repository: string,
                       tag: string): Option<Role>
    requires Injective(roles) && roles.Values == AllRoles
  {
    var rc := Get(change, "ResourceChange");
    var id := Get(rc, "LogicalResourceId");
    if !Envelope(change) || !id.Str? || id.s !in roles then None
    else
      var role := roles[id.s];
      if !Is(rc, "Action", "Modify") || !HasText(rc, "PhysicalResourceId") then None
      else if IsTask(role) then
        if TaskChangeOk(py, rc, repository, tag) then Some(role) else None
      else
        TablesInverse(roles);
        if ServiceChangeOk(rc, LogicalByRole(roles)[TaskOf(role)]) then Some(role) else None
  }

  lemma TablesInverse(roles: map<string, Role>)
    requires Injective(roles) && roles.Values == AllRoles
    ensures LogicalByRole(roles).Keys == AllRoles
    ensures forall r <- AllRoles :: LogicalByRole(roles)[r] in roles && roles[LogicalByRole(roles)[r]] == r
    ensures forall id <- roles :: LogicalByRole(roles)[roles[id]] == id
  {
    assert LogicalByRole(roles).Keys == roles.Values;
  }
}
