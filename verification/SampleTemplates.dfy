/** Templates of the shape the deployment guard reviews, two task definitions, their services
    and another resource, and exactly what the diff reports when their strings move. */
module SampleTemplates {
  import opened Text
  import opened Json
  import opened TreeDiff
  import opened DiffTheorems
  import opened Roles
  import opened RoleRules
  import opened ChangeSet

  // ---------------------------------------------------------------- the templates

  /** The strings of a task definition that move: the container's image and the value of one
      of its environment variables. */
  datatype Texts = Texts(image: string, value: string)

  function Ref(name: string): Json { Obj(["Ref"], map["Ref" := Str(name)]) }

  /** `Fn::Join` of the account's registry with the image text. */
  function ImageNode(text: string): Json {
    Obj(["Fn::Join"],
        map["Fn::Join" :=
              Arr([Str(""), Arr([Ref("AWS::AccountId"), Str(".dkr.ecr."), Ref("AWS::Region"), Str(text)])])])
  }

  function Environment(value: string): Json {
    Arr([Obj(["Name", "Value"], map["Name" := Str("DJANGO_DEBUG"), "Value" := Str(value)])])
  }

  function Container(texts: Texts): Json {
    Obj(["Essential", "Image", "Environment"],
        map["Essential" := Bool(true), "Image" := ImageNode(texts.image), "Environment" := Environment(texts.value)])
  }

  function TaskProperties(texts: Texts): Json {
    Obj(["Cpu", "Memory", "ContainerDefinitions"],
        map["Cpu" := Str("256"), "Memory" := Str("512"), "ContainerDefinitions" := Arr([Container(texts)])])
  }

  function ServiceProperties(taskId: string): Json {
    Obj(["DesiredCount", "TaskDefinition"], map["DesiredCount" := Int(1), "TaskDefinition" := Ref(taskId)])
  }

  /** A resource that carries the CDK path of this role. */
  function Resource(stack: string, r: Role, properties: Json): Json
    requires LegalStack(stack)
  {
    Obj(["Type", "Metadata", "Properties"],
        map["Type" := Str(WrittenType(r)),
            "Metadata" := Obj(["aws:cdk:path"], map["aws:cdk:path" := Str(WrittenPath(PrefixOf(stack), r))]),
            "Properties" := properties])
  }

  function Task(stack: string, r: Role, texts: Texts): Json
    requires LegalStack(stack)
  {
    Resource(stack, r, TaskProperties(texts))
  }

  const OTHER := Obj(["Type", "Properties"],
                     map["Type" := Str("AWS::IAM::Role"),
                         "Properties" := Obj(["RoleName"], map["RoleName" := Str("unchanged")])])

  /** The four reviewed resources and another one; the web task's logical id is given. */
  function Resources(stack: string, id: string, web: Texts, worker: Texts): Json
    requires LegalStack(stack)
  {
    Obj([id, "K", "S", "T", "R"],
        map["K" := Task(stack, WorkerTask, worker),
            "S" := Resource(stack, WebService, ServiceProperties(id)),
            "T" := Resource(stack, WorkerService, ServiceProperties("K")),
            "R" := OTHER][id := Task(stack, WebTask, web)])
  }

  /** A template with one string under another top-level key. */
  function Template(stack: string, id: string, key: string, front: string, web: Texts, worker: Texts): Json
    requires LegalStack(stack)
  {
    Obj(["Resources", key], map["Resources" := Resources(stack, id, web, worker)][key := Str(front)])
  }

  /** The web task's logical id is not one of the other four. */
  predicate FreeId(id: string) { id != "K" && id != "S" && id != "T" && id != "R" }

  // ---------------------------------------------------------------- the templates are identified

  function Roles4(id: string): map<string, Role> {
    map["K" := WorkerTask, "S" := WebService, "T" := WorkerService][id := WebTask]
  }

  function Ids4(id: string): map<Role, string> {
    map[WebTask := id, WorkerTask := "K", WebService := "S", WorkerService := "T"]
  }

  lemma ResourceClaims(stack: string, r: Role, properties: Json)
    requires LegalStack(stack)
    ensures ClaimedRole(Resource(stack, r, properties), stack) == Some(r)
    ensures RightType(Resource(stack, r, properties), r) && Resource(stack, r, properties).Obj?
  {
    hide LegalStack, ClaimedRole, RolePath, TypeOfRole, PrefixOf, WrittenPath, WrittenType;
    var p := PrefixOf(stack);
    PrefixIsBefore(stack);
    ClaimIff(Resource(stack, r, properties), p, r);
    PathsWritten(p, r);
  }

  lemma OtherClaimsNothing(stack: string)
    requires LegalStack(stack)
    ensures ClaimedRole(OTHER, stack).None? && OTHER.Obj?
  {
  }

  lemma AllRolesHeld(id: string)
    requires FreeId(id)
    ensures Injective(Roles4(id)) && Roles4(id).Values == AllRoles
  {
    var roles := Roles4(id);
    assert roles[id] in roles.Values && roles["K"] in roles.Values;
    assert roles["S"] in roles.Values && roles["T"] in roles.Values;
  }

  lemma ResourcesClaims(stack: string, id: string, web: Texts, worker: Texts)
    requires LegalStack(stack) && FreeId(id)
    ensures Claims(Resources(stack, id, web, worker).m, stack) == Roles4(id)
    ensures forall k <- Roles4(id) :: RightType(Resources(stack, id, web, worker).m[k], Roles4(id)[k])
    ensures forall k <- Resources(stack, id, web, worker).m :: Resources(stack, id, web, worker).m[k].Obj?
  {
    hide LegalStack, Resource, ClaimedRole, RightType, TaskProperties, ServiceProperties;
    var m := Resources(stack, id, web, worker).m;
    ResourceClaims(stack, WebTask, TaskProperties(web));
    ResourceClaims(stack, WorkerTask, TaskProperties(worker));
    ResourceClaims(stack, WebService, ServiceProperties(id));
    ResourceClaims(stack, WorkerService, ServiceProperties("K"));
    OtherClaimsNothing(stack);
    assert m.Keys == {id, "K", "S", "T", "R"} && Roles4(id).Keys == {id, "K", "S", "T"};
  }

  lemma ResourcesRoles(stack: string, id: string, web: Texts, worker: Texts)
    requires LegalStack(stack) && FreeId(id)
    ensures ResourcesIdentified(Resources(stack, id, web, worker).m, stack)
    ensures Claims(Resources(stack, id, web, worker).m, stack) == Roles4(id)
  {
    hide LegalStack, Resources, Claims, RightType, Injective, Roles4;
    ResourcesClaims(stack, id, web, worker);
    AllRolesHeld(id);
  }

  lemma TemplateRoles(stack: string, id: string, key: string, front: string, web: Texts, worker: Texts)
    requires LegalStack(stack) && FreeId(id) && key != "Resources"
    ensures RolesOf(Template(stack, id, key, front, web, worker), stack) == Some(Roles4(id))
  {
    hide LegalStack, ResourcesIdentified, Claims, Task, Resource, Roles4;
    ResourcesRoles(stack, id, web, worker);
    assert Get(Template(stack, id, key, front, web, worker), "Resources") == Resources(stack, id, web, worker);
    assert id in Resources(stack, id, web, worker).m;
  }

  lemma IdsOfRoles(id: string)
    requires FreeId(id)
    ensures Injective(Roles4(id)) && Roles4(id).Values == AllRoles && LogicalByRole(Roles4(id)) == Ids4(id)
  {
    hide LogicalByRole, Injective;
    AllRolesHeld(id);
    TablesInverse(Roles4(id));
    assert Ids4(id).Keys == AllRoles;
  }

  // ---------------------------------------------------------------- what the diff reports

  /** The comparison of x with y reports d at this path. */
  ghost predicate Reports(x: Json, y: Json, p: Path, d: Local) {
    Walk(x, y, p).Some? && LocalDiff(Walk(x, y, p).value.0, Walk(x, y, p).value.1) == Some(d)
  }

  lemma FieldReports(x: Json, y: Json, p: Path, d: Local)
    requires x.Obj? && y.Obj? && x.m.Keys == y.m.Keys
    ensures Reports(x, y, p, d) <==>
            p != [] && p[0].Key? && p[0].key in x.m && Reports(x.m[p[0].key], y.m[p[0].key], p[1..], d)
  {
    hide Sorted;
  }

  lemma ItemReports(x: Json, y: Json, p: Path, d: Local)
    requires x.Arr? && y.Arr? && |x.items| == |y.items|
    ensures Reports(x, y, p, d) <==>
            p != [] && p[0].Index? && p[0].index < |x.items| &&
            Reports(x.items[p[0].index], y.items[p[0].index], p[1..], d)
  {
  }

  lemma SameReportsNothing(x: Json, p: Path, d: Local)
    ensures !Reports(x, x, p, d)
  {
    EqualTreesWalk(x, x, p);
  }

  /** Dicts that differ under one key only report what lies under that key. */
  lemma OneFieldReports(x: Json, y: Json, k: string, p: Path, d: Local)
    requires x.Obj? && y.Obj? && x.m.Keys == y.m.Keys && k in x.m
    requires forall j <- x.m | j != k :: x.m[j] == y.m[j]
    ensures Reports(x, y, p, d) <==> p != [] && p[0] == Key(k) && Reports(x.m[k], y.m[k], p[1..], d)
  {
    hide Reports;
    FieldReports(x, y, p, d);
    if p != [] && p[0].Key? && p[0].key in x.m { SameReportsNothing(x.m[p[0].key], p[1..], d); }
  }

  lemma OneItemReports(x: Json, y: Json, i: nat, p: Path, d: Local)
    requires x.Arr? && y.Arr? && |x.items| == |y.items| && i < |x.items|
    requires forall j :: 0 <= j < |x.items| && j != i ==> x.items[j] == y.items[j]
    ensures Reports(x, y, p, d) <==> p != [] && p[0] == Index(i) && Reports(x.items[i], y.items[i], p[1..], d)
  {
    hide Reports;
    ItemReports(x, y, p, d);
    if p != [] && p[0].Index? && p[0].index < |x.items| { SameReportsNothing(x.items[p[0].index], p[1..], d); }
  }

  /** The string a became b, and they differ. */
  ghost predicate Moved(a: string, b: string, d: Local) { a != b && d == Local(ValueKind, Str(a), Str(b)) }

  lemma StringReports(a: string, b: string, p: Path, d: Local)
    ensures Reports(Str(a), Str(b), p, d) <==> p == [] && Moved(a, b, d)
  {
  }

  lemma FirstStep(p: Path, s: Step, q: Path)
    ensures p != [] && p[0] == s && p[1..] == q <==> p == [s] + q
  {
    if p != [] { assert p == [p[0]] + p[1..]; }
  }

  const JOIN_STEPS := [Key("Fn::Join"), Index(1), Index(3)]

  lemma ImageReports(a: string, b: string, p: Path, d: Local)
    ensures Reports(ImageNode(a), ImageNode(b), p, d) <==> p == JOIN_STEPS && Moved(a, b, d)
  {
    hide Reports, Moved;
    var x, y := ImageNode(a), ImageNode(b);
    OneFieldReports(x, y, "Fn::Join", p, d);
    if p != [] {
      OneItemReports(x.m["Fn::Join"], y.m["Fn::Join"], 1, p[1..], d);
      if p[1..] != [] {
        OneItemReports(x.m["Fn::Join"].items[1], y.m["Fn::Join"].items[1], 3, p[1..][1..], d);
        if p[1..][1..] != [] { StringReports(a, b, p[1..][1..][1..], d); }
      }
    }
  }

  const VALUE_STEPS := [Index(0), Key("Value")]

  lemma ValueReports(a: string, b: string, p: Path, d: Local)
    ensures Reports(Environment(a), Environment(b), p, d) <==> p == VALUE_STEPS && Moved(a, b, d)
  {
    hide Reports, Moved;
    var x, y := Environment(a), Environment(b);
    OneItemReports(x, y, 0, p, d);
    if p != [] {
      OneFieldReports(x.items[0], y.items[0], "Value", p[1..], d);
      if p[1..] != [] { StringReports(a, b, p[1..][1..], d); }
    }
  }

  lemma ContainerReports(a: Texts, b: Texts, p: Path, d: Local)
    ensures Reports(Container(a), Container(b), p, d) <==>
            || (p == [Key("Image")] + JOIN_STEPS && Moved(a.image, b.image, d))
            || (p == [Key("Environment")] + VALUE_STEPS && Moved(a.value, b.value, d))
  {
    hide Reports, Moved, ImageNode, Environment;
    FieldReports(Container(a), Container(b), p, d);
    FirstStep(p, Key("Image"), JOIN_STEPS);
    FirstStep(p, Key("Environment"), VALUE_STEPS);
    if p != [] {
      ImageReports(a.image, b.image, p[1..], d);
      ValueReports(a.value, b.value, p[1..], d);
      SameReportsNothing(Bool(true), p[1..], d);
    }
  }

  /** Where a task definition holds the image of its first container. */
  const IMAGE_PLACE := [Key("Properties"), Key("ContainerDefinitions"), Index(0), Key("Image")] + JOIN_STEPS

  /** Where it holds the value of that container's environment variable. */
  const VALUE_PLACE := [Key("Properties"), Key("ContainerDefinitions"), Index(0), Key("Environment")] + VALUE_STEPS

  lemma ThreeSteps(p: Path, s: Step, t: Step, u: Step, q: Path)
    ensures (p != [] && p[0] == s && p[1..] != [] && p[1..][0] == t && p[1..][1..] != [] && p[1..][1..][0] == u
             && p[1..][1..][1..] == q) <==> p == [s, t, u] + q
  {
    if |p| >= 3 {
      assert p == [p[0], p[1], p[2]] + p[3..];
      assert p[1..][1..][1..] == p[3..];
    }
    if p == [s, t, u] + q { assert p[3..] == q; }
  }

  lemma TaskReports(stack: string, r: Role, a: Texts, b: Texts, p: Path, d: Local)
    requires LegalStack(stack)
    ensures Reports(Task(stack, r, a), Task(stack, r, b), p, d) <==>
            || (p == IMAGE_PLACE && Moved(a.image, b.image, d))
            || (p == VALUE_PLACE && Moved(a.value, b.value, d))
  {
    hide Reports, Moved, LegalStack, WrittenPath, WrittenType, Container;
    var x, y := Task(stack, r, a), Task(stack, r, b);
    var image, value := [Key("Image")] + JOIN_STEPS, [Key("Environment")] + VALUE_STEPS;
    ThreeSteps(p, Key("Properties"), Key("ContainerDefinitions"), Index(0), image);
    ThreeSteps(p, Key("Properties"), Key("ContainerDefinitions"), Index(0), value);
    assert IMAGE_PLACE == [Key("Properties"), Key("ContainerDefinitions"), Index(0)] + image;
    assert VALUE_PLACE == [Key("Properties"), Key("ContainerDefinitions"), Index(0)] + value;
    OneFieldReports(x, y, "Properties", p, d);
    if p != [] {
      var x1, y1 := TaskProperties(a), TaskProperties(b);
      OneFieldReports(x1, y1, "ContainerDefinitions", p[1..], d);
      if p[1..] != [] {
        OneItemReports(x1.m["ContainerDefinitions"], y1.m["ContainerDefinitions"], 0, p[1..][1..], d);
        if p[1..][1..] != [] { ContainerReports(a, b, p[1..][1..][1..], d); }
      }
    }
  }

  lemma ResourcesReports(stack: string, id: string, web: Texts, web': Texts, worker: Texts, worker': Texts, p: Path,
                         d: Local)
    requires LegalStack(stack) && FreeId(id)
    ensures Reports(Resources(stack, id, web, worker), Resources(stack, id, web', worker'), p, d) <==>
            || (p == [Key(id)] + IMAGE_PLACE && Moved(web.image, web'.image, d))
            || (p == [Key(id)] + VALUE_PLACE && Moved(web.value, web'.value, d))
            || (p == [Key("K")] + IMAGE_PLACE && Moved(worker.image, worker'.image, d))
            || (p == [Key("K")] + VALUE_PLACE && Moved(worker.value, worker'.value, d))
  {
    hide Reports, LegalStack, Task, Resource, ServiceProperties, Moved;
    var x, y := Resources(stack, id, web, worker), Resources(stack, id, web', worker');
    FieldReports(x, y, p, d);
    FirstStep(p, Key(id), IMAGE_PLACE);
    FirstStep(p, Key(id), VALUE_PLACE);
    FirstStep(p, Key("K"), IMAGE_PLACE);
    FirstStep(p, Key("K"), VALUE_PLACE);
    if p != [] && p[0].Key? && p[0].key in x.m {
      SameReportsNothing(x.m[p[0].key], p[1..], d);
      TaskReports(stack, WebTask, web, web', p[1..], d);
      TaskReports(stack, WorkerTask, worker, worker', p[1..], d);
    }
  }

  function ImageOf(id: string): Path { [Key("Resources")] + ([Key(id)] + IMAGE_PLACE) }

  function ValueOf(id: string): Path { [Key("Resources")] + ([Key(id)] + VALUE_PLACE) }

  /** The diff of two such templates reports exactly the strings that moved. */
  lemma TemplateReports(stack: string, id: string, key: string, front: string, front': string, web: Texts,
                        web': Texts, worker: Texts, worker': Texts, p: Path, d: Local)
    requires LegalStack(stack) && FreeId(id) && key != "Resources"
    ensures var x, y := Template(stack, id, key, front, web, worker), Template(stack, id, key, front', web', worker');
            Reports(x, y, p, d) <==>
            || (p == [Key(key)] && Moved(front, front', d))
            || (p == ImageOf(id) && Moved(web.image, web'.image, d))
            || (p == ValueOf(id) && Moved(web.value, web'.value, d))
            || (p == ImageOf("K") && Moved(worker.image, worker'.image, d))
            || (p == ValueOf("K") && Moved(worker.value, worker'.value, d))
  {
    hide Reports, LegalStack, Resources, Moved;
    var x, y := Template(stack, id, key, front, web, worker), Template(stack, id, key, front', web', worker');
    FieldReports(x, y, p, d);
    FirstStep(p, Key("Resources"), [Key(id)] + IMAGE_PLACE);
    FirstStep(p, Key("Resources"), [Key(id)] + VALUE_PLACE);
    FirstStep(p, Key("Resources"), [Key("K")] + IMAGE_PLACE);
    FirstStep(p, Key("Resources"), [Key("K")] + VALUE_PLACE);
    if p != [] && p[0].Key? && p[0].key in x.m {
      ResourcesReports(stack, id, web, web', worker, worker', p[1..], d);
      StringReports(front, front', p[1..], d);
    }
  }

  function Move(p: Path, a: string, b: string): Entry { Entry(p, ValueKind, Str(a), Str(b)) }

  lemma TemplateEntries(stack: string, id: string, key: string, front: string, front': string, web: Texts,
                        web': Texts, worker: Texts, worker': Texts, e: Entry)
    requires LegalStack(stack) && FreeId(id) && key != "Resources"
    ensures var x, y := Template(stack, id, key, front, web, worker), Template(stack, id, key, front', web', worker');
            e in DiffsAt(x, y, []) <==>
            || (e == Move([Key(key)], front, front') && front != front')
            || (e == Move(ImageOf(id), web.image, web'.image) && web.image != web'.image)
            || (e == Move(ValueOf(id), web.value, web'.value) && web.value != web'.value)
            || (e == Move(ImageOf("K"), worker.image, worker'.image) && worker.image != worker'.image)
            || (e == Move(ValueOf("K"), worker.value, worker'.value) && worker.value != worker'.value)
  {
    hide DiffsAt, Walk, LocalDiff, Template, LegalStack, FreeId, ImageOf, ValueOf;
    RootDiff(Template(stack, id, key, front, web, worker), Template(stack, id, key, front', web', worker'), e);
    TemplateReports(stack, id, key, front, front', web, web', worker, worker', e.path,
                    Local(e.kind, e.before, e.after));
  }
}
