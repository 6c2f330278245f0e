/** Each field of an allowed change decides on its own: another value in it is allowed or refused
    by the table alone, and so is the whole plan. */
module FieldLaws {
  import opened Text
  import opened Json
  import opened ImageTags
  import opened Roles
  import opened ChangeSet
  import opened ReviewRules

  /** A dict of a change: the change itself, its resource change, one of the details, or the
      target of one. */
  datatype Place = InChange | InResource | InDetail(i: nat) | InTarget(i: nat)

  /** `d[key] = v`. */
  function Put(j: Json, key: string, v: Json): Json {
    if j.Obj? then Obj(if key in j.m then j.order else j.order + [key], j.m[key := v]) else j
  }

  predicate Has(change: Json, place: Place) {
    match place
    case InChange => true
    case InResource => true
    case InDetail(i) => i < |DetailsOf(change)|
    case InTarget(i) => i < |DetailsOf(change)|
  }

  function PutDetail(change: Json, i: nat, d: Json): Json
    requires i < |DetailsOf(change)|
  {
    Put(change, "ResourceChange", Put(ResourceOfChange(change), "Details", Arr(DetailsOf(change)[i := d])))
  }

  /** The change with another value in one field. */
  function Edited(change: Json, place: Place, key: string, v: Json): Json
    requires Has(change, place)
  {
    match place
    case InChange => Put(change, key, v)
    case InResource => Put(change, "ResourceChange", Put(ResourceOfChange(change), key, v))
    case InDetail(i) => PutDetail(change, i, Put(DetailsOf(change)[i], key, v))
    case InTarget(i) =>
      var d := DetailsOf(change)[i];
      PutDetail(change, i, Put(d, "Target", Put(Get(d, "Target"), key, v)))
  }

  function RulesAt(place: Place, r: Role, taskId: string): seq<Rule> {
    match place
    case InChange => CHANGE_RULES
    case InResource => ResourceRules(r)
    case InDetail(_) => DetailRules(r, taskId)
    case InTarget(_) => TargetRules(r)
  }

  function KnownAt(place: Place): set<string> {
    match place
    case InChange => KNOWN_OF_CHANGE
    case InResource => KNOWN_OF_RESOURCE
    case InDetail(_) => KNOWN_OF_DETAIL
    case InTarget(_) => KNOWN_OF_TARGET
  }

  /** No rule for this field refuses the value. */
  predicate Allows(rules: seq<Rule>, key: string, v: Json) {
    forall rule <- rules :: rule.key == key ==> v in rule.allowed
  }

  /** Fields that hold a dict or a list, and those whose value is more than a choice from a table. */
  function Structured(place: Place, r: Role): set<string> {
    match place
    case InChange => {"ResourceChange"}
    case InResource => {"LogicalResourceId", "PhysicalResourceId", "Details"}
    case InDetail(_) => {"Target"}
    case InTarget(_) => if r == WebTask || r == WorkerTask then {"Path", "BeforeValue", "AfterValue"} else {}
  }

  // ---------------------------------------------------------------- one dict

  lemma ObeysPut(j: Json, rules: seq<Rule>, key: string, v: Json)
    requires j.Obj? && Obeys(j, rules)
    ensures Obeys(Put(j, key, v), rules) <==> Allows(rules, key, v)
  {
    var put := Put(j, key, v);
    forall rule <- rules ensures Get(put, rule.key) == if rule.key == key then v else Get(j, rule.key) {}
  }

  lemma NoRuleForStructure()
    ensures forall v :: Allows(CHANGE_RULES, "ResourceChange", v)
    ensures forall r, v :: Allows(ResourceRules(r), "Details", v)
    ensures forall r, taskId, v :: Allows(DetailRules(r, taskId), "Target", v)
  {
  }

  // ---------------------------------------------------------------- the change

  lemma ResourcePut(change: Json, rc: Json)
    requires change.Obj? && Obeys(change, CHANGE_RULES)
    ensures var e := Put(change, "ResourceChange", rc);
            && e.Obj? && ResourceOfChange(e) == rc && Obeys(e, CHANGE_RULES)
            && ("ResourceChange" in change.m ==> e.m.Keys == change.m.Keys)
  {
    hide Obeys, Allows;
    ObeysPut(change, CHANGE_RULES, "ResourceChange", rc);
    NoRuleForStructure();
  }

  lemma DetailPut(change: Json, i: nat, d: Json, r: Role)
    requires change.Obj? && ResourceOfChange(change).Obj? && i < |DetailsOf(change)|
    requires Obeys(change, CHANGE_RULES) && Obeys(ResourceOfChange(change), ResourceRules(r))
    ensures var e := PutDetail(change, i, d);
            && e.Obj? && e.m.Keys == change.m.Keys && Obeys(e, CHANGE_RULES)
            && ResourceOfChange(e).Obj? && ResourceOfChange(e).m.Keys == ResourceOfChange(change).m.Keys
            && Obeys(ResourceOfChange(e), ResourceRules(r))
            && Get(ResourceOfChange(e), "Details").Arr? && DetailsOf(e) == DetailsOf(change)[i := d]
            && (forall k | k in {"LogicalResourceId", "PhysicalResourceId"} ::
                  Get(ResourceOfChange(e), k) == Get(ResourceOfChange(change), k))
  {
    hide Obeys, Allows, ResourceRules;
    var rc := ResourceOfChange(change);
    var v := Arr(DetailsOf(change)[i := d]);
    ObeysPut(rc, ResourceRules(r), "Details", v);
    NoRuleForStructure();
    ResourcePut(change, Put(rc, "Details", v));
  }

  /** One detail of a reviewed change is replaced. */
  lemma ReviewedDetail(py: Python, change: Json, i: nat, d: Json, roles: map<string, Role>, r: Role,
                       repository: string, tag: string)
    requires Injective(roles) && roles.Values == AllRoles
    requires Reviewed(py, change, roles, r, repository, tag) && i < |DetailsOf(change)|
    ensures Reviewed(py, PutDetail(change, i, d), roles, r, repository, tag) <==>
            KnownDetail(d) && DetailReviewed(py, d, r, CauseOf(roles, r), repository, tag)
  {
    hide Obeys, DetailReviewed, CauseOf, PutDetail, Injective, KnownDetail;
    DetailPut(change, i, d, r);
    var ds, ds' := DetailsOf(change), DetailsOf(PutDetail(change, i, d));
    assert ds'[i] in ds';
    forall c <- ds' ensures c == d || c in ds {}
  }

  lemma EditedDetail(py: Python, d: Json, place: Place, key: string, v: Json, r: Role, taskId: string,
                     repository: string, tag: string)
    requires place.InDetail? || place.InTarget?
    requires KnownDetail(d) && DetailReviewed(py, d, r, taskId, repository, tag) && key !in Structured(place, r)
    ensures var d' := if place.InDetail? then Put(d, key, v) else Put(d, "Target", Put(Get(d, "Target"), key, v));
            KnownDetail(d') && DetailReviewed(py, d', r, taskId, repository, tag) <==>
            key in KnownAt(place) && Allows(RulesAt(place, r, taskId), key, v)
  {
    hide Obeys, Allows, DetailRules, TargetRules;
    var target := Get(d, "Target");
    if place.InDetail? {
      ObeysPut(d, DetailRules(r, taskId), key, v);
      assert Get(Put(d, key, v), "Target") == target;
    } else {
      ObeysPut(target, TargetRules(r), key, v);
      ObeysPut(d, DetailRules(r, taskId), "Target", Put(target, key, v));
      NoRuleForStructure();
      if r == WebTask || r == WorkerTask { SameValues(py, target, key, v, repository, tag); }
    }
  }

  lemma SameValues(py: Python, target: Json, key: string, v: Json, repository: string, tag: string)
    requires key !in {"Path", "BeforeValue", "AfterValue"}
    ensures WrittenValues(py, Put(target, key, v), repository, tag) <==> WrittenValues(py, target, repository, tag)
  {
    assert forall k | k in {"Path", "BeforeValue", "AfterValue"} :: Get(Put(target, key, v), k) == Get(target, k);
  }

  /** The same resource is named. */
  lemma SameRole(py: Python, change: Json, edited: Json, roles: map<string, Role>, r: Role, repository: string,
                 tag: string)
    requires Injective(roles) && roles.Values == AllRoles
    requires ChangedRole(py, change, roles, repository, tag) == Some(r)
    requires Get(ResourceOfChange(edited), "LogicalResourceId") == Get(ResourceOfChange(change), "LogicalResourceId")
    ensures ChangedRole(py, edited, roles, repository, tag) ==
            if Reviewed(py, edited, roles, r, repository, tag) then Some(r) else None
  {
    hide Envelope, TaskChangeOk, ServiceChangeOk, Is, HasText, Reviewed, LogicalByRole, Injective;
    ReviewIff(py, edited, roles, r, repository, tag);
  }

  /** Put any value into any field of an allowed change: it stays allowed if and only if the field
      is a known one and its rule, if it has one, lists the value. */
  lemma FieldLaw(py: Python, change: Json, roles: map<string, Role>, r: Role, repository: string, tag: string,
                 place: Place, key: string, v: Json)
    requires Injective(roles) && roles.Values == AllRoles
    requires ChangedRole(py, change, roles, repository, tag) == Some(r)
    requires Has(change, place) && key !in Structured(place, r)
    ensures ChangedRole(py, Edited(change, place, key, v), roles, repository, tag) ==
            if key in KnownAt(place) && Allows(RulesAt(place, r, CauseOf(roles, r)), key, v) then Some(r) else None
  {
    hide ChangedRole, Obeys, Allows, DetailReviewed, CauseOf, DetailRules, TargetRules, ResourceRules, PutDetail,
         KnownDetail, Injective;
    var e, rc := Edited(change, place, key, v), ResourceOfChange(change);
    ReviewIff(py, change, roles, r, repository, tag);
    match place
    case InChange =>
      ObeysPut(change, CHANGE_RULES, key, v);
      SameRole(py, change, e, roles, r, repository, tag);
    case InResource =>
      ObeysPut(rc, ResourceRules(r), key, v);
      ResourcePut(change, Put(rc, key, v));
      SameRole(py, change, e, roles, r, repository, tag);
    case InDetail(i) => DetailLaw(py, change, roles, r, repository, tag, place, i, key, v);
    case InTarget(i) => DetailLaw(py, change, roles, r, repository, tag, place, i, key, v);
  }

  lemma DetailLaw(py: Python, change: Json, roles: map<string, Role>, r: Role, repository: string, tag: string,
                  place: Place, i: nat, key: string, v: Json)
    requires Injective(roles) && roles.Values == AllRoles
    requires ChangedRole(py, change, roles, repository, tag) == Some(r)
    requires Has(change, place) && key !in Structured(place, r) && (place == InDetail(i) || place == InTarget(i))
    ensures ChangedRole(py, Edited(change, place, key, v), roles, repository, tag) ==
            if key in KnownAt(place) && Allows(RulesAt(place, r, CauseOf(roles, r)), key, v) then Some(r) else None
  {
    hide ChangedRole, Allows, DetailReviewed, CauseOf, RulesAt, KnownAt, Structured, PutDetail, KnownDetail, Obeys,
         Injective;
    var d := DetailsOf(change)[i];
    var d' := if place.InDetail? then Put(d, key, v) else Put(d, "Target", Put(Get(d, "Target"), key, v));
    ReviewIff(py, change, roles, r, repository, tag);
    DetailPut(change, i, d', r);
    ReviewedDetail(py, change, i, d', roles, r, repository, tag);
    EditedDetail(py, d, place, key, v, r, CauseOf(roles, r), repository, tag);
    SameRole(py, change, Edited(change, place, key, v), roles, r, repository, tag);
  }

  /** The change with other values in one target. */
  function WithValues(change: Json, i: nat, path: Json, before: Json, after: Json): Json
    requires i < |DetailsOf(change)|
  {
    var d := DetailsOf(change)[i];
    PutDetail(change, i, Put(d, "Target", TargetWith(Get(d, "Target"), path, before, after)))
  }

  function TargetWith(target: Json, path: Json, before: Json, after: Json): Json {
    Put(Put(Put(target, "Path", path), "BeforeValue", before), "AfterValue", after)
  }

  lemma TargetWithValues(target: Json, path: Json, before: Json, after: Json, r: Role)
    requires r == WebTask || r == WorkerTask
    requires target.Obj? && target.m.Keys <= KNOWN_OF_TARGET && Obeys(target, TargetRules(r))
    ensures var t := TargetWith(target, path, before, after);
            && t.Obj? && t.m.Keys <= KNOWN_OF_TARGET && Obeys(t, TargetRules(r))
            && Get(t, "Path") == path && Get(t, "BeforeValue") == before && Get(t, "AfterValue") == after
  {
    hide Obeys, TargetRules, Allows;
    NoRuleForValues(r);
    var one := Put(target, "Path", path);
    var two := Put(one, "BeforeValue", before);
    ObeysPut(target, TargetRules(r), "Path", path);
    ObeysPut(one, TargetRules(r), "BeforeValue", before);
    ObeysPut(two, TargetRules(r), "AfterValue", after);
  }

  lemma NoRuleForValues(r: Role)
    requires r == WebTask || r == WorkerTask
    ensures forall v :: Allows(TargetRules(r), "Path", v)
    ensures forall v :: Allows(TargetRules(r), "BeforeValue", v)
    ensures forall v :: Allows(TargetRules(r), "AfterValue", v)
  {
  }

  /** Put any path and values into a detail of an allowed task change: it stays allowed if and
      only if they state nothing but the tag change. */
  lemma ValuesLaw(py: Python, change: Json, roles: map<string, Role>, r: Role, repository: string, tag: string,
                  i: nat, path: Json, before: Json, after: Json)
    requires Injective(roles) && roles.Values == AllRoles && (r == WebTask || r == WorkerTask)
    requires ChangedRole(py, change, roles, repository, tag) == Some(r) && i < |DetailsOf(change)|
    ensures ChangedRole(py, WithValues(change, i, path, before, after), roles, repository, tag) ==
            if ValuesAllowed(py, path, before, after, repository, tag) then Some(r) else None
  {
    hide ChangedRole, Obeys, CauseOf, DetailRules, TargetRules, PutDetail, TargetWith, ValuesAllowed, Injective;
    var d := DetailsOf(change)[i];
    var target := TargetWith(Get(d, "Target"), path, before, after);
    var d' := Put(d, "Target", target);
    ReviewIff(py, change, roles, r, repository, tag);
    assert KnownDetail(d) && DetailReviewed(py, d, r, CauseOf(roles, r), repository, tag);
    TargetWithValues(Get(d, "Target"), path, before, after, r);
    ObeysPut(d, DetailRules(r, CauseOf(roles, r)), "Target", target);
    NoRuleForStructure();
    DetailPut(change, i, d', r);
    ReviewedDetail(py, change, i, d', roles, r, repository, tag);
    SameRole(py, change, WithValues(change, i, path, before, after), roles, r, repository, tag);
  }

  /** Put any value into the two ids of an allowed change: it stays allowed for its role if and only if
      the physical id is a non-empty string and the logical id is the one that holds the role. */
  lemma IdLaw(py: Python, change: Json, roles: map<string, Role>, r: Role, repository: string, tag: string, v: Json)
    requires Injective(roles) && roles.Values == AllRoles
    requires ChangedRole(py, change, roles, repository, tag) == Some(r)
    ensures ChangedRole(py, Edited(change, InResource, "PhysicalResourceId", v), roles, repository, tag) ==
            if v.Str? && v.s != "" then Some(r) else None
    ensures ChangedRole(py, Edited(change, InResource, "LogicalResourceId", v), roles, repository, tag) == Some(r) <==>
            v.Str? && v.s in roles && roles[v.s] == r
  {
    hide ChangedRole, Obeys, Allows, DetailReviewed, CauseOf, ResourceRules, KnownDetail, Injective;
    var rc := ResourceOfChange(change);
    ReviewIff(py, change, roles, r, repository, tag);
    var physical, logical := Put(rc, "PhysicalResourceId", v), Put(rc, "LogicalResourceId", v);
    NoRuleForIds();
    ObeysPut(rc, ResourceRules(r), "PhysicalResourceId", v);
    ObeysPut(rc, ResourceRules(r), "LogicalResourceId", v);
    ResourcePut(change, physical);
    ResourcePut(change, logical);
    SameRole(py, change, Edited(change, InResource, "PhysicalResourceId", v), roles, r, repository, tag);
    ReviewIff(py, Edited(change, InResource, "LogicalResourceId", v), roles, r, repository, tag);
  }

  lemma NoRuleForIds()
    ensures forall r, v :: Allows(ResourceRules(r), "PhysicalResourceId", v)
    ensures forall r, v :: Allows(ResourceRules(r), "LogicalResourceId", v)
  {
  }
}
