/** One field decides the whole plan: put another value into one field of one change of an accepted
    plan, and the plan is accepted or refused by that field's rule alone. */
module PlanLaws {
  import opened Text
  import opened Json
  import opened ImageTags
  import opened Roles
  import opened ChangeSet
  import opened Guard
  import opened GuardTheorems
  import opened OrderTheorems
  import opened ReviewRules
  import opened FieldLaws
  import opened Scenarios

  function Listed(cs: Json): seq<Json> {
    var changes := Get(cs, "Changes");
    if changes.Arr? then changes.items else []
  }

  /** The change set with another entry at one place of its list. */
  function Replaced(cs: Json, n: nat, change: Json): Json
    requires n < |Listed(cs)|
  {
    Put(cs, "Changes", Arr(Listed(cs)[n := change]))
  }

  lemma ReplacedIs(cs: Json, n: nat, change: Json)
    requires n < |Listed(cs)|
    ensures ChangesReplaced(cs, Replaced(cs, n, change))
    ensures Listed(Replaced(cs, n, change)) == Listed(cs)[n := change]
    ensures forall h | h != "Changes" :: Get(Replaced(cs, n, change), h) == Get(cs, h)
    ensures Replaced(cs, n, change).Obj?
  {
  }

  lemma ReplacedChanges(py: Python, changes: seq<Json>, n: nat, change: Json, roles: map<string, Role>,
                        repository: string, tag: string)
    requires Injective(roles) && roles.Values == AllRoles && n < |changes|
    requires ChangesOk(py, changes, roles, repository, tag)
    ensures ChangedRole(py, change, roles, repository, tag) == None ==>
              !ChangesOk(py, changes[n := change], roles, repository, tag)
    ensures ChangedRole(py, change, roles, repository, tag) == ChangedRole(py, changes[n], roles, repository, tag) ==>
              ChangesOk(py, changes[n := change], roles, repository, tag)
  {
    hide ChangedRole, Injective, ChangesOk;
    var after := changes[n := change];
    assert after[n] in after;
    if ChangedRole(py, change, roles, repository, tag) == ChangedRole(py, changes[n], roles, repository, tag) {
      PointwiseChanges(py, changes, after, roles, repository, tag);
    }
    RefusedChange(py, after, change, roles, repository, tag);
  }

  lemma RefusedChange(py: Python, changes: seq<Json>, change: Json, roles: map<string, Role>, repository: string,
                      tag: string)
    requires Injective(roles) && roles.Values == AllRoles && change in changes
    ensures ChangedRole(py, change, roles, repository, tag) == None ==> !ChangesOk(py, changes, roles, repository, tag)
  {
    hide ChangedRole, Injective;
  }

  /** A plan with one other change is accepted as long as that change still counts for its role,
      and refused when it counts for none. */
  lemma OneChangeDecides(py: Python, cs: Json, current: Json, proposed: Json, uri: string, repository: string,
                         stack: string, n: nat, change: Json)
    requires Accepted(py, cs, current, proposed, uri, repository, stack) && n < |Listed(cs)|
    requires Identified(current, stack)
    ensures var roles, tag := RolesOf(current, stack).value, TagOf(py, uri, repository);
            var v := ValidateApp(py, Replaced(cs, n, change), Some(current), Some(proposed), uri, repository, stack);
            && (ChangedRole(py, change, roles, repository, tag) == None ==> v == Reject)
            && (var listed := ChangedRole(py, Listed(cs)[n], roles, repository, tag);
                ChangedRole(py, change, roles, repository, tag) == listed ==> v == Deploy)
  {
    hide ParseImageUri, ChangesOk, DifferencesOk, TreeDiff.Differences, NoopOk, RolesOf, LogicalByRole, Truthy,
         NoChangeReason, ChangedRole, Injective, Put;
    var cs' := Replaced(cs, n, change);
    Acceptance(py, cs, current, proposed, uri, repository, stack);
    ReplacedIs(cs, n, change);
    ReplacedChanges(py, Listed(cs), n, change, RolesOf(current, stack).value, repository, TagOf(py, uri, repository));
  }

  /** Put any value into any field of any change of an accepted plan: the plan is still accepted if
      and only if the field is a known one and its rule, if it has one, lists the value. */
  lemma PlanFieldLaw(py: Python, cs: Json, current: Json, proposed: Json, uri: string, repository: string,
                     stack: string, n: nat, r: Role, place: Place, key: string, v: Json)
    requires Accepted(py, cs, current, proposed, uri, repository, stack) && n < |Listed(cs)|
    requires Identified(current, stack)
    requires ChangedRole(py, Listed(cs)[n], RolesOf(current, stack).value, repository, TagOf(py, uri, repository))
             == Some(r)
    requires Has(Listed(cs)[n], place) && key !in Structured(place, r)
    ensures var edited := Replaced(cs, n, Edited(Listed(cs)[n], place, key, v));
            ValidateApp(py, edited, Some(current), Some(proposed), uri, repository, stack) ==
            if key in KnownAt(place) && Allows(RulesAt(place, r, CauseOf(RolesOf(current, stack).value, r)), key, v)
            then Deploy else Reject
  {
    hide Accepted, RolesOf, ChangedRole, Injective, ValidateApp, KnownAt, RulesAt, Allows, Structured, CauseOf,
         Replaced, Edited, TagOf;
    var change := Listed(cs)[n];
    FieldLaw(py, change, RolesOf(current, stack).value, r, repository, TagOf(py, uri, repository), place, key, v);
    OneChangeDecides(py, cs, current, proposed, uri, repository, stack, n, Edited(change, place, key, v));
  }

  /** Put any path and values into a detail of a task's change of an accepted plan: the plan is still
      accepted if and only if they state nothing but the tag change. */
  lemma PlanValuesLaw(py: Python, cs: Json, current: Json, proposed: Json, uri: string, repository: string,
                      stack: string, n: nat, r: Role, i: nat, path: Json, before: Json, after: Json)
    requires Accepted(py, cs, current, proposed, uri, repository, stack) && n < |Listed(cs)|
    requires Identified(current, stack) && (r == WebTask || r == WorkerTask)
    requires ChangedRole(py, Listed(cs)[n], RolesOf(current, stack).value, repository, TagOf(py, uri, repository))
             == Some(r)
    requires i < |DetailsOf(Listed(cs)[n])|
    ensures var edited := Replaced(cs, n, WithValues(Listed(cs)[n], i, path, before, after));
            ValidateApp(py, edited, Some(current), Some(proposed), uri, repository, stack) ==
            if ValuesAllowed(py, path, before, after, repository, TagOf(py, uri, repository)) then Deploy else Reject
  {
    hide Accepted, RolesOf, ChangedRole, Injective, ValidateApp, ValuesAllowed, WithValues, Replaced, TagOf;
    var change := Listed(cs)[n];
    ValuesLaw(py, change, RolesOf(current, stack).value, r, repository, TagOf(py, uri, repository), i, path, before,
              after);
    OneChangeDecides(py, cs, current, proposed, uri, repository, stack, n, WithValues(change, i, path, before, after));
  }

  // ---------------------------------------------------------------- the image update

  const UPDATE_ORDER := [WebTask, WorkerTask, WebService, WorkerService]

  lemma ImageUpdateRoles(py: Python, roles: map<string, Role>, evaluation: string, repository: string, tag: string,
                         n: nat)
    requires Injective(roles) && roles.Values == AllRoles && n < 4
    requires evaluation == "Static" || evaluation == "Dynamic"
    ensures var changes := Listed(ImageUpdate(roles, evaluation));
            |changes| == 4 && ChangedRole(py, changes[n], roles, repository, tag) == Some(UPDATE_ORDER[n])
            && Has(changes[n], InTarget(0)) && Has(changes[n], InDetail(0))
  {
    hide ChangedRole, TaskChange, ServiceChange, LogicalByRole, Injective;
    TablesInverse(roles);
    var ids := LogicalByRole(roles);
    TaskChangeAccepted(py, ids[WebTask], roles, repository, tag);
    TaskChangeAccepted(py, ids[WorkerTask], roles, repository, tag);
    ServiceChangeAccepted(py, ids[WebService], evaluation, roles, repository, tag);
    ServiceChangeAccepted(py, ids[WorkerService], evaluation, roles, repository, tag);
    var change := Listed(ImageUpdate(roles, evaluation))[n];
    ReviewIff(py, change, roles, UPDATE_ORDER[n], repository, tag);
  }

  /** An image update that deploys, with any value in any field of any of its changes. */
  lemma ImageUpdateFieldLaw(py: Python, current: Json, proposed: Json, evaluation: string, uri: string,
                            repository: string, stack: string, n: nat, place: Place, key: string, v: Json)
    requires Identified(current, stack) && (evaluation == "Static" || evaluation == "Dynamic") && n < 4
    requires Accepted(py, ImageUpdate(RolesOf(current, stack).value, evaluation), current, proposed, uri, repository,
                      stack)
    requires place == InChange || place == InResource || place == InDetail(0) || place == InTarget(0)
    requires key !in Structured(place, UPDATE_ORDER[n])
    ensures var roles := RolesOf(current, stack).value;
            var cs, r := ImageUpdate(roles, evaluation), UPDATE_ORDER[n];
            && n < |Listed(cs)| && Has(Listed(cs)[n], place)
            && var edited := Replaced(cs, n, Edited(Listed(cs)[n], place, key, v));
               ValidateApp(py, edited, Some(current), Some(proposed), uri, repository, stack) ==
               if key in KnownAt(place) && Allows(RulesAt(place, r, CauseOf(roles, r)), key, v) then Deploy else Reject
  {
    hide Accepted, RolesOf, ChangedRole, Injective, ValidateApp, KnownAt, RulesAt, Allows, Structured, CauseOf,
         Replaced, Edited, TagOf, ImageUpdate;
    var roles := RolesOf(current, stack).value;
    ImageUpdateRoles(py, roles, evaluation, repository, TagOf(py, uri, repository), n);
    PlanFieldLaw(py, ImageUpdate(roles, evaluation), current, proposed, uri, repository, stack, n, UPDATE_ORDER[n],
                 place, key, v);
  }

  /** The image update with another `Replacement` in the web service's change deploys only with
      the text `False`. */
  lemma ServiceReplacementLaw(py: Python, current: Json, proposed: Json, evaluation: string, uri: string,
                              repository: string, stack: string, v: Json)
    requires Identified(current, stack) && (evaluation == "Static" || evaluation == "Dynamic")
    requires Accepted(py, ImageUpdate(RolesOf(current, stack).value, evaluation), current, proposed, uri, repository,
                      stack)
    ensures var cs := ImageUpdate(RolesOf(current, stack).value, evaluation);
            && 2 < |Listed(cs)|
            && var edited := Replaced(cs, 2, Edited(Listed(cs)[2], InResource, "Replacement", v));
               ValidateApp(py, edited, Some(current), Some(proposed), uri, repository, stack) ==
               if v == Str("False") then Deploy else Reject
  {
    hide Accepted, RolesOf, ChangedRole, Injective, ValidateApp, Allows, CauseOf, Replaced, Edited, ImageUpdate;
    OnlyFalse(v);
    ImageUpdateFieldLaw(py, current, proposed, evaluation, uri, repository, stack, 2, InResource, "Replacement", v);
  }

  lemma OnlyFalse(v: Json)
    ensures Allows(ResourceRules(WebService), "Replacement", v) <==> v == Str("False")
  {
    hide Allows;
    AllowsConcat(COMMON_RULES, UNUSED_RULES, "Replacement", v);
    AllowsConcat(COMMON_RULES + UNUSED_RULES, SERVICE_RULES, "Replacement", v);
    NotInTheOthers(v);
  }

  lemma AllowsConcat(a: seq<Rule>, b: seq<Rule>, key: string, v: Json)
    ensures Allows(a + b, key, v) <==> Allows(a, key, v) && Allows(b, key, v)
  {
  }

  lemma NotInTheOthers(v: Json)
    ensures Allows(COMMON_RULES, "Replacement", v) && Allows(UNUSED_RULES, "Replacement", v)
    ensures Allows(SERVICE_RULES, "Replacement", v) <==> v == Str("False")
  {
    var rules := SERVICE_RULES;
    assert rules[1] in rules;
  }
}
