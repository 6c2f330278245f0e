/** The decision on an app-stack change set: deploy, no-op or reject. `ValidateApp` is the
    decision as one condition; `ValidateAppChange` computes it the way the program does. */
module Guard {
  import opened Text
  import opened Json
  import opened TreeDiff
  import opened Strings
  import opened ImageTags
  import opened Roles
  import opened Attribution
  import opened ChangeSet

  datatype Verdict = Deploy | Noop | Reject

  function ResourceOf(template: Json, id: string): Json {
    Get(Get(template, "Resources"), id)
  }

  /** How many of the strings are references with the expected repository and tag. */
  function CountLive(ss: seq<string>, repository: string, tag: string): nat {
    if ss == [] then 0
    else (if IsLiveReference(ss[0], repository, tag) then 1 else 0) + CountLive(ss[1..], repository, tag)
  }

  ghost predicate LiveImageOf(template: Json, id: string, repository: string, tag: string) {
    CountLive(StringsOf(ResourceOf(template, id)), repository, tag) == 1
  }

  /** `_require_live_image` accepts: each task resource has exactly one live reference. */
  ghost predicate LiveImage(template: Json, stack: string, repository: string, tag: string) {
    match RolesOf(template, stack)
    case None => false
    case Some(roles) =>
      TablesInverse(roles);
      && LiveImageOf(template, LogicalByRole(roles)[WebTask], repository, tag)
      && LiveImageOf(template, LogicalByRole(roles)[WorkerTask], repository, tag)
  }

  ghost predicate NoopOk(current: Option<Json>, proposed: Option<Json>, stack: string, repository: string,
                         tag: string)
  {
    && current.Some?
    && (proposed.Some? ==> Differences(current.value, proposed.value, "") == [])
    && LiveImage(current.value, stack, repository, tag)
  }

  /** Every listed change is an allowed one, there are four, and all four roles are among them. */
  ghost predicate ChangesOk(py: Python, changes: seq<Json>, roles: map<string, Role>, repository: string, tag: string)
    requires Injective(roles) && roles.Values == AllRoles
  {
    && |changes| == 4
    && (forall c <- changes :: ChangedRole(py, c, roles, repository, tag).Some?)
    && (forall r <- AllRoles :: exists c <- changes :: ChangedRole(py, c, roles, repository, tag) == Some(r))
  }

  /** A difference attributed to this role's resource that is the expected tag change. */
  predicate ImageDifferenceOf(d: Difference, r: Role, byRole: map<Role, string>, repository: string, tag: string) {
    DifferenceRole(d.path, byRole) == Some(r) && IsImageDifference(d, repository, tag)
  }

  predicate TaskImageDifference(d: Difference, byRole: map<Role, string>, repository: string, tag: string) {
    || ImageDifferenceOf(d, WebTask, byRole, repository, tag)
    || ImageDifferenceOf(d, WorkerTask, byRole, repository, tag)
  }

  function Attributed(ds: seq<Difference>, r: Role, byRole: map<Role, string>): seq<Difference> {
    if ds == [] then []
    else Attributed(ds[..|ds| - 1], r, byRole) +
         if DifferenceRole(ds[|ds| - 1].path, byRole) == Some(r) then [ds[|ds| - 1]] else []
  }

  /** The template differences are image differences of the two tasks, one each. */
  ghost predicate DifferencesOk(ds: seq<Difference>, byRole: map<Role, string>, repository: string, tag: string) {
    && (forall d <- ds :: TaskImageDifference(d, byRole, repository, tag))
    && |Attributed(ds, WebTask, byRole)| == 1
    && |Attributed(ds, WorkerTask, byRole)| == 1
  }

  /** `_require_deployable_change_set`. */
  predicate Deployable(cs: Json) {
    && Is(cs, "Status", "CREATE_COMPLETE") && Is(cs, "ExecutionStatus", "AVAILABLE")
    && cs.Obj? && "Changes" in cs.m
  }

  ghost predicate DeployOk(py: Python, cs: Json, current: Option<Json>, proposed: Option<Json>, stack: string,
                           repository: string, tag: string)
  {
    && Deployable(cs)
    && current.Some? && proposed.Some?
    && RolesOf(proposed.value, stack).Some?
    && RolesOf(current.value, stack) == RolesOf(proposed.value, stack)
    && var roles := RolesOf(proposed.value, stack).value;
       && Get(cs, "Changes").Arr?
       && ChangesOk(py, Get(cs, "Changes").items, roles, repository, tag)
       && DifferencesOk(Differences(current.value, proposed.value, ""), LogicalByRole(roles), repository, tag)
  }

  /** The decision. */
  ghost function ValidateApp(py: Python, cs: Json, current: Option<Json>, proposed: Option<Json>, uri: string,
                             repository: string, stack: string): Verdict
  {
    match ParseImageUri(py, uri, repository)
    case None => Reject
    case Some(tag) =>
      if tag == "dev" || !cs.Obj? || Truthy(Get(cs, "NextToken")) then Reject
      else match ChangeSet.Noop(cs)
        case BadNoop => Reject
        case IsNoop => if NoopOk(current, proposed, stack, repository, tag) then Noop else Reject
        case NotNoop => if DeployOk(py, cs, current, proposed, stack, repository, tag) then Deploy else Reject
  }

  // ---------------------------------------------------------------- the program's passes

  lemma CountLiveConcat(a: seq<string>, b: seq<string>, repository: string, tag: string)
    ensures CountLive(a + b, repository, tag) == CountLive(a, repository, tag) + CountLive(b, repository, tag)
  {
    hide IsLiveReference;
    if a == [] {
      assert a + b == b;
    } else {
      assert (a + b)[1..] == a[1..] + b;
    }
  }

  lemma CountLiveNext(ss: seq<string>, i: nat, repository: string, tag: string)
    requires i < |ss|
    ensures CountLive(ss[..i + 1], repository, tag) ==
            CountLive(ss[..i], repository, tag) + if IsLiveReference(ss[i], repository, tag) then 1 else 0
  {
    hide IsLiveReference;
    assert ss[..i + 1] == ss[..i] + [ss[i]];
    CountLiveConcat(ss[..i], [ss[i]], repository, tag);
  }

  /** `_require_live_image`. */
  method RequireLiveImage(template: Json, stack: string, repository: string, tag: string) returns (ok: bool)
    requires Wf(template)
    ensures ok == LiveImage(template, stack, repository, tag)
  {
    hide IsLiveReference, Wf, StringsOf, RolesOf, LogicalByRole, ResourceOf;
    var found := FindRoles(template, stack);
    if found.None? { return false; }
    var roles := found.value;
    TablesInverse(roles);
    var byRole := LogicalByRole(roles);
    var tasks := [WebTask, WorkerTask];
    var t := 0;
    while t < 2
      invariant 0 <= t <= 2
      invariant forall u :: 0 <= u < t ==> LiveImageOf(template, byRole[tasks[u]], repository, tag)
    {
      var strings := StringsOf(ResourceOf(template, byRole[tasks[t]]));
      var fragments: seq<string> := [];
      for i := 0 to |strings|
        invariant |fragments| == CountLive(strings[..i], repository, tag)
      {
        CountLiveNext(strings, i, repository, tag);
        if IsLiveReference(strings[i], repository, tag) { fragments := fragments + [strings[i]]; }
      }
      assert strings[..|strings|] == strings;
      if |fragments| != 1 {
        assert !LiveImageOf(template, byRole[tasks[t]], repository, tag);
        return false;
      }
      t := t + 1;
    }
    assert LiveImageOf(template, byRole[tasks[0]], repository, tag);
    assert LiveImageOf(template, byRole[tasks[1]], repository, tag);
    ok := true;
  }

  /** The loop over `Changes` with its `seen_roles`. */
  method CheckChanges(py: Python, changes: seq<Json>, roles: map<string, Role>, repository: string, tag: string)
    returns (ok: bool)
    requires Injective(roles) && roles.Values == AllRoles
    ensures ok == ChangesOk(py, changes, roles, repository, tag)
  {
    hide ChangedRole;
    if changes == [] { return false; }
    var seenRoles: seq<Role> := [];
    for i := 0 to |changes|
      invariant |seenRoles| == i
      invariant forall j :: 0 <= j < i ==> ChangedRole(py, changes[j], roles, repository, tag) == Some(seenRoles[j])
    {
      var role := ChangedRole(py, changes[i], roles, repository, tag);
      if role.None? { return false; }
      seenRoles := seenRoles + [role.value];
    }
    forall r: Role
      ensures r in seenRoles <==> exists c <- changes :: ChangedRole(py, c, roles, repository, tag) == Some(r)
    {
      if r in seenRoles {
        var j :| 0 <= j < |seenRoles| && seenRoles[j] == r;
        assert changes[j] in changes;
      }
    }
    var missing := exists r :: r in AllRoles && r !in seenRoles;
    ok := !missing && |seenRoles| == 4;
  }

  lemma AttributedNext(ds: seq<Difference>, i: nat, r: Role, byRole: map<Role, string>)
    requires i < |ds|
    ensures Attributed(ds[..i + 1], r, byRole) ==
            Attributed(ds[..i], r, byRole) + if DifferenceRole(ds[i].path, byRole) == Some(r) then [ds[i]] else []
  {
    hide DifferenceRole;
    assert ds[..i + 1][..i] == ds[..i];
  }

  /** The loop over template differences with its `image_diffs_by_role`. */
  method CheckDifferences(ds: seq<Difference>, byRole: map<Role, string>, repository: string, tag: string)
    returns (ok: bool)
    ensures ok == DifferencesOk(ds, byRole, repository, tag)
  {
    hide DifferenceRole, IsImageDifference;
    var imageDiffsByRole: map<Role, seq<Difference>> := map[WebTask := [], WorkerTask := []];
    for i := 0 to |ds|
      invariant imageDiffsByRole.Keys == {WebTask, WorkerTask}
      invariant forall d <- ds[..i] :: TaskImageDifference(d, byRole, repository, tag)
      invariant forall r <- imageDiffsByRole :: imageDiffsByRole[r] == Attributed(ds[..i], r, byRole)
    {
      var role := DifferenceRole(ds[i].path, byRole);
      AttributedNext(ds, i, WebTask, byRole);
      AttributedNext(ds, i, WorkerTask, byRole);
      if role.Some? && IsTask(role.value) && IsImageDifference(ds[i], repository, tag) {
        imageDiffsByRole := imageDiffsByRole[role.value := imageDiffsByRole[role.value] + [ds[i]]];
      } else {
        assert ds[i] in ds && !TaskImageDifference(ds[i], byRole, repository, tag);
        return false;
      }
    }
    assert ds[..|ds|] == ds;
    ok := |imageDiffsByRole[WebTask]| == 1 && |imageDiffsByRole[WorkerTask]| == 1;
  }

  /** The part of `validate_app_change` for a change set that is not a no-op. */
  method ReviewDeploy(py: Python, cs: Json, current: Option<Json>, proposed: Option<Json>, stack: string,
                      repository: string, tag: string) returns (ok: bool)
    requires current.Some? ==> Wf(current.value)
    requires proposed.Some? ==> Wf(proposed.value)
    ensures ok == DeployOk(py, cs, current, proposed, stack, repository, tag)
  {
    hide ChangesOk, DifferencesOk, Differences, Wf, Deployable, RolesOf, LogicalByRole;
    if !Deployable(cs) { return false; }
    if current.None? || proposed.None? { return false; }
    var roles := FindRoles(proposed.value, stack);
    if roles.None? { return false; }
    var currentRoles := FindRoles(current.value, stack);
    if currentRoles.None? || roles.value != currentRoles.value { return false; }
    var logicalByRole := LogicalByRole(roles.value);

    var changes := Get(cs, "Changes");
    if !changes.Arr? || changes.items == [] {
      NoChangesNotOk(py, changes, roles.value, repository, tag);
      return false;
    }
    var changesOk := CheckChanges(py, changes.items, roles.value, repository, tag);
    if !changesOk { return false; }
    var differences := Differences(current.value, proposed.value, "");
    ok := CheckDifferences(differences, logicalByRole, repository, tag);
  }

  /** `validate_app_change`, with every raise read as Reject. */
  method ValidateAppChange(py: Python, cs: Json, current: Option<Json>, proposed: Option<Json>, uri: string,
                           repository: string, stack: string) returns (v: Verdict)
    requires current.Some? ==> Wf(current.value)
    requires proposed.Some? ==> Wf(proposed.value)
    ensures v == ValidateApp(py, cs, current, proposed, uri, repository, stack)
  {
    hide ParseImageUri, Truthy, ChangeSet.Noop, DeployOk, Differences, LiveImage, Wf;
    var parsed := ParseImageUri(py, uri, repository);
    if parsed.None? { return Reject; }
    var tag := parsed.value;
    if tag == "dev" { return Reject; }
    if !cs.Obj? { return Reject; }
    if Truthy(Get(cs, "NextToken")) { return Reject; }

    var noop := ChangeSet.Noop(cs);
    if noop.BadNoop? { return Reject; }
    if noop.IsNoop? {
      if current.None? { return Reject; }
      if proposed.Some? {
        var differences := Differences(current.value, proposed.value, "");
        if differences != [] { return Reject; }
      }
      var live := RequireLiveImage(current.value, stack, repository, tag);
      return if live then Noop else Reject;
    }

    var deployOk := ReviewDeploy(py, cs, current, proposed, stack, repository, tag);
    return if deployOk then Deploy else Reject;
  }

  lemma NoChangesNotOk(py: Python, changes: Json, roles: map<string, Role>, repository: string, tag: string)
    requires Injective(roles) && roles.Values == AllRoles
    requires changes.Arr? ==> changes.items == []
    ensures changes.Arr? ==> !ChangesOk(py, changes.items, roles, repository, tag)
  {
  }
}
