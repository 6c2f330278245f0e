/** The decision in the words of the texts it looks for: when a change set is a no-op, and exactly
    when the verdict is Deploy, Noop or Reject. */
module Verdicts {
  import opened Text
  import opened Json
  import opened TreeDiff
  import opened Strings
  import opened ImageTags
  import opened ImageRules
  import opened Roles
  import opened RoleRules
  import opened Attribution
  import opened ChangeSet
  import opened Guard
  import opened ReviewRules
  import opened DeployExact
  import opened DiffTheorems
  import opened FieldLaws

  // ---------------------------------------------------------------- the no-op status

  /** Missing, or one of Python's empty values. */
  predicate Falsy(j: Json) {
    || j == Null || j == Bool(false) || j == Int(0) || j == Float(0.0) || j == Str("") || j == Arr([])
    || (j.Obj? && j.m == map[])
  }

  lemma TruthyWritten(j: Json)
    ensures Truthy(j) <==> !Falsy(j)
  {
  }

  /** The reason starts with one of the two texts for an empty change set. */
  ghost predicate NothingToDo(reason: string) {
    || (exists rest :: reason == "The submitted information didn't contain changes." + rest)
    || (exists rest :: reason == "No updates are to be performed." + rest)
  }

  lemma PrefixWritten(prefix: string, s: string)
    ensures prefix <= s <==> exists rest :: s == prefix + rest
  {
    if prefix <= s { assert s == prefix + s[|prefix|..]; }
  }

  lemma ReasonWritten(reason: string)
    ensures NoChangeReason(reason) <==> NothingToDo(reason)
  {
    PrefixWritten("The submitted information didn't contain changes.", reason);
    PrefixWritten("No updates are to be performed.", reason);
    var prefixes := NO_CHANGE_PREFIXES;
    if NoChangeReason(reason) {
      var i :| 0 <= i < |prefixes| && prefixes[i] <= reason;
      assert i == 0 || i == 1;
    }
    if NothingToDo(reason) { assert prefixes[0] <= reason || prefixes[1] <= reason; }
  }

  /** A failed change set with a reason for having nothing to do, and no changes. */
  ghost predicate WrittenNoop(cs: Json) {
    && Get(cs, "Status") == Str("FAILED")
    && Get(cs, "StatusReason").Str? && NothingToDo(Get(cs, "StatusReason").s)
    && (Get(cs, "Changes") == Null || Get(cs, "Changes") == Arr([]))
  }

  /** Not failed, and with a readable reason. */
  predicate WrittenOther(cs: Json) {
    && Get(cs, "Status") != Str("FAILED")
    && (Falsy(Get(cs, "StatusReason")) || Get(cs, "StatusReason").Str?)
  }

  /** A change set is a no-op, or one to review, exactly under these conditions on its fields. */
  lemma NoopIff(cs: Json)
    ensures ChangeSet.Noop(cs) == IsNoop <==> WrittenNoop(cs)
    ensures ChangeSet.Noop(cs) == NotNoop <==> WrittenOther(cs)
  {
    hide NoChangeReason, NothingToDo, Get;
    var raw := Get(cs, "StatusReason");
    TruthyWritten(raw);
    if raw.Str? { ReasonWritten(raw.s); }
    EmptyReason();
  }

  lemma EmptyReason()
    ensures !NoChangeReason("") && !NothingToDo("")
  {
    ReasonWritten("");
    assert forall rest: string :: |"No updates are to be performed." + rest| >= 31;
    assert forall rest: string :: |"The submitted information didn't contain changes." + rest| >= 49;
  }

  const EMPTY_REASON :=
    "The submitted information didn't contain changes." + " Submit different information to create a change set."

  /** The change set of a failed creation with no changes, as CloudFormation describes it. */
  const EMPTY_UPDATE := Obj(
    ["Status", "ExecutionStatus", "StatusReason", "Changes"],
    map["Status" := Str("FAILED"), "ExecutionStatus" := Str("UNAVAILABLE"),
        "StatusReason" := Str(EMPTY_REASON),
        "Changes" := Arr([])])

  /** It is an empty change set, and it is none with another reason or with a change in it. */
  lemma EmptyUpdate(reason: string, changes: seq<Json>)
    ensures EmptyChangeSet(EMPTY_UPDATE)
    ensures ChangeSet.Noop(Put(EMPTY_UPDATE, "StatusReason", Str(reason))) ==
            if NothingToDo(reason) then IsNoop else BadNoop
    ensures ChangeSet.Noop(Put(EMPTY_UPDATE, "Changes", Arr(changes))) == if changes == [] then IsNoop else BadNoop
  {
    hide NothingToDo, ChangeSet.Noop;
    NoopIff(EMPTY_UPDATE);
    NoopIff(Put(EMPTY_UPDATE, "StatusReason", Str(reason)));
    NoopIff(Put(EMPTY_UPDATE, "Changes", Arr(changes)));
    EmptyUpdateReason();
  }

  lemma EmptyUpdateReason()
    ensures NothingToDo(EMPTY_REASON)
  {
    StartsWithReason(" Submit different information to create a change set.");
  }

  lemma StartsWithReason(rest: string)
    ensures NothingToDo("The submitted information didn't contain changes." + rest)
  {
    PrefixWritten("The submitted information didn't contain changes.",
                  "The submitted information didn't contain changes." + rest);
  }

  // ---------------------------------------------------------------- live images

  /** The text ends in `/{repository}:{tag}`. */
  ghost predicate LiveText(s: string, repository: string, tag: string) {
    exists front :: WrittenReference(s, front, repository, tag)
  }

  ghost predicate OnlyLive(ss: seq<string>, i: nat, repository: string, tag: string) {
    i < |ss| && forall j :: 0 <= j < |ss| ==> (LiveText(ss[j], repository, tag) <==> j == i)
  }

  /** Exactly one of the strings ends in `/{repository}:{tag}`. */
  ghost predicate OneLive(ss: seq<string>, repository: string, tag: string) {
    exists i :: OnlyLive(ss, i, repository, tag)
  }

  lemma {:induction false} CountOfNone(ss: seq<string>, repository: string, tag: string)
    requires tag != ""
    ensures CountLive(ss, repository, tag) == 0 <==> forall s <- ss :: !LiveText(s, repository, tag)
  {
    hide IsLiveReference, LiveText;
    if ss != [] {
      CountOfNone(ss[1..], repository, tag);
      LiveTextIs(ss[0], repository, tag);
      assert forall s :: s in ss <==> s == ss[0] || s in ss[1..];
    }
  }

  lemma {:induction false} CountOfOne(ss: seq<string>, repository: string, tag: string)
    requires tag != ""
    ensures CountLive(ss, repository, tag) == 1 <==> OneLive(ss, repository, tag)
  {
    hide IsLiveReference, LiveText;
    if ss != [] {
      var rest := ss[1..];
      CountOfOne(rest, repository, tag);
      CountOfNone(rest, repository, tag);
      assert LiveText(ss[0], repository, tag) <==> IsLiveReference(ss[0], repository, tag) by {
        LiveTextIs(ss[0], repository, tag);
      }
      FirstIsLive(ss, repository, tag);
    }
  }

  lemma LiveTextIs(s: string, repository: string, tag: string)
    requires tag != ""
    ensures LiveText(s, repository, tag) <==> IsLiveReference(s, repository, tag)
  {
    hide IsLiveReference, WrittenReference;
    LiveWritten(s, repository, tag);
  }

  lemma FirstIsLive(ss: seq<string>, repository: string, tag: string)
    requires ss != []
    ensures OneLive(ss, repository, tag) <==>
            if LiveText(ss[0], repository, tag) then forall s <- ss[1..] :: !LiveText(s, repository, tag)
            else OneLive(ss[1..], repository, tag)
  {
    hide LiveText;
    var rest := ss[1..];
    assert forall j :: 0 <= j < |rest| ==> rest[j] == ss[j + 1];
    if LiveText(ss[0], repository, tag) {
      if forall s <- rest :: !LiveText(s, repository, tag) {
        assert forall j :: 0 < j < |ss| ==> ss[j] == rest[j - 1];
        assert OnlyLive(ss, 0, repository, tag);
      }
    } else {
      if i: nat :| OnlyLive(rest, i, repository, tag) {
        assert forall j :: 0 < j < |ss| ==> ss[j] == rest[j - 1];
        assert OnlyLive(ss, i + 1, repository, tag);
      }
      if i: nat :| OnlyLive(ss, i, repository, tag) {
        assert i > 0;
        assert OnlyLive(rest, i - 1, repository, tag);
      }
    }
  }

  // ---------------------------------------------------------------- template differences

  /** The path goes to the resource with this id, or below it by a key. */
  ghost predicate PathOf(path: string, id: string) {
    path == "Resources." + id || exists rest :: path == "Resources." + (id + ("." + rest))
  }

  lemma PathOfIff(path: string, id: string)
    ensures PathOf(path, id) && '.' !in id <==> "Resources." <= path && Head(path[10..], '.') == id
  {
    if "Resources." <= path && Head(path[10..], '.') == id {
      var remainder := path[10..];
      HeadIsPrefixWithoutSeparator(remainder, '.');
      assert path == "Resources." + remainder;
      if |id| < |remainder| {
        assert remainder == id + ("." + remainder[|id| + 1..]);
      } else {
        assert remainder == id;
      }
    }
    if PathOf(path, id) && '.' !in id {
      if path == "Resources." + id {
        assert path[10..] == id;
        HeadIsPrefixWithoutSeparator(id, '.');
      } else {
        var rest :| path == "Resources." + (id + ("." + rest));
        assert path[10..] == id + ("." + rest);
        HeadOfFront(id, rest);
      }
    }
  }

  lemma {:induction false} HeadOfFront(id: string, rest: string)
    requires '.' !in id
    ensures Head(id + ("." + rest), '.') == id
  {
    if id != "" {
      assert (id + ("." + rest))[1..] == id[1..] + ("." + rest);
      HeadOfFront(id[1..], rest);
    } else {
      assert id + ("." + rest) == "." + rest;
    }
  }

  /** A value changes at this resource, and only by the expected tag. */
  ghost predicate ImageMoved(d: Difference, id: string, repository: string, tag: string) {
    && d.kind == ValueKind && '.' !in id && PathOf(d.path, id)
    && exists front, oldTag :: WrittenChange(d.before, d.after, front, repository, oldTag, tag)
  }

  /** There are two differences: the image of the one task, and the image of the other. */
  ghost predicate TwoImagesMoved(ds: seq<Difference>, web: string, worker: string, repository: string, tag: string) {
    && |ds| == 2
    && ((ImageMoved(ds[0], web, repository, tag) && ImageMoved(ds[1], worker, repository, tag))
        || (ImageMoved(ds[0], worker, repository, tag) && ImageMoved(ds[1], web, repository, tag)))
  }

  /** This id holds this role. */
  predicate Holds(roles: map<string, Role>, id: string, r: Role) { id in roles && roles[id] == r }

  lemma ImageMovedIff(d: Difference, r: Role, roles: map<string, Role>, id: string, repository: string, tag: string)
    requires Injective(roles) && roles.Values == AllRoles && Holds(roles, id, r)
    ensures ImageDifferenceOf(d, r, LogicalByRole(roles), repository, tag) <==> ImageMoved(d, id, repository, tag)
  {
    hide LogicalByRole, IsExpectedImageChange, WrittenChange, PathOf, Injective, Head;
    TablesInverse(roles);
    PathOfIff(d.path, id);
    ChangeWritten(d.before, d.after, repository, tag);
    var byRole := LogicalByRole(roles);
    assert byRole[r] == id;
    forall q <- AllRoles ensures byRole[q] == id <==> q == r {}
    assert WebTask in AllRoles && WorkerTask in AllRoles && WebService in AllRoles && WorkerService in AllRoles;
  }

  lemma {:induction false} BookedTwice(ds: seq<Difference>, byRole: map<Role, string>, repository: string, tag: string)
    requires forall d <- ds :: TaskImageDifference(d, byRole, repository, tag)
    ensures |Attributed(ds, WebTask, byRole)| + |Attributed(ds, WorkerTask, byRole)| == |ds|
  {
    hide DifferenceRole, IsImageDifference;
    if ds != [] {
      BookedTwice(ds[..|ds| - 1], byRole, repository, tag);
      assert TaskImageDifference(ds[|ds| - 1], byRole, repository, tag);
    }
  }

  lemma TwoAttributed(a: Difference, b: Difference, r: Role, byRole: map<Role, string>)
    ensures |Attributed([a, b], r, byRole)| == (if DifferenceRole(a.path, byRole) == Some(r) then 1 else 0) +
                                              (if DifferenceRole(b.path, byRole) == Some(r) then 1 else 0)
  {
    hide DifferenceRole;
    var one, two := [a], [a, b];
    assert two[..|two| - 1] == one && one[..|one| - 1] == [];
    assert |Attributed(one, r, byRole)| == if DifferenceRole(a.path, byRole) == Some(r) then 1 else 0;
  }

  /** The loop over the template differences accepts exactly two moved images, one per task. */
  lemma DifferencesIff(ds: seq<Difference>, roles: map<string, Role>, web: string, worker: string, repository: string,
                       tag: string)
    requires Injective(roles) && roles.Values == AllRoles
    requires Holds(roles, web, WebTask) && Holds(roles, worker, WorkerTask)
    ensures DifferencesOk(ds, LogicalByRole(roles), repository, tag) <==>
            TwoImagesMoved(ds, web, worker, repository, tag)
  {
    hide LogicalByRole, ImageMoved, DifferenceRole, IsImageDifference, Attributed, Injective;
    var byRole := LogicalByRole(roles);
    forall d
      ensures ImageDifferenceOf(d, WebTask, byRole, repository, tag) <==> ImageMoved(d, web, repository, tag)
      ensures ImageDifferenceOf(d, WorkerTask, byRole, repository, tag) <==> ImageMoved(d, worker, repository, tag)
    {
      ImageMovedIff(d, WebTask, roles, web, repository, tag);
      ImageMovedIff(d, WorkerTask, roles, worker, repository, tag);
    }
    if forall d <- ds :: TaskImageDifference(d, byRole, repository, tag) { BookedTwice(ds, byRole, repository, tag); }
    if |ds| == 2 {
      assert ds == [ds[0], ds[1]];
      TwoAttributed(ds[0], ds[1], WebTask, byRole);
      TwoAttributed(ds[0], ds[1], WorkerTask, byRole);
      if DifferencesOk(ds, byRole, repository, tag) {
        assert TaskImageDifference(ds[0], byRole, repository, tag);
        assert TaskImageDifference(ds[1], byRole, repository, tag);
      }
    }
  }

  // ---------------------------------------------------------------- the verdict

  /** One of the changes is a reviewed one for this role. */
  ghost predicate ListsChange(py: Python, changes: seq<Json>, roles: map<string, Role>, r: Role, repository: string,
                              tag: string)
    requires Injective(roles) && roles.Values == AllRoles
  {
    exists c <- changes :: Reviewed(py, c, roles, r, repository, tag)
  }

  /** There are four changes, each one reviewed for some role, and one for each role. */
  ghost predicate ChangesReviewed(py: Python, changes: Json, roles: map<string, Role>, repository: string,
                                  tag: string) {
    && Injective(roles) && roles.Values == AllRoles
    && changes.Arr? && |changes.items| == 4
    && (forall c <- changes.items :: exists r :: Reviewed(py, c, roles, r, repository, tag))
    && forall r :: ListsChange(py, changes.items, roles, r, repository, tag)
  }

  lemma ChangesReviewedIff(py: Python, changes: Json, roles: map<string, Role>, repository: string, tag: string)
    requires Injective(roles) && roles.Values == AllRoles
    ensures ChangesReviewed(py, changes, roles, repository, tag) <==>
            changes.Arr? && ChangesOk(py, changes.items, roles, repository, tag)
  {
    hide Reviewed, ChangedRole, Injective;
    forall c, r
      ensures ChangedRole(py, c, roles, repository, tag) == Some(r) <==> Reviewed(py, c, roles, r, repository, tag)
    {
      ReviewIff(py, c, roles, r, repository, tag);
    }
    EveryRole(roles);
    if changes.Arr? {
      forall r
        ensures ListsChange(py, changes.items, roles, r, repository, tag) <==>
                exists c <- changes.items :: ChangedRole(py, c, roles, repository, tag) == Some(r)
      {
      }
      forall c <- changes.items
        ensures ChangedRole(py, c, roles, repository, tag).Some? <==>
                exists r :: Reviewed(py, c, roles, r, repository, tag)
      {
        var found := ChangedRole(py, c, roles, repository, tag);
        if found.Some? { assert Reviewed(py, c, roles, found.value, repository, tag); }
      }
      assert forall r: Role :: r in AllRoles;
      if ChangesReviewed(py, changes, roles, repository, tag) {
        forall r <- AllRoles
          ensures exists c <- changes.items :: ChangedRole(py, c, roles, repository, tag) == Some(r)
        {
          assert ListsChange(py, changes.items, roles, r, repository, tag);
        }
      }
      if ChangesOk(py, changes.items, roles, repository, tag) {
        forall r: Role ensures ListsChange(py, changes.items, roles, r, repository, tag) { assert r in AllRoles; }
      }
    }
  }

  /** What a reader of the plan takes from it: the tag, the stack's prefix, which resource holds
      which role, and the two tasks among them. */
  datatype Reading = Reading(tag: string, p: string, roles: map<string, Role>, web: string, worker: string)

  /** The image URI is the repository's with this tag, which is not `dev`. */
  ghost predicate TagRead(py: Python, uri: string, repository: string, tag: string) {
    tag != "dev" && exists account, region :: WrittenUri(py, uri, account, region, repository, tag)
  }

  /** The template's resources hold these roles in the stack `{p}-app-v2`. */
  ghost predicate RolesRead(template: Json, stack: string, w: Reading) {
    && w.p != "" && stack == w.p + "-app-v2"
    && WrittenRoles(Get(template, "Resources"), w.p, w.roles)
    && Holds(w.roles, w.web, WebTask) && Holds(w.roles, w.worker, WorkerTask)
  }

  ghost predicate WrittenDeploy(py: Python, cs: Json, current: Option<Json>, proposed: Option<Json>, uri: string,
                                repository: string, stack: string, w: Reading)
  {
    && TagRead(py, uri, repository, w.tag)
    && cs.Obj? && Falsy(Get(cs, "NextToken"))
    && (Falsy(Get(cs, "StatusReason")) || Get(cs, "StatusReason").Str?)
    && Get(cs, "Status") == Str("CREATE_COMPLETE") && Get(cs, "ExecutionStatus") == Str("AVAILABLE")
    && current.Some? && proposed.Some?
    && RolesRead(current.value, stack, w) && RolesRead(proposed.value, stack, w)
    && ChangesReviewed(py, Get(cs, "Changes"), w.roles, repository, w.tag)
    && TwoImagesMoved(Differences(current.value, proposed.value, ""), w.web, w.worker, repository, w.tag)
  }

  ghost predicate WrittenNoopPlan(py: Python, cs: Json, current: Option<Json>, proposed: Option<Json>, uri: string,
                                  repository: string, stack: string, w: Reading)
  {
    && TagRead(py, uri, repository, w.tag)
    && cs.Obj? && Falsy(Get(cs, "NextToken")) && WrittenNoop(cs)
    && current.Some? && RolesRead(current.value, stack, w)
    && (proposed.Some? ==> SameTree(current.value, proposed.value))
    && OneLive(StringsOf(Get(Get(current.value, "Resources"), w.web)), repository, w.tag)
    && OneLive(StringsOf(Get(Get(current.value, "Resources"), w.worker)), repository, w.tag)
  }

  /** A reading of the roles exists exactly when discovery finds them. */
  lemma RolesReadIff(template: Json, stack: string, w: Reading)
    ensures RolesRead(template, stack, w) ==>
              && RolesOf(template, stack) == Some(w.roles)
              && LogicalByRole(w.roles).Keys == AllRoles
              && LogicalByRole(w.roles)[WebTask] == w.web && LogicalByRole(w.roles)[WorkerTask] == w.worker
    ensures RolesOf(template, stack).Some? && |stack| >= 7 ==>
              var roles := RolesOf(template, stack).value;
              && LogicalByRole(roles).Keys == AllRoles
              && RolesRead(template, stack, Reading(w.tag, stack[..|stack| - 7], roles, LogicalByRole(roles)[WebTask],
                                                    LogicalByRole(roles)[WorkerTask]))
    ensures RolesOf(template, stack).Some? ==> |stack| >= 7
  {
    hide RolesOf, WrittenRoles, LogicalByRole;
    var found := RolesOf(template, stack);
    if RolesRead(template, stack, w) {
      RolesWritten(template, w.p, w.roles);
      TablesInverse(w.roles);
    }
    if found.Some? {
      if !exists p :: p != "" && stack == p + "-app-v2" { OtherStacksRefused(template, stack); }
      var p :| p != "" && stack == p + "-app-v2";
      assert stack[..|stack| - 7] == p;
      RolesWritten(template, p, found.value);
      TablesInverse(found.value);
    }
  }

  lemma TagReadIff(py: Python, uri: string, repository: string, tag: string)
    ensures TagRead(py, uri, repository, tag) <==> ParseImageUri(py, uri, repository) == Some(tag) && tag != "dev"
    ensures ParseImageUri(py, uri, repository) == Some(tag) ==> tag != ""
  {
    hide ParseImageUri, WrittenUri;
    UriWritten(py, uri, repository, tag);
    if account, region :| WrittenUri(py, uri, account, region, repository, tag) {
      TagNotEmpty(py, uri, account, region, repository, tag);
    }
  }

  lemma TagNotEmpty(py: Python, uri: string, account: string, region: string, repository: string, tag: string)
    requires WrittenUri(py, uri, account, region, repository, tag)
    ensures tag != ""
  {
  }

  /** The plan deploys if and only if it reads like this. */
  lemma DeployWritten(py: Python, cs: Json, current: Option<Json>, proposed: Option<Json>, uri: string,
                      repository: string, stack: string)
    ensures ValidateApp(py, cs, current, proposed, uri, repository, stack) == Deploy <==>
            exists w :: WrittenDeploy(py, cs, current, proposed, uri, repository, stack, w)
  {
    hide ParseImageUri, TagRead, NoopOk, Truthy, Falsy, ChangeSet.Noop, RolesOf, RolesRead, LogicalByRole, Differences,
         ChangesReviewed, TwoImagesMoved, ChangesOk, DifferencesOk, Get, Injective;
    TruthyWritten(Get(cs, "NextToken"));
    NoopIff(cs);
    FailedIsNotComplete();
    if w :| WrittenDeploy(py, cs, current, proposed, uri, repository, stack, w) {
      TagReadIff(py, uri, repository, w.tag);
      RolesReadIff(current.value, stack, w);
      RolesReadIff(proposed.value, stack, w);
      DeployParts(py, cs, current.value, proposed.value, repository, stack, w);
    }
    if ValidateApp(py, cs, current, proposed, uri, repository, stack) == Deploy {
      var tag := ParseImageUri(py, uri, repository).value;
      var roles := RolesOf(proposed.value, stack).value;
      TablesInverse(roles);
      var w0 := Reading(tag, "", roles, "", "");
      RolesReadIff(current.value, stack, w0);
      RolesReadIff(proposed.value, stack, w0);
      var w := Reading(tag, stack[..|stack| - 7], roles, LogicalByRole(roles)[WebTask],
                       LogicalByRole(roles)[WorkerTask]);
      TagReadIff(py, uri, repository, tag);
      DeployParts(py, cs, current.value, proposed.value, repository, stack, w);
      assert WrittenDeploy(py, cs, current, proposed, uri, repository, stack, w);
    }
  }

  lemma FailedIsNotComplete()
    ensures "CREATE_COMPLETE" != "FAILED"
  {
  }

  lemma DeployParts(py: Python, cs: Json, current: Json, proposed: Json, repository: string, stack: string, w: Reading)
    requires RolesRead(proposed, stack, w)
    ensures Injective(w.roles) && w.roles.Values == AllRoles
    ensures ChangesReviewed(py, Get(cs, "Changes"), w.roles, repository, w.tag) <==>
            Get(cs, "Changes").Arr? && ChangesOk(py, Get(cs, "Changes").items, w.roles, repository, w.tag)
    ensures Get(cs, "Changes").Arr? ==> cs.Obj? && "Changes" in cs.m
    ensures var ds := Differences(current, proposed, "");
            TwoImagesMoved(ds, w.web, w.worker, repository, w.tag) <==>
            DifferencesOk(ds, LogicalByRole(w.roles), repository, w.tag)
  {
    hide RolesOf, LogicalByRole, ChangesReviewed, ChangesOk, TwoImagesMoved, DifferencesOk, Differences, WrittenRoles;
    RolesReadIff(proposed, stack, w);
    ChangesReviewedIff(py, Get(cs, "Changes"), w.roles, repository, w.tag);
    DifferencesIff(Differences(current, proposed, ""), w.roles, w.web, w.worker, repository, w.tag);
  }

  /** The plan is a no-op if and only if it reads like this. */
  lemma NoopWritten(py: Python, cs: Json, current: Option<Json>, proposed: Option<Json>, uri: string,
                    repository: string, stack: string)
    ensures ValidateApp(py, cs, current, proposed, uri, repository, stack) == Verdict.Noop <==>
            exists w :: WrittenNoopPlan(py, cs, current, proposed, uri, repository, stack, w)
  {
    hide ParseImageUri, TagRead, DeployOk, Truthy, Falsy, ChangeSet.Noop, WrittenNoop, RolesOf, RolesRead,
         LogicalByRole, Differences, SameTree, Get, CountLive, OneLive, StringsOf, Injective;
    TruthyWritten(Get(cs, "NextToken"));
    NoopIff(cs);
    if current.Some? && proposed.Some? { NoDifferencesIffSameTree(current.value, proposed.value); }
    if w :| WrittenNoopPlan(py, cs, current, proposed, uri, repository, stack, w) {
      TagReadIff(py, uri, repository, w.tag);
      RolesReadIff(current.value, stack, w);
      CountOfOne(StringsOf(Get(Get(current.value, "Resources"), w.web)), repository, w.tag);
      CountOfOne(StringsOf(Get(Get(current.value, "Resources"), w.worker)), repository, w.tag);
    }
    if ValidateApp(py, cs, current, proposed, uri, repository, stack) == Verdict.Noop {
      var tag := ParseImageUri(py, uri, repository).value;
      var roles := RolesOf(current.value, stack).value;
      TablesInverse(roles);
      var w0 := Reading(tag, "", roles, "", "");
      RolesReadIff(current.value, stack, w0);
      var w := Reading(tag, stack[..|stack| - 7], roles, LogicalByRole(roles)[WebTask],
                       LogicalByRole(roles)[WorkerTask]);
      TagReadIff(py, uri, repository, tag);
      CountOfOne(StringsOf(Get(Get(current.value, "Resources"), w.web)), repository, tag);
      CountOfOne(StringsOf(Get(Get(current.value, "Resources"), w.worker)), repository, tag);
      assert WrittenNoopPlan(py, cs, current, proposed, uri, repository, stack, w);
    }
  }

  /** A failed change set with another reason, or one that lists changes, is refused whatever else
      the plan says. */
  lemma FailedIsRefused(py: Python, cs: Json, current: Option<Json>, proposed: Option<Json>, uri: string,
                        repository: string, stack: string)
    requires Get(cs, "Status") == Str("FAILED")
    requires || !Get(cs, "StatusReason").Str? || !NothingToDo(Get(cs, "StatusReason").s)
             || (Get(cs, "Changes") != Null && Get(cs, "Changes") != Arr([]))
    ensures ValidateApp(py, cs, current, proposed, uri, repository, stack) == Reject
  {
    hide ValidateApp, WrittenUri, NothingToDo, RolesRead, Falsy, OneLive, SameTree, Differences, ChangesReviewed;
    DeployWritten(py, cs, current, proposed, uri, repository, stack);
    NoopWritten(py, cs, current, proposed, uri, repository, stack);
    FailedIsNotComplete();
  }
}
