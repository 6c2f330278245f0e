/** The converse of deploy soundness, and what a deploy does to the strings of the tasks. */
module DeployExact {
  import opened Text
  import opened Json
  import opened TreeDiff
  import opened DiffTheorems
  import opened Strings
  import opened ImageTags
  import opened Roles
  import opened Attribution
  import opened ChangeSet
  import opened ChangeSetTheorems
  import opened Guard
  import opened GuardTheorems
  import opened SoundnessExact

  /** The change set side of acceptance: complete, executable and listing only allowed changes. */
  ghost predicate ChangeSetOk(py: Python, cs: Json, roles: map<string, Role>, repository: string, tag: string)
    requires Injective(roles) && roles.Values == AllRoles
  {
    && cs.Obj? && !Truthy(Get(cs, "NextToken")) && ChangeSet.Noop(cs) == NotNoop
    && Deployable(cs) && Get(cs, "Changes").Arr?
    && ChangesOk(py, Get(cs, "Changes").items, roles, repository, tag)
  }

  lemma ThirdIsOther(es: seq<Entry>, web: Entry, worker: Entry)
    requires DistinctPaths(es) && |es| > 2
    ensures exists e <- es :: e != web && e != worker
  {
    assert es[0] in es && es[1] in es && es[2] in es;
    assert es[0].path != es[1].path && es[0].path != es[2].path && es[1].path != es[2].path;
  }

  lemma TwoByMembership(es: seq<Entry>, web: Entry, worker: Entry)
    requires DistinctPaths(es) && web.path != worker.path
    requires forall e :: e in es <==> e == web || e == worker
    ensures es == [web, worker] || es == [worker, web]
  {
    assert web in es && worker in es;
    if |es| > 2 { ThirdIsOther(es, web, worker); }
    var i :| 0 <= i < |es| && es[i] == web;
    var j :| 0 <= j < |es| && es[j] == worker;
  }

  /** A swap inside a task whose logical id has no dot is booked on that task. */
  lemma SwapIsAttributed(current: Json, proposed: Json, stack: string, r: Role, e: Entry, repository: string,
                         tag: string)
    requires Identified(current, stack) && Identified(proposed, stack)
    requires r in RoleIds(current, stack) && IsTask(r) && tag != "" && '.' !in RoleIds(current, stack)[r]
    requires ImageSwap(current, proposed, RoleIds(current, stack)[r], e, repository, tag)
    requires e in DiffsAt(current, proposed, [])
    ensures ImageDifferenceOf(RenderEntry(e), r, RoleIds(current, stack), repository, tag)
  {
    hide DiffsAt, RolesOf, LogicalByRole, Render, RoleWithId, IsExpectedImageChange, TagChange, DifferenceRole;
    var byRole := RoleIds(current, stack);
    TablesInverse(RolesOf(current, stack).value);
    BookedByHead(current, proposed, stack, byRole[r], e);
    HeadIsPrefixWithoutSeparator(byRole[r], '.');
    RoleWithIdFinds(byRole, byRole[r]);
    ImageChangeIff(e.before, e.after, repository, tag);
  }

  lemma OnePerTask(ds: seq<Difference>, byRole: map<Role, string>, repository: string, tag: string)
    requires |ds| == 2
    requires WebAndWorker(ds[0], ds[1], byRole, repository, tag) || WebAndWorker(ds[1], ds[0], byRole, repository, tag)
    ensures DifferencesOk(ds, byRole, repository, tag)
  {
    hide DifferenceRole, IsImageDifference;
    forall r ensures |Attributed(ds, r, byRole)| ==
      (if DifferenceRole(ds[0].path, byRole) == Some(r) then 1 else 0) +
      (if DifferenceRole(ds[1].path, byRole) == Some(r) then 1 else 0)
    {
      assert ds[..2] == ds && ds[..0] == [];
      AttributedNext(ds, 0, r, byRole);
      AttributedNext(ds, 1, r, byRole);
      assert Attributed(ds[..0], r, byRole) == [];
    }
  }

  /** Templates that differ by exactly the two image tags pass the difference check unless a
      task's logical id is dotted. */
  lemma TwoTagsPassIff(current: Json, proposed: Json, stack: string, repository: string, tag: string)
    requires Identified(current, stack) && Identified(proposed, stack) && tag != ""
    requires WebTask in RoleIds(current, stack) && WorkerTask in RoleIds(current, stack)
    requires OnlyTwoImageTagsChange(current, proposed, RoleIds(current, stack)[WebTask],
                                    RoleIds(current, stack)[WorkerTask], repository, tag)
    ensures DifferencesOk(Differences(current, proposed, ""), RoleIds(current, stack), repository, tag) <==>
            '.' !in RoleIds(current, stack)[WebTask] && '.' !in RoleIds(current, stack)[WorkerTask]
  {
    hide DiffsAt, Differences, DifferencesOk, RolesOf, LogicalByRole, RenderEntry, ImageDifferenceOf, SameTree, Patch,
         TagChange, Attributed;
    var byRole := RoleIds(current, stack);
    TablesInverse(RolesOf(current, stack).value);
    var web: Entry, worker: Entry :|
      && ImageSwap(current, proposed, byRole[WebTask], web, repository, tag)
      && ImageSwap(current, proposed, byRole[WorkerTask], worker, repository, tag)
      && SameTree(Patch(current, [], [web, worker]), proposed)
      && (forall e :: e in DiffsAt(current, proposed, []) <==> e == web || e == worker);
    var es := DiffsAt(current, proposed, []);
    assert web.path[1] != worker.path[1];
    DiffPathsDistinct(current, proposed, []);
    TwoByMembership(es, web, worker);
    RenderedDiff(current, proposed, []);
    RenderNil();
    if '.' !in byRole[WebTask] && '.' !in byRole[WorkerTask] {
      SwapIsAttributed(current, proposed, stack, WebTask, web, repository, tag);
      SwapIsAttributed(current, proposed, stack, WorkerTask, worker, repository, tag);
      OnePerTask(Differences(current, proposed, ""), byRole, repository, tag);
    }
    if DifferencesOk(Differences(current, proposed, ""), byRole, repository, tag) {
      TaskIdUndotted(current, proposed, stack, WebTask, web, WorkerTask, worker, repository, tag);
      TaskIdUndotted(current, proposed, stack, WorkerTask, worker, WebTask, web, repository, tag);
    }
  }

  /** The plan the guard exists for: the URI names a tag other than `dev`, the change set lists
      the four allowed changes, both templates show the same roles, and the templates differ
      by the two image tags and nothing else. */
  ghost predicate ImageUpdatePlan(py: Python, cs: Json, current: Json, proposed: Json, uri: string,
                                  repository: string, stack: string)
  {
    && ParseImageUri(py, uri, repository).Some?
    && TagOf(py, uri, repository) != "dev"
    && Identified(current, stack) && RolesOf(proposed, stack) == RolesOf(current, stack)
    && ChangeSetOk(py, cs, RolesOf(current, stack).value, repository, TagOf(py, uri, repository))
    && WebTask in RoleIds(current, stack) && WorkerTask in RoleIds(current, stack)
    && OnlyTwoImageTagsChange(current, proposed, RoleIds(current, stack)[WebTask],
                              RoleIds(current, stack)[WorkerTask], repository, TagOf(py, uri, repository))
  }

  /** Neither task's logical id has a dot. */
  ghost predicate TaskIdsUndotted(template: Json, stack: string) {
    Identified(template, stack) ==>
      forall r | r in RoleIds(template, stack) && IsTask(r) :: '.' !in RoleIds(template, stack)[r]
  }

  /** Among the image-update plans the guard refuses exactly those with a dotted task id. */
  lemma PlanAcceptedIff(py: Python, cs: Json, current: Json, proposed: Json, uri: string, repository: string,
                        stack: string)
    requires ImageUpdatePlan(py, cs, current, proposed, uri, repository, stack)
    ensures Accepted(py, cs, current, proposed, uri, repository, stack) <==> TaskIdsUndotted(current, stack)
  {
    hide ParseImageUri, Truthy, ChangeSet.Noop, ChangesOk, DifferencesOk, Differences, RolesOf, LogicalByRole,
         OnlyTwoImageTagsChange, NoopOk, Deployable;
    TagIsGrammatical(py, uri, repository);
    TwoTagsPassIff(current, proposed, stack, repository, TagOf(py, uri, repository));
  }

  lemma AcceptedShape(py: Python, cs: Json, current: Json, proposed: Json, uri: string, repository: string,
                      stack: string)
    requires Accepted(py, cs, current, proposed, uri, repository, stack)
    ensures ParseImageUri(py, uri, repository).Some? && TagOf(py, uri, repository) != "dev"
    ensures Identified(current, stack)
    ensures ChangeSetOk(py, cs, RolesOf(current, stack).value, repository, TagOf(py, uri, repository))
  {
    hide ParseImageUri, Truthy, ChangeSet.Noop, ChangesOk, DifferencesOk, Differences, RolesOf, LogicalByRole, NoopOk,
         Deployable;
  }

  /** The guard accepts and nothing changes under a confusable key, exactly when the plan is
      an image-update plan and neither task's logical id is dotted. */
  lemma DeployIff(py: Python, cs: Json, current: Json, proposed: Json, uri: string, repository: string, stack: string)
    ensures Accepted(py, cs, current, proposed, uri, repository, stack) &&
            ConfusablePlacesUnchanged(current, proposed) <==>
            ImageUpdatePlan(py, cs, current, proposed, uri, repository, stack) && TaskIdsUndotted(current, stack)
  {
    hide Accepted, ParseImageUri, ChangeSetOk, TagOf, RolesOf, LogicalByRole, OnlyTwoImageTagsChange,
         ConfusablePlacesUnchanged, TaskIdsUndotted;
    if ImageUpdatePlan(py, cs, current, proposed, uri, repository, stack) {
      PlanAcceptedIff(py, cs, current, proposed, uri, repository, stack);
    }
    if Accepted(py, cs, current, proposed, uri, repository, stack) {
      AcceptedShape(py, cs, current, proposed, uri, repository, stack);
      DeploySoundIff(py, cs, current, proposed, uri, repository, stack);
    }
  }

  /** With unambiguous keys, the guard accepts exactly the image-update plans. */
  lemma UnambiguousDeployIff(py: Python, cs: Json, current: Json, proposed: Json, uri: string, repository: string,
                             stack: string)
    requires KeysUnambiguous(current, stack)
    ensures Accepted(py, cs, current, proposed, uri, repository, stack) <==>
            ImageUpdatePlan(py, cs, current, proposed, uri, repository, stack)
  {
    hide Accepted, ImageUpdatePlan, ConfusablePlacesUnchanged, KeysUnambiguous, TaskIdsUndotted;
    DeployIff(py, cs, current, proposed, uri, repository, stack);
    UnambiguousTaskIds(current, stack);
    if Accepted(py, cs, current, proposed, uri, repository, stack) {
      UnambiguousIsQuiet(py, cs, current, proposed, uri, repository, stack);
    }
  }

  lemma UnambiguousTaskIds(template: Json, stack: string)
    requires KeysUnambiguous(template, stack)
    ensures TaskIdsUndotted(template, stack)
  {
    hide RolesOf, LogicalByRole, ReadsLikeRole, Head;
    if Identified(template, stack) {
      RolesAreResources(template, stack);
      TablesInverse(RolesOf(template, stack).value);
    }
  }

  // ---------------------------------------------------------------- live references before and after

  lemma CountLiveTakeOut(ss: seq<string>, i: nat, repository: string, tag: string)
    requires i < |ss|
    ensures CountLive(ss, repository, tag) ==
            CountLive(ss[..i] + ss[i + 1..], repository, tag) + if IsLiveReference(ss[i], repository, tag) then 1 else 0
  {
    hide IsLiveReference, CountLive;
    assert ss == ss[..i] + ([ss[i]] + ss[i + 1..]);
    CountLiveConcat(ss[..i], [ss[i]] + ss[i + 1..], repository, tag);
    CountLiveConcat([ss[i]], ss[i + 1..], repository, tag);
    CountLiveConcat(ss[..i], ss[i + 1..], repository, tag);
    CountLiveOne(ss[i], repository, tag);
  }

  lemma CountLiveOne(s: string, repository: string, tag: string)
    ensures CountLive([s], repository, tag) == if IsLiveReference(s, repository, tag) then 1 else 0
  {
    hide IsLiveReference;
    assert [s][1..] == [];
  }

  /** The count depends on which strings there are, not on their order. */
  lemma {:induction false} CountLivePermutes(ss: seq<string>, ts: seq<string>, repository: string, tag: string)
    requires multiset(ss) == multiset(ts)
    ensures CountLive(ss, repository, tag) == CountLive(ts, repository, tag)
    decreases |ss|
  {
    hide IsLiveReference;
    if ss == [] {
      assert |multiset(ts)| == 0;
    } else {
      assert ss[0] in multiset(ts);
      var i :| 0 <= i < |ts| && ts[i] == ss[0];
      RemoveFromBoth(ss, ts, i);
      CountLivePermutes(ss[1..], ts[..i] + ts[i + 1..], repository, tag);
      CountLiveTakeOut(ts, i, repository, tag);
    }
  }

  lemma RemovedOne(e: Entry)
    requires e.before.Str? && e.after.Str?
    ensures Removed([e]) == multiset{e.before.s} && Added([e]) == multiset{e.after.s}
  {
    NothingMoves();
    assert [e][1..] == [];
  }

  /** One swapped string changes the live count by the liveness of what came and went. */
  lemma SwapMovesCount(x: Json, y: Json, p: Path, e: Entry, repository: string, tag: string)
    requires Wf(x) && Wf(y)
    requires DiffsAt(x, y, p) == [e] && e.kind == ValueKind && e.before.Str? && e.after.Str?
    ensures CountLive(StringsOf(y), repository, tag)
            + (if IsLiveReference(e.before.s, repository, tag) then 1 else 0) ==
            CountLive(StringsOf(x), repository, tag) + (if IsLiveReference(e.after.s, repository, tag) then 1 else 0)
  {
    hide IsLiveReference, CountLive, StringsOf, DiffsAt, Bag, Wf, Removed, Added;
    DiffConservesStrings(x, y, p);
    RemovedOne(e);
    StringsAreTheBag(x);
    StringsAreTheBag(y);
    var xs, ys := StringsOf(x), StringsOf(y);
    assert multiset(ys + [e.before.s]) == multiset(xs + [e.after.s]);
    CountLivePermutes(ys + [e.before.s], xs + [e.after.s], repository, tag);
    CountLiveConcat(ys, [e.before.s], repository, tag);
    CountLiveConcat(xs, [e.after.s], repository, tag);
    CountLiveOne(e.before.s, repository, tag);
    CountLiveOne(e.after.s, repository, tag);
  }

  ghost function LiveCount(template: Json, id: string, repository: string, tag: string): nat {
    CountLive(StringsOf(ResourceOf(template, id)), repository, tag)
  }

  lemma UnderOne(web: Entry, worker: Entry, p: Path)
    requires p <= web.path && !(p <= worker.path)
    ensures Under([web, worker], p) == [web] && Under([worker, web], p) == [web]
  {
    UnderConcat([web], [worker], p);
    UnderConcat([worker], [web], p);
    UnderAll([web], p);
    UnderAll([worker], p);
    assert [web] + [worker] == [web, worker] && [worker] + [web] == [worker, web];
  }

  /** The resource that holds the swap gains exactly one live reference. */
  lemma SwapAddsOneLive(current: Json, proposed: Json, id: string, e: Entry, other: Entry, repository: string,
                        tag: string)
    requires Wf(current) && Wf(proposed) && EcrTag(tag)
    requires DiffsAt(current, proposed, []) == [e, other] || DiffsAt(current, proposed, []) == [other, e]
    requires ImageSwap(current, proposed, id, e, repository, tag)
    requires !([Key("Resources"), Key(id)] <= other.path)
    requires current.Obj? && proposed.Obj? && "Resources" in current.m && "Resources" in proposed.m
    requires Get(current, "Resources").Obj? && Get(proposed, "Resources").Obj?
    requires id in Get(current, "Resources").m && id in Get(proposed, "Resources").m
    ensures LiveCount(proposed, id, repository, tag) == LiveCount(current, id, repository, tag) + 1
  {
    hide IsLiveReference, CountLive, StringsOf, DiffsAt, EcrTag, IsExpectedImageChange, Walk;
    var p := [Key("Resources"), Key(id)];
    WalkToResource(current, proposed, id);
    DiffRestricts(current, proposed, [], p);
    assert [] + p == p;
    assert p <= e.path;
    UnderOne(e, other, p);
    var x, y := ResourceOf(current, id), ResourceOf(proposed, id);
    SwapMovesCount(x, y, p, e, repository, tag);
    EcrTagNotEmpty(tag);
    ImageChangeIff(e.before, e.after, repository, tag);
    ExpectedChangeMakesLive(e.before, e.after, repository, tag);
  }

  lemma EcrTagNotEmpty(tag: string)
    requires EcrTag(tag)
    ensures tag != ""
  {
  }

  /** The two entries of an accepted deploy, as a sequence. */
  lemma DeployEntries(current: Json, proposed: Json, webId: string, workerId: string, repository: string, tag: string)
    returns (web: Entry, worker: Entry)
    requires webId != workerId
    requires OnlyTwoImageTagsChange(current, proposed, webId, workerId, repository, tag)
    ensures ImageSwap(current, proposed, webId, web, repository, tag)
    ensures ImageSwap(current, proposed, workerId, worker, repository, tag)
    ensures var es := DiffsAt(current, proposed, []); es == [web, worker] || es == [worker, web]
  {
    hide DiffsAt, SameTree, Patch, TagChange;
    web, worker :|
      && ImageSwap(current, proposed, webId, web, repository, tag)
      && ImageSwap(current, proposed, workerId, worker, repository, tag)
      && SameTree(Patch(current, [], [web, worker]), proposed)
      && (forall e :: e in DiffsAt(current, proposed, []) <==> e == web || e == worker);
    assert web.path[1] != worker.path[1];
    DiffPathsDistinct(current, proposed, []);
    TwoByMembership(DiffsAt(current, proposed, []), web, worker);
  }

  /** How many live references the resource of this role holds. */
  ghost function RoleLive(template: Json, stack: string, r: Role, repository: string, tag: string): nat
    requires Identified(template, stack)
  {
    if r in RoleIds(template, stack) then LiveCount(template, RoleIds(template, stack)[r], repository, tag) else 0
  }

  /** Each task resource holds one live reference more than before. */
  ghost predicate EachRises(current: Json, proposed: Json, stack: string, repository: string, tag: string)
    requires Identified(current, stack) && Identified(proposed, stack)
  {
    && RoleLive(proposed, stack, WebTask, repository, tag) == RoleLive(current, stack, WebTask, repository, tag) + 1
    && RoleLive(proposed, stack, WorkerTask, repository, tag) ==
       RoleLive(current, stack, WorkerTask, repository, tag) + 1
  }

  /** Each task resource holds another number of live references than before. */
  ghost predicate EachChanges(current: Json, proposed: Json, stack: string, repository: string, tag: string)
    requires Identified(current, stack) && Identified(proposed, stack)
  {
    && RoleLive(proposed, stack, WebTask, repository, tag) != RoleLive(current, stack, WebTask, repository, tag)
    && RoleLive(proposed, stack, WorkerTask, repository, tag) != RoleLive(current, stack, WorkerTask, repository, tag)
  }

  lemma QuietAddsOneLiveEach(py: Python, cs: Json, current: Json, proposed: Json, uri: string, repository: string,
                             stack: string)
    requires Accepted(py, cs, current, proposed, uri, repository, stack)
    requires ConfusablePlacesUnchanged(current, proposed) && Wf(current) && Wf(proposed)
    ensures Identified(current, stack) && Identified(proposed, stack)
    ensures EachRises(current, proposed, stack, repository, TagOf(py, uri, repository))
  {
    hide Accepted, DiffsAt, RolesOf, LogicalByRole, ConfusablePlacesUnchanged, TagOf, ImageSwap, EcrTag, Wf,
         LiveCount, OnlyTwoImageTagsChange, ChangesOk, DifferencesOk, Differences;
    var tag := TagOf(py, uri, repository);
    Acceptance(py, cs, current, proposed, uri, repository, stack);
    DeploySoundIff(py, cs, current, proposed, uri, repository, stack);
    TablesInverse(RolesOf(current, stack).value);
    var webId, workerId := RoleIds(current, stack)[WebTask], RoleIds(current, stack)[WorkerTask];
    var web, worker := DeployEntries(current, proposed, webId, workerId, repository, tag);
    IdentifiedShape(current, stack);
    IdentifiedShape(proposed, stack);
    RolesAreResources(current, stack);
    RolesAreResources(proposed, stack);
    SwapIsElsewhere(current, proposed, webId, workerId, worker, repository, tag);
    SwapIsElsewhere(current, proposed, workerId, webId, web, repository, tag);
    SwapAddsOneLive(current, proposed, webId, web, worker, repository, tag);
    SwapAddsOneLive(current, proposed, workerId, worker, web, repository, tag);
  }

  lemma RolesAreResources(template: Json, stack: string)
    requires Identified(template, stack)
    ensures Get(template, "Resources").Obj?
    ensures forall id <- RolesOf(template, stack).value :: id in Get(template, "Resources").m
  {
    hide RolesOf, ClaimedRole, RightType;
    RolesAreClaims(template, stack);
  }

  lemma SwapIsElsewhere(current: Json, proposed: Json, id: string, other: string, e: Entry, repository: string,
                        tag: string)
    requires id != other && ImageSwap(current, proposed, other, e, repository, tag)
    ensures !([Key("Resources"), Key(id)] <= e.path)
  {
    hide TagChange, At;
    assert [Key("Resources"), Key(id)][1] == Key(id) != e.path[1];
  }

  // ---------------------------------------------------------------- the counts tell a quiet deploy

  lemma ResourceIsWf(template: Json, id: string)
    requires Wf(template)
    ensures Wf(ResourceOf(template, id))
  {
    FieldIsWf(template, "Resources");
    FieldIsWf(Get(template, "Resources"), id);
  }

  lemma FieldIsWf(j: Json, key: string)
    requires Wf(j)
    ensures Wf(Get(j, key))
  {
    if j.Obj? && key in j.m { assert Wf(j.m[key]); }
  }

  lemma SameTreeSameCount(x: Json, y: Json, repository: string, tag: string)
    requires Wf(x) && Wf(y) && SameTree(x, y)
    ensures CountLive(StringsOf(x), repository, tag) == CountLive(StringsOf(y), repository, tag)
  {
    hide StringsOf, Bag, SameTree, CountLive, Wf;
    StringsAreTheBag(x);
    StringsAreTheBag(y);
    SameTreeSameBag(x, y);
    CountLivePermutes(StringsOf(x), StringsOf(y), repository, tag);
  }

  /** Where a task's count changed, the diff has an entry inside the task. */
  lemma ChangedCountHasEntry(current: Json, proposed: Json, stack: string, id: string, repository: string, tag: string)
    returns (e: Entry)
    requires Identified(current, stack) && RolesOf(current, stack) == RolesOf(proposed, stack)
    requires Wf(current) && Wf(proposed) && id in RolesOf(current, stack).value
    requires LiveCount(proposed, id, repository, tag) != LiveCount(current, id, repository, tag)
    ensures e in DiffsAt(current, proposed, []) && [Key("Resources"), Key(id)] <= e.path
  {
    hide DiffsAt, RolesOf, Wf, CountLive, StringsOf, SameTree, ResourceOf, Walk;
    IdentifiedShape(current, stack);
    IdentifiedShape(proposed, stack);
    RolesAreResources(current, stack);
    RolesAreResources(proposed, stack);
    WalkToResource(current, proposed, id);
    var p := [Key("Resources"), Key(id)];
    if forall e <- DiffsAt(current, proposed, []) :: !(p <= e.path) {
      NothingUnder(current, proposed, p);
      ResourceIsWf(current, id);
      ResourceIsWf(proposed, id);
      SameTreeSameCount(ResourceOf(current, id), ResourceOf(proposed, id), repository, tag);
    }
    e :| e in DiffsAt(current, proposed, []) && p <= e.path;
  }

  /** Every entry of a diff that passes is an expected image change. */
  lemma PassingEntries(current: Json, proposed: Json, stack: string, repository: string, tag: string)
    requires Identified(current, stack)
    requires DifferencesOk(Differences(current, proposed, ""), RoleIds(current, stack), repository, tag)
    ensures |DiffsAt(current, proposed, [])| == 2
    ensures forall e <- DiffsAt(current, proposed, []) ::
              e.kind == ValueKind && IsExpectedImageChange(e.before, e.after, repository, tag)
  {
    hide DiffsAt, Differences, DifferencesOk, RolesOf, LogicalByRole, Render, IsExpectedImageChange, DifferenceRole;
    RenderedDiff(current, proposed, []);
    RenderNil();
    TwoDifferences(Differences(current, proposed, ""), RoleIds(current, stack), repository, tag);
    var es := DiffsAt(current, proposed, []);
    assert es == [es[0], es[1]];
  }

  lemma EntryOfTask(current: Json, proposed: Json, stack: string, r: Role, e: Entry, repository: string, tag: string)
    requires Identified(current, stack) && r in RoleIds(current, stack)
    requires [Key("Resources"), Key(RoleIds(current, stack)[r])] <= e.path
    requires e.kind == ValueKind && IsExpectedImageChange(e.before, e.after, repository, tag)
    ensures TaskEntry(e, r, RoleIds(current, stack), repository, tag)
  {
    hide RolesOf, LogicalByRole, IsExpectedImageChange, RoleWithId;
    var byRole := RoleIds(current, stack);
    var p := [Key("Resources"), Key(byRole[r])];
    assert e.path[0] == p[0] && e.path[1] == p[1];
    RoleWithIdFinds(byRole, byRole[r]);
    TablesInverse(RolesOf(current, stack).value);
  }

  lemma ChangedCountsAreQuiet(py: Python, cs: Json, current: Json, proposed: Json, uri: string, repository: string,
                              stack: string)
    requires Accepted(py, cs, current, proposed, uri, repository, stack)
    requires Wf(current) && Wf(proposed) && Identified(current, stack) && Identified(proposed, stack)
    requires EachChanges(current, proposed, stack, repository, TagOf(py, uri, repository))
    ensures ConfusablePlacesUnchanged(current, proposed)
  {
    hide Accepted, DiffsAt, RolesOf, LogicalByRole, ConfusablePlacesUnchanged, TagOf, EcrTag, Wf, LiveCount,
         OnlyTwoImageTagsChange, ChangesOk, DifferencesOk, Differences, IsExpectedImageChange, TaskEntry;
    var tag := TagOf(py, uri, repository);
    Acceptance(py, cs, current, proposed, uri, repository, stack);
    TablesInverse(RolesOf(current, stack).value);
    PassingEntries(current, proposed, stack, repository, tag);
    var webId, workerId := RoleIds(current, stack)[WebTask], RoleIds(current, stack)[WorkerTask];
    var web := ChangedCountHasEntry(current, proposed, stack, webId, repository, tag);
    var worker := ChangedCountHasEntry(current, proposed, stack, workerId, repository, tag);
    assert web.path[1] == [Key("Resources"), Key(webId)][1] && worker.path[1] == [Key("Resources"), Key(workerId)][1];
    var es := DiffsAt(current, proposed, []);
    assert es == [es[0], es[1]];
    EntryOfTask(current, proposed, stack, WebTask, web, repository, tag);
    EntryOfTask(current, proposed, stack, WorkerTask, worker, repository, tag);
    TwoSwaps(current, proposed, stack, web, worker, repository, tag);
    DeploySoundIff(py, cs, current, proposed, uri, repository, stack);
  }

  /** An accepted deploy raises the number of references with the requested tag in each task
      by exactly one if and only if nothing changes under a confusable key; otherwise the
      number in some task stays what it was. */
  lemma DeployAddsOneLiveEachIff(py: Python, cs: Json, current: Json, proposed: Json, uri: string, repository: string,
                                 stack: string)
    requires Accepted(py, cs, current, proposed, uri, repository, stack)
    requires Wf(current) && Wf(proposed)
    ensures Identified(current, stack) && Identified(proposed, stack)
    ensures ConfusablePlacesUnchanged(current, proposed) <==>
            EachRises(current, proposed, stack, repository, TagOf(py, uri, repository))
    ensures ConfusablePlacesUnchanged(current, proposed) <==>
            EachChanges(current, proposed, stack, repository, TagOf(py, uri, repository))
  {
    hide Accepted, RolesOf, LogicalByRole, ConfusablePlacesUnchanged, TagOf, Wf, LiveCount, ChangesOk, DifferencesOk,
         Differences, EcrTag;
    Acceptance(py, cs, current, proposed, uri, repository, stack);
    if ConfusablePlacesUnchanged(current, proposed) {
      QuietAddsOneLiveEach(py, cs, current, proposed, uri, repository, stack);
    }
    if EachChanges(current, proposed, stack, repository, TagOf(py, uri, repository)) {
      ChangedCountsAreQuiet(py, cs, current, proposed, uri, repository, stack);
    }
  }

  // ---------------------------------------------------------------- reviewing the deployed template again

  /** A change set that reports nothing to do. */
  ghost predicate EmptyChangeSet(cs: Json) {
    cs.Obj? && !Truthy(Get(cs, "NextToken")) && ChangeSet.Noop(cs) == IsNoop
  }

  /** Both tasks hold this many live references. */
  ghost predicate EachHolds(template: Json, stack: string, repository: string, tag: string, n: nat)
    requires Identified(template, stack)
  {
    && RoleLive(template, stack, WebTask, repository, tag) == n
    && RoleLive(template, stack, WorkerTask, repository, tag) == n
  }

  /** Reviewing the deployed template again with an empty change set, and with the same tree
      or nothing as the proposal, is a no-op exactly when each task holds one live reference. */
  lemma ReviewAgainIff(py: Python, cs: Json, current: Json, proposed: Json, uri: string, repository: string,
                       stack: string, emptyCs: Json, again: Option<Json>)
    requires Accepted(py, cs, current, proposed, uri, repository, stack)
    requires EmptyChangeSet(emptyCs) && (again.Some? ==> SameTree(proposed, again.value))
    ensures Identified(proposed, stack)
    ensures ValidateApp(py, emptyCs, Some(proposed), again, uri, repository, stack) == Verdict.Noop <==>
            EachHolds(proposed, stack, repository, TagOf(py, uri, repository), 1)
  {
    hide RolesOf, LogicalByRole, EcrTag, CountLive, StringsOf, DeployOk, ParseImageUri, ChangesOk, DifferencesOk,
         Differences, ResourceOf, ChangeSet.Noop, Truthy, SameTree;
    if again.Some? { NoDifferencesIffSameTree(proposed, again.value); }
    Acceptance(py, cs, current, proposed, uri, repository, stack);
    TablesInverse(RolesOf(proposed, stack).value);
  }

  /** After a deploy without confusable changes the second review is a no-op exactly when
      neither task held a live reference before. */
  lemma DeployThenNoop(py: Python, cs: Json, current: Json, proposed: Json, uri: string, repository: string,
                       stack: string, emptyCs: Json, again: Option<Json>)
    requires Accepted(py, cs, current, proposed, uri, repository, stack)
    requires ConfusablePlacesUnchanged(current, proposed) && Wf(current) && Wf(proposed)
    requires EmptyChangeSet(emptyCs) && (again.Some? ==> SameTree(proposed, again.value))
    ensures Identified(current, stack)
    ensures ValidateApp(py, emptyCs, Some(proposed), again, uri, repository, stack) == Verdict.Noop <==>
            EachHolds(current, stack, repository, TagOf(py, uri, repository), 0)
  {
    hide Accepted, ValidateApp, RolesOf, LogicalByRole, ConfusablePlacesUnchanged, TagOf, Wf, LiveCount, EmptyChangeSet,
         SameTree, ChangesOk, DifferencesOk, Differences, EcrTag;
    Acceptance(py, cs, current, proposed, uri, repository, stack);
    ReviewAgainIff(py, cs, current, proposed, uri, repository, stack, emptyCs, again);
    DeployAddsOneLiveEachIff(py, cs, current, proposed, uri, repository, stack);
  }

  /** When neither task held a live reference before the deploy, the second review is a no-op
      exactly when the deploy changed nothing under a confusable key. */
  lemma FreshDeployThenNoopIff(py: Python, cs: Json, current: Json, proposed: Json, uri: string, repository: string,
                               stack: string, emptyCs: Json, again: Option<Json>)
    requires Accepted(py, cs, current, proposed, uri, repository, stack)
    requires Wf(current) && Wf(proposed) && Identified(current, stack)
    requires EachHolds(current, stack, repository, TagOf(py, uri, repository), 0)
    requires EmptyChangeSet(emptyCs) && (again.Some? ==> SameTree(proposed, again.value))
    ensures ValidateApp(py, emptyCs, Some(proposed), again, uri, repository, stack) == Verdict.Noop <==>
            ConfusablePlacesUnchanged(current, proposed)
  {
    hide Accepted, ValidateApp, RolesOf, LogicalByRole, ConfusablePlacesUnchanged, TagOf, Wf, LiveCount, EmptyChangeSet,
         SameTree, ChangesOk, DifferencesOk, Differences, EcrTag;
    Acceptance(py, cs, current, proposed, uri, repository, stack);
    ReviewAgainIff(py, cs, current, proposed, uri, repository, stack, emptyCs, again);
    DeployAddsOneLiveEachIff(py, cs, current, proposed, uri, repository, stack);
  }
}
