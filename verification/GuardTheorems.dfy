/** What a deploy decision guarantees about the two templates and the change set. */
module GuardTheorems {
  import opened Text
  import opened Json
  import opened TreeDiff
  import opened DiffTheorems
  import opened ImageTags
  import opened Roles
  import opened Attribution
  import opened ChangeSet
  import opened ChangeSetTheorems
  import opened Guard

  /** The guard lets this change set be executed. */
  ghost predicate Accepted(py: Python, cs: Json, current: Json, proposed: Json, uri: string, repository: string,
                           stack: string)
  {
    ValidateApp(py, cs, Some(current), Some(proposed), uri, repository, stack) == Deploy
  }

  ghost function TagOf(py: Python, uri: string, repository: string): string {
    ParseImageUri(py, uri, repository).GetOr("")
  }

  ghost predicate Identified(template: Json, stack: string) { RolesOf(template, stack).Some? }

  ghost function RoleIds(template: Json, stack: string): map<Role, string>
    requires Identified(template, stack)
  {
    LogicalByRole(RolesOf(template, stack).value)
  }

  /** The keys of this template cannot be confused when paths are written down. */
  ghost predicate KeysUnambiguous(template: Json, stack: string) {
    Identified(template, stack) ==>
      template.Obj? && Get(template, "Resources").Obj? &&
      Unambiguous(template.m.Keys, Get(template, "Resources").m.Keys, RoleIds(template, stack).Values)
  }

  lemma TagIsGrammatical(py: Python, uri: string, repository: string)
    requires ParseImageUri(py, uri, repository).Some?
    ensures EcrTag(ParseImageUri(py, uri, repository).value)
  {
    hide EcrTag;
  }

  /** What acceptance says, unpacked. */
  lemma Acceptance(py: Python, cs: Json, current: Json, proposed: Json, uri: string, repository: string, stack: string)
    requires Accepted(py, cs, current, proposed, uri, repository, stack)
    ensures var tag := TagOf(py, uri, repository);
            && EcrTag(tag) && tag != "dev"
            && Identified(current, stack) && RolesOf(current, stack) == RolesOf(proposed, stack)
            && Get(cs, "Changes").Arr?
            && ChangesOk(py, Get(cs, "Changes").items, RolesOf(current, stack).value, repository, tag)
            && DifferencesOk(Differences(current, proposed, ""), RoleIds(current, stack), repository, tag)
  {
    hide ParseImageUri, ChangesOk, DifferencesOk, Differences, ChangeSet.Noop, NoopOk, EcrTag, RolesOf, LogicalByRole;
    TagIsGrammatical(py, uri, repository);
  }

  // ---------------------------------------------------------------- the change set covers each role once

  /** Some change is the allowed change of this role's resource. */
  ghost predicate Visited(py: Python, changes: seq<Json>, r: Role, roles: map<string, Role>, repository: string,
                          tag: string)
    requires Injective(roles) && roles.Values == AllRoles
  {
    exists i :: 0 <= i < |changes| && ChangedRole(py, changes[i], roles, repository, tag) == Some(r)
  }

  /** The changes of an accepted change set and the four roles correspond one to one: no
      resource is changed twice and none of the four is missing. */
  lemma EachRoleChangedOnce(py: Python, changes: seq<Json>, roles: map<string, Role>, repository: string, tag: string)
    requires Injective(roles) && roles.Values == AllRoles
    requires ChangesOk(py, changes, roles, repository, tag)
    ensures forall i, j :: 0 <= i < j < |changes| ==>
              ChangedRole(py, changes[i], roles, repository, tag) != ChangedRole(py, changes[j], roles, repository, tag)
    ensures forall r: Role :: Visited(py, changes, r, roles, repository, tag)
    ensures forall i, j :: 0 <= i < j < |changes| ==> ChangedId(changes[i]) != ChangedId(changes[j])
    ensures forall i :: 0 <= i < |changes| ==>
              ChangedId(changes[i]) in roles &&
              ChangedRole(py, changes[i], roles, repository, tag) == Some(roles[ChangedId(changes[i])])
  {
    hide ChangedRole, ChangedId, ChangesOk, Visited;
    RolesSeenDistinctly(py, changes, roles, repository, tag);
    forall i | 0 <= i < |changes|
      ensures ChangedId(changes[i]) in roles &&
              ChangedRole(py, changes[i], roles, repository, tag) == Some(roles[ChangedId(changes[i])])
    {
      ChangeIsAllowed(py, changes, i, roles, repository, tag);
      ChangedRoleOfId(py, changes[i], roles, repository, tag);
    }
    forall i, j | 0 <= i < j < |changes| ensures ChangedId(changes[i]) != ChangedId(changes[j]) {
      assert ChangedRole(py, changes[i], roles, repository, tag) != ChangedRole(py, changes[j], roles, repository, tag);
    }
  }

  lemma ChangeIsAllowed(py: Python, changes: seq<Json>, i: nat, roles: map<string, Role>, repository: string,
                        tag: string)
    requires Injective(roles) && roles.Values == AllRoles
    requires ChangesOk(py, changes, roles, repository, tag) && i < |changes|
    ensures ChangedRole(py, changes[i], roles, repository, tag).Some?
  {
    hide ChangedRole;
    assert changes[i] in changes;
  }

  lemma RolesSeenDistinctly(py: Python, changes: seq<Json>, roles: map<string, Role>, repository: string, tag: string)
    requires Injective(roles) && roles.Values == AllRoles
    requires ChangesOk(py, changes, roles, repository, tag)
    ensures forall i, j :: 0 <= i < j < |changes| ==>
              ChangedRole(py, changes[i], roles, repository, tag) != ChangedRole(py, changes[j], roles, repository, tag)
    ensures forall r: Role :: Visited(py, changes, r, roles, repository, tag)
  {
    hide ChangedRole, ChangesOk;
    FourChanges(py, changes, roles, repository, tag);
    var seen := seq(4, i requires 0 <= i < 4 => ChangedRole(py, changes[i], roles, repository, tag));
    forall r: Role ensures Some(r) in seen {
      var i := RoleIsSeen(py, changes, r, roles, repository, tag);
      assert seen[i] == Some(r);
    }
    FourCoverDistinctly(seen);
    forall r: Role ensures Visited(py, changes, r, roles, repository, tag) {
      var i := RoleIsSeen(py, changes, r, roles, repository, tag);
    }
    forall i, j | 0 <= i < j < |changes|
      ensures ChangedRole(py, changes[i], roles, repository, tag) != ChangedRole(py, changes[j], roles, repository, tag)
    {
      assert seen[i] != seen[j];
    }
  }

  lemma FourChanges(py: Python, changes: seq<Json>, roles: map<string, Role>, repository: string, tag: string)
    requires Injective(roles) && roles.Values == AllRoles
    requires ChangesOk(py, changes, roles, repository, tag)
    ensures |changes| == 4
  {
    hide ChangedRole;
  }

  lemma RoleIsSeen(py: Python, changes: seq<Json>, r: Role, roles: map<string, Role>, repository: string, tag: string)
    returns (i: nat)
    requires Injective(roles) && roles.Values == AllRoles
    requires ChangesOk(py, changes, roles, repository, tag)
    ensures i < |changes| && ChangedRole(py, changes[i], roles, repository, tag) == Some(r)
  {
    hide ChangedRole;
    assert r in AllRoles by { match r case WebTask => case WorkerTask => case WebService => case WorkerService => }
    var c :| c in changes && ChangedRole(py, c, roles, repository, tag) == Some(r);
    i :| 0 <= i < |changes| && changes[i] == c;
  }

  /** The logical id a change names. */
  function ChangedId(change: Json): string {
    var id := Get(Get(change, "ResourceChange"), "LogicalResourceId");
    if id.Str? then id.s else ""
  }

  lemma ChangedRoleOfId(py: Python, change: Json, roles: map<string, Role>, repository: string, tag: string)
    requires Injective(roles) && roles.Values == AllRoles
    requires ChangedRole(py, change, roles, repository, tag).Some?
    ensures ChangedId(change) in roles
    ensures ChangedRole(py, change, roles, repository, tag) == Some(roles[ChangedId(change)])
  {
    hide Envelope, TaskChangeOk, ServiceChangeOk;
  }

  /** Four slots that show all four roles show each once. */
  lemma FourCoverDistinctly(seen: seq<Option<Role>>)
    requires |seen| == 4 && forall r: Role :: Some(r) in seen
    ensures forall i, j :: 0 <= i < j < 4 ==> seen[i] != seen[j]
  {
    assert seen == [seen[0], seen[1], seen[2], seen[3]];
    assert Some(WebTask) in seen && Some(WorkerTask) in seen && Some(WebService) in seen && Some(WorkerService) in seen;
  }

  /** This change updates a service and every reason given for it is that service's own task. */
  ghost predicate CausedByOwnTask(change: Json, id: string, taskId: string) {
    var details := Get(Get(change, "ResourceChange"), "Details");
    && ChangedId(change) == id
    && details.Arr? && details.items != []
    && forall d <- details.items :: Is(d, "CausingEntity", taskId) && Is(Get(d, "Target"), "Name", "TaskDefinition")
  }

  lemma ServiceChangeIsCaused(py: Python, change: Json, roles: map<string, Role>, repository: string, tag: string,
                              service: Role)
    requires Injective(roles) && roles.Values == AllRoles && !IsTask(service)
    requires ChangedRole(py, change, roles, repository, tag) == Some(service)
    ensures LogicalByRole(roles).Keys == AllRoles
    ensures service in LogicalByRole(roles) && TaskOf(service) in LogicalByRole(roles)
    ensures CausedByOwnTask(change, LogicalByRole(roles)[service], LogicalByRole(roles)[TaskOf(service)])
  {
    hide Envelope, TaskChangeOk, ScopeIsProperties, KnownFields;
    TablesInverse(roles);
    ChangedRoleOfId(py, change, roles, repository, tag);
  }

  /** In an accepted change set each service is updated by exactly one change, which names at
      least one reason, and every reason is that service's own task definition. */
  lemma ServicesFollowTheirTasks(py: Python, changes: seq<Json>, roles: map<string, Role>, repository: string,
                                 tag: string)
    requires Injective(roles) && roles.Values == AllRoles
    requires ChangesOk(py, changes, roles, repository, tag)
    ensures LogicalByRole(roles).Keys == AllRoles
    ensures forall service: Role | !IsTask(service) ::
              exists i :: 0 <= i < |changes|
                && service in LogicalByRole(roles) && TaskOf(service) in LogicalByRole(roles)
                && CausedByOwnTask(changes[i], LogicalByRole(roles)[service], LogicalByRole(roles)[TaskOf(service)])
                && forall j :: 0 <= j < |changes| && j != i ==> ChangedId(changes[j]) != LogicalByRole(roles)[service]
  {
    hide ChangedRole, ChangesOk, LogicalByRole, CausedByOwnTask, ChangedId;
    TablesInverse(roles);
    EachRoleChangedOnce(py, changes, roles, repository, tag);
    forall service: Role | !IsTask(service)
      ensures exists i :: 0 <= i < |changes|
                && service in LogicalByRole(roles) && TaskOf(service) in LogicalByRole(roles)
                && CausedByOwnTask(changes[i], LogicalByRole(roles)[service], LogicalByRole(roles)[TaskOf(service)])
                && forall j :: 0 <= j < |changes| && j != i ==> ChangedId(changes[j]) != LogicalByRole(roles)[service]
    {
      var i := RoleIsSeen(py, changes, service, roles, repository, tag);
      ServiceChangeIsCaused(py, changes[i], roles, repository, tag, service);
      forall j | 0 <= j < |changes| && j != i ensures ChangedId(changes[j]) != LogicalByRole(roles)[service] {
        assert ChangedRole(py, changes[j], roles, repository, tag) !=
          ChangedRole(py, changes[i], roles, repository, tag);
      }
    }
  }

  // ---------------------------------------------------------------- two entries, one per task

  lemma {:induction false} AttributedCounts(ds: seq<Difference>, byRole: map<Role, string>, repository: string,
                                            tag: string)
    requires forall d <- ds :: TaskImageDifference(d, byRole, repository, tag)
    ensures |Attributed(ds, WebTask, byRole)| + |Attributed(ds, WorkerTask, byRole)| == |ds|
  {
    hide DifferenceRole, IsImageDifference;
    if ds != [] {
      AttributedCounts(ds[..|ds| - 1], byRole, repository, tag);
      assert ds[|ds| - 1] in ds;
    }
  }

  /** d is an image difference of the web task and d' one of the worker task. */
  ghost predicate WebAndWorker(d: Difference, d': Difference, byRole: map<Role, string>, repository: string,
                               tag: string)
  {
    ImageDifferenceOf(d, WebTask, byRole, repository, tag) && ImageDifferenceOf(d', WorkerTask, byRole, repository, tag)
  }

  lemma TwoDifferences(ds: seq<Difference>, byRole: map<Role, string>, repository: string, tag: string)
    requires DifferencesOk(ds, byRole, repository, tag)
    ensures |ds| == 2
    ensures WebAndWorker(ds[0], ds[1], byRole, repository, tag) || WebAndWorker(ds[1], ds[0], byRole, repository, tag)
  {
    hide DifferenceRole, IsImageDifference;
    AttributedCounts(ds, byRole, repository, tag);
    assert ds[0] in ds && ds[1] in ds;
    forall r ensures Attributed(ds, r, byRole) ==
      (if DifferenceRole(ds[0].path, byRole) == Some(r) then [ds[0]] else []) +
      (if DifferenceRole(ds[1].path, byRole) == Some(r) then [ds[1]] else [])
    {
      assert ds[..2] == ds && ds[..0] == [];
      AttributedNext(ds, 0, r, byRole);
      AttributedNext(ds, 1, r, byRole);
      assert ds[..0] == [] && Attributed(ds[..0], r, byRole) == [];
    }
  }

  // ---------------------------------------------------------------- where a reported place can be

  lemma PlacesArePossible(current: Json, proposed: Json, stack: string, e: Entry)
    requires Identified(current, stack) && Identified(proposed, stack)
    requires e in DiffsAt(current, proposed, []) && e.kind == ValueKind
    ensures current.Obj? && Get(current, "Resources").Obj?
    ensures Possible(current.m.Keys, Get(current, "Resources").m.Keys, e.path)
    ensures e.path[0] == Key("Resources") ==> |e.path| > 2
  {
    hide DiffsAt, Down, LocalDiff, RolesOf, Walk;
    RootDiff(current, proposed, e);
    IdentifiedShape(current, stack);
    IdentifiedShape(proposed, stack);
    var p := e.path;
    ObjectsDescendByKey(current, proposed, p, e);
    var b0 := Down(current, proposed, p[0]).value;
    if p[0] == Key("Resources") {
      assert b0.before == Get(current, "Resources") && b0.after == Get(proposed, "Resources") by {
        DownKey(current, proposed, "Resources");
      }
      ObjectsDescendTwice(b0.before, b0.after, p[1..], e);
    }
  }

  /** In dicts of dicts, a value difference is at least two keys down. */
  lemma ObjectsDescendTwice(before: Json, after: Json, p: Path, e: Entry)
    requires before.Obj? && (forall id <- before.m :: before.m[id].Obj?)
    requires after.Obj? && (forall id <- after.m :: after.m[id].Obj?)
    requires Walk(before, after, p).Some? && e.kind == ValueKind
    requires var (x, y) := Walk(before, after, p).value; LocalDiff(x, y) == Some(Local(e.kind, e.before, e.after))
    ensures |p| > 1 && p[0].Key? && p[0].key in before.m && p[1].Key?
  {
    hide LocalDiff, Down, Walk;
    ObjectsDescendByKey(before, after, p, e);
    var b := Down(before, after, p[0]).value;
    DownKey(before, after, p[0].key);
    ObjectsDescendByKey(b.before, b.after, p[1..], e);
  }

  lemma DownKey(before: Json, after: Json, k: string)
    ensures Down(before, after, Key(k)).Some? ==>
              before.Obj? && after.Obj? && k in before.m && k in after.m &&
              Down(before, after, Key(k)).value == Branch(Key(k), before.m[k], after.m[k])
  {
  }

  lemma IdentifiedShape(template: Json, stack: string)
    requires Identified(template, stack)
    ensures template.Obj? && "Resources" in template.m && Get(template, "Resources").Obj?
    ensures forall id <- Get(template, "Resources").m :: Get(template, "Resources").m[id].Obj?
  {
    hide ExpectedPaths, TypeOfRole, LegalStack, Claims;
  }

  /** A value difference is never at a dict, and the first step below two dicts is a key. */
  lemma ObjectsDescendByKey(before: Json, after: Json, p: Path, e: Entry)
    requires before.Obj? && after.Obj?
    requires Walk(before, after, p).Some? && e.kind == ValueKind
    requires var (x, y) := Walk(before, after, p).value; LocalDiff(x, y) == Some(Local(e.kind, e.before, e.after))
    ensures p != [] && p[0].Key? && p[0].key in before.m && Down(before, after, p[0]).Some?
    ensures var b := Down(before, after, p[0]).value;
            Walk(b.before, b.after, p[1..]) == Walk(before, after, p)
  {
    var (x, y) := Walk(before, after, p).value;
    LocalFacts(x, y);
  }

  // ---------------------------------------------------------------- deploy soundness

  /** e replaces one string inside this resource: the tag behind an unchanged image prefix. */
  ghost predicate ImageSwap(current: Json, proposed: Json, id: string, e: Entry, repository: string, tag: string) {
    && e.kind == ValueKind
    && |e.path| > 2 && e.path[0] == Key("Resources") && e.path[1] == Key(id)
    && At(current, e.path) == Some(e.before) && At(proposed, e.path) == Some(e.after) && e.before != e.after
    && exists prefix, oldTag :: TagChange(e.before, e.after, prefix, repository, oldTag, tag)
  }

  /** The entry is an expected image change inside the resource of task r. */
  ghost predicate TaskEntry(e: Entry, r: Role, byRole: map<Role, string>, repository: string, tag: string) {
    && e.kind == ValueKind && IsExpectedImageChange(e.before, e.after, repository, tag)
    && TrueRole(e.path, byRole) == Some(r)
  }

  /** The role read off each reported path is the role the place belongs to. */
  ghost predicate WellBooked(current: Json, proposed: Json, stack: string)
    requires Identified(current, stack)
  {
    forall e <- DiffsAt(current, proposed, []) | e.kind == ValueKind :: WellAttributed(RoleIds(current, stack), e.path)
  }

  lemma UnambiguousIsWellBooked(current: Json, proposed: Json, stack: string)
    requires Identified(current, stack) && Identified(proposed, stack) && KeysUnambiguous(current, stack)
    ensures WellBooked(current, proposed, stack)
  {
    hide DiffsAt, RolesOf, LogicalByRole, Possible, WellAttributed;
    forall e <- DiffsAt(current, proposed, []) | e.kind == ValueKind
      ensures WellAttributed(RoleIds(current, stack), e.path)
    {
      PlacesArePossible(current, proposed, stack, e);
      UnambiguousAttributes(current.m.Keys, Get(current, "Resources").m.Keys, RoleIds(current, stack), e.path);
    }
  }

  /** An accepted diff has two entries, one inside each task resource. */
  lemma AcceptedEntries(current: Json, proposed: Json, stack: string, repository: string, tag: string)
    requires Identified(current, stack) && RolesOf(current, stack) == RolesOf(proposed, stack)
    requires DifferencesOk(Differences(current, proposed, ""), RoleIds(current, stack), repository, tag)
    requires WellBooked(current, proposed, stack)
    ensures var es, byRole := DiffsAt(current, proposed, []), RoleIds(current, stack);
            && |es| == 2 && AllValues(es)
            && ((TaskEntry(es[0], WebTask, byRole, repository, tag) &&
                 TaskEntry(es[1], WorkerTask, byRole, repository, tag))
                || (TaskEntry(es[1], WebTask, byRole, repository, tag) &&
                    TaskEntry(es[0], WorkerTask, byRole, repository, tag)))
  {
    hide DiffsAt, Differences, DifferencesOk, RolesOf, LogicalByRole, DifferenceRole, IsExpectedImageChange, TrueRole,
         Render, WellAttributed, TaskEntry;
    var es, byRole := DiffsAt(current, proposed, []), RoleIds(current, stack);
    RenderedDiff(current, proposed, []);
    RenderNil();
    var ds := Differences(current, proposed, "");
    TwoDifferences(ds, byRole, repository, tag);
    forall i, r | 0 <= i < 2 && ImageDifferenceOf(ds[i], r, byRole, repository, tag)
      ensures TaskEntry(es[i], r, byRole, repository, tag) && es[i].kind == ValueKind
    {
      assert es[i] in es;
      AttributedEntry(current, proposed, stack, es[i], r, repository, tag);
    }
  }

  lemma AttributedEntry(current: Json, proposed: Json, stack: string, e: Entry, r: Role, repository: string,
                        tag: string)
    requires Identified(current, stack) && Identified(proposed, stack)
    requires e in DiffsAt(current, proposed, []) && WellAttributed(RoleIds(current, stack), e.path)
    requires ImageDifferenceOf(RenderEntry(e), r, RoleIds(current, stack), repository, tag)
    ensures TaskEntry(e, r, RoleIds(current, stack), repository, tag)
  {
    hide DiffsAt, RolesOf, LogicalByRole, IsExpectedImageChange, TrueRole, Render, RoleWithId;
    PlacesArePossible(current, proposed, stack, e);
    OtherThanRoot(e.path);
  }

  /** Only the root is written down differently, and it reads like no resource either way. */
  lemma OtherThanRoot(p: Path)
    ensures OrRoot(Render(p)) == Render(p) || (!(RESOURCES <= Render(p)) && !(RESOURCES <= OrRoot(Render(p))))
  {
    hide Render;
  }

  lemma RoleEntryIsSwap(current: Json, proposed: Json, stack: string, e: Entry, r: Role, repository: string,
                        tag: string)
    requires Identified(current, stack) && Identified(proposed, stack)
    requires e in DiffsAt(current, proposed, [])
    requires TaskEntry(e, r, RoleIds(current, stack), repository, tag)
    ensures r in RoleIds(current, stack) && ImageSwap(current, proposed, RoleIds(current, stack)[r], e, repository, tag)
  {
    hide DiffsAt, RolesOf, LogicalByRole, IsExpectedImageChange, RoleWithId, Walk, LocalDiff, TagChange;
    var byRole := RoleIds(current, stack);
    RoleWithIdFinds(byRole, e.path[1].key);
    PlacesArePossible(current, proposed, stack, e);
    TablesInverse(RolesOf(current, stack).value);
    RootDiff(current, proposed, e);
    WalkIsAt(current, proposed, e.path);
    var (x, y) := Walk(current, proposed, e.path).value;
    LocalFacts(x, y);
    ImageChangeIff(e.before, e.after, repository, tag);
  }

  /** The proposed template is the current one with exactly two strings replaced: the image
      tag in the web task definition and the one in the worker task definition. */
  ghost predicate OnlyTwoImageTagsChange(current: Json, proposed: Json, webId: string, workerId: string,
                                         repository: string, tag: string)
  {
    exists web: Entry, worker: Entry ::
      && ImageSwap(current, proposed, webId, web, repository, tag)
      && ImageSwap(current, proposed, workerId, worker, repository, tag)
      && SameTree(Patch(current, [], [web, worker]), proposed)
      && (forall e :: e in DiffsAt(current, proposed, []) <==> e == web || e == worker)
  }

  /** Soundness for a plan whose differences were booked on the right roles. */
  lemma WellBookedSound(current: Json, proposed: Json, stack: string, repository: string, tag: string)
    requires Identified(current, stack) && RolesOf(current, stack) == RolesOf(proposed, stack)
    requires DifferencesOk(Differences(current, proposed, ""), RoleIds(current, stack), repository, tag)
    requires WellBooked(current, proposed, stack)
    ensures WebTask in RoleIds(current, stack) && WorkerTask in RoleIds(current, stack)
    ensures OnlyTwoImageTagsChange(current, proposed, RoleIds(current, stack)[WebTask],
                                   RoleIds(current, stack)[WorkerTask], repository, tag)
  {
    hide DifferencesOk, Differences, DiffsAt, RolesOf, LogicalByRole, TaskEntry, OnlyTwoImageTagsChange, WellBooked;
    AcceptedEntries(current, proposed, stack, repository, tag);
    var es, byRole := DiffsAt(current, proposed, []), RoleIds(current, stack);
    if TaskEntry(es[0], WebTask, byRole, repository, tag) && TaskEntry(es[1], WorkerTask, byRole, repository, tag) {
      TwoSwaps(current, proposed, stack, es[0], es[1], repository, tag);
    } else {
      TwoSwaps(current, proposed, stack, es[1], es[0], repository, tag);
    }
  }

  /** Deploy soundness: with unambiguous keys, an accepted change set deploys the current
      template with only the two image tags moved to the requested one. */
  lemma DeploySound(py: Python, cs: Json, current: Json, proposed: Json, uri: string, repository: string, stack: string)
    requires Accepted(py, cs, current, proposed, uri, repository, stack)
    requires KeysUnambiguous(current, stack)
    ensures Identified(current, stack) && RolesOf(proposed, stack) == RolesOf(current, stack)
    ensures WebTask in RoleIds(current, stack) && WorkerTask in RoleIds(current, stack)
    ensures OnlyTwoImageTagsChange(current, proposed, RoleIds(current, stack)[WebTask],
                                   RoleIds(current, stack)[WorkerTask], repository, TagOf(py, uri, repository))
  {
    hide Accepted, EcrTag, ChangesOk, DifferencesOk, Differences, RolesOf, LogicalByRole, KeysUnambiguous,
         OnlyTwoImageTagsChange, TagOf, WellBooked;
    Acceptance(py, cs, current, proposed, uri, repository, stack);
    UnambiguousIsWellBooked(current, proposed, stack);
    WellBookedSound(current, proposed, stack, repository, TagOf(py, uri, repository));
  }

  lemma TwoSwaps(current: Json, proposed: Json, stack: string, web: Entry, worker: Entry, repository: string,
                 tag: string)
    requires Identified(current, stack) && Identified(proposed, stack)
    requires var es := DiffsAt(current, proposed, []); es == [web, worker] || es == [worker, web]
    requires TaskEntry(web, WebTask, RoleIds(current, stack), repository, tag)
    requires TaskEntry(worker, WorkerTask, RoleIds(current, stack), repository, tag)
    ensures WebTask in RoleIds(current, stack) && WorkerTask in RoleIds(current, stack)
    ensures OnlyTwoImageTagsChange(current, proposed, RoleIds(current, stack)[WebTask],
                                   RoleIds(current, stack)[WorkerTask], repository, tag)
  {
    hide DiffsAt, RolesOf, LogicalByRole, ImageSwap, Patch, IsExpectedImageChange, TrueRole, SameTree;
    var es := DiffsAt(current, proposed, []);
    forall e: Entry ensures e in es <==> e == web || e == worker {}
    RoleEntryIsSwap(current, proposed, stack, web, WebTask, repository, tag);
    RoleEntryIsSwap(current, proposed, stack, worker, WorkerTask, repository, tag);
    DiffIsPatch(current, proposed, [web, worker]);
  }

  // ---------------------------------------------------------------- everything else is untouched

  lemma NothingUnder(current: Json, proposed: Json, p: Path)
    requires Walk(current, proposed, p).Some?
    requires forall e <- DiffsAt(current, proposed, []) :: !(p <= e.path)
    ensures SameTree(Walk(current, proposed, p).value.0, Walk(current, proposed, p).value.1)
  {
    hide DiffsAt, Walk, Canon, LocalDiff;
    var (x, y) := Walk(current, proposed, p).value;
    DiffRestricts(current, proposed, [], p);
    assert [] + p == p;
    UnderAll(DiffsAt(current, proposed, []), p);
    assert DiffsAt(x, y, p) == [];
    forall e ensures e !in DiffsAt(x, y, []) {
      var e' := Entry(p + e.path, e.kind, e.before, e.after);
      DiffIsExact(x, y, p, e');
      RootDiff(x, y, e);
      assert e'.path[|p|..] == e.path;
    }
    EmptyIffNoMember(DiffsAt(x, y, []));
    NoDifferencesIffSameTree(x, y);
  }

  /** Templates that differ by the two image tags agree on every other resource and on every
      other top-level section. */
  lemma OnlyTwoLeavesTheRest(current: Json, proposed: Json, stack: string, webId: string, workerId: string,
                             repository: string, tag: string)
    requires Identified(current, stack) && Identified(proposed, stack)
    requires OnlyTwoImageTagsChange(current, proposed, webId, workerId, repository, tag)
    ensures current.Obj? && proposed.Obj? && current.m.Keys == proposed.m.Keys
    ensures Get(current, "Resources").Obj? && Get(proposed, "Resources").Obj?
    ensures Get(current, "Resources").m.Keys == Get(proposed, "Resources").m.Keys
    ensures forall id <- Get(current, "Resources").m | id != webId && id != workerId ::
              SameTree(ResourceOf(current, id), ResourceOf(proposed, id))
    ensures forall k <- current.m | k != "Resources" :: SameTree(current.m[k], proposed.m[k])
  {
    hide DiffsAt, RolesOf, Walk, LocalDiff, Canon, TagChange, SameTree;
    IdentifiedShape(current, stack);
    IdentifiedShape(proposed, stack);
    WalkToResources(current, proposed);
    SameKeys(current, proposed, []);
    SameKeys(current, proposed, [Key("Resources")]);
    forall k <- current.m | k != "Resources" ensures SameTree(current.m[k], proposed.m[k]) {
      WalkToRootKey(current, proposed, k);
      NothingUnder(current, proposed, [Key(k)]);
    }
    forall id <- Get(current, "Resources").m | id != webId && id != workerId
      ensures SameTree(ResourceOf(current, id), ResourceOf(proposed, id))
    {
      WalkToResource(current, proposed, id);
      NothingUnder(current, proposed, [Key("Resources"), Key(id)]);
    }
  }

  lemma SameKeys(current: Json, proposed: Json, p: Path)
    requires Walk(current, proposed, p).Some?
    requires forall e <- DiffsAt(current, proposed, []) :: e.path != p
    ensures var (x, y) := Walk(current, proposed, p).value;
            x.Obj? && y.Obj? ==> x.m.Keys == y.m.Keys
  {
    hide DiffsAt, Walk, LocalDiff;
    var (x, y) := Walk(current, proposed, p).value;
    LocalFacts(x, y);
    if LocalDiff(x, y).Some? {
      var d := LocalDiff(x, y).value;
      RootDiff(current, proposed, Entry(p, d.kind, d.before, d.after));
    }
  }

  lemma WalkToRootKey(current: Json, proposed: Json, k: string)
    requires current.Obj? && proposed.Obj? && k in current.m && k in proposed.m
    ensures Walk(current, proposed, [Key(k)]) == Some((current.m[k], proposed.m[k]))
  {
    assert [Key(k)][1..] == [];
  }

  lemma WalkToResources(current: Json, proposed: Json)
    requires current.Obj? && proposed.Obj? && "Resources" in current.m && "Resources" in proposed.m
    ensures Walk(current, proposed, [Key("Resources")]) == Some((Get(current, "Resources"), Get(proposed, "Resources")))
    ensures Walk(current, proposed, []) == Some((current, proposed))
  {
    WalkToRootKey(current, proposed, "Resources");
  }

  lemma WalkToResource(current: Json, proposed: Json, id: string)
    requires current.Obj? && proposed.Obj? && "Resources" in current.m && "Resources" in proposed.m
    requires Get(current, "Resources").Obj? && Get(proposed, "Resources").Obj?
    requires id in Get(current, "Resources").m && id in Get(proposed, "Resources").m
    ensures Walk(current, proposed, [Key("Resources"), Key(id)]) ==
            Some((ResourceOf(current, id), ResourceOf(proposed, id)))
  {
    WalkToResources(current, proposed);
    WalkAppend(current, proposed, [Key("Resources")], Key(id));
    assert [Key("Resources")] + [Key(id)] == [Key("Resources"), Key(id)];
  }
}
