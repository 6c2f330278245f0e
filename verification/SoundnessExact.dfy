/** When exactly an accepted plan keeps the promise that only two image tags change. */
module SoundnessExact {
  import opened Text
  import opened Json
  import opened TreeDiff
  import opened DiffTheorems
  import opened ImageTags
  import opened Roles
  import opened Attribution
  import opened ChangeSet
  import opened ChangeSetTheorems
  import opened Guard
  import opened GuardTheorems

  /** A root key that can read like a path into a resource, or vanishes from a path. */
  predicate ConfusableRoot(k: string) { k == "" || RESOURCES <= k }

  /** Both templates agree under every key that can be confused once paths are written down:
      confusable root keys and dotted logical ids. */
  ghost predicate ConfusablePlacesUnchanged(current: Json, proposed: Json) {
    && (forall k | ConfusableRoot(k) :: SameTree(Get(current, k), Get(proposed, k)))
    && (forall id | '.' in id :: SameTree(ResourceOf(current, id), ResourceOf(proposed, id)))
  }

  // ---------------------------------------------------------------- unchanged places book nothing

  lemma SameHasNoDifference(x: Json, y: Json, p: Path, e: Entry)
    requires SameTree(x, y) && Walk(x, y, p).Some?
    ensures var (a, b) := Walk(x, y, p).value; LocalDiff(a, b) != Some(Local(e.kind, e.before, e.after))
  {
    EqualTreesWalk(x, y, p);
  }

  /** A difference at a place that cannot be confused is booked on the role it belongs to. */
  lemma BookedRight(current: Json, proposed: Json, stack: string, e: Entry)
    requires Identified(current, stack) && Identified(proposed, stack)
    requires ConfusablePlacesUnchanged(current, proposed)
    requires e in DiffsAt(current, proposed, []) && e.kind == ValueKind
    ensures WellAttributed(RoleIds(current, stack), e.path)
  {
    hide DiffsAt, Down, LocalDiff, RolesOf, LogicalByRole, Walk, SameTree, WellAttributed;
    var p, byRole := e.path, RoleIds(current, stack);
    RootDiff(current, proposed, e);
    PlacesArePossible(current, proposed, stack, e);
    IdentifiedShape(current, stack);
    IdentifiedShape(proposed, stack);
    ObjectsDescendByKey(current, proposed, p, e);
    var k := p[0].key;
    var b := Down(current, proposed, p[0]).value;
    DownKey(current, proposed, k);
    if SameTree(b.before, b.after) { SameHasNoDifference(b.before, b.after, p[1..], e); }
    assert b.before == Get(current, k) && b.after == Get(proposed, k);
    assert !ConfusableRoot(k);
    if k == "Resources" {
      var id := p[1].key;
      ObjectsDescendByKey(b.before, b.after, p[1..], e);
      var c := Down(b.before, b.after, p[1]).value;
      DownKey(b.before, b.after, id);
      if SameTree(c.before, c.after) { SameHasNoDifference(c.before, c.after, p[1..][1..], e); }
      assert c.before == ResourceOf(current, id) && c.after == ResourceOf(proposed, id);
      assert '.' !in id;
      UnambiguousAttributes({k}, {id}, byRole, p);
    } else {
      UnambiguousAttributes({k}, {}, byRole, p);
    }
  }

  // ---------------------------------------------------------------- the promise leaves them unchanged

  /** The program books a difference inside a resource by the first component of its id. */
  lemma BookedByHead(current: Json, proposed: Json, stack: string, id: string, e: Entry)
    requires Identified(current, stack) && Identified(proposed, stack)
    requires e in DiffsAt(current, proposed, []) && e.kind == ValueKind
    requires |e.path| > 2 && e.path[0] == Key("Resources") && e.path[1] == Key(id)
    ensures DifferenceRole(RenderEntry(e).path, RoleIds(current, stack)) ==
            RoleWithId(RoleIds(current, stack), Head(id, '.'))
  {
    hide DiffsAt, RolesOf, LogicalByRole, Render, RoleWithId, Head;
    PlacesArePossible(current, proposed, stack, e);
    assert e.path == [Key("Resources"), Key(id)] + e.path[2..];
    ResourcesPath(id, e.path[2..]);
  }

  /** Some entry is booked on this role. */
  ghost predicate Booked(current: Json, proposed: Json, stack: string, r: Role)
    requires Identified(current, stack)
  {
    exists e <- DiffsAt(current, proposed, []) ::
      DifferenceRole(RenderEntry(e).path, RoleIds(current, stack)) == Some(r)
  }

  /** In an accepted plan each task has an entry booked on it, and no entry is booked elsewhere. */
  lemma EachTaskBooked(current: Json, proposed: Json, stack: string, repository: string, tag: string)
    requires Identified(current, stack)
    requires DifferencesOk(Differences(current, proposed, ""), RoleIds(current, stack), repository, tag)
    ensures forall e <- DiffsAt(current, proposed, []) :: e.kind == ValueKind
    ensures forall e <- DiffsAt(current, proposed, []) ::
              var r := DifferenceRole(RenderEntry(e).path, RoleIds(current, stack));
              r == Some(WebTask) || r == Some(WorkerTask)
    ensures Booked(current, proposed, stack, WebTask) && Booked(current, proposed, stack, WorkerTask)
  {
    hide DiffsAt, Differences, DifferencesOk, RolesOf, LogicalByRole, Render, IsExpectedImageChange, DifferenceRole;
    var es := DiffsAt(current, proposed, []);
    RenderedDiff(current, proposed, []);
    RenderNil();
    TwoDifferences(Differences(current, proposed, ""), RoleIds(current, stack), repository, tag);
    assert es[0] in es && es[1] in es && es == [es[0], es[1]];
  }

  /** In an accepted plan that keeps the promise, no task's logical id is dotted: the first
      component of some task's id is the id on which this task's difference is booked. */
  lemma TaskIdUndotted(current: Json, proposed: Json, stack: string, r: Role, e: Entry, r': Role, e': Entry,
                       repository: string, tag: string)
    requires Identified(current, stack) && Identified(proposed, stack)
    requires DifferencesOk(Differences(current, proposed, ""), RoleIds(current, stack), repository, tag)
    requires (r == WebTask && r' == WorkerTask) || (r == WorkerTask && r' == WebTask)
    requires r in RoleIds(current, stack) && r' in RoleIds(current, stack)
    requires ImageSwap(current, proposed, RoleIds(current, stack)[r], e, repository, tag)
    requires ImageSwap(current, proposed, RoleIds(current, stack)[r'], e', repository, tag)
    requires forall x :: x in DiffsAt(current, proposed, []) <==> x == e || x == e'
    ensures '.' !in RoleIds(current, stack)[r]
  {
    hide DiffsAt, Differences, DifferencesOk, RolesOf, LogicalByRole, RenderEntry, DifferenceRole, RoleWithId, Head,
         TagChange, At;
    var byRole := RoleIds(current, stack);
    var id, id' := byRole[r], byRole[r'];
    EachTaskBooked(current, proposed, stack, repository, tag);
    BookedByHead(current, proposed, stack, id, e);
    BookedByHead(current, proposed, stack, id', e');
    assert Booked(current, proposed, stack, r);
    var x :| x in DiffsAt(current, proposed, []) && DifferenceRole(RenderEntry(x).path, byRole) == Some(r);
    var booked := if x == e then id else id';
    RoleWithIdFinds(byRole, Head(booked, '.'));
    HeadIsPrefixWithoutSeparator(booked, '.');
  }

  lemma PromiseLeavesConfusable(current: Json, proposed: Json, stack: string, repository: string, tag: string)
    requires Identified(current, stack) && Identified(proposed, stack)
    requires DifferencesOk(Differences(current, proposed, ""), RoleIds(current, stack), repository, tag)
    requires WebTask in RoleIds(current, stack) && WorkerTask in RoleIds(current, stack)
    requires OnlyTwoImageTagsChange(current, proposed, RoleIds(current, stack)[WebTask],
                                    RoleIds(current, stack)[WorkerTask], repository, tag)
    ensures ConfusablePlacesUnchanged(current, proposed)
  {
    hide DiffsAt, Differences, DifferencesOk, RolesOf, LogicalByRole, ImageSwap, Patch, SameTree;
    var webId, workerId := RoleIds(current, stack)[WebTask], RoleIds(current, stack)[WorkerTask];
    var web: Entry, worker: Entry :|
      && ImageSwap(current, proposed, webId, web, repository, tag)
      && ImageSwap(current, proposed, workerId, worker, repository, tag)
      && SameTree(Patch(current, [], [web, worker]), proposed)
      && (forall e :: e in DiffsAt(current, proposed, []) <==> e == web || e == worker);
    TaskIdUndotted(current, proposed, stack, WebTask, web, WorkerTask, worker, repository, tag);
    TaskIdUndotted(current, proposed, stack, WorkerTask, worker, WebTask, web, repository, tag);
    OnlyTwoLeavesTheRest(current, proposed, stack, webId, workerId, repository, tag);
    SameNull();
    forall k | ConfusableRoot(k) ensures SameTree(Get(current, k), Get(proposed, k)) {
      assert k != "Resources" by { assert |RESOURCES| == 10; }
    }
  }

  lemma SameNull()
    ensures SameTree(Null, Null)
  {
  }

  /** The promise of the guard, exactly: an accepted plan is the live template with only the
      two image tags moved if and only if nothing changes under a confusable key. */
  lemma DeploySoundIff(py: Python, cs: Json, current: Json, proposed: Json, uri: string, repository: string,
                       stack: string)
    requires Accepted(py, cs, current, proposed, uri, repository, stack)
    ensures Identified(current, stack) && RolesOf(proposed, stack) == RolesOf(current, stack)
    ensures WebTask in RoleIds(current, stack) && WorkerTask in RoleIds(current, stack)
    ensures OnlyTwoImageTagsChange(current, proposed, RoleIds(current, stack)[WebTask],
                                   RoleIds(current, stack)[WorkerTask], repository, TagOf(py, uri, repository)) <==>
            ConfusablePlacesUnchanged(current, proposed)
  {
    hide Accepted, EcrTag, ChangesOk, DifferencesOk, Differences, DiffsAt, RolesOf, LogicalByRole,
         OnlyTwoImageTagsChange, TagOf, ConfusablePlacesUnchanged, WellAttributed;
    var tag := TagOf(py, uri, repository);
    Acceptance(py, cs, current, proposed, uri, repository, stack);
    TablesInverse(RolesOf(current, stack).value);
    if ConfusablePlacesUnchanged(current, proposed) {
      forall e <- DiffsAt(current, proposed, []) | e.kind == ValueKind
        ensures WellAttributed(RoleIds(current, stack), e.path)
      {
        BookedRight(current, proposed, stack, e);
      }
      WellBookedSound(current, proposed, stack, repository, tag);
    }
    if OnlyTwoImageTagsChange(current, proposed, RoleIds(current, stack)[WebTask],
                              RoleIds(current, stack)[WorkerTask], repository, tag) {
      PromiseLeavesConfusable(current, proposed, stack, repository, tag);
    }
  }

  /** With unambiguous keys no accepted plan changes anything under a confusable key. */
  lemma UnambiguousIsQuiet(py: Python, cs: Json, current: Json, proposed: Json, uri: string, repository: string,
                           stack: string)
    requires Accepted(py, cs, current, proposed, uri, repository, stack) && KeysUnambiguous(current, stack)
    ensures ConfusablePlacesUnchanged(current, proposed)
  {
    hide Accepted, KeysUnambiguous, OnlyTwoImageTagsChange, ConfusablePlacesUnchanged, RolesOf, LogicalByRole, TagOf;
    DeploySound(py, cs, current, proposed, uri, repository, stack);
    DeploySoundIff(py, cs, current, proposed, uri, repository, stack);
  }

  /** After an accepted deploy without confusable changes, every other resource, both services
      included, and every other top-level section is the tree it was. */
  lemma DeployLeavesTheRest(py: Python, cs: Json, current: Json, proposed: Json, uri: string, repository: string,
                            stack: string)
    requires Accepted(py, cs, current, proposed, uri, repository, stack)
    requires ConfusablePlacesUnchanged(current, proposed)
    ensures Identified(current, stack) && current.Obj? && proposed.Obj? && current.m.Keys == proposed.m.Keys
    ensures Get(current, "Resources").Obj? && Get(proposed, "Resources").Obj?
    ensures Get(current, "Resources").m.Keys == Get(proposed, "Resources").m.Keys
    ensures WebTask in RoleIds(current, stack) && WorkerTask in RoleIds(current, stack)
    ensures forall id <- Get(current, "Resources").m |
              id != RoleIds(current, stack)[WebTask] && id != RoleIds(current, stack)[WorkerTask] ::
              SameTree(ResourceOf(current, id), ResourceOf(proposed, id))
    ensures forall k <- current.m | k != "Resources" :: SameTree(current.m[k], proposed.m[k])
  {
    hide Accepted, RolesOf, LogicalByRole, ConfusablePlacesUnchanged, TagOf, SameTree, OnlyTwoImageTagsChange;
    DeploySoundIff(py, cs, current, proposed, uri, repository, stack);
    OnlyTwoLeavesTheRest(current, proposed, stack, RoleIds(current, stack)[WebTask],
                         RoleIds(current, stack)[WorkerTask],
                         repository, TagOf(py, uri, repository));
  }
}
