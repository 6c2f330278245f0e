/** Whole histories of reviewed deployments of one stack: whatever change sets and templates
    are submitted, only image tags of the two tasks ever move. */
module DeploymentRuns {
  import opened Text
  import opened Json
  import opened TreeDiff
  import opened DiffTheorems
  import opened ImageTags
  import opened Roles
  import opened Attribution
  import opened Guard
  import opened GuardTheorems
  import opened DeployExact
  import opened SoundnessExact

  /** One submission: a change set, the template it would install and the image asked for. */
  datatype Review = Review(cs: Json, proposed: Json, uri: string)

  /** The live template after a submission: replaced only when the guard says deploy. */
  ghost function Next(py: Python, live: Json, r: Review, repository: string, stack: string): Json {
    if Accepted(py, r.cs, live, r.proposed, r.uri, repository, stack) then r.proposed else live
  }

  /** The live template after a history of submissions. */
  ghost function LiveAfter(py: Python, live: Json, reviews: seq<Review>, repository: string, stack: string): Json {
    if reviews == [] then live
    else Next(py, LiveAfter(py, live, reviews[..|reviews| - 1], repository, stack), reviews[|reviews| - 1], repository,
              stack)
  }

  // ---------------------------------------------------------------- the invariant

  /** The nodes agree except for the content below them. */
  ghost predicate SameKind(x: Json, y: Json) {
    && TypeOf(x) == TypeOf(y)
    && (x.Obj? ==> x.m.Keys == y.m.Keys)
    && (x.Arr? ==> |x.items| == |y.items|)
  }

  ghost predicate InTask(p: Path, tasks: set<string>) {
    |p| > 2 && p[0] == Key("Resources") && p[1].Key? && p[1].key in tasks
  }

  /** An image reference whose tag was replaced by a grammatical tag other than `dev`. */
  ghost predicate Retagged(x: Json, y: Json, repository: string) {
    exists prefix, oldTag, tag ::
      TagChange(x, y, prefix, repository, oldTag, tag) && EcrTag(tag) && tag != "dev"
  }

  /** What may have happened at one place. */
  ghost predicate MovedAt(a: Json, b: Json, p: Path, tasks: set<string>, repository: string) {
    match (At(a, p), At(b, p))
    case (None, None) => true
    case (Some(x), Some(y)) =>
      SameKind(x, y) && (Scalar(x) ==> x == y || (InTask(p, tasks) && Retagged(x, y, repository)))
    case _ => false
  }

  /** b is a with nothing moved but image tags inside the given resources. */
  ghost predicate OnlyImagesMoved(a: Json, b: Json, tasks: set<string>, repository: string) {
    forall p :: MovedAt(a, b, p, tasks, repository)
  }

  lemma RetaggedTransitive(x: Json, y: Json, z: Json, repository: string)
    requires Retagged(x, y, repository) && Retagged(y, z, repository)
    ensures Retagged(x, z, repository)
  {
    var p, o, t :| TagChange(x, y, p, repository, o, t) && EcrTag(t) && t != "dev";
    var p', o', t' :| TagChange(y, z, p', repository, o', t') && EcrTag(t') && t' != "dev";
    ReferenceIsUnique(y.s, p, t, p', o', repository);
    assert TagChange(x, z, p, repository, o, t');
  }

  lemma MovedReflexive(a: Json, tasks: set<string>, repository: string)
    ensures OnlyImagesMoved(a, a, tasks, repository)
  {
    forall p ensures MovedAt(a, a, p, tasks, repository) {
      match At(a, p) case None => case Some(x) =>
    }
  }

  /** Moves compose: the per-place relation is transitive. */
  lemma MovedTransitive(a: Json, b: Json, c: Json, tasks: set<string>, repository: string)
    requires OnlyImagesMoved(a, b, tasks, repository) && OnlyImagesMoved(b, c, tasks, repository)
    ensures OnlyImagesMoved(a, c, tasks, repository)
  {
    hide Retagged, InTask, At;
    forall p ensures MovedAt(a, c, p, tasks, repository) {
      assert MovedAt(a, b, p, tasks, repository) && MovedAt(b, c, p, tasks, repository);
      if At(a, p).Some? {
        var x, y, z := At(a, p).value, At(b, p).value, At(c, p).value;
        if Scalar(x) && x != y && y != z { RetaggedTransitive(x, y, z, repository); }
      }
    }
  }

  // ---------------------------------------------------------------- one accepted step

  lemma ChildDown(x: Json, y: Json, s: Step)
    requires SameKind(x, y)
    ensures Child(x, s).Some? == Child(y, s).Some? == Down(x, y, s).Some?
    ensures Down(x, y, s).Some? ==>
              Child(x, s) == Some(Down(x, y, s).value.before) && Child(y, s) == Some(Down(x, y, s).value.after)
  {
  }

  lemma AtSnoc(j: Json, p: Path, s: Step)
    ensures At(j, p + [s]) == if At(j, p).Some? then Child(At(j, p).value, s) else None
  {
    AtAppend(j, p, [s]);
    assert [s][1..] == [];
  }

  /** With value entries only, a place exists in both trees or in neither, and the
      comparison reaches it. */
  lemma {:induction false} ReachedTogether(a: Json, b: Json, es: seq<Entry>, p: Path)
    requires ValueDiff(a, b, es)
    ensures At(a, p).Some? == At(b, p).Some? == Walk(a, b, p).Some?
    ensures Walk(a, b, p).Some? ==>
              var (x, y) := Walk(a, b, p).value;
              At(a, p) == Some(x) && At(b, p) == Some(y) && SameKind(x, y)
    decreases |p|
  {
    hide DiffsAt, LocalDiff, Lookup, SameKind, ValueDiff, At;
    if p == [] {
      RootReached(a, b);
    } else {
      var q, s := p[..|p| - 1], p[|p| - 1];
      assert p == q + [s];
      ReachedTogether(a, b, es, q);
      AtSnoc(a, q, s);
      AtSnoc(b, q, s);
      if Walk(a, b, q).Some? {
        var (x, y) := Walk(a, b, q).value;
        ChildDown(x, y, s);
        WalkAppend(a, b, q, s);
      } else {
        WalkPrefix(a, b, q, s);
      }
    }
    if Walk(a, b, p).Some? {
      WalkIsAt(a, b, p);
      var (x, y) := Walk(a, b, p).value;
      EntryHere(a, b, p, es);
      LocalFacts(x, y);
      KindFromLocal(x, y);
    }
  }

  lemma RootReached(a: Json, b: Json)
    ensures At(a, []) == Some(a) && At(b, []) == Some(b) && Walk(a, b, []) == Some((a, b))
  {
  }

  lemma KindFromLocal(x: Json, y: Json)
    requires LocalDiff(x, y).None? || LocalDiff(x, y) == Some(Local(ValueKind, x, y))
    ensures SameKind(x, y)
    ensures LocalDiff(x, y).None? && Scalar(x) ==> x == y
  {
    hide Sorted, Strs;
  }

  lemma {:induction false} WalkPrefix(a: Json, b: Json, q: Path, s: Step)
    requires Walk(a, b, q).None?
    ensures Walk(a, b, q + [s]).None?
    decreases |q|
  {
    hide Down;
    assert (q + [s])[0] == q[0] && (q + [s])[1..] == q[1..] + [s];
    if Down(a, b, q[0]).Some? {
      WalkPrefix(Down(a, b, q[0]).value.before, Down(a, b, q[0]).value.after, q[1..], s);
    }
  }

  ghost function Tasks(template: Json, stack: string): set<string> {
    if !Identified(template, stack) then {}
    else
      TablesCover(template, stack);
      {RoleIds(template, stack)[WebTask], RoleIds(template, stack)[WorkerTask]}
  }

  lemma TablesCover(template: Json, stack: string)
    requires Identified(template, stack)
    ensures WebTask in RoleIds(template, stack) && WorkerTask in RoleIds(template, stack)
    ensures RoleIds(template, stack)[WebTask] != RoleIds(template, stack)[WorkerTask]
  {
    hide RolesOf;
    RolesAreABijection(template, stack);
  }

  lemma SwapIsRetag(a: Json, b: Json, id: string, e: Entry, tasks: set<string>, repository: string, tag: string)
    requires ImageSwap(a, b, id, e, repository, tag) && id in tasks && EcrTag(tag) && tag != "dev"
    ensures InTask(e.path, tasks) && Retagged(e.before, e.after, repository)
  {
    hide TagChange, EcrTag, At;
  }

  /** An accepted deploy without confusable changes moves only image tags of its tasks. */
  lemma AcceptedStep(py: Python, cs: Json, a: Json, b: Json, uri: string, repository: string, stack: string)
    requires Accepted(py, cs, a, b, uri, repository, stack) && ConfusablePlacesUnchanged(a, b)
    ensures OnlyImagesMoved(a, b, Tasks(a, stack), repository)
  {
    hide Accepted, EcrTag, ChangesOk, DifferencesOk, Differences, DiffsAt, RolesOf, LogicalByRole, TagOf, ImageSwap,
         ConfusablePlacesUnchanged, OnlyTwoImageTagsChange, SameTree, MovedAt;
    var tag := TagOf(py, uri, repository);
    Acceptance(py, cs, a, b, uri, repository, stack);
    DeploySoundIff(py, cs, a, b, uri, repository, stack);
    TablesCover(a, stack);
    var webId, workerId := RoleIds(a, stack)[WebTask], RoleIds(a, stack)[WorkerTask];
    var web, worker := DeployEntries(a, b, webId, workerId, repository, tag);
    SwapIsRetag(a, b, webId, web, Tasks(a, stack), repository, tag);
    SwapIsRetag(a, b, workerId, worker, Tasks(a, stack), repository, tag);
    SwapKind(a, b, webId, web, repository, tag);
    SwapKind(a, b, workerId, worker, repository, tag);
    var es := DiffsAt(a, b, []);
    assert es[0] in es && es[1] in es;
    forall e: Entry ensures e in es <==> e == web || e == worker {}
    EntriesMove(a, b, es, web, worker, Tasks(a, stack), repository);
  }

  lemma SwapKind(a: Json, b: Json, id: string, e: Entry, repository: string, tag: string)
    requires ImageSwap(a, b, id, e, repository, tag)
    ensures e.kind == ValueKind
  {
    hide TagChange, At;
  }

  lemma EntriesMove(a: Json, b: Json, es: seq<Entry>, web: Entry, worker: Entry, tasks: set<string>, repository: string)
    requires ValueDiff(a, b, es)
    requires forall e :: e in es <==> e == web || e == worker
    requires InTask(web.path, tasks) && Retagged(web.before, web.after, repository)
    requires InTask(worker.path, tasks) && Retagged(worker.before, worker.after, repository)
    ensures OnlyImagesMoved(a, b, tasks, repository)
  {
    hide DiffsAt, LocalDiff, Lookup, SameKind, Retagged, InTask, At, Walk;
    forall p ensures MovedAt(a, b, p, tasks, repository) {
      ReachedTogether(a, b, es, p);
      if Walk(a, b, p).Some? {
        var (x, y) := Walk(a, b, p).value;
        EntryHere(a, b, p, es);
        if LocalDiff(x, y).Some? {
          LookupFinds(es, p);
          var e := Entry(p, ValueKind, x, y);
          RootDiff(a, b, e);
          assert e in es;
        } else {
          KindFromLocal(x, y);
        }
      }
    }
  }

  // ---------------------------------------------------------------- what that means for subtrees

  ghost predicate AgreeAt(x: Json, y: Json, p: Path) {
    match (At(x, p), At(y, p))
    case (None, None) => true
    case (Some(v), Some(w)) => SameKind(v, w) && (Scalar(v) ==> v == w)
    case _ => false
  }

  lemma AgreeBelow(x: Json, y: Json, s: Step, p: Path)
    requires Child(x, s).Some? && Child(y, s).Some?
    ensures AgreeAt(Child(x, s).value, Child(y, s).value, p) == AgreeAt(x, y, [s] + p)
  {
    hide SameKind, Child;
    assert ([s] + p)[0] == s && ([s] + p)[1..] == p;
  }

  /** Trees that agree at every place are the same tree. */
  lemma {:induction false} AgreeEverywhere(x: Json, y: Json)
    requires forall p :: AgreeAt(x, y, p)
    ensures SameTree(x, y)
    decreases x
  {
    hide Canon, At;
    RootReached(x, y);
    assert AgreeAt(x, y, []);
    match x
    case Arr(items) =>
      forall i | 0 <= i < |items| ensures SameTree(items[i], y.items[i]) {
        forall p ensures AgreeAt(items[i], y.items[i], p) { AgreeBelow(x, y, Index(i), p); }
        AgreeEverywhere(items[i], y.items[i]);
      }
      SameChildren(x, y);
    case Obj(_, m) =>
      forall k <- m ensures SameTree(m[k], y.m[k]) {
        forall p ensures AgreeAt(m[k], y.m[k], p) { AgreeBelow(x, y, Key(k), p); }
        AgreeEverywhere(m[k], y.m[k]);
      }
      SameChildren(x, y);
    case _ =>
  }

  /** Moving only images of these resources leaves every other resource and every other
      top-level section the tree it was. */
  lemma MovedLeavesTheRest(a: Json, b: Json, tasks: set<string>, repository: string, p: Path)
    requires OnlyImagesMoved(a, b, tasks, repository)
    requires || (|p| == 2 && p[0] == Key("Resources") && p[1].Key? && p[1].key !in tasks)
             || (|p| == 1 && p[0] != Key("Resources"))
    ensures At(a, p).Some? == At(b, p).Some?
    ensures At(a, p).Some? ==> SameTree(At(a, p).value, At(b, p).value)
  {
    hide At, SameTree, SameKind, Retagged;
    assert MovedAt(a, b, p, tasks, repository);
    if At(a, p).Some? {
      var x, y := At(a, p).value, At(b, p).value;
      forall q ensures AgreeAt(x, y, q) {
        AtAppend(a, p, q);
        AtAppend(b, p, q);
        assert MovedAt(a, b, p + q, tasks, repository);
        assert (p + q)[0] == p[0] && (|p| == 2 ==> (p + q)[1] == p[1]);
      }
      AgreeEverywhere(x, y);
    }
  }

  // ---------------------------------------------------------------- only quiet steps are safe

  /** Where only images move, every difference lies inside one of the two tasks. */
  lemma DifferenceInTask(a: Json, b: Json, stack: string, e: Entry, repository: string)
    requires OnlyImagesMoved(a, b, Tasks(a, stack), repository)
    requires e in DiffsAt(a, b, []) && e.kind == ValueKind
    ensures InTask(e.path, Tasks(a, stack))
  {
    hide DiffsAt, Walk, LocalDiff, At, Tasks, Retagged, InTask;
    RootDiff(a, b, e);
    WalkIsAt(a, b, e.path);
    var (x, y) := Walk(a, b, e.path).value;
    LocalFacts(x, y);
    assert MovedAt(a, b, e.path, Tasks(a, stack), repository);
  }

  /** Where only images move, a task with a dotted logical id has nothing booked on it. */
  lemma BookedTaskUndotted(a: Json, b: Json, stack: string, r: Role, e: Entry, repository: string)
    requires Identified(a, stack) && Identified(b, stack) && r in RoleIds(a, stack)
    requires OnlyImagesMoved(a, b, Tasks(a, stack), repository)
    requires e in DiffsAt(a, b, []) && e.kind == ValueKind
    requires DifferenceRole(RenderEntry(e).path, RoleIds(a, stack)) == Some(r)
    ensures '.' !in RoleIds(a, stack)[r]
  {
    hide DiffsAt, RolesOf, LogicalByRole, RenderEntry, DifferenceRole, RoleWithId, Head, OnlyImagesMoved, Tasks;
    DifferenceInTask(a, b, stack, e, repository);
    var id := e.path[1].key;
    BookedByHead(a, b, stack, id, e);
    HeadIsPrefixWithoutSeparator(id, '.');
    RoleWithIdFinds(RoleIds(a, stack), Head(id, '.'));
  }

  lemma MovedIsQuiet(py: Python, cs: Json, a: Json, b: Json, uri: string, repository: string, stack: string)
    requires Accepted(py, cs, a, b, uri, repository, stack)
    requires OnlyImagesMoved(a, b, Tasks(a, stack), repository)
    ensures ConfusablePlacesUnchanged(a, b)
  {
    hide Accepted, EcrTag, ChangesOk, DifferencesOk, Differences, DiffsAt, RolesOf, LogicalByRole, TagOf,
         OnlyImagesMoved, SameTree, RenderEntry, DifferenceRole;
    Acceptance(py, cs, a, b, uri, repository, stack);
    EachTaskBooked(a, b, stack, repository, TagOf(py, uri, repository));
    TablesCover(a, stack);
    var tasks := Tasks(a, stack);
    forall r | r == WebTask || r == WorkerTask ensures '.' !in RoleIds(a, stack)[r] {
      assert Booked(a, b, stack, r);
      var e :| e in DiffsAt(a, b, []) && DifferenceRole(RenderEntry(e).path, RoleIds(a, stack)) == Some(r);
      BookedTaskUndotted(a, b, stack, r, e, repository);
    }
    IdentifiedShape(a, stack);
    IdentifiedShape(b, stack);
    SameNull();
    forall k | ConfusableRoot(k) ensures SameTree(Get(a, k), Get(b, k)) {
      assert k != "Resources" by { assert |RESOURCES| == 10; }
      MovedLeavesTheRest(a, b, tasks, repository, [Key(k)]);
      AtKey(a, k);
      AtKey(b, k);
    }
    forall id | '.' in id ensures SameTree(ResourceOf(a, id), ResourceOf(b, id)) {
      MovedLeavesTheRest(a, b, tasks, repository, [Key("Resources"), Key(id)]);
      AtResource(a, id);
      AtResource(b, id);
    }
  }

  lemma AtKey(j: Json, k: string)
    requires j.Obj?
    ensures At(j, [Key(k)]) == if k in j.m then Some(Get(j, k)) else None
    ensures k !in j.m ==> Get(j, k) == Null
  {
    assert [Key(k)][1..] == [];
  }

  lemma AtResource(j: Json, id: string)
    requires j.Obj? && "Resources" in j.m && Get(j, "Resources").Obj?
    ensures At(j, [Key("Resources"), Key(id)]) ==
            if id in Get(j, "Resources").m then Some(ResourceOf(j, id)) else None
    ensures id !in Get(j, "Resources").m ==> ResourceOf(j, id) == Null
  {
    assert [Key("Resources"), Key(id)][1..] == [Key(id)];
    AtKey(Get(j, "Resources"), id);
  }

  /** One accepted step moves only image tags of the two tasks if and only if it changes
      nothing under a confusable key. */
  lemma AcceptedStepIff(py: Python, cs: Json, a: Json, b: Json, uri: string, repository: string, stack: string)
    requires Accepted(py, cs, a, b, uri, repository, stack)
    ensures OnlyImagesMoved(a, b, Tasks(a, stack), repository) <==> ConfusablePlacesUnchanged(a, b)
  {
    hide Accepted, OnlyImagesMoved, ConfusablePlacesUnchanged, Tasks;
    if OnlyImagesMoved(a, b, Tasks(a, stack), repository) { MovedIsQuiet(py, cs, a, b, uri, repository, stack); }
    if ConfusablePlacesUnchanged(a, b) { AcceptedStep(py, cs, a, b, uri, repository, stack); }
  }

  // ---------------------------------------------------------------- every history

  /** The live template after the first i submissions. */
  ghost function LiveAt(py: Python, live: Json, reviews: seq<Review>, repository: string, stack: string, i: nat): Json
    requires i <= |reviews|
  {
    LiveAfter(py, live, reviews[..i], repository, stack)
  }

  /** The submission at i, if accepted, changes nothing under a confusable key. */
  ghost predicate QuietAt(py: Python, live: Json, reviews: seq<Review>, repository: string, stack: string, i: nat)
    requires i < |reviews|
  {
    var r, now := reviews[i], LiveAt(py, live, reviews, repository, stack, i);
    Accepted(py, r.cs, now, r.proposed, r.uri, repository, stack) ==> ConfusablePlacesUnchanged(now, r.proposed)
  }

  ghost predicate QuietRun(py: Python, live: Json, reviews: seq<Review>, repository: string, stack: string) {
    forall i :: 0 <= i < |reviews| ==> QuietAt(py, live, reviews, repository, stack, i)
  }

  /** The submission at i moves nothing but image tags of the two tasks. */
  ghost predicate SafeAt(py: Python, live: Json, reviews: seq<Review>, repository: string, stack: string, i: nat)
    requires i < |reviews|
  {
    OnlyImagesMoved(LiveAt(py, live, reviews, repository, stack, i),
                    LiveAt(py, live, reviews, repository, stack, i + 1),
                    Tasks(live, stack), repository)
  }

  lemma NextLive(py: Python, live: Json, reviews: seq<Review>, repository: string, stack: string, i: nat)
    requires i < |reviews|
    ensures LiveAt(py, live, reviews, repository, stack, i + 1) ==
            Next(py, LiveAt(py, live, reviews, repository, stack, i), reviews[i], repository, stack)
  {
    hide Next;
    assert reviews[..i + 1][..i] == reviews[..i];
  }

  lemma AcceptedKeepsRoles(py: Python, live: Json, r: Review, repository: string, stack: string)
    ensures RolesOf(Next(py, live, r, repository, stack), stack) == RolesOf(live, stack)
  {
    hide Accepted, RolesOf, LogicalByRole, EcrTag, ChangesOk, DifferencesOk, Differences, TagOf;
    if Accepted(py, r.cs, live, r.proposed, r.uri, repository, stack) {
      Acceptance(py, r.cs, live, r.proposed, r.uri, repository, stack);
    }
  }

  lemma SameRolesSameTasks(a: Json, b: Json, stack: string)
    requires RolesOf(a, stack) == RolesOf(b, stack)
    ensures Tasks(a, stack) == Tasks(b, stack)
  {
    hide RolesOf, LogicalByRole;
  }

  /** No history changes which resources hold the roles. */
  lemma {:induction false} RolesStay(py: Python, live: Json, reviews: seq<Review>, repository: string, stack: string,
                                     i: nat)
    requires i <= |reviews|
    ensures RolesOf(LiveAt(py, live, reviews, repository, stack, i), stack) == RolesOf(live, stack)
    ensures Tasks(LiveAt(py, live, reviews, repository, stack, i), stack) == Tasks(live, stack)
  {
    hide RolesOf, Tasks, LiveAt, Next;
    if i == 0 {
      NothingSubmitted(py, live, reviews, repository, stack);
    } else {
      RolesStay(py, live, reviews, repository, stack, i - 1);
      NextLive(py, live, reviews, repository, stack, i - 1);
      AcceptedKeepsRoles(py, LiveAt(py, live, reviews, repository, stack, i - 1), reviews[i - 1], repository, stack);
    }
    SameRolesSameTasks(LiveAt(py, live, reviews, repository, stack, i), live, stack);
  }

  lemma NothingSubmitted(py: Python, live: Json, reviews: seq<Review>, repository: string, stack: string)
    ensures LiveAt(py, live, reviews, repository, stack, 0) == live
  {
  }

  lemma StepSafeIff(py: Python, live: Json, reviews: seq<Review>, repository: string, stack: string, i: nat)
    requires i < |reviews|
    ensures SafeAt(py, live, reviews, repository, stack, i) <==> QuietAt(py, live, reviews, repository, stack, i)
  {
    hide Accepted, OnlyImagesMoved, ConfusablePlacesUnchanged, Tasks, LiveAt;
    NextLive(py, live, reviews, repository, stack, i);
    RolesStay(py, live, reviews, repository, stack, i);
    var r, now := reviews[i], LiveAt(py, live, reviews, repository, stack, i);
    MovedReflexive(now, Tasks(live, stack), repository);
    if Accepted(py, r.cs, now, r.proposed, r.uri, repository, stack) {
      AcceptedStepIff(py, r.cs, now, r.proposed, r.uri, repository, stack);
    }
  }

  /** Over any history, every step moves nothing but image tags of the two tasks if and only
      if no accepted step changes anything under a confusable key. */
  lemma RunSafeIff(py: Python, live: Json, reviews: seq<Review>, repository: string, stack: string)
    ensures (forall i :: 0 <= i < |reviews| ==> SafeAt(py, live, reviews, repository, stack, i)) <==>
            QuietRun(py, live, reviews, repository, stack)
  {
    hide SafeAt, QuietAt;
    forall i | 0 <= i < |reviews|
      ensures SafeAt(py, live, reviews, repository, stack, i) <==> QuietAt(py, live, reviews, repository, stack, i)
    {
      StepSafeIff(py, live, reviews, repository, stack, i);
    }
  }

  lemma {:induction false} MovedSoFar(py: Python, live: Json, reviews: seq<Review>, repository: string, stack: string,
                                      i: nat)
    requires QuietRun(py, live, reviews, repository, stack) && i <= |reviews|
    ensures OnlyImagesMoved(live, LiveAt(py, live, reviews, repository, stack, i), Tasks(live, stack), repository)
  {
    hide OnlyImagesMoved, Tasks, LiveAt, QuietAt;
    if i == 0 {
      NothingSubmitted(py, live, reviews, repository, stack);
      MovedReflexive(live, Tasks(live, stack), repository);
    } else {
      MovedSoFar(py, live, reviews, repository, stack, i - 1);
      StepSafeIff(py, live, reviews, repository, stack, i - 1);
      MovedTransitive(live, LiveAt(py, live, reviews, repository, stack, i - 1),
                      LiveAt(py, live, reviews, repository, stack, i),
                      Tasks(live, stack), repository);
    }
  }

  /** Whole-run safety: over any history of submissions without confusable changes the live
      template keeps its shape, its roles and every scalar except image tags inside the two
      task definitions, which keep their registry prefix and are never set to `dev`. */
  lemma RunSafety(py: Python, live: Json, reviews: seq<Review>, repository: string, stack: string)
    requires QuietRun(py, live, reviews, repository, stack)
    ensures var now := LiveAfter(py, live, reviews, repository, stack);
            OnlyImagesMoved(live, now, Tasks(live, stack), repository) && RolesOf(now, stack) == RolesOf(live, stack)
  {
    hide LiveAfter, OnlyImagesMoved, QuietRun, RolesOf, Tasks;
    assert reviews[..|reviews|] == reviews;
    MovedSoFar(py, live, reviews, repository, stack, |reviews|);
    RolesStay(py, live, reviews, repository, stack, |reviews|);
  }

  /** Over any such history, every resource other than the two task definitions stays the tree
      it was, and so does every other top-level section. */
  lemma RunKeepsTheRest(py: Python, live: Json, reviews: seq<Review>, repository: string, stack: string, p: Path)
    requires QuietRun(py, live, reviews, repository, stack)
    requires || (|p| == 2 && p[0] == Key("Resources") && p[1].Key? && p[1].key !in Tasks(live, stack))
             || (|p| == 1 && p[0] != Key("Resources"))
    ensures var now := LiveAfter(py, live, reviews, repository, stack);
            && At(live, p).Some? == At(now, p).Some?
            && (At(live, p).Some? ==> SameTree(At(live, p).value, At(now, p).value))
  {
    hide LiveAfter, Tasks, At, SameTree, OnlyImagesMoved, QuietRun;
    RunSafety(py, live, reviews, repository, stack);
    MovedLeavesTheRest(live, LiveAfter(py, live, reviews, repository, stack), Tasks(live, stack), repository, p);
  }

  // ---------------------------------------------------------------- unambiguous templates

  lemma UnambiguousStep(py: Python, cs: Json, a: Json, b: Json, uri: string, repository: string, stack: string)
    requires Accepted(py, cs, a, b, uri, repository, stack) && KeysUnambiguous(a, stack)
    ensures ConfusablePlacesUnchanged(a, b) && KeysUnambiguous(b, stack)
  {
    hide Accepted, RolesOf, LogicalByRole, Unambiguous, SameTree, ConfusablePlacesUnchanged;
    UnambiguousIsQuiet(py, cs, a, b, uri, repository, stack);
    DeployLeavesTheRest(py, cs, a, b, uri, repository, stack);
    DeploySoundIff(py, cs, a, b, uri, repository, stack);
  }

  lemma {:induction false} UnambiguousAlong(py: Python, live: Json, reviews: seq<Review>, repository: string,
                                            stack: string, i: nat)
    requires KeysUnambiguous(live, stack) && i <= |reviews|
    ensures KeysUnambiguous(LiveAt(py, live, reviews, repository, stack, i), stack)
    ensures forall j :: 0 <= j < i ==> QuietAt(py, live, reviews, repository, stack, j)
  {
    hide Accepted, KeysUnambiguous, ConfusablePlacesUnchanged, LiveAt;
    if i == 0 {
      NothingSubmitted(py, live, reviews, repository, stack);
    } else {
      UnambiguousAlong(py, live, reviews, repository, stack, i - 1);
      NextLive(py, live, reviews, repository, stack, i - 1);
      var r, now := reviews[i - 1], LiveAt(py, live, reviews, repository, stack, i - 1);
      if Accepted(py, r.cs, now, r.proposed, r.uri, repository, stack) {
        UnambiguousStep(py, r.cs, now, r.proposed, r.uri, repository, stack);
      }
    }
  }

  /** Whatever is submitted to a template with unambiguous keys, the history is free of
      confusable changes and the keys stay unambiguous. */
  lemma UnambiguousRunsAreQuiet(py: Python, live: Json, reviews: seq<Review>, repository: string, stack: string)
    requires KeysUnambiguous(live, stack)
    ensures QuietRun(py, live, reviews, repository, stack)
    ensures KeysUnambiguous(LiveAfter(py, live, reviews, repository, stack), stack)
  {
    hide LiveAfter, KeysUnambiguous, QuietAt;
    assert reviews[..|reviews|] == reviews;
    UnambiguousAlong(py, live, reviews, repository, stack, |reviews|);
  }
}
