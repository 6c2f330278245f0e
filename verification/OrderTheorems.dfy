/** The decision depends on neither key order, change order, detail order nor paging. */
module OrderTheorems {
  import opened Text
  import opened Json
  import opened TreeDiff
  import opened DiffTheorems
  import opened Strings
  import opened ImageTags
  import opened Roles
  import opened Attribution
  import opened ChangeSet
  import opened ChangeSetTheorems
  import opened Guard
  import opened DeployExact

  function CanonOpt(t: Option<Json>): Option<Json> {
    match t
    case Some(j) => Some(Canon(j))
    case None => None
  }

  ghost predicate WfOpt(t: Option<Json>) { t.Some? ==> Wf(t.value) }

  // ---------------------------------------------------------------- the parts of the decision

  lemma LiveCountIgnoresOrder(x: Json, repository: string, tag: string)
    requires Wf(x)
    ensures CountLive(StringsOf(Canon(x)), repository, tag) == CountLive(StringsOf(x), repository, tag)
  {
    hide StringsOf, Bag, Canon, CountLive;
    CanonIsWf(x);
    CanonIdempotent(x);
    StringsAreTheBag(x);
    StringsAreTheBag(Canon(x));
    SameTreeSameBag(Canon(x), x);
    CountLivePermutes(StringsOf(Canon(x)), StringsOf(x), repository, tag);
  }

  lemma LiveImageIgnoresOrder(template: Json, stack: string, repository: string, tag: string)
    requires Wf(template)
    ensures LiveImage(Canon(template), stack, repository, tag) == LiveImage(template, stack, repository, tag)
  {
    hide Canon, RolesOf, LogicalByRole, StringsOf, CountLive, Wf;
    RolesIgnoreOrder(template, stack);
    forall id ensures LiveImageOf(Canon(template), id, repository, tag) == LiveImageOf(template, id, repository, tag) {
      ResourceIsWf(template, id);
      GetCanon(template, "Resources");
      GetCanon(Get(template, "Resources"), id);
      LiveCountIgnoresOrder(ResourceOf(template, id), repository, tag);
    }
    if RolesOf(template, stack).Some? { TablesInverse(RolesOf(template, stack).value); }
  }

  lemma NoopIgnoresOrder(cs: Json)
    ensures ChangeSet.Noop(Canon(cs)) == ChangeSet.Noop(cs)
  {
    hide Canon, NoChangeReason, Is;
    GetCanon(cs, "StatusReason");
    CanonFacts(Get(cs, "StatusReason"));
    FieldsIgnoreOrder(cs, "Status");
    GetCanon(cs, "Changes");
    CanonFacts(Get(cs, "Changes"));
  }

  lemma DeployableIgnoresOrder(cs: Json)
    ensures Deployable(Canon(cs)) == Deployable(cs)
    ensures Canon(cs).Obj? == cs.Obj?
    ensures Truthy(Get(Canon(cs), "NextToken")) == Truthy(Get(cs, "NextToken"))
  {
    hide Canon, Is, Truthy;
    FieldsIgnoreOrder(cs, "Status");
    FieldsIgnoreOrder(cs, "ExecutionStatus");
    CanonFacts(cs);
    GetCanon(cs, "NextToken");
    CanonFacts(Get(cs, "NextToken"));
  }

  lemma ChangesIgnoreOrder(py: Python, changes: Json, roles: map<string, Role>, repository: string, tag: string)
    requires Injective(roles) && roles.Values == AllRoles && changes.Arr?
    ensures Canon(changes).Arr?
    ensures ChangesOk(py, Canon(changes).items, roles, repository, tag) ==
            ChangesOk(py, changes.items, roles, repository, tag)
  {
    hide Canon, ChangedRole;
    CanonFacts(changes);
    CanonItem(changes.items);
    forall c <- changes.items
      ensures ChangedRole(py, Canon(c), roles, repository, tag) == ChangedRole(py, c, roles, repository, tag)
    {
      ChangedRoleIgnoresOrder(py, c, roles, repository, tag);
    }
  }

  /** The difference check sees paths and image changes only. */
  lemma {:induction false} AttributedAlike(ds: seq<Difference>, ds': seq<Difference>, r: Role,
                                           byRole: map<Role, string>)
    requires |ds| == |ds'| && forall i :: 0 <= i < |ds| ==> ds[i].path == ds'[i].path
    ensures |Attributed(ds, r, byRole)| == |Attributed(ds', r, byRole)|
  {
    hide DifferenceRole;
    if ds != [] { AttributedAlike(ds[..|ds| - 1], ds'[..|ds| - 1], r, byRole); }
  }

  lemma DifferencesAlike(ds: seq<Difference>, ds': seq<Difference>, byRole: map<Role, string>, repository: string,
                         tag: string)
    requires |ds| == |ds'|
    requires forall i :: 0 <= i < |ds| ==> ds[i].path == ds'[i].path
    requires forall i :: 0 <= i < |ds| ==>
               IsImageDifference(ds[i], repository, tag) == IsImageDifference(ds'[i], repository, tag)
    ensures DifferencesOk(ds, byRole, repository, tag) == DifferencesOk(ds', byRole, repository, tag)
  {
    hide DifferenceRole, IsImageDifference, Attributed;
    AttributedAlike(ds, ds', WebTask, byRole);
    AttributedAlike(ds, ds', WorkerTask, byRole);
    forall i | 0 <= i < |ds|
      ensures TaskImageDifference(ds[i], byRole, repository, tag) ==
              TaskImageDifference(ds'[i], byRole, repository, tag) {}
    assert (forall d <- ds :: TaskImageDifference(d, byRole, repository, tag)) <==>
           (forall i | 0 <= i < |ds| :: TaskImageDifference(ds[i], byRole, repository, tag));
    assert (forall d <- ds' :: TaskImageDifference(d, byRole, repository, tag)) <==>
           (forall i | 0 <= i < |ds| :: TaskImageDifference(ds'[i], byRole, repository, tag));
  }

  lemma DifferenceCheckIgnoresOrder(x: Json, y: Json, byRole: map<Role, string>, repository: string, tag: string)
    ensures DifferencesOk(Differences(Canon(x), Canon(y), ""), byRole, repository, tag) ==
            DifferencesOk(Differences(x, y, ""), byRole, repository, tag)
  {
    hide Canon, DiffsAt, Differences, DifferencesOk, RenderEntry, Forget, IsImageDifference;
    DifferencesIgnoreOrder(x, y);
    var es := DiffsAt(x, y, []);
    var ds, ds' := RenderAll(es), RenderAll(ForgetAll(es));
    forall i | 0 <= i < |es|
      ensures ds[i].path == ds'[i].path
      ensures IsImageDifference(ds[i], repository, tag) == IsImageDifference(ds'[i], repository, tag)
    {
      ForgetKeepsPath(es[i]);
      ImageDifferenceForgets(es[i], repository, tag);
    }
    DifferencesAlike(ds, ds', byRole, repository, tag);
  }

  lemma ForgetKeepsPath(e: Entry)
    ensures RenderEntry(Forget(e)).path == RenderEntry(e).path
  {
  }

  lemma NoopOkIgnoresOrder(current: Option<Json>, proposed: Option<Json>, stack: string, repository: string,
                           tag: string)
    requires WfOpt(current)
    ensures NoopOk(CanonOpt(current), CanonOpt(proposed), stack, repository, tag) ==
            NoopOk(current, proposed, stack, repository, tag)
  {
    hide Canon, Differences, LiveImage, Wf;
    if current.Some? {
      LiveImageIgnoresOrder(current.value, stack, repository, tag);
      if proposed.Some? {
        NoDifferencesIffSameTree(current.value, proposed.value);
        NoDifferencesIffSameTree(Canon(current.value), Canon(proposed.value));
        CanonIdempotent(current.value);
        CanonIdempotent(proposed.value);
      }
    }
  }

  lemma DeployOkIgnoresOrder(py: Python, cs: Json, current: Option<Json>, proposed: Option<Json>, stack: string,
                             repository: string, tag: string)
    ensures DeployOk(py, Canon(cs), CanonOpt(current), CanonOpt(proposed), stack, repository, tag) ==
            DeployOk(py, cs, current, proposed, stack, repository, tag)
  {
    hide Canon, Differences, DifferencesOk, ChangesOk, RolesOf, LogicalByRole, Deployable;
    DeployableIgnoresOrder(cs);
    if current.Some? && proposed.Some? {
      RolesIgnoreOrder(current.value, stack);
      RolesIgnoreOrder(proposed.value, stack);
      GetCanon(cs, "Changes");
      CanonFacts(Get(cs, "Changes"));
      if RolesOf(proposed.value, stack).Some? {
        var roles := RolesOf(proposed.value, stack).value;
        DifferenceCheckIgnoresOrder(current.value, proposed.value, LogicalByRole(roles), repository, tag);
        if Get(cs, "Changes").Arr? { ChangesIgnoreOrder(py, Get(cs, "Changes"), roles, repository, tag); }
      }
    }
  }

  /** The decision on the inputs is the decision on the inputs with every dict sorted. */
  lemma VerdictOfSorted(py: Python, cs: Json, current: Option<Json>, proposed: Option<Json>, uri: string,
                        repository: string, stack: string)
    requires WfOpt(current)
    ensures ValidateApp(py, Canon(cs), CanonOpt(current), CanonOpt(proposed), uri, repository, stack) ==
            ValidateApp(py, cs, current, proposed, uri, repository, stack)
  {
    hide Canon, ParseImageUri, NoopOk, DeployOk, ChangeSet.Noop, Truthy, Wf, CanonOpt;
    DeployableIgnoresOrder(cs);
    NoopIgnoresOrder(cs);
    if ParseImageUri(py, uri, repository).Some? {
      var tag := ParseImageUri(py, uri, repository).value;
      NoopOkIgnoresOrder(current, proposed, stack, repository, tag);
      DeployOkIgnoresOrder(py, cs, current, proposed, stack, repository, tag);
    }
  }

  // ---------------------------------------------------------------- main results

  /** Reordering the keys of any dict, in the change set or in either template, does not
      change the decision. */
  lemma VerdictIgnoresKeyOrder(py: Python, cs: Json, cs': Json, current: Option<Json>, current': Option<Json>,
                               proposed: Option<Json>, proposed': Option<Json>, uri: string, repository: string,
                               stack: string)
    requires SameTree(cs, cs')
    requires WfOpt(current) && WfOpt(current')
    requires CanonOpt(current) == CanonOpt(current') && CanonOpt(proposed) == CanonOpt(proposed')
    ensures ValidateApp(py, cs, current, proposed, uri, repository, stack) ==
            ValidateApp(py, cs', current', proposed', uri, repository, stack)
  {
    hide ValidateApp, Canon, Wf;
    VerdictOfSorted(py, cs, current, proposed, uri, repository, stack);
    VerdictOfSorted(py, cs', current', proposed', uri, repository, stack);
  }

  /** Both change sets have the same headers and change lists the checks cannot tell apart. */
  ghost predicate SameReview(py: Python, cs: Json, cs': Json) {
    && cs.Obj? && cs'.Obj?
    && Truthy(Get(cs, "NextToken")) == Truthy(Get(cs', "NextToken"))
    && (forall h | h in {"Status", "ExecutionStatus", "StatusReason"} :: Get(cs, h) == Get(cs', h))
    && ("Changes" in cs.m <==> "Changes" in cs'.m)
    && Get(cs, "Changes").Arr? && Get(cs', "Changes").Arr?
    && |Get(cs, "Changes").items| == |Get(cs', "Changes").items|
    && forall roles, repository, tag | Injective(roles) && roles.Values == AllRoles ::
         ChangesOk(py, Get(cs, "Changes").items, roles, repository, tag) ==
         ChangesOk(py, Get(cs', "Changes").items, roles, repository, tag)
  }

  lemma SameReviewSameVerdict(py: Python, cs: Json, cs': Json, current: Option<Json>, proposed: Option<Json>,
                              uri: string, repository: string, stack: string)
    requires SameReview(py, cs, cs')
    ensures ValidateApp(py, cs, current, proposed, uri, repository, stack) ==
            ValidateApp(py, cs', current, proposed, uri, repository, stack)
  {
    hide ParseImageUri, NoopOk, ChangesOk, Truthy, DifferencesOk, Differences, RolesOf, LogicalByRole, NoChangeReason,
         Injective;
    assert Get(cs, "Status") == Get(cs', "Status");
    assert Get(cs, "ExecutionStatus") == Get(cs', "ExecutionStatus");
    assert Get(cs, "StatusReason") == Get(cs', "StatusReason");
  }

  /** cs with another list of changes. */
  ghost predicate ChangesReplaced(cs: Json, cs': Json) {
    && cs.Obj? && cs'.Obj? && "Changes" in cs.m
    && cs'.m == cs.m["Changes" := Get(cs', "Changes")]
    && Get(cs, "Changes").Arr? && Get(cs', "Changes").Arr?
  }

  /** Listing the changes in another order does not change the decision. */
  lemma VerdictIgnoresChangeOrder(py: Python, cs: Json, cs': Json, current: Option<Json>, proposed: Option<Json>,
                                  uri: string, repository: string, stack: string)
    requires ChangesReplaced(cs, cs')
    requires multiset(Get(cs, "Changes").items) == multiset(Get(cs', "Changes").items)
    ensures ValidateApp(py, cs, current, proposed, uri, repository, stack) ==
            ValidateApp(py, cs', current, proposed, uri, repository, stack)
  {
    hide ValidateApp, ChangedRole, Truthy;
    var xs, ys := Get(cs, "Changes").items, Get(cs', "Changes").items;
    assert forall c :: c in xs <==> c in multiset(xs);
    assert forall c :: c in ys <==> c in multiset(ys);
    assert |xs| == |multiset(xs)| && |ys| == |multiset(ys)|;
    assert SameReview(py, cs, cs');
    SameReviewSameVerdict(py, cs, cs', current, proposed, uri, repository, stack);
  }

  /** Listing the details of each change in another order does not change the decision. */
  lemma VerdictIgnoresDetailOrder(py: Python, cs: Json, cs': Json, current: Option<Json>, proposed: Option<Json>,
                                  uri: string, repository: string, stack: string)
    requires ChangesReplaced(cs, cs')
    requires var xs, ys := Get(cs, "Changes").items, Get(cs', "Changes").items;
             |xs| == |ys| && forall i :: 0 <= i < |xs| ==> xs[i] == ys[i] || DetailsPermuted(xs[i], ys[i])
    ensures ValidateApp(py, cs, current, proposed, uri, repository, stack) ==
            ValidateApp(py, cs', current, proposed, uri, repository, stack)
  {
    hide ValidateApp, Truthy, ChangesOk, DetailsPermuted;
    var xs, ys := Get(cs, "Changes").items, Get(cs', "Changes").items;
    forall roles, repository, tag | Injective(roles) && roles.Values == AllRoles
      ensures ChangesOk(py, xs, roles, repository, tag) == ChangesOk(py, ys, roles, repository, tag)
    {
      forall i | 0 <= i < |xs|
        ensures ChangedRole(py, xs[i], roles, repository, tag) == ChangedRole(py, ys[i], roles, repository, tag)
      {
        if xs[i] != ys[i] { ChangedRoleIgnoresDetailOrder(py, xs[i], ys[i], roles, repository, tag); }
      }
      PointwiseChanges(py, xs, ys, roles, repository, tag);
      PointwiseChanges(py, ys, xs, roles, repository, tag);
    }
    assert SameReview(py, cs, cs');
    SameReviewSameVerdict(py, cs, cs', current, proposed, uri, repository, stack);
  }

  lemma PointwiseChanges(py: Python, xs: seq<Json>, ys: seq<Json>, roles: map<string, Role>, repository: string,
                         tag: string)
    requires Injective(roles) && roles.Values == AllRoles && |xs| == |ys|
    requires forall i :: 0 <= i < |xs| ==>
               ChangedRole(py, xs[i], roles, repository, tag) == ChangedRole(py, ys[i], roles, repository, tag)
    ensures ChangesOk(py, xs, roles, repository, tag) ==> ChangesOk(py, ys, roles, repository, tag)
  {
    hide ChangedRole;
    if ChangesOk(py, xs, roles, repository, tag) {
      forall c <- ys ensures ChangedRole(py, c, roles, repository, tag).Some? {
        var i :| 0 <= i < |ys| && ys[i] == c;
        assert xs[i] in xs;
      }
      forall r <- AllRoles ensures exists c <- ys :: ChangedRole(py, c, roles, repository, tag) == Some(r) {
        var c :| c in xs && ChangedRole(py, c, roles, repository, tag) == Some(r);
        var i :| 0 <= i < |xs| && xs[i] == c;
        assert ys[i] in ys;
      }
    }
  }

  /** Two pagings whose first pages agree on the three status headers and whose pages list
      the same changes overall lead to the same decision. */
  lemma PagingIsInvisible(py: Python, pages: seq<Json>, pages': seq<Json>, current: Option<Json>,
                          proposed: Option<Json>, uri: string, repository: string, stack: string)
    requires MergePages(pages).Some? && MergePages(pages').Some?
    requires forall h | h in {"Status", "ExecutionStatus", "StatusReason"} :: Get(pages[0], h) == Get(pages'[0], h)
    requires AllChanges(pages) == AllChanges(pages')
    ensures ValidateApp(py, MergePages(pages).value, current, proposed, uri, repository, stack) ==
            ValidateApp(py, MergePages(pages').value, current, proposed, uri, repository, stack)
  {
    hide ValidateApp, ChangesOk, PagesOk, Without, AllChanges;
    var cs, cs' := MergePages(pages).value, MergePages(pages').value;
    MergedFirst(pages);
    MergedFirst(pages');
    MergedFields(pages[0], AllChanges(pages));
    MergedFields(pages'[0], AllChanges(pages'));
    assert SameReview(py, cs, cs');
    SameReviewSameVerdict(py, cs, cs', current, proposed, uri, repository, stack);
  }

  lemma MergedFirst(pages: seq<Json>)
    requires MergePages(pages).Some?
    ensures pages != [] && pages[0].Obj? && MergePages(pages).value == Merged(pages[0], AllChanges(pages))
  {
    assert PageOk(pages, 0);
  }

  lemma MergedFields(first: Json, changes: seq<Json>)
    requires first.Obj?
    ensures var cs := Merged(first, changes);
            && cs.Obj? && "Changes" in cs.m && Get(cs, "Changes") == Arr(changes)
            && Get(cs, "NextToken") == Null
            && forall h | h != "Changes" && h != "NextToken" :: Get(cs, h) == Get(first, h)
  {
    hide Without;
  }
}
