/** Joining pages undoes splitting into pages, and no check of the change set looks at the
    order of dict keys or of details. */
module ChangeSetTheorems {
  import opened Text
  import opened Json
  import opened TreeDiff
  import opened DiffTheorems
  import opened ImageTags
  import opened Roles
  import opened ChangeSet

  // ---------------------------------------------------------------- pages

  lemma {:induction false} PyEqReflexive(j: Json)
    ensures PyEq(j, j)
  {
    match j
    case Arr(items) => forall i | 0 <= i < |items| ensures PyEq(items[i], items[i]) { PyEqReflexive(items[i]); }
    case Obj(_, m) => forall k <- m ensures PyEq(m[k], m[k]) { PyEqReflexive(m[k]); }
    case _ =>
  }

  /** The change set as an API that pages its change list would return it: every page
      repeats the other fields, all but the last carry a token. */
  function Page(doc: Json, chunk: seq<Json>, token: Option<string>): Json
    requires doc.Obj?
  {
    var m := (doc.m - {"NextToken"})["Changes" := Arr(chunk)];
    match token
    case None => Obj(Without(doc.order, "NextToken"), m)
    case Some(t) => Obj(doc.order, m["NextToken" := Str(t)])
  }

  function Paginate(doc: Json, chunks: seq<seq<Json>>, tokens: seq<string>): seq<Json>
    requires doc.Obj? && |tokens| + 1 == |chunks|
  {
    seq(|chunks|, i requires 0 <= i < |chunks| =>
          Page(doc, chunks[i], if i < |tokens| then Some(tokens[i]) else None))
  }

  function Flatten(chunks: seq<seq<Json>>): seq<Json> {
    if chunks == [] then [] else Flatten(chunks[..|chunks| - 1]) + chunks[|chunks| - 1]
  }

  lemma {:induction false} AllChangesOfPages(pages: seq<Json>, chunks: seq<seq<Json>>)
    requires |pages| == |chunks|
    requires forall i :: 0 <= i < |chunks| ==> PageChanges(pages[i]) == Some(chunks[i])
    ensures AllChanges(pages) == Flatten(chunks)
  {
    hide PageChanges;
    if pages != [] {
      AllChangesOfPages(pages[..|pages| - 1], chunks[..|chunks| - 1]);
    }
  }

  lemma PageFields(doc: Json, chunk: seq<Json>, token: Option<string>, h: string)
    requires doc.Obj? && h != "Changes" && h != "NextToken"
    ensures Get(Page(doc, chunk, token), h) == Get(doc, h)
    ensures PageChanges(Page(doc, chunk, token)) == Some(chunk)
    ensures Get(Page(doc, chunk, token), "NextToken") == if token.Some? then Str(token.value) else Null
  {
  }

  /** However a change list is cut into pages, joining them gives the whole change set back. */
  lemma MergeUndoesPaginate(doc: Json, chunks: seq<seq<Json>>, tokens: seq<string>)
    requires doc.Obj? && |tokens| + 1 == |chunks| && forall t <- tokens :: t != ""
    ensures var merged := MergePages(Paginate(doc, chunks, tokens));
            merged.Some? && merged.value.Obj? &&
            merged.value.m == (doc.m - {"NextToken"})["Changes" := Arr(Flatten(chunks))]
  {
    hide Page, PageOk, PageChanges, Merged, AllChanges, Flatten;
    var pages := Paginate(doc, chunks, tokens);
    forall i | 0 <= i < |pages| ensures PageOk(pages, i) && PageChanges(pages[i]) == Some(chunks[i]) {
      PaginatedPageOk(doc, chunks, tokens, i);
    }
    AllChangesOfPages(pages, chunks);
    FirstPageMerges(doc, chunks[0], if 0 < |tokens| then Some(tokens[0]) else None, Flatten(chunks));
  }

  lemma PaginatedPageOk(doc: Json, chunks: seq<seq<Json>>, tokens: seq<string>, i: nat)
    requires doc.Obj? && |tokens| + 1 == |chunks| && (forall t <- tokens :: t != "") && i < |chunks|
    ensures var pages := Paginate(doc, chunks, tokens);
            PageOk(pages, i) && PageChanges(pages[i]) == Some(chunks[i])
  {
    hide Page, PyEq, Truthy, PageChanges;
    var pages := Paginate(doc, chunks, tokens);
    var token, token0 := if i < |tokens| then Some(tokens[i]) else None, if 0 < |tokens| then Some(tokens[0]) else None;
    assert pages[i] == Page(doc, chunks[i], token) && pages[0] == Page(doc, chunks[0], token0);
    PageIsObject(doc, chunks[i], token);
    PageFields(doc, chunks[i], token, "Status");
    TruthyToken(token);
    assert i < |tokens| ==> tokens[i] in tokens;
    forall h <- HEADERS ensures PyEq(Get(pages[i], h), Get(pages[0], h)) {
      PageFields(doc, chunks[i], token, h);
      PageFields(doc, chunks[0], token0, h);
      PyEqReflexive(Get(doc, h));
    }
  }

  lemma PageIsObject(doc: Json, chunk: seq<Json>, token: Option<string>)
    requires doc.Obj?
    ensures Page(doc, chunk, token).Obj?
  {
  }

  lemma TruthyToken(token: Option<string>)
    ensures token.Some? ==> (Truthy(Str(token.value)) <==> token.value != "")
    ensures !Truthy(Null)
  {
  }

  lemma FirstPageMerges(doc: Json, chunk: seq<Json>, token: Option<string>, changes: seq<Json>)
    requires doc.Obj?
    ensures Page(doc, chunk, token).Obj? && Merged(Page(doc, chunk, token), changes).Obj?
    ensures Merged(Page(doc, chunk, token), changes).m == (doc.m - {"NextToken"})["Changes" := Arr(changes)]
  {
    hide Without;
  }

  // ---------------------------------------------------------------- key order

  /** Reading a field does not see key order. */
  lemma FieldsIgnoreOrder(j: Json, key: string)
    ensures forall s :: Is(Canon(j), key, s) == Is(j, key, s)
    ensures forall ss :: OneOf(Canon(j), key, ss) == OneOf(j, key, ss)
    ensures Absent(Canon(j), key) == Absent(j, key)
    ensures HasText(Canon(j), key) == HasText(j, key)
    ensures Get(Canon(j), key).Str? <==> Get(j, key).Str?
    ensures Get(j, key).Str? ==> Get(Canon(j), key) == Get(j, key)
    ensures Get(Canon(j), key) == Canon(Get(j, key))
    ensures forall allowed :: OnlyKeys(Canon(j), allowed) == OnlyKeys(j, allowed)
  {
    hide Canon;
    GetCanon(j, key);
    CanonFacts(j);
    CanonFacts(Get(j, key));
  }

  lemma DifferencesIgnoreOrder(x: Json, y: Json)
    ensures var es := DiffsAt(x, y, []);
            Differences(x, y, "") == RenderAll(es) && Differences(Canon(x), Canon(y), "") == RenderAll(ForgetAll(es))
  {
    hide Canon, DiffsAt, Differences, RenderAll, ForgetAll;
    RenderedDiff(x, y, []);
    RenderedDiff(Canon(x), Canon(y), []);
    DiffForgetsOrder(x, y, []);
    RenderNil();
  }

  lemma RenderNil()
    ensures Render([]) == ""
  {
  }

  lemma ImageDifferenceForgets(e: Entry, repository: string, tag: string)
    ensures IsImageDifference(RenderEntry(Forget(e)), repository, tag) ==
            IsImageDifference(RenderEntry(e), repository, tag)
  {
    hide Canon, Render, EcrTag, EndsWith, Lead;
    CanonFacts(e.before);
    CanonFacts(e.after);
  }

  lemma TaskDetailIgnoresOrder(py: Python, d: Json, repository: string, tag: string)
    ensures TaskDetailOk(py, Canon(d), repository, tag) == TaskDetailOk(py, d, repository, tag)
  {
    hide Canon, Is, Absent, HasText, ImagePath, ValuesOk, Get;
    var target := Get(d, "Target");
    FieldsIgnoreOrder(d, "Target");
    FieldsIgnoreOrder(d, "Evaluation");
    FieldsIgnoreOrder(d, "ChangeSource");
    FieldsIgnoreOrder(d, "CausingEntity");
    FieldsIgnoreOrder(target, "Attribute");
    FieldsIgnoreOrder(target, "Name");
    FieldsIgnoreOrder(target, "RequiresRecreation");
    FieldsIgnoreOrder(target, "Path");
    BeforeAfterIgnoresOrder(py, target, repository, tag);
  }

  lemma BeforeAfterIgnoresOrder(py: Python, target: Json, repository: string, tag: string)
    ensures BeforeAfterOk(py, Canon(target), repository, tag) == BeforeAfterOk(py, target, repository, tag)
  {
    hide Canon, Is, Absent, ImagePath, ValuesOk, Get;
    FieldsIgnoreOrder(target, "Drift");
    FieldsIgnoreOrder(target, "BeforeValueFrom");
    FieldsIgnoreOrder(target, "AfterValueFrom");
    FieldsIgnoreOrder(target, "BeforeValue");
    FieldsIgnoreOrder(target, "AfterValue");
    FieldsIgnoreOrder(target, "Path");
    var path := Get(target, "Path");
    forall before: Json, after: Json | before.Str? && after.Str?
      ensures ValuesOk(py, before, after, Canon(path), repository, tag) ==
              ValuesOk(py, before, after, path, repository, tag)
    {
      PathIgnoresOrder(py, before, after, path, repository, tag);
    }
  }

  lemma PathIgnoresOrder(py: Python, before: Json, after: Json, path: Json, repository: string, tag: string)
    requires before.Str? && after.Str?
    ensures ValuesOk(py, before, after, Canon(path), repository, tag) ==
            ValuesOk(py, before, after, path, repository, tag)
  {
    hide Canon, Differences, IsExpectedImageChange, EndsWith;
    CanonFacts(path);
  }

  lemma ServiceDetailIgnoresOrder(d: Json, taskId: string)
    ensures ServiceDetailOk(Canon(d), taskId) == ServiceDetailOk(d, taskId)
  {
    hide Canon, Is, Absent, OneOf, Get;
    var target := Get(d, "Target");
    FieldsIgnoreOrder(d, "Target");
    FieldsIgnoreOrder(d, "Evaluation");
    FieldsIgnoreOrder(d, "ChangeSource");
    FieldsIgnoreOrder(d, "CausingEntity");
    FieldsIgnoreOrder(target, "Attribute");
    FieldsIgnoreOrder(target, "Name");
    FieldsIgnoreOrder(target, "RequiresRecreation");
    FieldsIgnoreOrder(target, "Path");
    FieldsIgnoreOrder(target, "BeforeValue");
    FieldsIgnoreOrder(target, "AfterValue");
    FieldsIgnoreOrder(target, "Drift");
  }

  lemma CanonItem(items: seq<Json>)
    ensures forall d <- items :: Canon(d) in Canon(Arr(items)).items
    ensures forall d' <- Canon(Arr(items)).items :: exists d <- items :: d' == Canon(d)
    ensures items == [] <==> Canon(Arr(items)).items == []
  {
    var cs := Canon(Arr(items)).items;
    forall d <- items ensures Canon(d) in cs {
      var i :| 0 <= i < |items| && items[i] == d;
      assert cs[i] == Canon(d);
    }
    forall d' <- cs ensures exists d <- items :: d' == Canon(d) {
      var i :| 0 <= i < |cs| && cs[i] == d';
      assert d' == Canon(items[i]) && items[i] in items;
    }
  }

  lemma KnownFieldsIgnoreOrder(d: Json)
    ensures KnownFields(Canon(d)) == KnownFields(d)
  {
    hide Canon, OnlyKeys, Get;
    FieldsIgnoreOrder(d, "Target");
    FieldsIgnoreOrder(Get(d, "Target"), "Name");
  }

  lemma DetailShapeIgnoresOrder(rc: Json)
    ensures DetailShape(Canon(rc)) == DetailShape(rc)
  {
    hide Canon, KnownFields, Get;
    FieldsIgnoreOrder(rc, "Details");
    var details := Get(rc, "Details");
    CanonFacts(details);
    if details.Arr? {
      CanonItem(details.items);
      forall d <- details.items ensures KnownFields(Canon(d)) == KnownFields(d) { KnownFieldsIgnoreOrder(d); }
    }
  }

  lemma ScopeIgnoresOrder(rc: Json)
    ensures ScopeIsProperties(Canon(rc)) == ScopeIsProperties(rc)
  {
    hide Sorted;
    GetCanon(rc, "Scope");
    var scope := Get(rc, "Scope");
    if scope.Arr? && |scope.items| == 1 {
      CanonFacts(scope.items[0]);
      assert Canon(scope).items == [Canon(scope.items[0])];
    }
  }

  lemma TaskChangeIgnoresOrder(py: Python, rc: Json, repository: string, tag: string)
    ensures TaskChangeOk(py, Canon(rc), repository, tag) == TaskChangeOk(py, rc, repository, tag)
  {
    hide Canon, Is, Absent, OneOf, Get, ScopeIsProperties, TaskDetailOk, OnlyKeys;
    FieldsIgnoreOrder(rc, "ResourceType");
    FieldsIgnoreOrder(rc, "Replacement");
    FieldsIgnoreOrder(rc, "PolicyAction");
    FieldsIgnoreOrder(rc, "Details");
    ScopeIgnoresOrder(rc);
    DetailShapeIgnoresOrder(rc);
    var details := Get(rc, "Details");
    if details.Arr? {
      CanonItem(details.items);
      CanonFacts(details);
      forall d <- details.items
        ensures TaskDetailOk(py, Canon(d), repository, tag) == TaskDetailOk(py, d, repository, tag)
      {
        TaskDetailIgnoresOrder(py, d, repository, tag);
      }
    }
  }

  lemma ServiceChangeIgnoresOrder(rc: Json, taskId: string)
    ensures ServiceChangeOk(Canon(rc), taskId) == ServiceChangeOk(rc, taskId)
  {
    hide Canon, Is, Absent, Get, ScopeIsProperties, ServiceDetailOk, OnlyKeys;
    FieldsIgnoreOrder(rc, "ResourceType");
    FieldsIgnoreOrder(rc, "Replacement");
    FieldsIgnoreOrder(rc, "PolicyAction");
    FieldsIgnoreOrder(rc, "Details");
    ScopeIgnoresOrder(rc);
    DetailShapeIgnoresOrder(rc);
    var details := Get(rc, "Details");
    if details.Arr? {
      CanonItem(details.items);
      CanonFacts(details);
      forall d <- details.items ensures ServiceDetailOk(Canon(d), taskId) == ServiceDetailOk(d, taskId) {
        ServiceDetailIgnoresOrder(d, taskId);
      }
    }
  }

  lemma EnvelopeIgnoresOrder(change: Json)
    ensures Envelope(Canon(change)) == Envelope(change)
  {
    hide Canon, Is, Absent, Get, OnlyKeys;
    FieldsIgnoreOrder(change, "Type");
    FieldsIgnoreOrder(change, "HookInvocationCount");
    FieldsIgnoreOrder(change, "ResourceChange");
    var rc := Get(change, "ResourceChange");
    forall k ensures Absent(Canon(rc), k) == Absent(rc, k) { FieldsIgnoreOrder(rc, k); }
    FieldsIgnoreOrder(rc, "Action");
  }

  /** A resource change means the same whatever the order of its dicts' keys. */
  lemma ChangedRoleIgnoresOrder(py: Python, change: Json, roles: map<string, Role>, repository: string, tag: string)
    requires Injective(roles) && roles.Values == AllRoles
    ensures ChangedRole(py, Canon(change), roles, repository, tag) == ChangedRole(py, change, roles, repository, tag)
  {
    hide Canon, Is, HasText, Get, Envelope, TaskChangeOk, ServiceChangeOk;
    FieldsIgnoreOrder(change, "ResourceChange");
    var rc := Get(change, "ResourceChange");
    FieldsIgnoreOrder(rc, "LogicalResourceId");
    FieldsIgnoreOrder(rc, "Action");
    FieldsIgnoreOrder(rc, "PhysicalResourceId");
    EnvelopeIgnoresOrder(change);
    TaskChangeIgnoresOrder(py, rc, repository, tag);
    TablesInverse(roles);
    forall taskId ensures ServiceChangeOk(Canon(rc), taskId) == ServiceChangeOk(rc, taskId) {
      ServiceChangeIgnoresOrder(rc, taskId);
    }
  }

  // ---------------------------------------------------------------- order of details

  /** change' is change with the entries of its detail list permuted. */
  ghost predicate DetailsPermuted(change: Json, change': Json) {
    var rc, rc' := Get(change, "ResourceChange"), Get(change', "ResourceChange");
    && change.Obj? && change'.Obj? && change'.m == change.m["ResourceChange" := rc']
    && rc.Obj? && rc'.Obj? && rc'.m == rc.m["Details" := Get(rc', "Details")]
    && Get(rc, "Details").Arr? && Get(rc', "Details").Arr?
    && multiset(Get(rc, "Details").items) == multiset(Get(rc', "Details").items)
    && "ResourceChange" in change.m && "Details" in rc.m
  }

  /** A resource change means the same whatever the order of its details. */
  lemma ChangedRoleIgnoresDetailOrder(
      py: Python, change: Json, change': Json, roles: map<string, Role>, repository: string, tag: string)
    requires Injective(roles) && roles.Values == AllRoles
    requires DetailsPermuted(change, change')
    ensures ChangedRole(py, change', roles, repository, tag) == ChangedRole(py, change, roles, repository, tag)
  {
    hide TaskChangeOk, ServiceChangeOk, Is, HasText, Envelope, DetailsPermuted, LogicalByRole, SameDetailSet, Absent,
         OneOf, ScopeIsProperties;
    var rc, rc' := Get(change, "ResourceChange"), Get(change', "ResourceChange");
    SameDetails(change, change');
    HeadersKept(rc, rc');
    EnvelopeKept(change, change');
    TablesInverse(roles);
    ChecksKept(py, rc, rc', repository, tag);
  }

  ghost predicate SameDetailSet(rc: Json, rc': Json) {
    && rc.Obj? && rc'.Obj? && rc'.m == rc.m["Details" := Get(rc', "Details")]
    && Get(rc, "Details").Arr? && Get(rc', "Details").Arr?
    && (Get(rc, "Details").items == [] <==> Get(rc', "Details").items == [])
    && forall d :: d in Get(rc, "Details").items <==> d in Get(rc', "Details").items
  }

  lemma SameDetails(change: Json, change': Json)
    requires DetailsPermuted(change, change')
    ensures SameDetailSet(Get(change, "ResourceChange"), Get(change', "ResourceChange"))
  {
    var rc, rc' := Get(change, "ResourceChange"), Get(change', "ResourceChange");
    var ds, ds' := Get(rc, "Details").items, Get(rc', "Details").items;
    assert forall d :: d in ds <==> d in multiset(ds);
    assert forall d :: d in ds' <==> d in multiset(ds');
    assert |ds| == |multiset(ds)| && |ds'| == |multiset(ds')|;
  }

  lemma ChecksKept(py: Python, rc: Json, rc': Json, repository: string, tag: string)
    requires SameDetailSet(rc, rc')
    ensures TaskChangeOk(py, rc', repository, tag) == TaskChangeOk(py, rc, repository, tag)
    ensures forall taskId :: ServiceChangeOk(rc', taskId) == ServiceChangeOk(rc, taskId)
  {
    hide TaskDetailOk, ServiceDetailOk, ScopeIsProperties, KnownFields, Is, Absent, OneOf, Get;
    HeadersKept(rc, rc');
  }

  lemma HeadersKept(rc: Json, rc': Json)
    requires rc.Obj? && rc'.Obj? && rc'.m == rc.m["Details" := Get(rc', "Details")]
    ensures forall k, s | k != "Details" :: Is(rc', k, s) == Is(rc, k, s)
    ensures forall k, ss | k != "Details" :: OneOf(rc', k, ss) == OneOf(rc, k, ss)
    ensures forall k | k != "Details" :: Absent(rc', k) == Absent(rc, k) && HasText(rc', k) == HasText(rc, k)
    ensures ScopeIsProperties(rc') == ScopeIsProperties(rc)
    ensures Get(rc', "LogicalResourceId") == Get(rc, "LogicalResourceId")
  {
  }

  lemma EnvelopeKept(change: Json, change': Json)
    requires DetailsPermuted(change, change')
    ensures Envelope(change') == Envelope(change)
  {
    var rc, rc' := Get(change, "ResourceChange"), Get(change', "ResourceChange");
    HeadersKept(rc, rc');
    assert change'.m.Keys == change.m.Keys && rc'.m.Keys == rc.m.Keys;
    assert forall k | k != "ResourceChange" :: Get(change', k) == Get(change, k);
  }
}
