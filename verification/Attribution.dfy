/** Which role a reported difference belongs to. The program decides from the rendered
    path; these theorems say when that agrees with the structured path. */
module Attribution {
  import opened Text
  import opened Decimal
  import opened Json
  import opened TreeDiff
  import opened Roles

  const RESOURCES := "Resources."

  function RoleWithId(byRole: map<Role, string>, id: string): Option<Role> {
    if WebTask in byRole && byRole[WebTask] == id then Some(WebTask)
    else if WorkerTask in byRole && byRole[WorkerTask] == id then Some(WorkerTask)
    else if WebService in byRole && byRole[WebService] == id then Some(WebService)
    else if WorkerService in byRole && byRole[WorkerService] == id then Some(WorkerService)
    else None
  }

  /** `_difference_role`. The table is injective, so the order of its scan is immaterial. */
  function DifferenceRole(path: string, byRole: map<Role, string>): Option<Role> {
    if !(RESOURCES <= path) then None
    else RoleWithId(byRole, Head(path[|RESOURCES|..], '.'))
  }

  /** The role whose resource a structured path goes into. */
  function TrueRole(p: Path, byRole: map<Role, string>): Option<Role> {
    if |p| >= 2 && p[0] == Key("Resources") && p[1].Key? then RoleWithId(byRole, p[1].key) else None
  }

  // ---------------------------------------------------------------- rendered paths from the front

  function StepText(s: Step): string {
    match s
    case Key(k) => "." + k
    case Index(i) => "[" + Print(i) + "]"
  }

  /** What the steps after the first contribute to a rendered path. */
  function Tail(q: Path): string {
    if q == [] then "" else StepText(q[0]) + Tail(q[1..])
  }

  lemma {:induction false} TailConcat(q: Path, r: Path)
    ensures Tail(q + r) == Tail(q) + Tail(r)
  {
    hide StepText;
    if q == [] {
      assert q + r == r;
    } else {
      assert (q + r)[1..] == q[1..] + r;
      TailConcat(q[1..], r);
    }
  }

  lemma TailOne(s: Step)
    ensures Tail([s]) == StepText(s)
  {
    hide StepText;
    assert [s][1..] == [] && Tail([s][1..]) == "";
    assert StepText(s) + "" == StepText(s);
  }

  lemma ExtendIsStepText(path: string, s: Step)
    requires path != ""
    ensures Extend(path, s) == path + StepText(s)
  {
  }

  /** Behind a non-empty root key, a rendered path is a plain concatenation. */
  lemma {:induction false} RenderFront(k: string, q: Path)
    requires k != ""
    ensures Render([Key(k)] + q) == k + Tail(q)
    decreases |q|
  {
    hide StepText, Extend, Render, Tail;
    EmptyTail();
    if q == [] {
      assert [Key(k)] + q == [] + [Key(k)];
      RenderStep([], Key(k));
      RenderRoot(k);
    } else {
      var s, r := q[|q| - 1], q[..|q| - 1];
      assert q == r + [s];
      assert [Key(k)] + q == ([Key(k)] + r) + [s];
      RenderFront(k, r);
      RenderStep([Key(k)] + r, s);
      TailConcat(r, [s]);
      TailOne(s);
      ExtendIsStepText(k + Tail(r), s);
    }
  }

  lemma RenderRoot(k: string)
    ensures Extend(Render([]), Key(k)) == k
  {
  }

  lemma EmptyTail()
    ensures Tail([]) == ""
  {
  }

  lemma {:induction false} RenderEmptyRoot(q: Path)
    ensures Render([Key("")] + q) == Render(q)
    decreases |q|
  {
    hide Extend, Render;
    if q == [] {
      assert [Key("")] + q == [] + [Key("")];
      RenderStep([], Key(""));
      RenderRoot("");
      assert Render(q) == "" by { RenderNothing(); }
    } else {
      var s, r := q[|q| - 1], q[..|q| - 1];
      assert q == r + [s];
      assert [Key("")] + q == ([Key("")] + r) + [s];
      RenderEmptyRoot(r);
      RenderStep([Key("")] + r, s);
      RenderStep(r, s);
    }
  }

  lemma RenderNothing()
    ensures Render([]) == ""
  {
  }

  // ---------------------------------------------------------------- when the text can be trusted

  ghost predicate AllIndexes(q: Path) {
    forall i :: 0 <= i < |q| ==> q[i].Index?
  }

  /** Paths to places in templates with these root keys and these (object) resources. */
  ghost predicate Possible(rootKeys: set<string>, ids: set<string>, p: Path) {
    && p != [] && p[0].Key? && p[0].key in rootKeys
    && (p[0] == Key("Resources") && |p| > 1 ==>
          && p[1].Key? && p[1].key in ids
          && (|p| > 2 ==> p[2].Key?))
  }

  /** The condition on root keys, resource ids and role ids under which rendered paths are
      unambiguous: no empty root key; no root key that starts with "Resources." and reads,
      possibly after list indexes, like a role's resource; no dotted resource id that holds
      a role or whose first component does. */
  ghost predicate Unambiguous(rootKeys: set<string>, ids: set<string>, roleIds: set<string>) {
    && "" !in rootKeys
    && (forall k <- rootKeys | RESOURCES <= k :: !ReadsLikeRole(k, roleIds))
    && (forall id <- ids | '.' in id :: id !in roleIds && Head(id, '.') !in roleIds)
  }

  ghost predicate ReadsLikeRole(k: string, roleIds: set<string>)
    requires RESOURCES <= k
  {
    exists q: Path :: AllIndexes(q) && Head(k[|RESOURCES|..] + Tail(q), '.') in roleIds
  }

  ghost predicate WellAttributed(byRole: map<Role, string>, p: Path) {
    DifferenceRole(Render(p), byRole) == TrueRole(p, byRole)
  }

  ghost predicate TableInjective(byRole: map<Role, string>) {
    forall r, r' :: r in byRole && r' in byRole && byRole[r] == byRole[r'] ==> r == r'
  }

  lemma RoleWithIdFinds(byRole: map<Role, string>, id: string)
    ensures RoleWithId(byRole, id).Some? <==> id in byRole.Values
    ensures RoleWithId(byRole, id).Some? ==>
              RoleWithId(byRole, id).value in byRole && byRole[RoleWithId(byRole, id).value] == id
  {
    if id in byRole.Values {
      var r :| r in byRole && byRole[r] == id;
      match r case WebTask => case WorkerTask => case WebService => case WorkerService =>
    }
  }

  /** Leading index steps, then nothing or a key step. */
  function Indexes(q: Path): Path {
    if q == [] || q[0].Key? then [] else [q[0]] + Indexes(q[1..])
  }

  lemma IndexesSplit(q: Path)
    ensures AllIndexes(Indexes(q)) && Indexes(q) <= q
    ensures var rest := q[|Indexes(q)|..]; rest == [] || rest[0].Key?
  {
  }

  lemma HeadBeforeDot(s: string, q: Path)
    requires q == [] || q[0].Key?
    ensures Head(s + Tail(q), '.') == Head(s, '.')
  {
    hide Tail;
    TailStart(q);
    HeadOfConcat(s, Tail(q), '.');
    HeadIsPrefixWithoutSeparator(s, '.');
    if q == [] { assert s + Tail(q) == s; }
  }

  lemma TailStart(q: Path)
    ensures q == [] ==> Tail(q) == ""
    ensures q != [] ==> Tail(q) != "" && Tail(q)[0] == if q[0].Key? then '.' else '['
  {
    hide Print;
  }

  lemma ResourcesPath(id: string, q: Path)
    requires q == [] || q[0].Key?
    ensures var path := Render([Key("Resources"), Key(id)] + q);
            RESOURCES <= path && Head(path[|RESOURCES|..], '.') == Head(id, '.')
  {
    hide Tail, Render, Head;
    var tail := [Key(id)] + q;
    var path := Render([Key("Resources"), Key(id)] + q);
    assert [Key("Resources"), Key(id)] + q == [Key("Resources")] + tail;
    RenderFront("Resources", tail);
    TailConcat([Key(id)], q);
    TailOne(Key(id));
    assert path == RESOURCES + (id + Tail(q));
    assert path[|RESOURCES|..] == id + Tail(q);
    HeadBeforeDot(id, q);
  }

  lemma OtherRootPath(k: string, q: Path, roleIds: set<string>)
    requires k != "" && k != "Resources"
    requires RESOURCES <= k ==> !ReadsLikeRole(k, roleIds)
    ensures var path := Render([Key(k)] + q);
            RESOURCES <= path ==> Head(path[|RESOURCES|..], '.') !in roleIds
  {
    hide Tail, Render, Head, Indexes;
    RenderFront(k, q);
    var path := k + Tail(q);
    if RESOURCES <= path {
      ResourcesRoot(k, q);
      var x := k[|RESOURCES|..];
      IndexesSplit(q);
      var lead, rest := Indexes(q), q[|Indexes(q)|..];
      assert q == lead + rest;
      TailConcat(lead, rest);
      assert path[|RESOURCES|..] == (x + Tail(lead)) + Tail(rest);
      HeadBeforeDot(x + Tail(lead), rest);
    }
  }

  /** Only a root key that itself starts with "Resources." can render to such a path. */
  lemma ResourcesRoot(k: string, q: Path)
    requires k != "" && k != "Resources" && RESOURCES <= k + Tail(q)
    ensures RESOURCES <= k
  {
    hide Tail;
    var path := k + Tail(q);
    TailStart(q);
    assert k == path[..|k|];
    assert RESOURCES[..9] == "Resources";
    assert k <= path && RESOURCES <= path;
  }

  /** Attribution by rendered path is right for every place of every template with these
      keys exactly when the keys are unambiguous. */
  lemma AttributionExact(rootKeys: set<string>, ids: set<string>, byRole: map<Role, string>)
    requires "Resources" in rootKeys
    requires TableInjective(byRole) && byRole.Values != {} && byRole.Values <= ids
    ensures Unambiguous(rootKeys, ids, byRole.Values) <==>
            forall p | Possible(rootKeys, ids, p) :: WellAttributed(byRole, p)
  {
    if Unambiguous(rootKeys, ids, byRole.Values) {
      forall p | Possible(rootKeys, ids, p) ensures WellAttributed(byRole, p) {
        UnambiguousAttributes(rootKeys, ids, byRole, p);
      }
    } else {
      AmbiguityMisattributes(rootKeys, ids, byRole);
    }
  }

  lemma UnambiguousAttributes(rootKeys: set<string>, ids: set<string>, byRole: map<Role, string>, p: Path)
    requires Unambiguous(rootKeys, ids, byRole.Values)
    requires Possible(rootKeys, ids, p)
    ensures WellAttributed(byRole, p)
  {
    hide RoleWithId, Tail, Render;
    var k := p[0].key;
    if k == "Resources" {
      if |p| == 1 {
        assert p == [Key("Resources")] + [];
        RenderFront("Resources", []);
        assert Tail([]) == "" by { EmptyTail(); }
        assert |Render(p)| == 9;
      } else {
        var id := p[1].key;
        assert p == [Key("Resources"), Key(id)] + p[2..];
        ResourcesPath(id, p[2..]);
        HeadIsPrefixWithoutSeparator(id, '.');
        RoleWithIdFinds(byRole, id);
        RoleWithIdFinds(byRole, Head(id, '.'));
      }
    } else {
      assert p == [Key(k)] + p[1..];
      OtherRootPath(k, p[1..], byRole.Values);
      if RESOURCES <= Render(p) { RoleWithIdFinds(byRole, Head(Render(p)[|RESOURCES|..], '.')); }
    }
  }

  lemma AmbiguityMisattributes(rootKeys: set<string>, ids: set<string>, byRole: map<Role, string>)
    requires "Resources" in rootKeys
    requires TableInjective(byRole) && byRole.Values != {} && byRole.Values <= ids
    requires !Unambiguous(rootKeys, ids, byRole.Values)
    ensures exists p :: Possible(rootKeys, ids, p) && !WellAttributed(byRole, p)
  {
    if id :| id in ids && '.' in id && (id in byRole.Values || Head(id, '.') in byRole.Values) {
      DottedIdMisattributed(rootKeys, ids, byRole, id);
    } else if k :| k in rootKeys && RESOURCES <= k && ReadsLikeRole(k, byRole.Values) {
      RootKeyMisattributed(rootKeys, ids, byRole, k);
    } else {
      var id :| id in byRole.Values;
      EmptyKeyMisattributed(rootKeys, ids, byRole, id);
    }
  }

  lemma DottedIdMisattributed(rootKeys: set<string>, ids: set<string>, byRole: map<Role, string>, id: string)
    requires "Resources" in rootKeys && id in ids && '.' in id && TableInjective(byRole)
    requires id in byRole.Values || Head(id, '.') in byRole.Values
    ensures exists p :: Possible(rootKeys, ids, p) && !WellAttributed(byRole, p)
  {
    hide RoleWithId, Tail, Render;
    var p := [Key("Resources"), Key(id)];
    assert p == p + [];
    ResourcesPath(id, []);
    HeadIsPrefixWithoutSeparator(id, '.');
    RoleWithIdFinds(byRole, id);
    RoleWithIdFinds(byRole, Head(id, '.'));
    assert Possible(rootKeys, ids, p) && !WellAttributed(byRole, p);
  }

  lemma RootKeyMisattributed(rootKeys: set<string>, ids: set<string>, byRole: map<Role, string>, k: string)
    requires k in rootKeys && RESOURCES <= k && ReadsLikeRole(k, byRole.Values)
    ensures exists p :: Possible(rootKeys, ids, p) && !WellAttributed(byRole, p)
  {
    hide RoleWithId, Tail, Render;
    var q: Path :| AllIndexes(q) && Head(k[|RESOURCES|..] + Tail(q), '.') in byRole.Values;
    var p := [Key(k)] + q;
    RenderFront(k, q);
    assert Render(p)[|RESOURCES|..] == k[|RESOURCES|..] + Tail(q);
    RoleWithIdFinds(byRole, Head(k[|RESOURCES|..] + Tail(q), '.'));
    assert |k| >= 10 && p[0] != Key("Resources");
    assert Possible(rootKeys, ids, p) && !WellAttributed(byRole, p);
  }

  lemma EmptyKeyMisattributed(rootKeys: set<string>, ids: set<string>, byRole: map<Role, string>, id: string)
    requires "" in rootKeys && id in byRole.Values && '.' !in id
    ensures exists p :: Possible(rootKeys, ids, p) && !WellAttributed(byRole, p)
  {
    hide RoleWithId, Tail, Render;
    var q := [Key("Resources"), Key(id)];
    assert q == q + [];
    var p := [Key("")] + q;
    RenderEmptyRoot(q);
    ResourcesPath(id, []);
    HeadIsPrefixWithoutSeparator(id, '.');
    RoleWithIdFinds(byRole, id);
    assert Possible(rootKeys, ids, p) && !WellAttributed(byRole, p);
  }
}
