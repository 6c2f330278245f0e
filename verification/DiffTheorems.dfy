/** What the structural diff means: it is empty exactly on equal trees, it is a patch, its
    paths never repeat, it is antisymmetric, it ignores key order, it restricts to subtrees
    and it conserves strings. */
module DiffTheorems {
  import opened Text
  import opened Json
  import opened TreeDiff

  ghost predicate AllValues(es: seq<Entry>) {
    forall e <- es :: e.kind == ValueKind
  }

  // ---------------------------------------------------------------- applying a diff as a patch

  /** The replacement an entry list holds for a path (its first entry there). */
  function Lookup(es: seq<Entry>, p: Path): Option<Json> {
    if es == [] then None
    else if es[0].path == p then Some(es[0].after)
    else Lookup(es[1..], p)
  }

  /** j, sitting at path `at`, with every scalar that has an entry replaced. */
  function Patch(j: Json, at: Path, es: seq<Entry>): Json {
    match j
    case Arr(items) => Arr(seq(|items|, i requires 0 <= i < |items| => Patch(items[i], at + [Index(i)], es)))
    case Obj(order, m) => Obj(order, map k | k in m :: Patch(m[k], at + [Key(k)], es))
    case _ => match Lookup(es, at) { case Some(v) => v case None => j }
  }

  lemma LookupFinds(es: seq<Entry>, p: Path)
    ensures Lookup(es, p).Some? <==> exists e <- es :: e.path == p
    ensures Lookup(es, p).Some? ==> exists e <- es :: e.path == p && e.after == Lookup(es, p).value
  {
    if es != [] { LookupFinds(es[1..], p); }
  }

  /** es consists of value entries and is, as a set, what the comparison of the whole trees reports. */
  ghost predicate ValueDiff(before: Json, after: Json, es: seq<Entry>) {
    && AllValues(es)
    && forall e :: e in es <==> e in DiffsAt(before, after, [])
  }

  lemma LocalFacts(x: Json, y: Json)
    ensures LocalDiff(x, y).None? <==>
            && TypeOf(x) == TypeOf(y)
            && (x.Obj? ==> x.m.Keys == y.m.Keys)
            && (x.Arr? ==> |x.items| == |y.items|)
            && (Scalar(x) ==> x == y)
    ensures LocalDiff(x, y).Some? && LocalDiff(x, y).value.kind == ValueKind ==>
            && TypeOf(x) == TypeOf(y) && Scalar(x) && x != y
            && LocalDiff(x, y).value == Local(ValueKind, x, y)
  {
  }

  /** Where the whole comparison reaches a pair of nodes, it reports an entry with that path
      exactly when they differ locally. */
  lemma EntryHere(before: Json, after: Json, p: Path, es: seq<Entry>)
    requires ValueDiff(before, after, es)
    requires Walk(before, after, p).Some?
    ensures var (x, y) := Walk(before, after, p).value;
            match LocalDiff(x, y)
            case None => Lookup(es, p).None?
            case Some(d) => d == Local(ValueKind, x, y) && Lookup(es, p) == Some(y)
  {
    hide LocalDiff, Walk, DiffsAt, Lookup;
    var (x, y) := Walk(before, after, p).value;
    LocalFacts(x, y);
    LookupFinds(es, p);
    forall e | e in es && e.path == p ensures LocalDiff(x, y) == Some(Local(e.kind, e.before, e.after)) {
      RootDiff(before, after, e);
    }
    match LocalDiff(x, y)
    case None =>
    case Some(d) =>
      var e := Entry(p, d.kind, d.before, d.after);
      RootDiff(before, after, e);
      assert e in es;
  }

  /** Patching one pair of corresponding subtrees. */
  lemma {:induction false} PatchSubtree(before: Json, after: Json, p: Path, x: Json, y: Json, es: seq<Entry>)
    requires ValueDiff(before, after, es)
    requires Walk(before, after, p) == Some((x, y))
    ensures SameTree(Patch(x, p, es), y)
    decreases x
  {
    hide LocalDiff, Walk, DiffsAt, Lookup, ValueDiff, Canon;
    EntryHere(before, after, p, es);
    LocalFacts(x, y);
    var z := Patch(x, p, es);
    match x
    case Arr(items) =>
      forall i | 0 <= i < |items| ensures SameTree(z.items[i], y.items[i]) {
        WalkAppend(before, after, p, Index(i));
        PatchSubtree(before, after, p + [Index(i)], items[i], y.items[i], es);
      }
      SameChildren(z, y);
    case Obj(_, m) =>
      forall k <- m ensures SameTree(z.m[k], y.m[k]) {
        WalkAppend(before, after, p, Key(k));
        PatchSubtree(before, after, p + [Key(k)], m[k], y.m[k], es);
      }
      SameChildren(z, y);
    case _ =>
  }

  /** A diff of value entries, applied to the old tree, gives the new tree. */
  lemma DiffIsPatch(before: Json, after: Json, es: seq<Entry>)
    requires ValueDiff(before, after, es)
    ensures SameTree(Patch(before, [], es), after)
  {
    PatchSubtree(before, after, [], before, after, es);
  }

  // ---------------------------------------------------------------- empty exactly on equal trees

  lemma {:induction false} PatchNothing(j: Json, at: Path)
    ensures Patch(j, at, []) == j
  {
    match j
    case Arr(items) =>
      forall i | 0 <= i < |items| ensures Patch(items[i], at + [Index(i)], []) == items[i] {
        PatchNothing(items[i], at + [Index(i)]);
      }
    case Obj(_, m) =>
      forall k <- m ensures Patch(m[k], at + [Key(k)], []) == m[k] { PatchNothing(m[k], at + [Key(k)]); }
    case _ =>
  }

  lemma CanonLocal(x: Json, y: Json)
    requires Canon(x) == Canon(y)
    ensures LocalDiff(x, y).None?
    ensures forall s :: Down(x, y, s).Some? ==> Canon(Down(x, y, s).value.before) == Canon(Down(x, y, s).value.after)
  {
    hide Sorted;
    CanonFacts(x);
    CanonFacts(y);
    LocalFacts(x, y);
    forall s | Down(x, y, s).Some?
      ensures Canon(Down(x, y, s).value.before) == Canon(Down(x, y, s).value.after)
    {
      match s
      case Key(k) => assert Canon(x).m[k] == Canon(x.m[k]) && Canon(y).m[k] == Canon(y.m[k]);
      case Index(i) => assert Canon(x).items[i] == Canon(x.items[i]) && Canon(y).items[i] == Canon(y.items[i]);
    }
  }

  lemma {:induction false} EqualTreesWalk(x: Json, y: Json, p: Path)
    requires Canon(x) == Canon(y)
    ensures Walk(x, y, p).Some? ==> LocalDiff(Walk(x, y, p).value.0, Walk(x, y, p).value.1).None?
    decreases |p|
  {
    hide Canon, LocalDiff, Down;
    CanonLocal(x, y);
    if p != [] && Down(x, y, p[0]).Some? {
      EqualTreesWalk(Down(x, y, p[0]).value.before, Down(x, y, p[0]).value.after, p[1..]);
    }
  }

  /** No differences if and only if the trees are equal up to key order. */
  lemma NoDifferencesIffSameTree(before: Json, after: Json)
    ensures DiffsAt(before, after, []) == [] <==> SameTree(before, after)
    ensures Differences(before, after, "") == [] <==> SameTree(before, after)
  {
    hide DiffsAt, Differences, Canon, Patch, LocalDiff, Walk;
    var es := DiffsAt(before, after, []);
    RenderedDiff(before, after, []);
    assert |Differences(before, after, "")| == |es|;
    if es == [] {
      DiffIsPatch(before, after, es);
      PatchNothing(before, []);
    }
    if SameTree(before, after) {
      forall e ensures e !in es {
        RootDiff(before, after, e);
        EqualTreesWalk(before, after, e.path);
      }
      EmptyIffNoMember(es);
    }
  }

  // ---------------------------------------------------------------- paths never repeat

  ghost predicate DistinctPaths(es: seq<Entry>) {
    forall i, j :: 0 <= i < j < |es| ==> es[i].path != es[j].path
  }

  lemma EntriesBelow(before: Json, after: Json, at: Path)
    ensures forall e <- DiffsAt(before, after, at) :: at <= e.path
  {
    hide DiffsAt, Walk, LocalDiff;
    forall e | e in DiffsAt(before, after, at) ensures at <= e.path { DiffIsExact(before, after, at, e); }
  }

  lemma BranchEntriesBelow(parent: Json, bs: seq<Branch>, at: Path)
    requires forall b <- bs :: b.before < parent
    ensures forall e <- BranchDiffs(parent, bs, at) :: exists b <- bs :: at + [b.step] <= e.path
  {
    hide DiffsAt;
    forall e | e in BranchDiffs(parent, bs, at) ensures exists b <- bs :: at + [b.step] <= e.path {
      InBranches(parent, bs, at, e);
      var b :| b in bs && e in DiffsAt(b.before, b.after, at + [b.step]);
      EntriesBelow(b.before, b.after, at + [b.step]);
    }
  }

  /** No place is reported twice. */
  lemma {:induction false} DiffPathsDistinct(before: Json, after: Json, at: Path)
    ensures DistinctPaths(DiffsAt(before, after, at))
    decreases before
  {
    hide LocalDiff, Branches, Down, Sorted, BranchDiffs;
    var bs := Branches(before, after);
    BranchesAreDown(before, after);
    BranchPathsDistinct(before, bs, at);
    BranchEntriesBelow(before, bs, at);
  }

  lemma {:induction false} BranchPathsDistinct(parent: Json, bs: seq<Branch>, at: Path)
    requires forall b <- bs :: b.before < parent
    requires forall i, j :: 0 <= i < j < |bs| ==> bs[i].step != bs[j].step
    ensures DistinctPaths(BranchDiffs(parent, bs, at))
    decreases parent, |bs|
  {
    hide DiffsAt;
    if bs != [] {
      DiffPathsDistinct(bs[0].before, bs[0].after, at + [bs[0].step]);
      BranchPathsDistinct(parent, bs[1..], at);
      EntriesBelow(bs[0].before, bs[0].after, at + [bs[0].step]);
      BranchEntriesBelow(parent, bs[1..], at);
      var first, rest := DiffsAt(bs[0].before, bs[0].after, at + [bs[0].step]), BranchDiffs(parent, bs[1..], at);
      assert forall e <- first :: e.path[|at|] == bs[0].step;
      assert forall e <- rest :: e.path[|at|] != bs[0].step;
    }
  }

  // ---------------------------------------------------------------- swapping the trees

  function Swap(e: Entry): Entry { Entry(e.path, e.kind, e.after, e.before) }

  function SwapAll(es: seq<Entry>): seq<Entry> {
    seq(|es|, i requires 0 <= i < |es| => Swap(es[i]))
  }

  lemma SwapConcat(a: seq<Entry>, b: seq<Entry>)
    ensures SwapAll(a + b) == SwapAll(a) + SwapAll(b)
  {
  }

  lemma SwapLocal(before: Json, after: Json, at: Path)
    ensures LocalEntries(after, before, at) == SwapAll(LocalEntries(before, after, at))
  {
    hide LocalDiff;
    SwapLocalDiff(before, after);
  }

  lemma SwapLocalDiff(before: Json, after: Json)
    ensures LocalDiff(after, before) == match LocalDiff(before, after)
                                        case None => None
                                        case Some(d) => Some(Local(d.kind, d.after, d.before))
  {
    hide Sorted, Strs, TypeOf;
    if before.Obj? || after.Obj? || before.Arr? || after.Arr? { SameTypes(before, after); }
  }

  lemma SameTypes(x: Json, y: Json)
    ensures TypeOf(x) == TypeOf(y) ==> x.Obj? == y.Obj? && x.Arr? == y.Arr?
  {
  }

  lemma SwapBranches(before: Json, after: Json)
    ensures |Branches(after, before)| == |Branches(before, after)|
    ensures forall i :: 0 <= i < |Branches(before, after)| ==>
              var b := Branches(before, after)[i];
              Branches(after, before)[i] == Branch(b.step, b.after, b.before)
  {
    hide Sorted;
    if before.Obj? && after.Obj? { assert before.m.Keys * after.m.Keys == after.m.Keys * before.m.Keys; }
  }

  /** Diffing the other way round reports the same places with old and new exchanged. */
  lemma {:induction false} DiffSwaps(before: Json, after: Json, at: Path)
    ensures DiffsAt(after, before, at) == SwapAll(DiffsAt(before, after, at))
    decreases before
  {
    hide LocalDiff, LocalEntries, Branches, Down, Sorted, BranchDiffs;
    SwapLocal(before, after, at);
    SwapBranches(before, after);
    SwapBranchDiffs(before, Branches(before, after), after, Branches(after, before), at);
    SwapConcat(LocalEntries(before, after, at), BranchDiffs(before, Branches(before, after), at));
  }

  lemma {:induction false} SwapBranchDiffs(parent: Json, bs: seq<Branch>, parent': Json, bs': seq<Branch>, at: Path)
    requires (forall b <- bs :: b.before < parent) && (forall b <- bs' :: b.before < parent')
    requires |bs'| == |bs|
    requires forall i :: 0 <= i < |bs| ==> bs'[i] == Branch(bs[i].step, bs[i].after, bs[i].before)
    ensures BranchDiffs(parent', bs', at) == SwapAll(BranchDiffs(parent, bs, at))
    decreases parent, |bs|
  {
    hide DiffsAt;
    if bs != [] {
      var b := bs[0];
      DiffSwaps(b.before, b.after, at + [b.step]);
      SwapBranchDiffs(parent, bs[1..], parent', bs'[1..], at);
      SwapConcat(DiffsAt(b.before, b.after, at + [b.step]), BranchDiffs(parent, bs[1..], at));
    }
  }

  // ---------------------------------------------------------------- key order does not matter

  function Forget(e: Entry): Entry { Entry(e.path, e.kind, Canon(e.before), Canon(e.after)) }

  function ForgetAll(es: seq<Entry>): seq<Entry> {
    seq(|es|, i requires 0 <= i < |es| => Forget(es[i]))
  }

  lemma ForgetConcat(a: seq<Entry>, b: seq<Entry>)
    ensures ForgetAll(a + b) == ForgetAll(a) + ForgetAll(b)
  {
  }

  lemma CanonStrs(ks: seq<string>)
    ensures Canon(Strs(ks)) == Strs(ks)
  {
    assert Canon(Strs(ks)).items == Strs(ks).items;
  }

  function ForgetLocalDiff(d: Option<Local>): Option<Local> {
    match d
    case Some(l) => Some(Local(l.kind, Canon(l.before), Canon(l.after)))
    case None => None
  }

  lemma ForgetLocal(before: Json, after: Json)
    ensures LocalDiff(Canon(before), Canon(after)) == ForgetLocalDiff(LocalDiff(before, after))
  {
    hide Sorted, Canon, Strs;
    CanonFacts(before);
    CanonFacts(after);
    if TypeOf(before) == TypeOf(after) && before.Obj? {
      CanonStrs(Sorted(before.m.Keys - after.m.Keys));
      CanonStrs(Sorted(after.m.Keys - before.m.Keys));
    } else if TypeOf(before) == TypeOf(after) && before.Arr? {
      CanonFacts(Int(|before.items|));
      CanonFacts(Int(|after.items|));
    }
  }

  lemma ForgetBranches(before: Json, after: Json)
    ensures |Branches(Canon(before), Canon(after))| == |Branches(before, after)|
    ensures forall i :: 0 <= i < |Branches(before, after)| ==>
              var b := Branches(before, after)[i];
              Branches(Canon(before), Canon(after))[i] == Branch(b.step, Canon(b.before), Canon(b.after))
  {
    hide Sorted;
    CanonFacts(before);
    CanonFacts(after);
  }

  /** The diff of the key-sorted trees is the diff of the trees with the reported values sorted. */
  lemma {:induction false} DiffForgetsOrder(before: Json, after: Json, at: Path)
    ensures DiffsAt(Canon(before), Canon(after), at) == ForgetAll(DiffsAt(before, after, at))
    decreases before
  {
    hide LocalDiff, Branches, Down, Sorted, BranchDiffs, Canon;
    ForgetLocal(before, after);
    assert LocalEntries(Canon(before), Canon(after), at) == ForgetAll(LocalEntries(before, after, at));
    ForgetBranches(before, after);
    var bs, cs := Branches(before, after), Branches(Canon(before), Canon(after));
    ForgetBranchDiffs(before, bs, Canon(before), cs, at);
    ForgetConcat(LocalEntries(before, after, at), BranchDiffs(before, bs, at));
  }

  lemma {:induction false} ForgetBranchDiffs(parent: Json, bs: seq<Branch>, parent': Json, cs: seq<Branch>, at: Path)
    requires (forall b <- bs :: b.before < parent) && (forall b <- cs :: b.before < parent')
    requires |cs| == |bs|
    requires forall i :: 0 <= i < |bs| ==> cs[i] == Branch(bs[i].step, Canon(bs[i].before), Canon(bs[i].after))
    ensures BranchDiffs(parent', cs, at) == ForgetAll(BranchDiffs(parent, bs, at))
    decreases parent, |bs|
  {
    hide DiffsAt, Canon;
    if bs != [] {
      var b := bs[0];
      DiffForgetsOrder(b.before, b.after, at + [b.step]);
      ForgetBranchDiffs(parent, bs[1..], parent', cs[1..], at);
      ForgetConcat(DiffsAt(b.before, b.after, at + [b.step]), BranchDiffs(parent, bs[1..], at));
    }
  }

  // ---------------------------------------------------------------- restriction to a subtree

  /** The entries at or below a path. */
  function Under(es: seq<Entry>, p: Path): seq<Entry> {
    if es == [] then []
    else (if p <= es[0].path then [es[0]] else []) + Under(es[1..], p)
  }

  lemma UnderConcat(a: seq<Entry>, b: seq<Entry>, p: Path)
    ensures Under(a + b, p) == Under(a, p) + Under(b, p)
  {
    if a == [] {
      assert a + b == b;
    } else {
      assert (a + b)[1..] == a[1..] + b;
    }
  }

  lemma UnderAll(es: seq<Entry>, p: Path)
    ensures (forall e <- es :: p <= e.path) ==> Under(es, p) == es
    ensures (forall e <- es :: !(p <= e.path)) ==> Under(es, p) == []
    ensures forall e :: e in Under(es, p) <==> e in es && p <= e.path
  {
  }

  lemma {:induction false} UnderBranches(parent: Json, bs: seq<Branch>, at: Path, s: Step, p: Path)
    requires forall b <- bs :: b.before < parent
    requires forall i, j :: 0 <= i < j < |bs| ==> bs[i].step != bs[j].step
    ensures forall b <- bs | b.step == s ::
              Under(BranchDiffs(parent, bs, at), at + [s] + p) ==
              Under(DiffsAt(b.before, b.after, at + [s]), at + [s] + p)
    ensures (forall b <- bs :: b.step != s) ==> Under(BranchDiffs(parent, bs, at), at + [s] + p) == []
  {
    hide DiffsAt;
    if bs != [] {
      var q := at + [s] + p;
      var first, rest := DiffsAt(bs[0].before, bs[0].after, at + [bs[0].step]), BranchDiffs(parent, bs[1..], at);
      UnderConcat(first, rest, q);
      UnderBranches(parent, bs[1..], at, s, p);
      if bs[0].step != s {
        EntriesBelow(bs[0].before, bs[0].after, at + [bs[0].step]);
        assert forall e <- first :: e.path[|at|] == bs[0].step;
        assert q[|at|] == s;
        UnderAll(first, q);
      }
    }
  }

  /** The entries below a place both trees have are the diff of the two subtrees there. */
  lemma {:induction false} DiffRestricts(before: Json, after: Json, at: Path, p: Path)
    requires Walk(before, after, p).Some?
    ensures var (x, y) := Walk(before, after, p).value;
            Under(DiffsAt(before, after, at), at + p) == DiffsAt(x, y, at + p)
    decreases |p|
  {
    hide LocalDiff, Branches, Down, Sorted, BranchDiffs;
    if p == [] {
      assert at + p == at;
      EntriesBelow(before, after, at);
      UnderAll(DiffsAt(before, after, at), at);
    } else {
      var b := Down(before, after, p[0]).value;
      DownStep(before, after, p[0]);
      BranchesAreDown(before, after);
      var bs := Branches(before, after);
      assert p == [p[0]] + p[1..];
      assert at + p == at + [p[0]] + p[1..];
      UnderConcat(LocalEntries(before, after, at), BranchDiffs(before, bs, at), at + p);
      UnderAll(LocalEntries(before, after, at), at + p);
      UnderBranches(before, bs, at, p[0], p[1..]);
      DiffRestricts(b.before, b.after, at + [p[0]], p[1..]);
    }
  }
}
