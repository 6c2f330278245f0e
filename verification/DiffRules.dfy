/** What the diff reports about a pair of nodes, kind by kind, and the order of its report: a place
    before the places below it, keys in code-point order, list items by position. */
module DiffRules {
  import opened Text
  import opened Json
  import opened TreeDiff
  import opened DiffTheorems
  import opened Attribution

  // ---------------------------------------------------------------- code-point order

  /** a is a front part of b, or has the smaller code point where they first differ. */
  ghost predicate Lexicographic(a: string, b: string) {
    a <= b || exists n: nat :: FirstSmaller(a, b, n)
  }

  ghost predicate FirstSmaller(a: string, b: string, n: nat) {
    n < |a| && n < |b| && a[..n] == b[..n] && a[n] as int < b[n] as int
  }

  lemma {:induction false} LeqIsLexicographic(a: string, b: string)
    ensures Leq(a, b) <==> Lexicographic(a, b)
  {
    hide Lexicographic;
    if a == "" || b == "" {
      NothingToCompare(a, b);
    } else if a[0] == b[0] {
      LeqIsLexicographic(a[1..], b[1..]);
      SameFirst(a, b);
    } else {
      OtherFirst(a, b);
    }
  }

  lemma NothingToCompare(a: string, b: string)
    requires a == "" || b == ""
    ensures Lexicographic(a, b) <==> a == ""
  {
  }

  lemma SameFirst(a: string, b: string)
    requires a != "" && b != "" && a[0] == b[0]
    ensures Lexicographic(a, b) <==> Lexicographic(a[1..], b[1..])
  {
    var a', b' := a[1..], b[1..];
    assert a == [a[0]] + a' && b == [b[0]] + b';
    assert a <= b <==> a' <= b';
    if n: nat :| FirstSmaller(a', b', n) {
      assert a[..n + 1] == [a[0]] + a'[..n] && b[..n + 1] == [b[0]] + b'[..n];
      assert FirstSmaller(a, b, n + 1);
    }
    if n: nat :| FirstSmaller(a, b, n) {
      assert n > 0;
      assert a'[..n - 1] == a[..n][1..] && b'[..n - 1] == b[..n][1..];
      assert FirstSmaller(a', b', n - 1);
    }
  }

  lemma OtherFirst(a: string, b: string)
    requires a != "" && b != "" && a[0] != b[0]
    ensures Lexicographic(a, b) <==> a[0] < b[0]
  {
    if a[0] < b[0] { assert FirstSmaller(a, b, 0); }
    if n: nat :| FirstSmaller(a, b, n) { DiffersFirst(a, b, n); }
  }

  lemma DiffersFirst(a: string, b: string, n: nat)
    requires FirstSmaller(a, b, n)
    ensures a[0] == b[0] || a[0] < b[0]
  {
    if n > 0 { assert a[..n][0] == a[0] && b[..n][0] == b[0]; }
  }

  // ---------------------------------------------------------------- one pair of nodes

  /** Both are None, both booleans, both integers, and so on. */
  predicate SameKind(x: Json, y: Json) {
    || (x.Null? && y.Null?) || (x.Bool? && y.Bool?) || (x.Int? && y.Int?) || (x.Float? && y.Float?)
    || (x.Str? && y.Str?) || (x.Arr? && y.Arr?) || (x.Obj? && y.Obj?)
  }

  /** The list holds these keys, each once, in code-point order. */
  ghost predicate Lists(j: Json, keys: set<string>) {
    && j.Arr?
    && (forall i :: 0 <= i < |j.items| ==> j.items[i].Str? && j.items[i].s in keys)
    && (forall k <- keys :: Str(k) in j.items)
    && forall i, i' :: 0 <= i < i' < |j.items| ==>
         j.items[i] != j.items[i'] && Lexicographic(j.items[i].s, j.items[i'].s)
  }

  ghost predicate WrittenLocal(x: Json, y: Json, d: Local) {
    match d.kind
    case TypeKind => !SameKind(x, y) && d.before == x && d.after == y
    case KeysKind =>
      && x.Obj? && y.Obj? && x.m.Keys != y.m.Keys
      && Lists(d.before, x.m.Keys - y.m.Keys) && Lists(d.after, y.m.Keys - x.m.Keys)
    case LengthKind =>
      x.Arr? && y.Arr? && |x.items| != |y.items| && d.before == Int(|x.items|) && d.after == Int(|y.items|)
    case ValueKind =>
      SameKind(x, y) && !x.Arr? && !x.Obj? && x != y && d.before == x && d.after == y
  }

  /** Nothing to report here: the same scalar, or containers of the same shape. */
  predicate Alike(x: Json, y: Json) {
    && SameKind(x, y)
    && (if x.Obj? then x.m.Keys == y.m.Keys else if x.Arr? then |x.items| == |y.items| else x == y)
  }

  lemma StrsAt(ks: seq<string>)
    ensures Strs(ks).Arr? && |Strs(ks).items| == |ks|
    ensures forall i :: 0 <= i < |ks| ==> Strs(ks).items[i] == Str(ks[i])
  {
  }

  lemma SortedLists(keys: set<string>)
    ensures Lists(Strs(Sorted(keys)), keys)
  {
    hide Lexicographic, Sorted, Strs, Leq;
    var ks, j := Sorted(keys), Strs(Sorted(keys));
    StrsAt(ks);
    forall k <- keys ensures Str(k) in j.items {
      assert k in ks;
      var i :| 0 <= i < |ks| && ks[i] == k;
      assert j.items[i] == Str(k);
    }
    forall i, i' | 0 <= i < i' < |ks| ensures ks[i] != ks[i'] && Lexicographic(ks[i], ks[i']) {
      LeqIsLexicographic(ks[i], ks[i']);
    }
  }

  /** What the diff reports about a pair of nodes: the kind, and both sides of it. */
  lemma LocalWritten(x: Json, y: Json)
    ensures LocalDiff(x, y) == None <==> Alike(x, y)
    ensures LocalDiff(x, y).Some? ==> WrittenLocal(x, y, LocalDiff(x, y).value)
  {
    hide Lists, Sorted, Strs, TypeOf, SameKind;
    KindIff(x, y);
    if x.Obj? && y.Obj? {
      SortedLists(x.m.Keys - y.m.Keys);
      SortedLists(y.m.Keys - x.m.Keys);
    }
  }

  lemma KindIff(x: Json, y: Json)
    ensures TypeOf(x) == TypeOf(y) <==> SameKind(x, y)
    ensures SameKind(x, y) ==> x.Obj? == y.Obj? && x.Arr? == y.Arr?
    ensures !SameKind(x, y) ==> !(x.Obj? && y.Obj?) && !(x.Arr? && y.Arr?) && x != y
  {
  }

  // ---------------------------------------------------------------- how places are written down

  /** The whole tree is written `$`; another place as its first key, then `.key` and `[index]`. */
  lemma PlacesWritten(e: Entry, k: string, q: Path)
    ensures e.path == [] ==> RenderEntry(e).path == "$"
    ensures k != "" && e.path == [Key(k)] + q ==> RenderEntry(e).path == k + Tail(q)
  {
    hide Tail;
    if k != "" { RenderFront(k, q); }
  }

  // ---------------------------------------------------------------- the order of the report

  ghost predicate StepBefore(s: Step, t: Step) {
    match (s, t)
    case (Key(k), Key(l)) => k != l && Lexicographic(k, l)
    case (Index(i), Index(j)) => i < j
    case _ => false
  }

  /** p leads to q, or comes first where they part. */
  ghost predicate PathBefore(p: Path, q: Path) { exists n: nat :: PartsAt(p, q, n) }

  ghost predicate PartsAt(p: Path, q: Path, n: nat) {
    n <= |p| && n < |q| && p[..n] == q[..n] && (n == |p| || StepBefore(p[n], q[n]))
  }

  ghost predicate InOrder(es: seq<Entry>) {
    forall i, j :: 0 <= i < j < |es| ==> PathBefore(es[i].path, es[j].path)
  }

  lemma BranchesInOrder(x: Json, y: Json)
    ensures var bs := Branches(x, y); forall i, j :: 0 <= i < j < |bs| ==> StepBefore(bs[i].step, bs[j].step)
  {
    hide Lexicographic;
    var bs := Branches(x, y);
    forall i, j | 0 <= i < j < |bs| ensures StepBefore(bs[i].step, bs[j].step) {
      if x.Obj? {
        var ks := Sorted(x.m.Keys * y.m.Keys);
        assert ks[i] != ks[j] && Leq(ks[i], ks[j]);
        LeqIsLexicographic(ks[i], ks[j]);
      }
    }
  }

  /** The diff reports a place before the places below it, and children in order. */
  lemma {:induction false} DiffInOrder(x: Json, y: Json, at: Path)
    ensures InOrder(DiffsAt(x, y, at))
    decreases x
  {
    hide LocalDiff, Branches, Down, Sorted, BranchDiffs, StepBefore;
    var bs := Branches(x, y);
    BranchesInOrder(x, y);
    BranchDiffsInOrder(x, bs, at);
    BranchEntriesBelow(x, bs, at);
    var rest := BranchDiffs(x, bs, at);
    forall e <- rest ensures PathBefore(at, e.path) {
      var b :| b in bs && at + [b.step] <= e.path;
      assert PartsAt(at, e.path, |at|);
    }
  }

  lemma {:induction false} BranchDiffsInOrder(parent: Json, bs: seq<Branch>, at: Path)
    requires forall b <- bs :: b.before < parent
    requires forall i, j :: 0 <= i < j < |bs| ==> StepBefore(bs[i].step, bs[j].step)
    ensures InOrder(BranchDiffs(parent, bs, at))
    decreases parent, |bs|
  {
    hide DiffsAt, StepBefore;
    if bs != [] {
      var b := bs[0];
      DiffInOrder(b.before, b.after, at + [b.step]);
      BranchDiffsInOrder(parent, bs[1..], at);
      EntriesBelow(b.before, b.after, at + [b.step]);
      BranchEntriesBelow(parent, bs[1..], at);
      var first, rest := DiffsAt(b.before, b.after, at + [b.step]), BranchDiffs(parent, bs[1..], at);
      forall e, f | e in first && f in rest ensures PathBefore(e.path, f.path) {
        var c :| c in bs[1..] && at + [c.step] <= f.path;
        PartHere(at, b.step, c.step, e.path, f.path);
      }
      ConcatInOrder(first, rest);
    }
  }

  lemma PartHere(at: Path, s: Step, t: Step, p: Path, q: Path)
    requires at + [s] <= p && at + [t] <= q && StepBefore(s, t)
    ensures PathBefore(p, q)
  {
    hide StepBefore;
    assert p[..|at|] == at && q[..|at|] == at && p[|at|] == s && q[|at|] == t;
    assert PartsAt(p, q, |at|);
  }

  lemma ConcatInOrder(a: seq<Entry>, b: seq<Entry>)
    requires InOrder(a) && InOrder(b)
    requires forall e, f :: e in a && f in b ==> PathBefore(e.path, f.path)
    ensures InOrder(a + b)
  {
    hide PathBefore;
  }
}
