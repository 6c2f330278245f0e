/** The recursive structural diff of two JSON trees. `Differences` is the program's own
    diff, whose entries carry paths rendered as dotted text. `DiffsAt` is the same walk
    with structured paths; the theorems are about it and `RenderedDiff` carries them over. */
module TreeDiff {
  import opened Text
  import opened Decimal
  import opened Json

  datatype Kind = TypeKind | KeysKind | LengthKind | ValueKind
  datatype Local = Local(kind: Kind, before: Json, after: Json)
  datatype Difference = Difference(path: string, kind: Kind, before: Json, after: Json)
  datatype Entry = Entry(path: Path, kind: Kind, before: Json, after: Json)

  function Strs(ks: seq<string>): Json {
    Arr(seq(|ks|, i requires 0 <= i < |ks| => Str(ks[i])))
  }

  /** What the diff reports about one pair of nodes, before looking at their children. */
  function LocalDiff(before: Json, after: Json): Option<Local> {
    if TypeOf(before) != TypeOf(after) then Some(Local(TypeKind, before, after))
    else if before.Obj? then
      if before.m.Keys == after.m.Keys then None
      else
        var removed, added := before.m.Keys - after.m.Keys, after.m.Keys - before.m.Keys;
        Some(Local(KeysKind, Strs(Sorted(removed)), Strs(Sorted(added))))
    else if before.Arr? then
      if |before.items| == |after.items| then None
      else Some(Local(LengthKind, Int(|before.items|), Int(|after.items|)))
    else if before == after then None
    else Some(Local(ValueKind, before, after))
  }

  /** A pair of children that the diff compares next, and the step that leads to both. */
  datatype Branch = Branch(step: Step, before: Json, after: Json)

  /** The pair of children one step down, if the diff takes that step: a key both dicts
      have, or an index of two lists of one length. */
  function Down(before: Json, after: Json, s: Step): Option<Branch> {
    match s
    case Key(k) =>
      if before.Obj? && after.Obj? && k in before.m && k in after.m
      then Some(Branch(s, before.m[k], after.m[k])) else None
    case Index(i) =>
      if before.Arr? && after.Arr? && |before.items| == |after.items| && i < |before.items|
      then Some(Branch(s, before.items[i], after.items[i])) else None
  }

  function KeyBranches(before: Json, after: Json, ks: seq<string>): (bs: seq<Branch>)
    requires before.Obj? && after.Obj?
    requires forall k <- ks :: k in before.m && k in after.m
    ensures |bs| == |ks|
    ensures forall i :: 0 <= i < |ks| ==> bs[i] == Branch(Key(ks[i]), before.m[ks[i]], after.m[ks[i]])
    ensures forall b <- bs :: b.before < before
  {
    if ks == [] then []
    else [Branch(Key(ks[0]), before.m[ks[0]], after.m[ks[0]])] + KeyBranches(before, after, ks[1..])
  }

  function ItemBranches(before: Json, after: Json): (bs: seq<Branch>)
    requires before.Arr? && after.Arr? && |before.items| == |after.items|
    ensures |bs| == |before.items|
    ensures forall i :: 0 <= i < |bs| ==> bs[i] == Branch(Index(i), before.items[i], after.items[i])
    ensures forall b <- bs :: b.before < before
  {
    seq(|before.items|, i requires 0 <= i < |before.items| => Branch(Index(i), before.items[i], after.items[i]))
  }

  /** The pairs of children in the order the diff visits them: shared keys sorted, list
      items by position, nothing below lists of different length. */
  function Branches(before: Json, after: Json): (bs: seq<Branch>)
    ensures forall b <- bs :: b.before < before
  {
    if before.Obj? && after.Obj? then KeyBranches(before, after, Sorted(before.m.Keys * after.m.Keys))
    else if before.Arr? && after.Arr? && |before.items| == |after.items| then ItemBranches(before, after)
    else []
  }

  lemma BranchesAreDown(before: Json, after: Json)
    ensures forall b <- Branches(before, after) :: Down(before, after, b.step) == Some(b)
    ensures forall s :: Down(before, after, s).Some? ==> Down(before, after, s).value in Branches(before, after)
    ensures forall i, j :: 0 <= i < j < |Branches(before, after)| ==>
              Branches(before, after)[i].step != Branches(before, after)[j].step
  {
    hide Sorted;
    var bs := Branches(before, after);
    forall b <- bs ensures Down(before, after, b.step) == Some(b) {
      var i :| 0 <= i < |bs| && bs[i] == b;
      if before.Obj? { assert Sorted(before.m.Keys * after.m.Keys)[i] in before.m.Keys * after.m.Keys; }
    }
    forall s | Down(before, after, s).Some? ensures Down(before, after, s).value in bs {
      match s
      case Key(k) =>
        var ks := Sorted(before.m.Keys * after.m.Keys);
        assert k in ks;
        var i :| 0 <= i < |ks| && ks[i] == k;
        assert bs[i].step == s;
      case Index(i) => assert bs[i].step == s;
    }
  }

  // ---------------------------------------------------------------- the program's diff

  function Extend(path: string, s: Step): string {
    match s
    case Key(k) => if path != "" then path + "." + k else k
    case Index(i) => path + "[" + Print(i) + "]"
  }

  function OrRoot(path: string): string {
    if path != "" then path else "$"
  }

  function Differences(before: Json, after: Json, path: string): seq<Difference>
    decreases before
  {
    (match LocalDiff(before, after)
     case Some(d) => [Difference(OrRoot(path), d.kind, d.before, d.after)]
     case None => [])
    + BranchDifferences(before, Branches(before, after), path)
  }

  function BranchDifferences(parent: Json, bs: seq<Branch>, path: string): seq<Difference>
    requires forall b <- bs :: b.before < parent
    decreases parent, |bs|
  {
    if bs == [] then []
    else
      Differences(bs[0].before, bs[0].after, Extend(path, bs[0].step)) + BranchDifferences(parent, bs[1..], path)
  }

  // ---------------------------------------------------------------- structured paths

  function LocalEntries(before: Json, after: Json, at: Path): seq<Entry> {
    match LocalDiff(before, after)
    case Some(d) => [Entry(at, d.kind, d.before, d.after)]
    case None => []
  }

  function DiffsAt(before: Json, after: Json, at: Path): seq<Entry>
    decreases before
  {
    LocalEntries(before, after, at) + BranchDiffs(before, Branches(before, after), at)
  }

  function BranchDiffs(parent: Json, bs: seq<Branch>, at: Path): seq<Entry>
    requires forall b <- bs :: b.before < parent
    decreases parent, |bs|
  {
    if bs == [] then []
    else DiffsAt(bs[0].before, bs[0].after, at + [bs[0].step]) + BranchDiffs(parent, bs[1..], at)
  }

  /** How the program writes a path down. */
  function Render(p: Path): string {
    if p == [] then ""
    else Extend(Render(p[..|p| - 1]), p[|p| - 1])
  }

  function RenderEntry(e: Entry): Difference {
    Difference(OrRoot(Render(e.path)), e.kind, e.before, e.after)
  }

  function RenderAll(es: seq<Entry>): seq<Difference> {
    seq(|es|, i requires 0 <= i < |es| => RenderEntry(es[i]))
  }

  lemma RenderStep(p: Path, s: Step)
    ensures Render(p + [s]) == Extend(Render(p), s)
  {
    assert (p + [s])[..|p + [s]| - 1] == p;
  }

  lemma RenderConcat(a: seq<Entry>, b: seq<Entry>)
    ensures RenderAll(a + b) == RenderAll(a) + RenderAll(b)
  {
  }

  /** The program's diff is the structured diff with its paths written down. */
  lemma {:induction false} RenderedDiff(before: Json, after: Json, at: Path)
    ensures Differences(before, after, Render(at)) == RenderAll(DiffsAt(before, after, at))
    decreases before
  {
    hide Sorted, Extend, Print, Render, Down, Branches;
    var bs := Branches(before, after);
    RenderedBranches(before, bs, at);
    RenderConcat(LocalEntries(before, after, at), BranchDiffs(before, bs, at));
  }

  lemma {:induction false} RenderedBranches(parent: Json, bs: seq<Branch>, at: Path)
    requires forall b <- bs :: b.before < parent
    ensures BranchDifferences(parent, bs, Render(at)) == RenderAll(BranchDiffs(parent, bs, at))
    decreases parent, |bs|
  {
    hide Sorted, Extend, Print, Render, RenderEntry, LocalDiff, Branches, Differences, DiffsAt;
    if bs != [] {
      var b := bs[0];
      RenderStep(at, b.step);
      RenderedDiff(b.before, b.after, at + [b.step]);
      RenderedBranches(parent, bs[1..], at);
      RenderConcat(DiffsAt(b.before, b.after, at + [b.step]), BranchDiffs(parent, bs[1..], at));
    }
  }

  // ---------------------------------------------------------------- which entries there are

  /** The pair of nodes the diff compares at a relative path, if it gets there. */
  function Walk(before: Json, after: Json, p: Path): Option<(Json, Json)> {
    if p == [] then Some((before, after))
    else match Down(before, after, p[0])
      case None => None
      case Some(b) => Walk(b.before, b.after, p[1..])
  }

  lemma WalkAppend(before: Json, after: Json, p: Path, s: Step)
    requires Walk(before, after, p).Some?
    ensures var (x, y) := Walk(before, after, p).value;
            match Down(x, y, s)
            case None => Walk(before, after, p + [s]).None?
            case Some(b) => Walk(before, after, p + [s]) == Some((b.before, b.after))
  {
    if p == [] {
      assert p + [s] == [s] && [s][1..] == [];
    } else {
      assert (p + [s])[0] == p[0] && (p + [s])[1..] == p[1..] + [s];
      var b := Down(before, after, p[0]).value;
      WalkAppend(b.before, b.after, p[1..], s);
    }
  }

  lemma {:induction false} WalkIsAt(before: Json, after: Json, p: Path)
    requires Walk(before, after, p).Some?
    ensures At(before, p) == Some(Walk(before, after, p).value.0)
    ensures At(after, p) == Some(Walk(before, after, p).value.1)
    decreases |p|
  {
    if p != [] {
      var b := Down(before, after, p[0]).value;
      WalkIsAt(b.before, b.after, p[1..]);
    }
  }

  lemma {:induction false} InBranches(parent: Json, bs: seq<Branch>, at: Path, e: Entry)
    requires forall b <- bs :: b.before < parent
    ensures e in BranchDiffs(parent, bs, at) <==>
            exists b <- bs :: e in DiffsAt(b.before, b.after, at + [b.step])
  {
    hide DiffsAt;
    if bs != [] {
      InBranches(parent, bs[1..], at, e);
      assert forall b :: b in bs <==> b == bs[0] || b in bs[1..];
    }
  }

  /** e is what the comparison reports at the relative path e.path[|at|..]. */
  ghost predicate Reported(before: Json, after: Json, at: Path, e: Entry) {
    && at <= e.path
    && Walk(before, after, e.path[|at|..]).Some?
    && var (x, y) := Walk(before, after, e.path[|at|..]).value;
       LocalDiff(x, y) == Some(Local(e.kind, e.before, e.after))
  }

  lemma ReportedBelow(before: Json, after: Json, at: Path, e: Entry, b: Branch)
    requires Down(before, after, b.step) == Some(b)
    requires at + [b.step] <= e.path
    ensures Reported(before, after, at, e) <==> Reported(b.before, b.after, at + [b.step], e)
  {
    hide LocalDiff, Down;
    var p := e.path[|at|..];
    assert at <= e.path && p[0] == b.step && p[1..] == e.path[|at + [b.step]|..];
  }

  /** The diff reports exactly the local differences at the places the comparison reaches. */
  lemma {:induction false} DiffIsExact(before: Json, after: Json, at: Path, e: Entry)
    ensures e in DiffsAt(before, after, at) <==> Reported(before, after, at, e)
    decreases before
  {
    hide Sorted, Branches, Reported, LocalDiff, Down;
    var bs := Branches(before, after);
    BranchesAreDown(before, after);
    InBranches(before, bs, at, e);
    forall b <- bs
      ensures e in DiffsAt(b.before, b.after, at + [b.step]) <==>
              at + [b.step] <= e.path && Reported(before, after, at, e)
    {
      DiffIsExact(b.before, b.after, at + [b.step], e);
      ReportedShape(b.before, b.after, at + [b.step], e);
      if at + [b.step] <= e.path { ReportedBelow(before, after, at, e, b); }
    }
    ReportedShape(before, after, at, e);
    LocalShape(before, after, at, e);
  }

  lemma DownStep(before: Json, after: Json, s: Step)
    ensures Down(before, after, s).Some? ==> Down(before, after, s).value.step == s
  {
  }

  lemma ReportedShape(before: Json, after: Json, at: Path, e: Entry)
    ensures Reported(before, after, at, e) ==>
            at <= e.path && (e.path != at ==> exists b <- Branches(before, after) :: at + [b.step] <= e.path)
  {
    hide LocalDiff, Down;
    if Reported(before, after, at, e) && e.path != at {
      var p := e.path[|at|..];
      assert p != [] && at + [p[0]] <= e.path;
      BranchesAreDown(before, after);
      var b := Down(before, after, p[0]).value;
      assert b in Branches(before, after) && Down(before, after, b.step) == Some(b);
      assert b.step == p[0] by { DownStep(before, after, p[0]); }
    }
  }

  lemma LocalShape(before: Json, after: Json, at: Path, e: Entry)
    ensures e in LocalEntries(before, after, at) <==> e.path == at && Reported(before, after, at, e)
  {
    assert e.path == at ==> e.path[|at|..] == [];
  }

  /** The whole comparison reports an entry exactly where it reaches a local difference. */
  lemma RootDiff(before: Json, after: Json, e: Entry)
    ensures e in DiffsAt(before, after, []) <==>
            && Walk(before, after, e.path).Some?
            && var (x, y) := Walk(before, after, e.path).value;
               LocalDiff(x, y) == Some(Local(e.kind, e.before, e.after))
  {
    hide DiffsAt, Walk, LocalDiff;
    DiffIsExact(before, after, [], e);
    assert e.path[0..] == e.path;
  }
}
