/** The string leaves of a tree: the program lists them in dict order, which the proofs
    replace by an order-free multiset, and the diff conserves. */
module Strings {
  import opened Text
  import opened Json
  import opened TreeDiff
  import opened DiffTheorems

  /** `_strings`: every string value, dict values in insertion order, list items by position. */
  function StringsOf(j: Json): seq<string>
    decreases j
  {
    match j
    case Str(s) => [s]
    case Obj(order, m) => FieldStrings(j, order)
    case Arr(items) => ItemStrings(j, 0)
    case _ => []
  }

  function FieldStrings(j: Json, keys: seq<string>): seq<string>
    requires j.Obj?
    decreases j, |keys|
  {
    if keys == [] then []
    else (if keys[0] in j.m then StringsOf(j.m[keys[0]]) else []) + FieldStrings(j, keys[1..])
  }

  function ItemStrings(j: Json, i: nat): seq<string>
    requires j.Arr? && i <= |j.items|
    decreases j, |j.items| - i
  {
    if i == |j.items| then [] else StringsOf(j.items[i]) + ItemStrings(j, i + 1)
  }

  // ---------------------------------------------------------------- the multiset of strings

  function KeyChildren(j: Json, ks: seq<string>): (cs: seq<Json>)
    requires j.Obj? && forall k <- ks :: k in j.m
    ensures |cs| == |ks| && forall i :: 0 <= i < |ks| ==> cs[i] == j.m[ks[i]]
    ensures forall i :: 0 <= i < |cs| ==> cs[i] < j
  {
    if ks == [] then [] else [j.m[ks[0]]] + KeyChildren(j, ks[1..])
  }

  /** Dict values by sorted key, list items by position. */
  function Children(j: Json): (cs: seq<Json>)
    ensures forall i :: 0 <= i < |cs| ==> cs[i] < j
  {
    match j
    case Arr(items) => items
    case Obj(_, m) => KeyChildren(j, Sorted(m.Keys))
    case _ => []
  }

  /** All string leaves of a tree, with multiplicity. */
  function Bag(j: Json): multiset<string>
    decreases j
  {
    if j.Str? then multiset{j.s} else BagAll(j, Children(j))
  }

  function BagAll(parent: Json, cs: seq<Json>): multiset<string>
    requires forall i :: 0 <= i < |cs| ==> cs[i] < parent
    decreases parent, |cs|
  {
    if cs == [] then multiset{} else Bag(cs[0]) + BagAll(parent, cs[1..])
  }

  lemma {:induction false} BagAllRemove(parent: Json, cs: seq<Json>, i: nat)
    requires forall i :: 0 <= i < |cs| ==> cs[i] < parent
    requires i < |cs|
    ensures BagAll(parent, cs) == Bag(cs[i]) + BagAll(parent, cs[..i] + cs[i + 1..])
  {
    hide Bag;
    var ds := cs[..i] + cs[i + 1..];
    if i == 0 {
      assert ds == cs[1..];
    } else {
      BagAllRemove(parent, cs[1..], i - 1);
      assert ds[0] == cs[0] && ds[1..] == cs[1..][..i - 1] + cs[1..][i..];
    }
  }

  lemma RemoveFromBoth<T>(xs: seq<T>, ys: seq<T>, i: nat)
    requires xs != [] && i < |ys| && ys[i] == xs[0]
    requires multiset(xs) == multiset(ys)
    ensures multiset(xs[1..]) == multiset(ys[..i] + ys[i + 1..])
  {
    assert xs == [xs[0]] + xs[1..];
    assert ys == ys[..i] + [ys[i]] + ys[i + 1..];
    assert multiset(xs[1..]) == multiset(xs) - multiset{xs[0]};
    assert multiset(ys[..i] + ys[i + 1..]) == multiset(ys) - multiset{ys[i]};
  }

  /** The multiset does not depend on the order in which a dict's keys are visited. */
  lemma {:induction false} KeyOrderIrrelevant(j: Json, ks: seq<string>, ls: seq<string>)
    requires j.Obj? && (forall k <- ks :: k in j.m) && (forall k <- ls :: k in j.m)
    requires multiset(ks) == multiset(ls)
    ensures BagAll(j, KeyChildren(j, ks)) == BagAll(j, KeyChildren(j, ls))
    decreases |ks|
  {
    hide Bag;
    if ks == [] {
      assert |multiset(ls)| == 0;
    } else {
      assert ks[0] in multiset(ls);
      var i :| 0 <= i < |ls| && ls[i] == ks[0];
      var rest := ls[..i] + ls[i + 1..];
      RemoveFromBoth(ks, ls, i);
      KeyOrderIrrelevant(j, ks[1..], rest);
      BagAllRemove(j, KeyChildren(j, ls), i);
      KeyChildrenRemove(j, ls, i);
      assert KeyChildren(j, ks)[1..] == KeyChildren(j, ks[1..]);
    }
  }

  lemma KeyChildrenRemove(j: Json, ls: seq<string>, i: nat)
    requires j.Obj? && (forall k <- ls :: k in j.m) && i < |ls|
    ensures KeyChildren(j, ls[..i] + ls[i + 1..]) == KeyChildren(j, ls)[..i] + KeyChildren(j, ls)[i + 1..]
  {
  }

  /** The program's list of strings, whatever the dict orders, has this multiset. */
  lemma {:induction false} StringsAreTheBag(j: Json)
    requires Wf(j)
    ensures multiset(StringsOf(j)) == Bag(j)
    decreases j
  {
    hide Sorted, BagAll, FieldStrings, ItemStrings, KeyChildren;
    match j
    case Obj(order, m) =>
      var ks := Sorted(m.Keys);
      FieldStringsBag(j, order);
      DistinctListingsAgree(order, ks);
      KeyOrderIrrelevant(j, order, ks);
    case Arr(items) =>
      ItemStringsBag(j, 0);
      assert items[0..] == items;
    case _ => ScalarBag(j);
  }

  lemma ScalarBag(j: Json)
    requires Scalar(j)
    ensures Bag(j) == TextOf(j)
  {
  }

  lemma {:induction false} FieldStringsBag(j: Json, keys: seq<string>)
    requires Wf(j) && j.Obj? && forall k <- keys :: k in j.m
    ensures multiset(FieldStrings(j, keys)) == BagAll(j, KeyChildren(j, keys))
    decreases j, |keys|
  {
    hide Bag, StringsOf;
    if keys != [] {
      StringsAreTheBag(j.m[keys[0]]);
      FieldStringsBag(j, keys[1..]);
      assert KeyChildren(j, keys)[1..] == KeyChildren(j, keys[1..]);
    }
  }

  lemma {:induction false} ItemStringsBag(j: Json, i: nat)
    requires Wf(j) && j.Arr? && i <= |j.items|
    ensures multiset(ItemStrings(j, i)) == BagAll(j, j.items[i..])
    decreases j, |j.items| - i
  {
    hide Bag, StringsOf;
    if i < |j.items| {
      StringsAreTheBag(j.items[i]);
      ItemStringsBag(j, i + 1);
      assert j.items[i..][1..] == j.items[i + 1..];
    }
  }

  // ---------------------------------------------------------------- conservation

  function TextOf(j: Json): multiset<string> {
    if j.Str? then multiset{j.s} else multiset{}
  }

  /** The strings a diff takes out. */
  function Removed(es: seq<Entry>): multiset<string> {
    if es == [] then multiset{} else TextOf(es[0].before) + Removed(es[1..])
  }

  /** The strings a diff puts in. */
  function Added(es: seq<Entry>): multiset<string> {
    if es == [] then multiset{} else TextOf(es[0].after) + Added(es[1..])
  }

  lemma NothingMoves()
    ensures Removed([]) == multiset{} && Added([]) == multiset{}
  {
  }

  lemma RemovedConcat(a: seq<Entry>, b: seq<Entry>)
    ensures Removed(a + b) == Removed(a) + Removed(b)
    ensures Added(a + b) == Added(a) + Added(b)
  {
    if a == [] {
      assert a + b == b;
    } else {
      assert (a + b)[1..] == a[1..] + b;
    }
  }

  lemma AddBoth(a: multiset<string>, r: multiset<string>, b: multiset<string>, d: multiset<string>,
                a': multiset<string>, r': multiset<string>, b': multiset<string>, d': multiset<string>)
    requires a + r == b + d && a' + r' == b' + d'
    ensures (a + a') + (r + r') == (b + b') + (d + d')
  {
    assert (a + a') + (r + r') == (a + r) + (a' + r');
    assert (b + b') + (d + d') == (b + d) + (b' + d');
  }

  /** With only value entries, the strings of the new tree are those of the old one, less
      the ones taken out, plus the ones put in. */
  lemma {:induction false} DiffConservesStrings(before: Json, after: Json, at: Path)
    requires AllValues(DiffsAt(before, after, at))
    ensures Bag(after) + Removed(DiffsAt(before, after, at)) == Bag(before) + Added(DiffsAt(before, after, at))
    decreases before
  {
    LocalFacts(before, after);
    assert forall e <- LocalEntries(before, after, at) :: e in DiffsAt(before, after, at);
    if Scalar(before) || LocalDiff(before, after).Some? {
      ScalarsConserve(before, after, at);
    } else {
      ContainersConserve(before, after, at);
    }
  }

  lemma {:induction false} ContainersConserve(before: Json, after: Json, at: Path)
    requires !Scalar(before) && !Scalar(after) && LocalDiff(before, after).None?
    requires AllValues(DiffsAt(before, after, at))
    ensures Bag(after) + Removed(DiffsAt(before, after, at)) == Bag(before) + Added(DiffsAt(before, after, at))
    decreases before, 1
  {
    hide LocalDiff, Branches, Sorted, BranchDiffs, Children, BagAll;
    var bs := Branches(before, after);
    assert DiffsAt(before, after, at) == BranchDiffs(before, bs, at);
    BranchesPairChildren(before, after);
    BranchesConserve(before, bs, Children(before), after, Children(after), at);
  }

  lemma ScalarsConserve(before: Json, after: Json, at: Path)
    requires Scalar(before) && Scalar(after)
    ensures Bag(after) + Removed(DiffsAt(before, after, at)) == Bag(before) + Added(DiffsAt(before, after, at))
  {
    ScalarBag(before);
    ScalarBag(after);
    NothingMoves();
    var es := DiffsAt(before, after, at);
    assert Branches(before, after) == [];
    assert BranchDiffs(before, Branches(before, after), at) == [];
    assert es == LocalEntries(before, after, at);
    if before != after {
      assert es[0].before == before && es[0].after == after && es[1..] == [];
    }
  }

  lemma BranchesPairChildren(before: Json, after: Json)
    requires LocalDiff(before, after).None?
    ensures var bs := Branches(before, after);
            && |Children(before)| == |Children(after)| == |bs|
            && forall i :: 0 <= i < |bs| ==> bs[i].before == Children(before)[i] && bs[i].after == Children(after)[i]
  {
    hide Sorted, LocalDiff;
    LocalFacts(before, after);
    if before.Obj? { assert before.m.Keys * after.m.Keys == before.m.Keys; }
  }

  lemma {:induction false} BranchesConserve(
      before: Json, bs: seq<Branch>, cs: seq<Json>, after: Json, ds: seq<Json>, at: Path)
    requires forall b <- bs :: b.before < before
    requires forall i :: 0 <= i < |cs| ==> cs[i] < before
    requires forall i :: 0 <= i < |ds| ==> ds[i] < after
    requires |bs| == |cs| == |ds|
    requires forall i :: 0 <= i < |bs| ==> bs[i].before == cs[i] && bs[i].after == ds[i]
    requires AllValues(BranchDiffs(before, bs, at))
    ensures BagAll(after, ds) + Removed(BranchDiffs(before, bs, at)) ==
            BagAll(before, cs) + Added(BranchDiffs(before, bs, at))
    decreases before, 0, |bs|
  {
    hide DiffsAt, Bag, Removed, Added;
    NothingMoves();
    if bs != [] {
      var first, rest := DiffsAt(cs[0], ds[0], at + [bs[0].step]), BranchDiffs(before, bs[1..], at);
      assert BranchDiffs(before, bs, at) == first + rest;
      assert AllValues(first) && AllValues(rest);
      RemovedConcat(first, rest);
      DiffConservesStrings(cs[0], ds[0], at + [bs[0].step]);
      BranchesConserve(before, bs[1..], cs[1..], after, ds[1..], at);
      AddBoth(Bag(ds[0]), Removed(first), Bag(cs[0]), Added(first),
              BagAll(after, ds[1..]), Removed(rest), BagAll(before, cs[1..]), Added(rest));
    }
  }

  /** Equal trees have the same strings. */
  lemma SameTreeSameBag(a: Json, b: Json)
    requires SameTree(a, b)
    ensures Bag(a) == Bag(b)
  {
    hide DiffsAt, Differences, Canon, Bag;
    NoDifferencesIffSameTree(a, b);
    NothingMoves();
    DiffConservesStrings(a, b, []);
    assert Bag(a) + multiset{} == Bag(a) && Bag(b) + multiset{} == Bag(b);
  }
}
