/** Python string operations used by the modelled code: affixes, splitting at a
    character, and the code-point order that `sorted` uses on dictionary keys. */
module Text {

  datatype Option<+T> = None | Some(value: T) {
    function GetOr(default: T): T {
      match this
      case Some(v) => v
      case None => default
    }
  }

  predicate EndsWith(s: string, suffix: string) {
    |suffix| <= |s| && s[|s| - |suffix|..] == suffix
  }

  /** Python's `s[:-n]`; for n == 0 the slice is `s[:0]`, the empty string. */
  function DropRight(s: string, n: nat): string
    requires n <= |s|
  {
    if n == 0 then "" else s[..|s| - n]
  }

  /** `s.split(c, 1)[0]`: everything before the first occurrence of c. */
  function Head(s: string, c: char): string {
    if s == "" || s[0] == c then "" else [s[0]] + Head(s[1..], c)
  }

  lemma HeadIsPrefixWithoutSeparator(s: string, c: char)
    ensures Head(s, c) <= s && c !in Head(s, c)
    ensures |Head(s, c)| < |s| ==> s[|Head(s, c)|] == c
    ensures c !in s ==> Head(s, c) == s
  {
  }

  lemma HeadOfConcat(s: string, t: string, c: char)
    ensures c in s ==> Head(s + t, c) == Head(s, c)
    ensures c !in s ==> Head(s + t, c) == s + Head(t, c)
  {
    if s == "" {
      assert s + t == t;
    } else {
      assert (s + t)[1..] == s[1..] + t;
      HeadOfConcat(s[1..], t, c);
    }
  }

  lemma ShorterCutLeavesSeparator(p: string, t: string, p': string, t': string, c: char)
    requires p' != "" && p'[|p'| - 1] == c
    requires p + t == p' + t'
    requires |p| < |p'|
    ensures c in t
  {
    assert t[|p'| - 1 - |p|] == (p + t)[|p'| - 1] == (p' + t')[|p'| - 1];
  }

  /** Two ways of cutting a string at its last occurrence of c are the same cut. */
  lemma LastCutIsUnique(p: string, t: string, p': string, t': string, c: char)
    requires p != "" && p' != "" && p[|p| - 1] == c && p'[|p'| - 1] == c
    requires c !in t && c !in t'
    requires p + t == p' + t'
    ensures p == p' && t == t'
  {
    if |p| < |p'| { ShorterCutLeavesSeparator(p, t, p', t', c); }
    if |p'| < |p| { ShorterCutLeavesSeparator(p', t', p, t, c); }
    assert p == (p + t)[..|p|] && p' == (p' + t')[..|p'|];
    assert t == (p + t)[|p|..] && t' == (p' + t')[|p'|..];
  }

  lemma EndsWithIsConcat(s: string, suffix: string)
    ensures EndsWith(s, suffix) ==> s == s[..|s| - |suffix|] + suffix
  {
  }

  lemma EndsWithConcat(p: string, t: string)
    ensures EndsWith(p + t, t)
    ensures DropRight(p + t, |t|) == if |t| == 0 then "" else p
  {
    assert (p + t)[|p|..] == t;
    assert (p + t)[..|p|] == p;
  }

  // ---------------------------------------------------------------- key order

  /** Code-point (lexicographic) order on strings, the order of Python's `sorted`. */
  predicate Leq(a: string, b: string) {
    a == "" || (b != "" && (a[0] < b[0] || (a[0] == b[0] && Leq(a[1..], b[1..]))))
  }

  lemma LeqTotal(a: string, b: string)
    ensures Leq(a, b) || Leq(b, a)
    ensures Leq(a, b) && Leq(b, a) ==> a == b
  {
    if a != "" && b != "" && a[0] == b[0] {
      LeqTotal(a[1..], b[1..]);
      assert a == [a[0]] + a[1..] && b == [b[0]] + b[1..];
    }
  }

  lemma LeqTransitive(a: string, b: string, c: string)
    requires Leq(a, b) && Leq(b, c)
    ensures Leq(a, c)
  {
  }

  predicate IsLeast(k: string, ks: set<string>) {
    k in ks && forall x <- ks :: Leq(k, x)
  }

  lemma LeastExists(ks: set<string>)
    requires ks != {}
    ensures exists k :: IsLeast(k, ks)
  {
    var x :| x in ks;
    if ks == {x} {
      LeqTotal(x, x);
      assert IsLeast(x, ks);
    } else {
      LeastExists(ks - {x});
      var y :| IsLeast(y, ks - {x});
      LeqTotal(x, y);
      LeqTotal(x, x);
      if Leq(y, x) {
        assert IsLeast(y, ks);
      } else {
        forall z <- ks ensures Leq(x, z) {
          if z != x { LeqTransitive(x, y, z); }
        }
        assert IsLeast(x, ks);
      }
    }
  }

  lemma LeastIsUnique(ks: set<string>)
    ensures forall a, b :: IsLeast(a, ks) && IsLeast(b, ks) ==> a == b
  {
    forall a, b | IsLeast(a, ks) && IsLeast(b, ks) ensures a == b { LeqTotal(a, b); }
  }

  function Least(ks: set<string>): (k: string)
    requires ks != {}
    ensures IsLeast(k, ks)
  {
    LeastExists(ks);
    LeastIsUnique(ks);
    var k :| k in ks && IsLeast(k, ks);
    k
  }

  ghost predicate Distinct<T(!new)>(xs: seq<T>) {
    forall i, j :: 0 <= i < j < |xs| ==> xs[i] != xs[j]
  }

  /** `sorted(ks)` for a set of strings: each element once, in code-point order. */
  function Sorted(ks: set<string>): (r: seq<string>)
    ensures forall k :: k in r <==> k in ks
    ensures Distinct(r)
    ensures forall i, j :: 0 <= i < j < |r| ==> Leq(r[i], r[j])
    ensures |r| == |ks|
    decreases |ks|
  {
    if ks == {} then []
    else
      var k := Least(ks);
      [k] + Sorted(ks - {k})
  }

  lemma EmptyIffNoMember<T(!new)>(xs: seq<T>)
    ensures xs == [] <==> forall x :: x !in xs
  {
    assert |xs| > 0 ==> xs[0] in xs;
  }

  /** Two duplicate-free listings of the same elements have the same multiset. */
  lemma DistinctListingsAgree<T(!new)>(xs: seq<T>, ys: seq<T>)
    requires Distinct(xs) && Distinct(ys)
    requires forall x :: x in xs <==> x in ys
    ensures multiset(xs) == multiset(ys)
  {
    forall x ensures multiset(xs)[x] == multiset(ys)[x] {
      DistinctCount(xs, x);
      DistinctCount(ys, x);
    }
  }

  lemma DistinctCount<T(!new)>(xs: seq<T>, x: T)
    requires Distinct(xs)
    ensures multiset(xs)[x] == if x in xs then 1 else 0
  {
    if xs != [] {
      assert xs == [xs[0]] + xs[1..];
      DistinctCount(xs[1..], x);
      assert forall i :: 0 <= i < |xs[1..]| ==> xs[1..][i] == xs[i + 1] != xs[0];
    }
  }
}
