/** Parsed JSON as Python holds it. A dict is its key-to-value map together with the
    insertion order of its keys; two dicts that differ only in that order are equal in
    Python, which `SameTree` captures while keeping bool, int and float apart. */
module Json {
  import opened Text

  datatype Json =
    | Null
    | Bool(b: bool)
    | Int(i: int)
    | Float(x: real)
    | Str(s: string)
    | Arr(items: seq<Json>)
    | Obj(order: seq<string>, m: map<string, Json>)

  /** `type(v)` of a parsed JSON value. */
  datatype Type = NoneType | BoolType | IntType | FloatType | StrType | ListType | DictType

  function TypeOf(j: Json): Type {
    match j
    case Null => NoneType
    case Bool(_) => BoolType
    case Int(_) => IntType
    case Float(_) => FloatType
    case Str(_) => StrType
    case Arr(_) => ListType
    case Obj(_, _) => DictType
  }

  predicate Scalar(j: Json) { !j.Arr? && !j.Obj? }

  /** Every dict lists each of its keys exactly once. */
  ghost predicate Wf(j: Json) {
    match j
    case Arr(items) => forall i :: 0 <= i < |items| ==> Wf(items[i])
    case Obj(order, m) =>
      && Distinct(order)
      && (forall k :: k in order <==> k in m)
      && (forall k <- m :: Wf(m[k]))
    case _ => true
  }

  /** `d.get(key)`: a missing key reads as None. */
  function Get(j: Json, key: string): Json {
    if j.Obj? && key in j.m then j.m[key] else Null
  }

  /** Python truth value. */
  predicate Truthy(j: Json) {
    match j
    case Null => false
    case Bool(b) => b
    case Int(i) => i != 0
    case Float(x) => x != 0.0
    case Str(s) => s != ""
    case Arr(items) => items != []
    case Obj(_, m) => m != map[]
  }

  /** The same tree with every dict's keys in sorted order. */
  function Canon(j: Json): Json {
    match j
    case Arr(items) => Arr(seq(|items|, i requires 0 <= i < |items| => Canon(items[i])))
    case Obj(_, m) => Obj(Sorted(m.Keys), map k | k in m :: Canon(m[k]))
    case _ => j
  }

  ghost predicate SameTree(a: Json, b: Json) { Canon(a) == Canon(b) }

  lemma {:induction false} CanonIsWf(j: Json)
    ensures Wf(Canon(j))
  {
    match j
    case Arr(items) =>
      forall i | 0 <= i < |items| ensures Wf(Canon(items[i])) { CanonIsWf(items[i]); }
    case Obj(_, m) =>
      forall k <- m ensures Wf(Canon(m[k])) { CanonIsWf(m[k]); }
    case _ =>
  }

  lemma {:induction false} CanonIdempotent(j: Json)
    ensures Canon(Canon(j)) == Canon(j)
  {
    hide Sorted;
    match j
    case Arr(items) =>
      forall i | 0 <= i < |items| ensures Canon(Canon(items[i])) == Canon(items[i]) { CanonIdempotent(items[i]); }
    case Obj(_, m) =>
      forall k <- m ensures Canon(Canon(m[k])) == Canon(m[k]) { CanonIdempotent(m[k]); }
      CanonOfCanonObj(m);
    case _ =>
  }

  lemma CanonOfCanonObj(m: map<string, Json>)
    requires forall k <- m :: Canon(Canon(m[k])) == Canon(m[k])
    ensures forall order, order' :: Canon(Canon(Obj(order, m))) == Canon(Obj(order', m))
  {
    hide Sorted;
    var c := map k | k in m :: Canon(m[k]);
    assert c.Keys == m.Keys;
    assert (map k | k in c :: Canon(c[k])) == c;
  }

  lemma CanonFacts(j: Json)
    ensures TypeOf(Canon(j)) == TypeOf(j)
    ensures Scalar(j) ==> Canon(j) == j
    ensures j.Obj? ==> Canon(j).m.Keys == j.m.Keys
    ensures j.Arr? ==> |Canon(j).items| == |j.items|
    ensures Truthy(Canon(j)) == Truthy(j)
  {
  }

  lemma GetCanon(j: Json, key: string)
    ensures Get(Canon(j), key) == Canon(Get(j, key))
  {
  }

  /** Two dicts, or two lists, with equal children are the same tree. */
  lemma SameChildren(x: Json, y: Json)
    requires (x.Obj? && y.Obj? && x.m.Keys == y.m.Keys) || (x.Arr? && y.Arr? && |x.items| == |y.items|)
    requires x.Obj? ==> forall k <- x.m :: SameTree(x.m[k], y.m[k])
    requires x.Arr? ==> forall i :: 0 <= i < |x.items| ==> SameTree(x.items[i], y.items[i])
    ensures SameTree(x, y)
  {
    hide Sorted;
    if x.Obj? {
      assert Canon(x).m == Canon(y).m;
    } else {
      assert Canon(x).items == Canon(y).items;
    }
  }

  /** Python's `==` on parsed JSON: dict order is ignored and numbers compare by value
      across bool, int and float. */
  predicate PyEq(a: Json, b: Json) {
    match (a, b)
    case (Null, Null) => true
    case (Str(s), Str(t)) => s == t
    case (Arr(xs), Arr(ys)) => |xs| == |ys| && forall i :: 0 <= i < |xs| ==> PyEq(xs[i], ys[i])
    case (Obj(_, m), Obj(_, n)) => m.Keys == n.Keys && forall k <- m :: PyEq(m[k], n[k])
    case _ => Numeric(a) && Numeric(b) && NumberOf(a) == NumberOf(b)
  }

  predicate Numeric(j: Json) { j.Bool? || j.Int? || j.Float? }

  function NumberOf(j: Json): real
    requires Numeric(j)
  {
    match j
    case Bool(b) => if b then 1.0 else 0.0
    case Int(i) => i as real
    case Float(x) => x
  }

  // ---------------------------------------------------------------- paths into a tree

  datatype Step = Key(key: string) | Index(index: nat)
  type Path = seq<Step>

  function Child(j: Json, s: Step): Option<Json> {
    match s
    case Key(k) => if j.Obj? && k in j.m then Some(j.m[k]) else None
    case Index(i) => if j.Arr? && i < |j.items| then Some(j.items[i]) else None
  }

  function At(j: Json, p: Path): Option<Json> {
    if p == [] then Some(j)
    else match Child(j, p[0])
      case None => None
      case Some(c) => At(c, p[1..])
  }

  lemma AtAppend(j: Json, p: Path, q: Path)
    ensures At(j, p + q) == if At(j, p).Some? then At(At(j, p).value, q) else None
  {
    if p == [] {
      assert p + q == q;
    } else {
      assert (p + q)[0] == p[0] && (p + q)[1..] == p[1..] + q;
      if Child(j, p[0]).Some? { AtAppend(Child(j, p[0]).value, p[1..], q); }
    }
  }
}
