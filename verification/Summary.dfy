/** The redacting summary of a JSON value: bounded in depth and width, hiding the values of
    sensitive keys and the text of ordinary strings. */
module Summary {
  import opened Text
  import opened Json
  import opened Strings

  const MAX_KEYS := 40
  const MAX_ITEMS := 20

  const STRUCTURAL_KEYS :=
    {"code", "finish_reason", "http_status", "reason", "status", "status_code", "stop_reason", "type"}
  const REDACT_KEYS :=
    {"api_key", "apikey", "authorization", "content", "data", "delta", "input", "key", "message",
     "output_text", "prompt", "secret", "signature", "summary", "text", "token", "x-goog-api-key"}

  /** `part in s` for strings. */
  predicate Contains(s: string, part: string) {
    part <= s || (s != "" && Contains(s[1..], part))
  }

  lemma ContainsFirst(s: string, part: string)
    requires part != ""
    ensures Contains(s, part) ==> part[0] in s
  {
    if s != "" {
      ContainsFirst(s[1..], part);
      assert part <= s ==> s[0] == part[0];
    }
  }

  /** `_redact_key`; `lower` is Python's `str.lower`. */
  predicate RedactKey(lower: string -> string, name: string) {
    lower(name) in REDACT_KEYS || Contains(lower(name), "api_key")
  }

  predicate Structural(lower: string -> string, key: Option<string>) {
    key.Some? && lower(key.value) in STRUCTURAL_KEYS
  }

  function TypeName(t: Type): string {
    match t
    case NoneType => "NoneType"
    case BoolType => "bool"
    case IntType => "int"
    case FloatType => "float"
    case StrType => "str"
    case ListType => "list"
    case DictType => "dict"
  }

  function TypeOnly(j: Json): Json {
    Obj(["python_type"], map["python_type" := Str(TypeName(TypeOf(j)))])
  }

  function TextSummary(s: string): Json {
    Obj(["python_type", "length"], map["python_type" := Str("str"), "length" := Int(|s|)])
  }

  function Take<T>(xs: seq<T>, n: nat): seq<T> { if |xs| <= n then xs else xs[..n] }

  /** The keys of a dict that the summary shows. */
  function Shown(j: Json): (ks: seq<string>)
    requires j.Obj?
  {
    Take(j.order, MAX_KEYS)
  }

  const REDACTED := Str("[redacted]")

  /** The JSON branches of `_structural_value`. */
  function Summarize(j: Json, depth: int, key: Option<string>, lower: string -> string): Json
    decreases j
  {
    if depth < 0 then TypeOnly(j)
    else match j
      case Str(s) => if Structural(lower, key) then j else TextSummary(s)
      case Obj(order, m) =>
        Obj(Shown(j), map k | k in m && k in Shown(j) ::
              if RedactKey(lower, k) then REDACTED else Summarize(m[k], depth - 1, Some(k), lower))
      case Arr(items) =>
        var n := |Take(items, MAX_ITEMS)|;
        Arr(seq(n, i requires 0 <= i < n => Summarize(items[i], depth - 1, None, lower)))
      case _ => j
  }

  // ---------------------------------------------------------------- the summary written out

  lemma {:induction false} ContainsWritten(s: string, part: string)
    ensures Contains(s, part) <==> exists front, rest :: Within(s, part, front, rest)
  {
    if part <= s { assert Within(s, part, "", s[|part|..]); }
    if s != "" {
      var s' := s[1..];
      ContainsWritten(s', part);
      if front, rest :| Within(s', part, front, rest) { assert Within(s, part, [s[0]] + front, rest); }
      if front, rest :| Within(s, part, front, rest) {
        if front == "" { assert s == part + rest; } else { assert Within(s', part, front[1..], rest); }
      }
    }
    if front, rest :| s == "" && Within(s, part, front, rest) { assert part == ""; }
  }

  predicate Within(s: string, part: string, front: string, rest: string) { s == front + (part + rest) }

  /** The names whose values are hidden. */
  ghost predicate HiddenName(name: string) {
    || name in {"api_key", "apikey", "authorization", "content", "data", "delta", "input", "key", "message",
                "output_text", "prompt", "secret", "signature", "summary", "text", "token", "x-goog-api-key"}
    || exists front, rest :: Within(name, "api_key", front, rest)
  }

  /** The names under which a string is shown as it is. */
  predicate ShownName(name: string) {
    name in {"code", "finish_reason", "http_status", "reason", "status", "status_code", "stop_reason", "type"}
  }

  lemma NamesWritten(lower: string -> string, name: string)
    ensures RedactKey(lower, name) <==> HiddenName(lower(name))
    ensures Structural(lower, Some(name)) <==> ShownName(lower(name))
  {
    hide Contains, Within;
    ContainsWritten(lower(name), "api_key");
  }

  function WrittenType(j: Json): string {
    match j
    case Null => "NoneType"
    case Bool(_) => "bool"
    case Int(_) => "int"
    case Float(_) => "float"
    case Str(_) => "str"
    case Arr(_) => "list"
    case Obj(_, _) => "dict"
  }

  /** `len(xs)`, but no more than n. */
  function AtMost(length: nat, n: nat): nat { if length <= n then length else n }

  /** What is shown of a value: nothing but its type below the depth; the type and length of a string,
      unless its key is one that shows it; the first 40 keys, the hidden ones redacted; the first
      20 items; any other value itself. */
  lemma SummaryWritten(j: Json, depth: int, key: Option<string>, lower: string -> string)
    ensures var r := Summarize(j, depth, key, lower);
            if depth < 0 then r == Obj(["python_type"], map["python_type" := Str(WrittenType(j))])
            else match j
              case Str(s) =>
                r == if key.Some? && ShownName(lower(key.value)) then j
                     else Obj(["python_type", "length"], map["python_type" := Str("str"), "length" := Int(|s|)])
              case Obj(order, m) =>
                && r.Obj? && r.order == order[..AtMost(|order|, 40)]
                && (forall k :: k in r.m <==> k in m && k in r.order)
                && forall k <- r.m :: r.m[k] == if HiddenName(lower(k)) then Str("[redacted]")
                                                else Summarize(m[k], depth - 1, Some(k), lower)
              case Arr(items) =>
                && r.Arr? && |r.items| == AtMost(|items|, 20)
                && forall i :: 0 <= i < |r.items| ==> r.items[i] == Summarize(items[i], depth - 1, None, lower)
              case _ => r == j
  {
    hide HiddenName, RedactKey, ShownName, Structural;
    forall name
      ensures RedactKey(lower, name) <==> HiddenName(lower(name))
      ensures Structural(lower, Some(name)) <==> ShownName(lower(name))
    {
      NamesWritten(lower, name);
    }
    NoKeyShowsNothing(lower);
  }

  lemma NoKeyShowsNothing(lower: string -> string)
    ensures !Structural(lower, None)
  {
  }

  // ---------------------------------------------------------------- what the summary reveals

  /** The values look the same once everything the summary is meant to hide is ignored: the
      content below the depth, keys past the 40th, items past the 20th, values of redacted
      keys, and the text, but not the length, of strings under ordinary keys. */
  ghost predicate SameVisible(a: Json, b: Json, depth: int, key: Option<string>, lower: string -> string)
    decreases a
  {
    if depth < 0 then TypeOf(a) == TypeOf(b)
    else match a
      case Str(s) => b.Str? && if Structural(lower, key) then s == b.s else |s| == |b.s|
      case Obj(_, m) =>
        && b.Obj? && Shown(a) == Shown(b)
        && (forall k | k in m && k in Shown(a) :: k in b.m)
        && (forall k | k in b.m && k in Shown(a) :: k in m)
        && (forall k | k in m && k in Shown(a) && k in b.m && !RedactKey(lower, k) ::
              SameVisible(m[k], b.m[k], depth - 1, Some(k), lower))
      case Arr(items) =>
        && b.Arr? && |Take(items, MAX_ITEMS)| == |Take(b.items, MAX_ITEMS)|
        && (forall i | 0 <= i < |Take(items, MAX_ITEMS)| :: SameVisible(items[i], b.items[i], depth - 1, None, lower))
      case _ => a == b
  }

  /** `lower` leaves the summary's own key alone, as Python's does. */
  ghost predicate PlainLower(lower: string -> string) { lower("python_type") == "python_type" }

  lemma OwnKeyIsOrdinary(lower: string -> string)
    requires PlainLower(lower)
    ensures !Structural(lower, Some("python_type"))
  {
  }

  /** No summary under the key "python_type" is a bare string, so a dict is never summarised
      to what a string or a cut-off value is summarised to. */
  lemma NotAStringSummary(j: Json, depth: int, lower: string -> string)
    requires PlainLower(lower)
    ensures !Summarize(j, depth, Some("python_type"), lower).Str?
    ensures !RedactKey(lower, "python_type")
  {
    OwnKeyIsOrdinary(lower);
    OwnKeyNotRedacted(lower);
  }

  lemma NoLetterA()
    ensures "api_key"[0] !in "python_type"
  {
    assert "python_type" == ['p', 'y', 't', 'h', 'o', 'n', '_', 't', 'y', 'p', 'e'];
  }

  lemma OwnKeyNotRedacted(lower: string -> string)
    requires PlainLower(lower)
    ensures !RedactKey(lower, "python_type")
  {
    hide Contains;
    ContainsFirst("python_type", "api_key");
    NoLetterA();
  }

  lemma TypeNamesDiffer(s: Type, t: Type)
    ensures TypeName(s) == TypeName(t) ==> s == t
  {
    assert "bool"[0] == 'b' && "str"[0] == 's' && "dict"[0] == 'd';
  }

  /** A dict's summary and a string's summary differ. */
  lemma DictIsNotText(j: Json, s: string, depth: int, key: Option<string>, lower: string -> string)
    requires PlainLower(lower) && j.Obj? && depth >= 0
    ensures Summarize(j, depth, key, lower) != TextSummary(s)
  {
    hide RedactKey, Structural, Shown, TypeOnly;
    var r := Summarize(j, depth, key, lower);
    if "python_type" in r.m {
      NotAStringSummary(j.m["python_type"], depth - 1, lower);
      assert r.m["python_type"] == Summarize(j.m["python_type"], depth - 1, Some("python_type"), lower);
    }
  }

  /** The summary reveals exactly the visible part: two values have equal summaries if and
      only if they agree on everything that is not meant to be hidden. */
  lemma {:induction false} SummaryRevealsExactly(a: Json, b: Json, depth: int, key: Option<string>,
                                                 lower: string -> string)
    requires PlainLower(lower)
    ensures Summarize(a, depth, key, lower) == Summarize(b, depth, key, lower) <==> SameVisible(a, b, depth, key, lower)
    decreases a
  {
    hide RedactKey, Structural, Shown, TypeName;
    if depth < 0 {
      TypeNamesDiffer(TypeOf(a), TypeOf(b));
      assert TypeOnly(a).m["python_type"] == Str(TypeName(TypeOf(a)));
      assert TypeOnly(b).m["python_type"] == Str(TypeName(TypeOf(b)));
    } else {
      match a
      case Str(s) => TextReveals(s, b, depth, key, lower);
      case Obj(_, m) =>
        if b.Obj? {
          DictReveals(a, b, depth, key, lower);
        } else if b.Str? {
          DictIsNotText(a, b.s, depth, key, lower);
        }
      case Arr(items) => if b.Arr? { ListReveals(a, b, depth, key, lower); }
      case _ =>
    }
  }

  lemma TextReveals(s: string, b: Json, depth: int, key: Option<string>, lower: string -> string)
    requires PlainLower(lower) && depth >= 0
    ensures Summarize(Str(s), depth, key, lower) == Summarize(b, depth, key, lower) <==>
            SameVisible(Str(s), b, depth, key, lower)
  {
    hide Structural;
    if b.Obj? { DictIsNotText(b, s, depth, key, lower); }
    if b.Str? {
      assert TextSummary(s).m["length"] == Int(|s|) && TextSummary(b.s).m["length"] == Int(|b.s|);
    }
  }

  lemma {:induction false} DictReveals(a: Json, b: Json, depth: int, key: Option<string>, lower: string -> string)
    requires PlainLower(lower) && depth >= 0 && a.Obj? && b.Obj?
    ensures Summarize(a, depth, key, lower) == Summarize(b, depth, key, lower) <==> SameVisible(a, b, depth, key, lower)
    decreases a, 0
  {
    hide RedactKey, Structural, Shown;
    var r, t := Summarize(a, depth, key, lower), Summarize(b, depth, key, lower);
    forall k | k in a.m && k in Shown(a) && k in b.m && k in Shown(b)
      ensures r.m[k] == t.m[k] <==> (RedactKey(lower, k) || SameVisible(a.m[k], b.m[k], depth - 1, Some(k), lower))
    {
      SummaryRevealsExactly(a.m[k], b.m[k], depth - 1, Some(k), lower);
    }
    assert forall k :: k in r.m <==> k in a.m && k in Shown(a);
    assert forall k :: k in t.m <==> k in b.m && k in Shown(b);
    if r == t {
      assert r.m == t.m && Shown(a) == Shown(b);
    }
    if SameVisible(a, b, depth, key, lower) {
      assert r.m.Keys == t.m.Keys;
      assert r.m == t.m;
    }
  }

  lemma {:induction false} ListReveals(a: Json, b: Json, depth: int, key: Option<string>, lower: string -> string)
    requires PlainLower(lower) && depth >= 0 && a.Arr? && b.Arr?
    ensures Summarize(a, depth, key, lower) == Summarize(b, depth, key, lower) <==> SameVisible(a, b, depth, key, lower)
    decreases a, 0
  {
    hide Structural;
    var r, t := Summarize(a, depth, key, lower).items, Summarize(b, depth, key, lower).items;
    forall i | 0 <= i < |r| && i < |t|
      ensures r[i] == t[i] <==> SameVisible(a.items[i], b.items[i], depth - 1, None, lower)
    {
      SummaryRevealsExactly(a.items[i], b.items[i], depth - 1, None, lower);
    }
    assert r == t <==> |r| == |t| && forall i | 0 <= i < |r| && i < |t| :: r[i] == t[i];
  }

  // ---------------------------------------------------------------- how large it can get

  /** The number of nodes of a tree. */
  function Nodes(j: Json): nat
    decreases j
  {
    1 + NodesOfAll(j, Children(j))
  }

  function NodesOfAll(parent: Json, cs: seq<Json>): nat
    requires forall i :: 0 <= i < |cs| ==> cs[i] < parent
    decreases parent, |cs|
  {
    if cs == [] then 0 else Nodes(cs[0]) + NodesOfAll(parent, cs[1..])
  }

  function Power40(n: nat): nat { if n == 0 then 1 else 40 * Power40(n - 1) }

  /** The geometric bound: 40 children per level, two nodes at the cut. */
  function Bound(depth: int): nat
    decreases depth + 1
  {
    if depth < 0 then 2 else 1 + 40 * Bound(depth - 1)
  }

  lemma {:induction false} BoundClosedForm(depth: int)
    requires depth >= -1
    ensures 39 * Bound(depth) == 79 * Power40(depth + 1) - 1
    decreases depth + 1
  {
    if depth >= 0 { BoundClosedForm(depth - 1); }
  }

  lemma BoundAtLeastTwo(depth: int)
    ensures Bound(depth) >= 2 && (depth >= 0 ==> Bound(depth) >= 81)
  {
    if depth > 0 { BoundAtLeastTwo(depth - 1); }
  }

  lemma {:induction false} NodesOfAllBounded(parent: Json, cs: seq<Json>, b: nat)
    requires forall i :: 0 <= i < |cs| ==> cs[i] < parent
    requires forall i :: 0 <= i < |cs| ==> Nodes(cs[i]) <= b
    ensures NodesOfAll(parent, cs) <= b * |cs|
    decreases |cs|
  {
    hide Nodes;
    if cs != [] {
      NodesOfAllBounded(parent, cs[1..], b);
      assert b * |cs| == b + b * |cs[1..]|;
    }
  }

  /** A summary has at most Bound(depth) nodes, however large the value is. */
  lemma {:induction false} SummaryIsBounded(j: Json, depth: int, key: Option<string>, lower: string -> string)
    ensures Nodes(Summarize(j, depth, key, lower)) <= Bound(depth)
    decreases j
  {
    hide RedactKey, Structural, Bound, Sorted;
    var r := Summarize(j, depth, key, lower);
    BoundAtLeastTwo(depth);
    if depth < 0 {
      OneFieldNodes(r);
    } else {
      match j
      case Obj(_, m) => DictBounded(j, depth, key, lower);
      case Arr(items) => ListBounded(j, depth, key, lower);
      case Str(_) => if Structural(lower, key) { LeafNodes(r); } else { TwoFieldNodes(r); }
      case _ => LeafNodes(r);
    }
  }

  lemma NodesUnfold(j: Json)
    ensures Nodes(j) == 1 + NodesOfAll(j, Children(j))
  {
  }

  lemma Times40(b: nat, n: nat)
    requires n <= 40
    ensures b * n <= 40 * b
  {
  }

  lemma LeafNodes(r: Json)
    requires Scalar(r)
    ensures Nodes(r) == 1
  {
  }

  lemma SmallDictNodes(r: Json)
    requires r.Obj? && forall k <- r.m :: Scalar(r.m[k])
    ensures Nodes(r) <= 1 + |r.m|
  {
    hide Sorted;
    var cs := Children(r);
    forall i | 0 <= i < |cs| ensures Nodes(cs[i]) <= 1 {
      assert Sorted(r.m.Keys)[i] in Sorted(r.m.Keys);
      LeafNodes(cs[i]);
    }
    NodesOfAllBounded(r, cs, 1);
    assert |r.m.Keys| == |r.m|;
  }

  lemma OneFieldNodes(r: Json)
    requires exists j :: r == TypeOnly(j)
    ensures Nodes(r) <= 2
  {
    hide Nodes;
    SmallDictNodes(r);
  }

  lemma TwoFieldNodes(r: Json)
    requires exists s :: r == TextSummary(s)
    ensures Nodes(r) <= 3
  {
    hide Nodes;
    SmallDictNodes(r);
  }

  lemma DistinctKeysFew(ks: set<string>, order: seq<string>)
    requires forall k <- ks :: k in order
    ensures |ks| <= |order|
  {
    if order == [] {
      assert ks == {};
    } else {
      var rest := ks - {order[0]};
      DistinctKeysFew(rest, order[1..]);
      assert ks <= rest + {order[0]};
      if order[0] in ks { assert ks == rest + {order[0]}; } else { assert ks == rest; }
    }
  }

  lemma {:induction false} DictBounded(j: Json, depth: int, key: Option<string>, lower: string -> string)
    requires j.Obj? && depth >= 0
    ensures Nodes(Summarize(j, depth, key, lower)) <= Bound(depth)
    decreases j, 0
  {
    hide RedactKey, Structural, Sorted;
    var r := Summarize(j, depth, key, lower);
    var b := Bound(depth - 1);
    BoundAtLeastTwo(depth - 1);
    forall k <- r.m ensures Nodes(r.m[k]) <= b {
      if RedactKey(lower, k) { LeafNodes(r.m[k]); } else { SummaryIsBounded(j.m[k], depth - 1, Some(k), lower); }
    }
    DistinctKeysFew(r.m.Keys, Shown(j));
    ChildrenBounded(r, b);
  }

  lemma ChildrenBounded(r: Json, b: nat)
    requires r.Obj? && |r.m.Keys| <= MAX_KEYS
    requires forall k <- r.m :: Nodes(r.m[k]) <= b
    ensures Nodes(r) <= 1 + 40 * b
  {
    hide Sorted, Nodes, NodesOfAll;
    var cs := Children(r);
    forall i | 0 <= i < |cs| ensures Nodes(cs[i]) <= b { assert Sorted(r.m.Keys)[i] in Sorted(r.m.Keys); }
    NodesOfAllBounded(r, cs, b);
    NodesUnfold(r);
    Times40(b, |cs|);
  }

  lemma {:induction false} ListBounded(j: Json, depth: int, key: Option<string>, lower: string -> string)
    requires j.Arr? && depth >= 0
    ensures Nodes(Summarize(j, depth, key, lower)) <= Bound(depth)
    decreases j, 0
  {
    hide Structural, Nodes, NodesOfAll;
    var r := Summarize(j, depth, key, lower);
    var b := Bound(depth - 1);
    forall i | 0 <= i < |r.items| ensures Nodes(r.items[i]) <= b {
      SummaryIsBounded(j.items[i], depth - 1, None, lower);
    }
    NodesOfAllBounded(r, r.items, b);
    NodesUnfold(r);
    Times40(b, |r.items|);
  }
}
