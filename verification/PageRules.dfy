/** When pages of a change set may be joined, in terms of their fields, and that a paging cut short
    is always noticed. */
module PageRules {
  import opened Text
  import opened Json
  import opened ChangeSet
  import opened ChangeSetTheorems
  import opened OrderTheorems
  import opened Verdicts

  // ---------------------------------------------------------------- Python's equality

  /** The same value with sorted dicts and with every number as a float. */
  function Normal(j: Json): Json {
    match j
    case Bool(b) => Float(if b then 1.0 else 0.0)
    case Int(i) => Float(i as real)
    case Arr(items) => Arr(seq(|items|, i requires 0 <= i < |items| => Normal(items[i])))
    case Obj(_, m) => Obj(Sorted(m.Keys), map k | k in m :: Normal(m[k]))
    case _ => j
  }

  /** Python calls two JSON values equal if and only if they are the same but for dict order and
      the type of numbers. */
  lemma {:induction false} PyEqIsNormal(a: Json, b: Json)
    ensures PyEq(a, b) <==> Normal(a) == Normal(b)
  {
    hide Sorted;
    if a.Arr? && b.Arr? {
      var xs, ys := a.items, b.items;
      forall i | 0 <= i < |xs| && i < |ys| ensures PyEq(xs[i], ys[i]) <==> Normal(xs[i]) == Normal(ys[i]) {
        PyEqIsNormal(xs[i], ys[i]);
      }
      NormalLists(xs, ys);
    } else if a.Obj? && b.Obj? {
      forall k | k in a.m && k in b.m ensures PyEq(a.m[k], b.m[k]) <==> Normal(a.m[k]) == Normal(b.m[k]) {
        PyEqIsNormal(a.m[k], b.m[k]);
      }
      NormalDicts(a, b);
    }
  }

  lemma NormalLists(xs: seq<Json>, ys: seq<Json>)
    ensures Normal(Arr(xs)) == Normal(Arr(ys)) <==>
            |xs| == |ys| && forall i :: 0 <= i < |xs| ==> Normal(xs[i]) == Normal(ys[i])
  {
    var ns, ms := Normal(Arr(xs)).items, Normal(Arr(ys)).items;
    assert |ns| == |xs| && |ms| == |ys|;
    assert forall i :: 0 <= i < |xs| ==> ns[i] == Normal(xs[i]);
    assert forall i :: 0 <= i < |ys| ==> ms[i] == Normal(ys[i]);
  }

  lemma NormalDicts(a: Json, b: Json)
    requires a.Obj? && b.Obj?
    ensures Normal(a) == Normal(b) <==> a.m.Keys == b.m.Keys && forall k <- a.m :: Normal(a.m[k]) == Normal(b.m[k])
  {
    hide Sorted, Normal;
    NormalDict(a);
    NormalDict(b);
    MapsAgree(Normal(a).m, Normal(b).m);
    if a.m.Keys == b.m.Keys {
      forall k <- a.m ensures Normal(a).m[k] == Normal(a.m[k]) && Normal(b).m[k] == Normal(b.m[k]) {}
    }
  }

  lemma MapsAgree(n: map<string, Json>, m: map<string, Json>)
    ensures n == m <==> n.Keys == m.Keys && forall k <- n :: n[k] == m[k]
  {
  }

  lemma NormalDict(j: Json)
    requires j.Obj?
    ensures var n := Normal(j);
            && n.Obj? && n.order == Sorted(j.m.Keys) && n.m.Keys == j.m.Keys
            && forall k <- j.m :: n.m[k] == Normal(j.m[k])
  {
    hide Sorted;
  }

  // ---------------------------------------------------------------- pages that may be joined

  ghost predicate SameField(a: Json, b: Json, key: string) { Normal(Get(a, key)) == Normal(Get(b, key)) }

  /** The page fits its place among this many pages. */
  ghost predicate FitsAt(page: Json, first: Json, i: nat, count: nat) {
    && page.Obj?
    && (Get(page, "Changes") == Null || Get(page, "Changes").Arr?)
    && (if i + 1 < count then Get(page, "NextToken").Str? && Get(page, "NextToken").s != ""
        else Falsy(Get(page, "NextToken")))
    && SameField(page, first, "Status") && SameField(page, first, "ExecutionStatus")
    && SameField(page, first, "StatusReason") && SameField(page, first, "ChangeSetName")
  }

  ghost predicate WrittenPages(pages: seq<Json>) {
    pages != [] && forall i :: 0 <= i < |pages| ==> FitsAt(pages[i], pages[0], i, |pages|)
  }

  /** Pages are joined if and only if each is an object with a change list or none, repeats the four
      status fields of the first, and carries a token exactly where another page follows. */
  lemma MergesIff(pages: seq<Json>)
    ensures MergePages(pages).Some? <==> WrittenPages(pages)
  {
    hide PageOk, FitsAt;
    forall i | 0 <= i < |pages| ensures PageOk(pages, i) <==> FitsAt(pages[i], pages[0], i, |pages|) {
      PageFits(pages, i);
    }
  }

  lemma PageFits(pages: seq<Json>, i: nat)
    requires i < |pages|
    ensures PageOk(pages, i) <==> FitsAt(pages[i], pages[0], i, |pages|)
  {
    hide PyEq, Normal, Get;
    var token := Get(pages[i], "NextToken");
    TruthyWritten(token);
    forall h ensures PyEq(Get(pages[i], h), Get(pages[0], h)) <==> SameField(pages[i], pages[0], h) {
      PyEqIsNormal(Get(pages[i], h), Get(pages[0], h));
    }
    assert HEADERS == {"Status", "ExecutionStatus", "StatusReason", "ChangeSetName"};
    assert "Status" in HEADERS && "ExecutionStatus" in HEADERS && "StatusReason" in HEADERS
           && "ChangeSetName" in HEADERS;
  }

  /** A change set whose paging was cut short is never joined. */
  lemma FrontPartRefused(doc: Json, chunks: seq<seq<Json>>, tokens: seq<string>, k: nat)
    requires doc.Obj? && |tokens| + 1 == |chunks| && (forall t <- tokens :: t != "") && k < |chunks|
    ensures MergePages(Paginate(doc, chunks, tokens)[..k]) == None
  {
    hide Page, FitsAt, Falsy;
    var front := Paginate(doc, chunks, tokens)[..k];
    MergesIff(front);
    if k > 0 {
      assert front[k - 1] == Page(doc, chunks[k - 1], Some(tokens[k - 1]));
      assert tokens[k - 1] in tokens;
      PageFields(doc, chunks[k - 1], Some(tokens[k - 1]), "Status");
      LastHasToken(front[k - 1], front[0], k, tokens[k - 1]);
    }
  }

  lemma LastHasToken(page: Json, first: Json, k: nat, token: string)
    requires k > 0 && Get(page, "NextToken") == Str(token) && token != ""
    ensures !FitsAt(page, first, k - 1, k)
  {
  }

  // ---------------------------------------------------------------- what joining gives

  lemma {:induction false} WithoutKeeps(order: seq<string>, key: string)
    requires Distinct(order)
    ensures Distinct(Without(order, key))
    ensures forall k :: k in Without(order, key) <==> k in order && k != key
  {
    if order != [] {
      var rest := order[1..];
      assert forall i :: 0 <= i < |rest| ==> rest[i] == order[i + 1];
      WithoutKeeps(rest, key);
      assert forall k :: k in order <==> k == order[0] || k in rest;
      if order[0] != key {
        assert order[0] !in rest;
        assert Without(order, key) == [order[0]] + Without(rest, key);
      }
    }
  }

  /** The joined document has the first page's fields, no token, and the changes of all pages. */
  lemma MergedDocument(pages: seq<Json>)
    requires MergePages(pages).Some? && forall page <- pages :: Wf(page)
    ensures var merged := MergePages(pages).value;
            && Wf(merged) && Get(merged, "NextToken") == Null && Get(merged, "Changes") == Arr(AllChanges(pages))
            && forall key | key != "Changes" && key != "NextToken" :: Get(merged, key) == Get(pages[0], key)
  {
    hide PageOk, AllChanges, MergePages, Merged, Wf;
    MergedFirst(pages);
    assert pages[0] in pages;
    AllChangesAreWf(pages);
    MergedFields(pages[0], AllChanges(pages));
    MergedIsWf(pages[0], AllChanges(pages));
  }

  lemma {:induction false} AllChangesAreWf(pages: seq<Json>)
    requires forall page <- pages :: Wf(page)
    ensures forall c <- AllChanges(pages) :: Wf(c)
  {
    if pages != [] {
      AllChangesAreWf(pages[..|pages| - 1]);
      var page := pages[|pages| - 1];
      assert page in pages;
      forall c <- PageChanges(page).GetOr([]) ensures Wf(c) { assert Wf(Get(page, "Changes")); }
    }
  }

  lemma MergedIsWf(first: Json, changes: seq<Json>)
    requires first.Obj? && Wf(first) && forall c <- changes :: Wf(c)
    ensures Wf(Merged(first, changes))
  {
    hide Without;
    WithoutKeeps(first.order, "NextToken");
    var merged := Merged(first, changes);
    assert forall k :: k in merged.order <==> k in merged.m;
    assert Wf(Arr(changes));
  }
}
