/** `max` of two naturals and of a non-empty set. */
module Maximum {

  function Max(a: nat, b: nat): nat { if a >= b then a else b }

  ghost predicate IsMax(m: nat, s: set<nat>) { m in s && forall x <- s :: x <= m }

  lemma {:induction false} MaxExists(s: set<nat>)
    requires s != {}
    ensures exists m :: IsMax(m, s)
  {
    var x :| x in s;
    if s != {x} {
      var rest := s - {x};
      assert rest != {} by { assert s == rest + {x}; }
      MaxExists(rest);
      var m :| IsMax(m, rest);
      assert forall y <- s :: y == x || y in rest;
      assert IsMax(Max(x, m), s);
    } else {
      assert IsMax(x, s);
    }
  }

  function MaxOf(s: set<nat>): (m: nat)
    requires s != {}
    ensures m in s && forall x <- s :: x <= m
  {
    MaxExists(s);
    var m :| m in s && forall x <- s :: x <= m;
    m
  }
}
