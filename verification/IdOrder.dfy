/** Finite sets of ids in ascending order, as sorted maps list their keys. */
module IdOrder {
  ghost predicate IsLeast(s: set<int>, x: int) {
    x in s && forall y <- s :: x <= y
  }

  lemma {:induction false} LeastMember(s: set<int>)
    requires exists x :: x in s
    ensures exists x :: IsLeast(s, x)
  {
    var x :| x in s;
    if exists y :: y in s - {x} {
      LeastMember(s - {x});
      var m :| IsLeast(s - {x}, m);
      assert forall y <- s :: y == x || y in s - {x};
      assert IsLeast(s, if m < x then m else x);
    } else {
      assert forall y <- s :: y == x || y in s - {x};
      assert IsLeast(s, x);
    }
  }

  lemma {:induction false} LeastIfAny(s: set<int>)
    ensures (exists x :: x in s) ==> exists x :: IsLeast(s, x)
  {
    if exists x :: x in s { LeastMember(s); }
  }

  method TakeLeast(s: set<int>) returns (least: int)
    requires exists x :: x in s
    ensures IsLeast(s, least)
  {
    LeastMember(s);
    assert exists x :: x in s && forall y <- s :: x <= y by {
      var x :| IsLeast(s, x);
    }
    least :| least in s && forall y <- s :: least <= y;
  }

  /** The members, the least first. */
  ghost function IdsOf(s: set<int>): (ids: seq<int>)
    ensures forall x :: x in ids <==> x in s
  {
    if exists x :: IsLeast(s, x) then
      var x :| IsLeast(s, x);
      [x] + IdsOf(s - {x})
    else
      LeastIfAny(s);
      []
  }

  lemma NoIds()
    ensures IdsOf({}) == []
  {
  }

  lemma {:induction false} IdsFromLeast(s: set<int>, x: int)
    requires IsLeast(s, x)
    ensures IdsOf(s) == [x] + IdsOf(s - {x})
  {
  }
}
