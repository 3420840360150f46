/**
 The value a bitmap denotes: its length and the positions of its clear bits.
 */
module Bits {

  datatype Option<+T> = None | Some(value: T)

  datatype Bits = Bits(len: nat, clear: set<nat>) {

    /** Bits at or past the length are set. */
    ghost predicate Valid() {
      forall i :: i in clear ==> i < len
    }

    function WithSet(i: nat): Bits {
      this.(clear := clear - {i})
    }

    function WithClear(i: nat): Bits {
      this.(clear := clear + {i})
    }

    /** The lowest clear bit. */
    function FirstClear(): (r: Option<nat>)
      ensures r.None? <==> clear == {}
      ensures r.Some? ==> r.value in clear && forall i :: i in clear ==> r.value <= i
    {
      if clear == {} then None else Some(Least(clear))
    }
  }

  function Least(s: set<nat>): (m: nat)
    requires s != {}
    ensures m in s && forall i :: i in s ==> m <= i
  {
    assert exists m :: m in s && forall i :: i in s ==> m <= i by {
      var x :| x in s;
      HasLeast(s, x);
    }
    var m :| m in s && forall i :: i in s ==> m <= i;
    m
  }

  lemma {:induction false} HasLeast(s: set<nat>, x: nat)
    requires x in s
    ensures exists m :: m in s && forall i :: i in s ==> m <= i
  {
    if y :| y in s && y < x {
      HasLeast(s, y);
    }
  }
}
