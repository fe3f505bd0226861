/** The largest of a set of numbers, and a set in ascending order. */
module Sets {

  ghost predicate IsLargest(s: set<nat>, m: nat) {
    m in s && forall i | i in s :: i <= m
  }

  function Largest(s: set<nat>): (m: nat)
    requires s != {}
    ensures IsLargest(s, m)
  {
    LargestExists(s);
    var m :| m in s && forall i | i in s :: i <= m;
    m
  }

  lemma {:induction false} LargestExists(s: set<nat>)
    requires s != {}
    ensures exists m :: IsLargest(s, m)
  {
    var some :| some in s;
    var rest := s - {some};
    if rest == {} {
      assert s == {some} && IsLargest(s, some);
    } else {
      LargestExists(rest);
      var m :| IsLargest(rest, m);
      LargestOf(s, some, m);
    }
  }

  lemma LargestOf(s: set<nat>, some: nat, m: nat)
    requires some in s && IsLargest(s - {some}, m)
    ensures IsLargest(s, if some > m then some else m)
  {
    forall i | i in s
      ensures i <= some || i <= m
    {
      assert i == some || i in s - {some};
    }
  }

  /** The numbers of a set, as `sorted` lists them. */
  function Upward(s: set<nat>): (r: seq<nat>)
    ensures forall i :: i in r <==> i in s
    ensures forall i, j | 0 <= i < j < |r| :: r[i] < r[j]
    decreases |s|
  {
    if s == {} then []
    else
      var top := Largest(s);
      var below := Upward(s - {top});
      assert forall i | 0 <= i < |below| :: below[i] in below;
      below + [top]
  }

  /** There is one way to list a set in ascending order. */
  lemma {:induction false} UpwardIs(s: set<nat>, r: seq<nat>)
    requires forall i :: i in r <==> i in s
    requires forall i, j | 0 <= i < j < |r| :: r[i] < r[j]
    ensures Upward(s) == r
    decreases |r|
  {
    if r == [] {
      assert s == {};
    } else {
      var top, below := r[|r| - 1], r[..|r| - 1];
      assert r == below + [top];
      assert top in r;
      assert forall i | i in s :: i in r && i <= top;
      assert IsLargest(s, top) && IsLargest(s, Largest(s));
      forall i
        ensures i in below <==> i in s - {top}
      {
        if i in below {
          assert i in r;
        }
      }
      UpwardIs(s - {top}, below);
    }
  }
}
