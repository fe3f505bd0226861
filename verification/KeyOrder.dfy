/** Keys in byte order, and the list a set of founders sorts to. */
module KeyOrder {
  import opened Basics

  /** A member's key: a prefix of it may name the member. */
  type Key = Bytes

  predicate AtMost(a: Key, b: Key) {
    a == [] || (b != [] && (a[0] < b[0] || (a[0] == b[0] && AtMost(a[1..], b[1..]))))
  }

  lemma {:induction false} Total(a: Key, b: Key)
    ensures AtMost(a, b) || AtMost(b, a)
    ensures AtMost(a, b) && AtMost(b, a) ==> a == b
  {
    if a != [] && b != [] {
      Total(a[1..], b[1..]);
      assert a == [a[0]] + a[1..] && b == [b[0]] + b[1..];
    }
  }

  lemma {:induction false} Transitive(a: Key, b: Key, c: Key)
    requires AtMost(a, b) && AtMost(b, c)
    ensures AtMost(a, c)
  {
    if a != [] && a[0] == b[0] == c[0] {
      Transitive(a[1..], b[1..], c[1..]);
    }
  }

  predicate Ascending(keys: seq<Key>) {
    forall i, j | 0 <= i < j < |keys| :: AtMost(keys[i], keys[j])
  }

  function Inserted(key: Key, keys: seq<Key>): seq<Key> {
    if keys == [] || AtMost(key, keys[0]) then [key] + keys else [keys[0]] + Inserted(key, keys[1..])
  }

  function Sorted(keys: seq<Key>): seq<Key> {
    if keys == [] then [] else Inserted(keys[0], Sorted(keys[1..]))
  }

  lemma {:induction false} InsertedAscends(key: Key, keys: seq<Key>)
    requires Ascending(keys)
    ensures Ascending(Inserted(key, keys)) && multiset(Inserted(key, keys)) == multiset(keys) + multiset{key}
  {
    if keys != [] {
      assert keys == [keys[0]] + keys[1..];
      Total(key, keys[0]);
      if AtMost(key, keys[0]) {
        forall other | other in keys
          ensures AtMost(key, other)
        {
          if other != keys[0] {
            Transitive(key, keys[0], other);
          }
        }
        InFront(key, keys);
      } else {
        var rest := Inserted(key, keys[1..]);
        InsertedAscends(key, keys[1..]);
        forall other | other in rest
          ensures AtMost(keys[0], other)
        {
          Total(keys[0], keys[0]);
          assert other in multiset(rest);
        }
        InFront(keys[0], rest);
      }
    }
  }

  lemma InFront(key: Key, keys: seq<Key>)
    requires Ascending(keys) && forall other | other in keys :: AtMost(key, other)
    ensures Ascending([key] + keys)
  {}

  lemma {:induction false} SortedAscends(keys: seq<Key>)
    ensures Ascending(Sorted(keys)) && multiset(Sorted(keys)) == multiset(keys)
    ensures |Sorted(keys)| == |keys|
  {
    if keys != [] {
      SortedAscends(keys[1..]);
      InsertedAscends(keys[0], Sorted(keys[1..]));
      assert keys == [keys[0]] + keys[1..];
    }
    assert |multiset(Sorted(keys))| == |multiset(keys)|;
  }

  lemma {:induction false} AscendingIsUnique(a: seq<Key>, b: seq<Key>)
    requires Ascending(a) && Ascending(b) && multiset(a) == multiset(b)
    ensures a == b
  {
    assert |multiset(a)| == |multiset(b)|;
    if a != [] {
      LeastFirst(a, b);
      assert a == [a[0]] + a[1..] && b == [b[0]] + b[1..];
      assert multiset(a[1..]) == multiset(a) - multiset{a[0]};
      assert multiset(b[1..]) == multiset(b) - multiset{b[0]};
      AscendingIsUnique(a[1..], b[1..]);
    }
  }

  lemma LeastFirst(a: seq<Key>, b: seq<Key>)
    requires Ascending(a) && Ascending(b) && multiset(a) == multiset(b) && a != [] && b != []
    ensures a[0] == b[0]
  {
    assert a[0] in multiset(b) && b[0] in multiset(a);
    Total(a[0], b[0]);
    Total(a[0], a[0]);
  }

  /** However the founders are listed, they sort to one numbering. */
  lemma SortedIsCanonical(a: seq<Key>, b: seq<Key>)
    requires multiset(a) == multiset(b)
    ensures Sorted(a) == Sorted(b)
  {
    SortedAscends(a);
    SortedAscends(b);
    AscendingIsUnique(Sorted(a), Sorted(b));
  }
}
