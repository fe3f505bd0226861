/**
  The Sent box: the records of a member's own boxes, as a value that `retain`
  and `backfill` change and as the object with those methods.
 */
module SentBox {
  import opened Basics
  import opened Sets

  /** A box index: its counter, and the rest of it. */
  datatype Index = Index(idx64: nat, rest: Bytes)

  /** None for `window` keeps a record for good, for `keepSent` its content. */
  datatype Retention = Retention(window: Option<int>, discardAcked: bool, keepSent: Option<int>)

  datatype Record = Record(index: Index, plaintext: Option<Bytes>, control: bool, written: int, settled: bool)

  /** A box written again, as a tombstone if without a plaintext. */
  datatype Write = Write(index: Index, plaintext: Option<Bytes>)

  type Records = map<nat, Record>

  // What the methods of `SentBox` change.

  predicate Expired(r: Record, epoch: int, policy: Retention) {
    policy.window.Some? && epoch - r.written > policy.window.value
  }

  predicate Due(r: Record, epoch: int, policy: Retention, acked: bool) {
    || (!r.control && policy.keepSent.Some? && epoch - r.written >= policy.keepSent.value)
    || (policy.discardAcked && acked)
  }

  function Trimmed(r: Record, epoch: int, policy: Retention, acked: bool): Record {
    if Due(r, epoch, policy, acked) then r.(plaintext := None) else r
  }

  /** `retain` */
  function Retained(records: Records, epoch: int, policy: Retention, acked: set<nat>): Records {
    map i | i in records && !Expired(records[i], epoch, policy) :: Trimmed(records[i], epoch, policy, i in acked)
  }

  /** What `backfill` writes for one record, if anything. */
  function Rewrite(r: Record, acked: bool): Option<Write> {
    if !acked then Some(Write(r.index, r.plaintext))
    else if r.plaintext.None? && !r.settled then Some(Write(r.index, None))
    else None
  }

  function Settled(r: Record, acked: bool): Record {
    if acked && r.plaintext.None? then r.(settled := true) else r
  }

  predicate AllIn(order: seq<nat>, records: Records) {
    forall n | 0 <= n < |order| :: order[n] in records
  }

  /** What is written for the first `n` of `order`. */
  function Rewrites(records: Records, order: seq<nat>, n: nat, acked: set<nat>): seq<Write>
    requires AllIn(order, records) && n <= |order|
  {
    if n == 0 then []
    else
      match Rewrite(records[order[n - 1]], order[n - 1] in acked)
      case None => Rewrites(records, order, n - 1, acked)
      case Some(write) => Rewrites(records, order, n - 1, acked) + [write]
  }

  function AllSettled(records: Records, acked: set<nat>): Records {
    map i | i in records :: Settled(records[i], i in acked)
  }

  /** `backfill`, when it has not run in this epoch yet: in ascending order. */
  function Backfilled(records: Records, acked: set<nat>): (Records, seq<Write>) {
    var order := Upward(records.Keys);
    assert forall n | 0 <= n < |order| :: order[n] in order;
    (AllSettled(records, acked), Rewrites(records, order, |order|, acked))
  }

  class Box {
    var records: Records
    var backfilled: int

    constructor ()
      ensures records == map[] && backfilled == -1
    {
      records, backfilled := map[], -1;
    }

    method Note(index: Index, plaintext: Option<Bytes>, control: bool, epoch: int)
      modifies this`records
      ensures records == old(records)[index.idx64 := Record(index, plaintext, control, epoch, false)]
    {
      records := records[index.idx64 := Record(index, plaintext, control, epoch, false)];
    }

    /** The Sent-box check: the counter of the box, if it was ever written. */
    method Check(index: Index) returns (found: Option<nat>)
      ensures found.Some? <==> index.idx64 in records && records[index.idx64].index == index
      ensures found.Some? ==> found.value == index.idx64
    {
      found := if index.idx64 in records && records[index.idx64].index == index then Some(index.idx64) else None;
    }

    method Retain(epoch: int, policy: Retention, acked: set<nat>)
      modifies this`records
      ensures records == Retained(old(records), epoch, policy, acked)
      ensures forall i :: i in records <==>
                i in old(records) && (policy.window.Some? ==> epoch - old(records)[i].written <= policy.window.value)
      ensures forall i | i in records ::
                var r := old(records)[i];
                if (policy.discardAcked && i in acked)
                   || (!r.control && policy.keepSent.Some? && epoch - r.written >= policy.keepSent.value)
                then records[i] == r.(plaintext := None) else records[i] == r
    {
      var expired := set i | i in records && Expired(records[i], epoch, policy);
      records := records - expired;
      ghost var live := records;
      var left := records.Keys;
      while left != {}
        invariant left <= live.Keys == records.Keys
        invariant forall i | i in live ::
                    records[i] == if i in left then live[i] else Trimmed(live[i], epoch, policy, i in acked)
        decreases left
      {
        var i :| i in left;
        if Due(records[i], epoch, policy, i in acked) {
          records := records[i := records[i].(plaintext := None)];
        }
        left := left - {i};
      }
    }

    method Backfill(epoch: int, acked: set<nat>) returns (effects: seq<Write>)
      modifies this
      ensures backfilled == epoch
      ensures epoch == old(backfilled) ==> records == old(records) && effects == []
      ensures epoch != old(backfilled) ==> (records, effects) == Backfilled(old(records), acked)
    {
      if epoch == backfilled {
        return [];
      }
      backfilled := epoch;
      effects := [];
      var order := Upward(records.Keys);
      RestOfUpward(records.Keys);
      effects := RewriteAll(order, acked);
    }

    method RewriteAll(order: seq<nat>, acked: set<nat>) returns (effects: seq<Write>)
      requires Rest(order, 0) == records.Keys && AllIn(order, records)
      requires forall i, j | 0 <= i < j < |order| :: order[i] < order[j]
      modifies this`records
      ensures records == AllSettled(old(records), acked)
      ensures effects == Rewrites(old(records), order, |order|, acked)
    {
      ghost var before := records;
      effects := [];
      for n := 0 to |order|
        invariant PartlySettled(before, records, Rest(order, n), acked)
        invariant effects == Rewrites(before, order, n, acked)
      {
        RestAscends(order, n + 1, order[n]);
        var written := RewriteOne(order[n], acked);
        if written.Some? {
          effects := effects + [written.value];
        }
      }
    }

    method RewriteOne(i: nat, acked: set<nat>) returns (written: Option<Write>)
      requires i in records
      modifies this`records
      ensures records == old(records)[i := Settled(old(records)[i], i in acked)]
      ensures written == Rewrite(old(records)[i], i in acked)
    {
      var r := records[i];
      if i !in acked {
        return Some(Write(r.index, r.plaintext));
      } else if r.plaintext.None? && !r.settled {
        records := records[i := r.(settled := true)];
        return Some(Write(r.index, None));
      }
      return None;
    }
  }

  ghost predicate PartlySettled(before: Records, records: Records, left: set<nat>, acked: set<nat>) {
    && records.Keys == before.Keys
    && forall i | i in before :: records[i] == if i in left then before[i] else Settled(before[i], i in acked)
  }

  function Rest(order: seq<nat>, n: nat): set<nat>
    requires n <= |order|
    decreases |order| - n
  {
    if n == |order| then {} else {order[n]} + Rest(order, n + 1)
  }

  lemma {:induction false} RestAscends(order: seq<nat>, n: nat, below: nat)
    requires n <= |order| && forall i, j | 0 <= i < j < |order| :: order[i] < order[j]
    requires n < |order| ==> below < order[n]
    ensures below !in Rest(order, n)
    decreases |order| - n
  {
    if n < |order| {
      RestAscends(order, n + 1, below);
    }
  }

  lemma {:induction false} RestIs(order: seq<nat>, n: nat)
    requires n <= |order|
    ensures forall i :: i in Rest(order, n) <==> i in order[n..]
    decreases |order| - n
  {
    if n < |order| {
      RestIs(order, n + 1);
      assert order[n..] == [order[n]] + order[n + 1..];
    }
  }

  lemma RestOfUpward(s: set<nat>)
    ensures
      var order := Upward(s);
      Rest(order, 0) == s && forall n | 0 <= n < |order| :: order[n] in s
  {
    var order := Upward(s);
    RestIs(order, 0);
    assert order[0..] == order;
    assert forall n | 0 <= n < |order| :: order[n] in order;
  }
}
