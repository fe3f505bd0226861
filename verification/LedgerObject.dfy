/** The ledger: what was published of each stream, and what others acknowledged. */
module LedgerObject {
  import opened Basics
  import opened KeyOrder
  import RR = ReaderRuns

  class Ledger {
    var published: map<Key, nat>
    var ackedBy: map<Key, int>
    var heard: map<Key, map<Key, int>>
    var holding: bool

    constructor ()
      ensures published == map[] && ackedBy == map[] && heard == map[] && !holding
    {
      published, ackedBy, heard, holding := map[], map[], map[], false;
    }

    /** The ledger of one stream, as its runs see it. */
    function AcksOf(stream: Key, pending: map<nat, (Option<nat>, nat)>): RR.Acks
      reads this
    {
      RR.Acks(if stream in published then Some(published[stream]) else None, pending, holding)
    }

    method Owed(stream: Key, run: Option<nat>) returns (index: Option<nat>)
      ensures index == RR.Owed(AcksOf(stream, map[]), run)
      ensures index.Some? <==> !holding && run.Some? && !(stream in published && published[stream] == run.value)
      ensures index.Some? ==> index == run
    {
      if holding || run.None? || (stream in published && Some(published[stream]) == run) {
        return None;
      }
      return run;
    }

    /** What is published of a stream is as its runs see it, and that of every
        other is as it was. */
    method Publish(stream: Key, index: nat)
      modifies this`published
      ensures forall pending :: AcksOf(stream, pending) == old(AcksOf(stream, pending)).(published := Some(index))
      ensures forall other, pending | other != stream :: AcksOf(other, pending) == old(AcksOf(other, pending))
      ensures published == old(published)[stream := index]
    {
      published := published[stream := index];
    }

    /** What `_with_acks` does for one stream: whatever is owed is published, and
        `before` goes with it into the message that is pending as `token`. */
    method Acknowledge(stream: Key, run: Option<nat>) returns (owed: Option<nat>, before: Option<nat>)
      modifies this`published
      ensures forall token: nat, pending: map<nat, (Option<nat>, nat)> ::
                RR.Composed(old(AcksOf(stream, map[])).(pending := pending), token, run)
                == AcksOf(stream, if owed.Some? then pending[token := (before, owed.value)] else pending)
      ensures forall other, pending | other != stream :: AcksOf(other, pending) == old(AcksOf(other, pending))
      ensures published == if !holding && run.Some? then old(published)[stream := run.value] else old(published)
      ensures owed == if published == old(published) then None else run
      ensures owed.Some? ==> before == old(if stream in published then Some(published[stream]) else None)
    {
      before := if stream in published then Some(published[stream]) else None;
      owed := Owed(stream, run);
      if owed.Some? {
        Publish(stream, owed.value);
      }
    }

    /** What `who` last acknowledged of a stream. */
    function HeardFrom(stream: Key, who: Key): Option<int>
      reads this
    {
      if stream in heard && who in heard[stream] then Some(heard[stream][who]) else None
    }

    method Hear(stream: Key, idx64: int, who: Key)
      modifies this`heard
      ensures HeardFrom(stream, who) == Some(idx64)
      ensures forall s, w | s != stream || w != who :: HeardFrom(s, w) == old(HeardFrom(s, w))
    {
      var row: map<Key, int> := if stream in heard then heard[stream] else map[];
      heard := heard[stream := row[who := idx64]];
    }

    /** What a member has acknowledged never goes back. */
    method Acked(member: Key, idx64: int)
      modifies this`ackedBy
      ensures member in ackedBy && ackedBy == old(ackedBy)[member := ackedBy[member]]
      ensures ackedBy[member] == if member in old(ackedBy) && old(ackedBy)[member] > idx64 then old(ackedBy)[member]
                                 else if member !in old(ackedBy) && idx64 < -1 then -1
                                 else idx64
    {
      var before := if member in ackedBy then ackedBy[member] else -1;
      ackedBy := ackedBy[member := if before > idx64 then before else idx64];
    }

    /** A member removed counts for nobody and is heard of by nobody; nobody
        else is forgotten. */
    method Forget(member: Key)
      modifies this`ackedBy, this`heard
      ensures ackedBy == old(ackedBy) - {member}
      ensures forall s, w :: HeardFrom(s, w) == if member == s || member == w then None else old(HeardFrom(s, w))
    {
      ackedBy := ackedBy - {member};
      heard := heard - {member};
      heard := map stream | stream in heard :: heard[stream] - {member};
    }
  }
}
