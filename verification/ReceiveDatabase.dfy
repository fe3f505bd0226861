/**
  The receive side's transactions over the rows they update in place. Each
  leaves the stream as the step of the same name in `ReceiveCursor` says.
 */
module ReceiveDatabase {
  import opened Basics
  import opened Reassembly
  import RC = ReceiveCursor

  class Stream {
    var cursor: nat
    var row: Option<RC.Row>
    var pieces: Store
    var armed: Option<nat>
    var task: Option<RC.Task>

    ghost var first: nat
    ghost var consumed: seq<Event>
    ghost var given: seq<Assembled>
    ghost var gone: seq<set<nat>>
    ghost var used: set<nat>

    ghost function View(): RC.Lane
      reads this
    {
      RC.Lane(first, cursor, row, pieces, armed, task, consumed, given, gone, used)
    }

    constructor (start: nat)
      ensures View() == RC.Begin(start)
    {
      cursor, row, pieces, armed, task := start, None, map[], None, None;
      first, consumed, given, gone, used := start, [], [], [], {};
    }

    /** The commit of `readables_to_mixwal`: one row a stream. */
    method Arm(id: nat)
      requires RC.Enabled(View(), RC.Arm(id))
      modifies this
      ensures View() == RC.After(old(View()), RC.Arm(id), _ => true)
      ensures row == if old(row.Some?) then old(row) else Some(RC.Row(id, old(armed.value), old(armed.value) + 1))
      ensures armed.None? && cursor == old(cursor) && pieces == old(pieces)
    {
      if row.None? {
        row := Some(RC.Row(id, armed.value, armed.value + 1));
      }
      armed := None;
      used := used + {id};
    }

    method DeleteRow(id: nat)
      modifies this`row
      ensures row == RC.DropRow(old(row), id)
      ensures row == if old(row.Some? && row.value.id == id) then None else old(row)
    {
      if row.Some? && row.value.id == id {
        row := None;
      }
    }

    /** A box is taken: the cursor moves past it, and what its piece completes
        leaves the table. */
    method Take(at: nat, next: nat, e: Event, decodes: Bytes -> bool) returns (found: Assembled)
      modifies this`cursor, this`pieces, this`consumed, this`given, this`gone
      ensures View() == RC.Consumed(old(View()), at, next, e, decodes)
      ensures found == Feed(old(pieces), at, e, decodes).1
    {
      found := Unfinished;
      cursor := next;
      if e.Stored? {
        pieces := pieces[at := e.piece];
        found := TryAssemble(pieces, at, decodes);
        if found.Message? {
          DeleteChain(found.start, at);
        }
      }
      consumed, given, gone := consumed + [e], given + [found], gone + [{}];
    }

    method DeleteChain(start: nat, at: nat)
      requires start <= at
      modifies this`pieces
      ensures pieces == old(pieces) - (set k | k in old(pieces) && start <= k <= at)
    {
      ghost var before := pieces;
      for n := start to at + 1
        invariant pieces == before - (set k | k in before && start <= k < n)
      {
        pieces := pieces - {n};
      }
    }

    /** The transaction of a reply that names `next` as the following box. One
        that would move the cursor back or past a box is ignored, and its row
        deleted. */
    method Commit(next: nat, e: Event, decodes: Bytes -> bool) returns (found: Assembled)
      requires RC.Enabled(View(), RC.Commit(next, e))
      modifies this
      ensures View() == RC.After(old(View()), RC.Commit(next, e), decodes)
      ensures cursor == old(cursor) + (if next == old(cursor) + 1 then 1 else 0)
      ensures consumed == old(consumed) + (if next == old(cursor) + 1 then [e] else [])
      ensures next != old(cursor) + 1 ==> pieces == old(pieces) && given == old(given)
      ensures task.None? && row == if old(row.Some? && row.value.id == task.value.row.id) then None else old(row)
    {
      hide Feed;
      var reply := task.value.row;
      found := Unfinished;
      if cursor < next && next == cursor + 1 {
        found := Take(reply.current, next, e, decodes);
      }
      DeleteRow(reply.id);
      task := None;
    }

    /** A box whose handler failed is given up, in a transaction of its own. */
    method Drop(decodes: Bytes -> bool)
      requires RC.Enabled(View(), RC.Drop)
      modifies this
      ensures View() == RC.After(old(View()), RC.Drop, decodes)
      ensures cursor == old(task.value.phase.next) && consumed == old(consumed) + [Skipped]
      ensures pieces == old(pieces) && given == old(given) + [Unfinished]
      ensures task.None? && row == if old(row.Some? && row.value.id == task.value.row.id) then None else old(row)
    {
      var reply := task.value.row;
      var _ := Take(reply.current, task.value.phase.next, Skipped, decodes);
      DeleteRow(reply.id);
      task := None;
    }

    /** `_advance_past_tombstone` */
    method AdvancePastTombstone(decodes: Bytes -> bool)
      requires RC.Enabled(View(), RC.Tombstoned)
      modifies this
      ensures View() == RC.After(old(View()), RC.Tombstoned, decodes)
      ensures task.None? && pieces == old(pieces)
      ensures
        var mine := old(row.Some? && row.value.id == task.value.row.id);
        && row == (if mine then None else old(row))
        && if mine && old(row.value.current) == old(cursor)
           then cursor == old(row.value.next) && consumed == old(consumed) + [Skipped]
           else cursor == old(cursor) && consumed == old(consumed)
    {
      var id := task.value.row.id;
      task := None;
      if row.None? || row.value.id != id {
        return;
      }
      if cursor == row.value.current {
        var _ := Take(row.value.current, row.value.next, Skipped, decodes);
      }
      row := None;
    }

    /** `_discard_substream_release`: the announcements of the substream read
        by `readCap` go, and nothing else. */
    method Discard(readCap: Bytes, decodes: Bytes -> bool)
      modifies this`pieces, this`gone
      ensures View() == RC.After(old(View()), RC.Discard(Announcing(old(pieces), readCap)), decodes)
      ensures forall k :: k in pieces <==>
                k in old(pieces) && !(old(pieces)[k].kind.I? && EndsIn(old(pieces)[k].body, readCap))
      ensures forall k | k in pieces :: pieces[k] == old(pieces)[k]
    {
      var release := Announcing(pieces, readCap);
      pieces := pieces - release;
      gone := if gone == [] then [] else gone[|gone| - 1 := gone[|gone| - 1] + release];
    }
  }

  /** `_substream_release_pieces`: the indirection pieces, with a chunk count
      or without, that end in the read cap. */
  function Announcing(pieces: Store, readCap: Bytes): (boxes: set<nat>)
    ensures Announcements(pieces, boxes) == boxes
  {
    set k | k in pieces && pieces[k].kind.I? && EndsIn(pieces[k].body, readCap)
  }

  predicate EndsIn(body: Bytes, readCap: Bytes) {
    (|body| == READ_CAP_SIZE || |body| == READ_CAP_SIZE + 4) && body[|body| - READ_CAP_SIZE..] == readCap
  }
}
