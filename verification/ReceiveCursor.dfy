/**
  The receive side of one stream: a box is armed as a `MixWAL` row, read by at
  most one drain at a time, and consumed by the transaction that moves the
  cursor. Each step is one transaction or one volatile move; a crash, a busy
  database, a retry or a pause may come between any two.

  Outside a scan the user asks for, which moves the cursor itself. A reply may
  name any box as the successor of the one it was asked for, except that for a
  box the cursor has passed it names none past the cursor.
 */
module ReceiveCursor {
  import opened Basics
  import opened Reassembly

  /** A read row of `MixWAL`. */
  datatype Row = Row(id: nat, current: nat, next: nat)

  datatype Phase = Waiting | Dropping(next: nat)

  /** A `drain_mixwal_read_single` task over the row as it was loaded. */
  datatype Task = Task(row: Row, phase: Phase)

  /** `cursor`, `row` and `pieces` survive a crash, `armed` (the cursor as the
      arming sweep read it) and `task` do not. The rest is history: what was
      consumed of each box from `first` on and what assembling there gave, and
      the announcements that left the table after each. */
  datatype Lane = Lane(
    first: nat,
    cursor: nat,
    row: Option<Row>,
    pieces: Store,
    armed: Option<nat>,
    task: Option<Task>,
    consumed: seq<Event>,
    given: seq<Assembled>,
    gone: seq<set<nat>>,
    used: set<nat>)

  datatype Step =
    | ReadCursor               // the arming sweep selects a stream without a row
    | Arm(id: nat)             // and commits a row for the index it read
    | Load                     // the drain loop starts a task for the row
    | Commit(next: nat, e: Event)  // a reply: the piece is stored, or dropped on purpose
    | HandlerFails(next: nat)  // the transaction of a reply is rolled back
    | Drop                     // and the box given up, in another transaction
    | Tombstoned
    | GiveUp                   // busy, interrupted, refused or not found: retried
    | Pause                    // the row is deleted, whatever its task does
    | Discard(boxes: set<nat>) // announcements whose substream has finished
    | Crash

  function Begin(first: nat): Lane {
    Lane(first, first, None, map[], None, None, [], [], [], {})
  }

  predicate Enabled(l: Lane, step: Step) {
    match step
    case ReadCursor => l.row.None?
    case Arm(id) => l.armed.Some? && id !in l.used
    case Load => l.row.Some? && l.task.None?
    case Commit(next, _) => l.task.Some? && l.task.value.phase.Waiting? && Credible(l, next)
    case HandlerFails(next) =>
      l.task.Some? && l.task.value.phase.Waiting? && Credible(l, next) && InTurn(l.cursor, next)
    case Drop => l.task.Some? && l.task.value.phase.Dropping?
    case Tombstoned => l.task.Some? && l.task.value.phase.Waiting?
    case GiveUp => l.task.Some?
    case Pause => true
    case Discard(_) => true
    case Crash => true
  }

  /** The check of a reply: it must name the box after the cursor. */
  predicate InTurn(cursor: nat, next: nat) {
    cursor < next && next == cursor + 1
  }

  /** The reply to a box the cursor has passed names none past the cursor. */
  predicate Credible(l: Lane, next: nat)
    requires l.task.Some?
  {
    l.task.value.row.current < l.cursor ==> next <= l.cursor
  }

  function DropRow(row: Option<Row>, id: nat): Option<Row> {
    if row.Some? && row.value.id == id then None else row
  }

  /** The box at `at` consumed as `e`, the cursor at `next`. */
  function Consumed(l: Lane, at: nat, next: nat, e: Event, decodes: Bytes -> bool): Lane {
    var (pieces, found) := Feed(l.pieces, at, e, decodes);
    l.(cursor := next, pieces := pieces,
       consumed := l.consumed + [e], given := l.given + [found], gone := l.gone + [{}])
  }

  function After(l: Lane, step: Step, decodes: Bytes -> bool): Lane
    requires Enabled(l, step)
  {
    match step
    case ReadCursor => l.(armed := Some(l.cursor))
    case Arm(id) =>
      if l.row.Some? then l.(armed := None, used := l.used + {id})
      else
        l.(armed := None, row := Some(Row(id, l.armed.value, l.armed.value + 1)), used := l.used + {id})
    case Load => l.(task := Some(Task(l.row.value, Waiting)))
    case Commit(next, e) =>
      var row := l.task.value.row;
      var l' := if InTurn(l.cursor, next) then Consumed(l, row.current, next, e, decodes) else l;
      l'.(row := DropRow(l.row, row.id), task := None)
    case HandlerFails(next) => l.(task := Some(l.task.value.(phase := Dropping(next))))
    case Drop =>
      var row := l.task.value.row;
      Consumed(l, row.current, l.task.value.phase.next, Skipped, decodes).(row := DropRow(l.row, row.id), task := None)
    case Tombstoned =>
      if l.row.None? || l.row.value.id != l.task.value.row.id then l.(task := None)
      else
        var row := l.row.value;
        var l' := if l.cursor == row.current then Consumed(l, row.current, row.next, Skipped, decodes) else l;
        l'.(row := None, task := None)
    case GiveUp => l.(task := None)
    case Pause => l.(row := None)
    case Discard(boxes) =>
      l.(pieces := l.pieces - Announcements(l.pieces, boxes),
         gone := if l.gone == [] then [] else l.gone[|l.gone| - 1 := l.gone[|l.gone| - 1] + boxes])
    case Crash => l.(armed := None, task := None)
  }

  predicate Possible(first: nat, steps: seq<Step>, decodes: Bytes -> bool)
    decreases |steps|, 0
  {
    steps == [] ||
    (Possible(first, steps[..|steps| - 1], decodes)
     && Enabled(Reached(first, steps[..|steps| - 1], decodes), steps[|steps| - 1]))
  }

  function Reached(first: nat, steps: seq<Step>, decodes: Bytes -> bool): Lane
    requires Possible(first, steps, decodes)
    decreases |steps|, 1
  {
    if steps == [] then Begin(first)
    else After(Reached(first, steps[..|steps| - 1], decodes), steps[|steps| - 1], decodes)
  }

  // What every lane keeps.

  predicate RowKept(row: Row, cursor: nat) {
    row.current <= cursor && row.next == row.current + 1
  }

  predicate TaskKept(task: Task, cursor: nat) {
    && RowKept(task.row, cursor)
    && (task.phase.Dropping? ==> task.row.current == cursor && InTurn(cursor, task.phase.next))
  }

  /** The boxes below the cursor were consumed, and each only once. */
  predicate CursorKept(l: Lane) {
    && l.cursor == l.first + |l.consumed|
    && |l.given| == |l.gone| == |l.consumed|
    && (l.row.Some? ==> RowKept(l.row.value, l.cursor))
    && (l.armed.Some? ==> l.armed.value <= l.cursor)
    && (l.task.Some? ==> TaskKept(l.task.value, l.cursor))
  }

  predicate PiecesKept(l: Lane, decodes: Bytes -> bool) {
    TableKept(l.first, l.consumed, l.gone, l.given, l.pieces, decodes)
  }

  /** The table is what taking the consumed boxes in order leaves, and each
      gave what the boxes up to it alone call for. */
  predicate TableKept(first: nat, consumed: seq<Event>, gone: seq<set<nat>>, given: seq<Assembled>, pieces: Store,
                      decodes: Bytes -> bool) {
    && |given| == |gone| == |consumed|
    && pieces == Fed(first, consumed, gone, decodes)
    && forall n | 0 <= n < |given| :: given[n] == Expected(first, consumed, n, decodes)
  }

  lemma ConsumedKept(l: Lane, e: Event, decodes: Bytes -> bool)
    requires CursorKept(l) && PiecesKept(l, decodes)
    ensures PiecesKept(Consumed(l, l.cursor, l.cursor + 1, e, decodes), decodes)
  {
    TableNext(l.first, l.consumed, l.gone, l.given, l.pieces, e, decodes);
  }

  lemma TableNext(first: nat, consumed: seq<Event>, gone: seq<set<nat>>, given: seq<Assembled>, pieces: Store,
                  e: Event, decodes: Bytes -> bool)
    requires TableKept(first, consumed, gone, given, pieces, decodes)
    ensures
      var (pieces', found) := Feed(pieces, first + |consumed|, e, decodes);
      TableKept(first, consumed + [e], gone + [{}], given + [found], pieces', decodes)
  {
    FedNext(first, consumed, gone, e, decodes);
    GivenNext(first, consumed, gone, given, e, decodes);
  }

  lemma FedNext(first: nat, consumed: seq<Event>, gone: seq<set<nat>>, e: Event, decodes: Bytes -> bool)
    requires |gone| == |consumed|
    ensures Fed(first, consumed + [e], gone + [{}], decodes) ==
            Feed(Fed(first, consumed, gone, decodes), first + |consumed|, e, decodes).0
  {}

  lemma GivenNext(first: nat, consumed: seq<Event>, gone: seq<set<nat>>, given: seq<Assembled>, e: Event,
                  decodes: Bytes -> bool)
    requires |gone| == |consumed| == |given|
    requires forall m | 0 <= m < |given| :: given[m] == Expected(first, consumed, m, decodes)
    ensures
      var all := given + [Feed(Fed(first, consumed, gone, decodes), first + |consumed|, e, decodes).1];
      forall m | 0 <= m < |all| :: all[m] == Expected(first, consumed + [e], m, decodes)
  {
    var n := |consumed|;
    assert (consumed + [e])[..n] == consumed;
    AssembledIsExpected(first, consumed, gone, e, decodes);
    forall m | 0 <= m < n
      ensures Expected(first, consumed, m, decodes) == Expected(first, consumed + [e], m, decodes)
    {
      ExpectedPrefix(first, consumed + [e], m, n, decodes);
    }
  }

  lemma DiscardKept(l: Lane, boxes: set<nat>, decodes: Bytes -> bool)
    requires PiecesKept(l, decodes)
    ensures PiecesKept(After(l, Discard(boxes), decodes), decodes)
  {
    hide Expected, Feed;
  }

  predicate LaneKept(l: Lane, decodes: Bytes -> bool) {
    CursorKept(l) && PiecesKept(l, decodes)
  }

  /** What a step may do: at most one box is consumed, and the cursor follows. */
  predicate Moves(l: Lane, l': Lane) {
    && l'.first == l.first && l.consumed <= l'.consumed
    && (l'.cursor == l.cursor || l'.cursor == l.cursor + 1)
  }

  /** The box at the cursor is consumed; its row goes, if it is there, and the
      task ends. */
  lemma TakenKept(l: Lane, row: Option<Row>, e: Event, decodes: Bytes -> bool)
    requires LaneKept(l, decodes) && (row == l.row || row.None?)
    ensures
      var l' := Consumed(l, l.cursor, l.cursor + 1, e, decodes).(row := row, task := None);
      LaneKept(l', decodes) && Moves(l, l')
  {
    ConsumedKept(l, e, decodes);
  }

  lemma CommitKept(l: Lane, next: nat, e: Event, decodes: Bytes -> bool)
    requires LaneKept(l, decodes) && Enabled(l, Commit(next, e))
    ensures LaneKept(After(l, Commit(next, e), decodes), decodes) && Moves(l, After(l, Commit(next, e), decodes))
  {
    hide PiecesKept;
    if InTurn(l.cursor, next) {
      TakenKept(l, DropRow(l.row, l.task.value.row.id), e, decodes);
    } else {
      SamePieces(l, After(l, Commit(next, e), decodes), decodes);
    }
  }

  lemma SamePieces(l: Lane, l': Lane, decodes: Bytes -> bool)
    requires PiecesKept(l, decodes) && l'.first == l.first && l'.consumed == l.consumed && l'.gone == l.gone
    requires l'.given == l.given && l'.pieces == l.pieces
    ensures PiecesKept(l', decodes)
  {
    hide Fed, Expected;
  }

  lemma TombstonedKept(l: Lane, decodes: Bytes -> bool)
    requires LaneKept(l, decodes) && Enabled(l, Tombstoned)
    ensures LaneKept(After(l, Tombstoned, decodes), decodes) && Moves(l, After(l, Tombstoned, decodes))
  {
    if l.row.Some? && l.cursor == l.row.value.current {
      TakenKept(l, None, Skipped, decodes);
    }
  }

  lemma StepKept(l: Lane, step: Step, decodes: Bytes -> bool)
    requires LaneKept(l, decodes) && Enabled(l, step)
    ensures LaneKept(After(l, step, decodes), decodes) && Moves(l, After(l, step, decodes))
  {
    match step
    case Commit(next, e) => CommitKept(l, next, e, decodes);
    case Drop => TakenKept(l, DropRow(l.row, l.task.value.row.id), Skipped, decodes);
    case Tombstoned => TombstonedKept(l, decodes);
    case Discard(boxes) => DiscardKept(l, boxes, decodes);
    case _ =>
  }

  lemma {:induction false} RunKept(first: nat, steps: seq<Step>, decodes: Bytes -> bool)
    requires Possible(first, steps, decodes)
    ensures
      var l := Reached(first, steps, decodes);
      LaneKept(l, decodes) && l.first == first
    decreases |steps|
  {
    if steps != [] {
      RunKept(first, steps[..|steps| - 1], decodes);
      StepKept(Reached(first, steps[..|steps| - 1], decodes), steps[|steps| - 1], decodes);
    }
  }

  /** Across crashes, busy rollbacks and retries the cursor moves one box at a
      time, every box below it was consumed exactly once and in order, and what
      each gave is the message the boxes up to it call for. */
  lemma BoxesConsumedOnce(first: nat, steps: seq<Step>, decodes: Bytes -> bool)
    requires Possible(first, steps, decodes)
    ensures
      var l := Reached(first, steps, decodes);
      && l.cursor == first + |l.consumed| && |l.given| == |l.consumed|
      && forall n | 0 <= n < |l.given| :: l.given[n] == Expected(first, l.consumed, n, decodes)
  {
    RunKept(first, steps, decodes);
  }

  /** The cursor never goes back or skips, and what was consumed stays so. */
  lemma CursorMovesByOne(first: nat, steps: seq<Step>, decodes: Bytes -> bool)
    requires steps != [] && Possible(first, steps, decodes)
    ensures
      var l, l' := Reached(first, steps[..|steps| - 1], decodes), Reached(first, steps, decodes);
      && (l'.cursor == l.cursor || l'.cursor == l.cursor + 1)
      && l.consumed <= l'.consumed && |l'.consumed| - |l.consumed| == l'.cursor - l.cursor
  {
    RunKept(first, steps[..|steps| - 1], decodes);
    StepKept(Reached(first, steps[..|steps| - 1], decodes), steps[|steps| - 1], decodes);
  }

  // Which steps consume a box.

  /** The row the task is over is still there, at the cursor. */
  predicate RowAtCursor(l: Lane)
    requires l.task.Some?
  {
    l.row.Some? && l.row.value.id == l.task.value.row.id && l.row.value.current == l.cursor
  }

  /** What the step consumes the box at the cursor as, if it does: a reply in
      turn as what it brought, a box given up and a tombstone as nothing. */
  function ConsumedAs(l: Lane, step: Step): Option<Event>
    requires Enabled(l, step)
  {
    match step
    case Commit(next, e) => if next == l.cursor + 1 then Some(e) else None
    case Drop => Some(Skipped)
    case Tombstoned => if RowAtCursor(l) then Some(Skipped) else None
    case _ => None
  }

  lemma StepConsumes(l: Lane, step: Step, decodes: Bytes -> bool)
    requires CursorKept(l) && Enabled(l, step)
    ensures
      var l', e := After(l, step, decodes), ConsumedAs(l, step);
      && l'.cursor == l.cursor + (if e.Some? then 1 else 0)
      && l'.consumed == l.consumed + (if e.Some? then [e.value] else [])
      && (e.Some? ==> l'.task.None? && (l.row.Some? && l.row.value.id == l.task.value.row.id ==> l'.row.None?))
  {
    hide Feed;
    if ConsumedAs(l, step).None? {
      assert l.consumed + [] == l.consumed;
    }
  }

  /** Exactly which steps of a run consume a box, and as what: a reply that names
      the next box, a box given up, and a tombstone whose row is there and at the
      cursor. The cursor moves past the box, and its row goes. */
  lemma ConsumesExactly(first: nat, steps: seq<Step>, decodes: Bytes -> bool)
    requires steps != [] && Possible(first, steps, decodes)
    ensures
      var front, step := steps[..|steps| - 1], steps[|steps| - 1];
      var l, l' := Reached(first, front, decodes), Reached(first, steps, decodes);
      var e := ConsumedAs(l, step);
      && l'.cursor == l.cursor + (if e.Some? then 1 else 0)
      && l'.consumed == l.consumed + (if e.Some? then [e.value] else [])
      && (e.Some? ==> l'.task.None? && (l.row.Some? && l.row.value.id == l.task.value.row.id ==> l'.row.None?))
  {
    RunKept(first, steps[..|steps| - 1], decodes);
    StepConsumes(Reached(first, steps[..|steps| - 1], decodes), steps[|steps| - 1], decodes);
  }

  // What is left in the table.

  /** At every moment a piece is in the table exactly if its box brought it, no
      message given since took it, and it was not discarded as an announcement. */
  lemma TableHolds(first: nat, steps: seq<Step>, decodes: Bytes -> bool, k: nat)
    requires Possible(first, steps, decodes)
    ensures
      var l := Reached(first, steps, decodes);
      && |l.gone| == |l.consumed|
      && (k in l.pieces <==> StaysStored(first, l.consumed, l.gone, decodes, k))
      && (k in l.pieces ==> l.consumed[k - first] == Stored(l.pieces[k]))
  {
    RunKept(first, steps, decodes);
    var l := Reached(first, steps, decodes);
    TableIs(first, l.consumed, l.gone, decodes, k);
  }

  // That a box can be consumed.

  lemma PossibleNext(first: nat, steps: seq<Step>, step: Step, decodes: Bytes -> bool)
    requires Possible(first, steps, decodes) && Enabled(Reached(first, steps, decodes), step)
    ensures Possible(first, steps + [step], decodes)
    ensures Reached(first, steps + [step], decodes) == After(Reached(first, steps, decodes), step, decodes)
  {
    assert (steps + [step])[..|steps|] == steps;
  }

  /** From any moment the stream can be armed and the box at the cursor consumed,
      whatever was under way: nothing is ever stuck. */
  lemma NeverStuck(first: nat, steps: seq<Step>, id: nat, e: Event, decodes: Bytes -> bool)
    requires Possible(first, steps, decodes) && id !in Reached(first, steps, decodes).used
    ensures
      var l := Reached(first, steps, decodes);
      var more := steps + [Crash] + [Pause] + [ReadCursor] + [Arm(id)] + [Load] + [Commit(l.cursor + 1, e)];
      && Possible(first, more, decodes)
      && Reached(first, more, decodes).consumed == l.consumed + [e]
      && Reached(first, more, decodes).cursor == l.cursor + 1
  {
    var l := Reached(first, steps, decodes);
    var paused := steps + [Crash] + [Pause];
    PossibleNext(first, steps, Crash, decodes);
    PossibleNext(first, steps + [Crash], Pause, decodes);
    ArmedAndTaken(first, paused, id, e, decodes);
  }

  lemma ArmedAndTaken(first: nat, steps: seq<Step>, id: nat, e: Event, decodes: Bytes -> bool)
    requires Possible(first, steps, decodes) && id !in Reached(first, steps, decodes).used
    requires Reached(first, steps, decodes).row.None? && Reached(first, steps, decodes).task.None?
    ensures
      var l := Reached(first, steps, decodes);
      var more := steps + [ReadCursor] + [Arm(id)] + [Load] + [Commit(l.cursor + 1, e)];
      && Possible(first, more, decodes)
      && Reached(first, more, decodes).consumed == l.consumed + [e]
      && Reached(first, more, decodes).cursor == l.cursor + 1
  {
    hide Feed;
    var l := Reached(first, steps, decodes);
    PossibleNext(first, steps, ReadCursor, decodes);
    PossibleNext(first, steps + [ReadCursor], Arm(id), decodes);
    PossibleNext(first, steps + [ReadCursor] + [Arm(id)], Load, decodes);
    PossibleNext(first, steps + [ReadCursor] + [Arm(id)] + [Load], Commit(l.cursor + 1, e), decodes);
  }
}
