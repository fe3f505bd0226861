/**
  From the receive cursor to what is acknowledged, outside a scan: a box the
  cursor consumes is noted, held back while a message is on its way through it,
  then observed by the stream's reader, and the end of what was observed is
  what the next message acknowledges.
 */
module Acknowledging {
  import opened Basics
  import opened StreamReader
  import HB = HoldBack
  import RC = ReceiveCursor
  import RR = ReaderRuns
  import RG = RunRegress

  /** What was noted of boxes, the boxes held of all of it, what the reader was
      told, and the reader of the stream. */
  datatype Notes = Notes(events: seq<HB.Event>, held: seq<HB.Box>, told: seq<HB.Told>, s: State)

  datatype Client = Client(lane: RC.Lane, notes: Notes, acks: RR.Acks)

  datatype Move =
    | Receives(step: RC.Step, noted: seq<HB.Event>)  // a step of the receive side, and what it notes
    | Elsewhere(event: HB.Event)                     // of another stream, or a substream's arrival or end
    | Acknowledges(ack: RR.Step)                     // a message composed, written or abandoned, or an induction

  /** `observe`: the reader is set to the box and reads it. */
  function Observed(s: State, told: HB.Told, window: nat): State {
    var (read, _) := Found(s.(next := told.index, mode := Reading), told.index, Data, Some(told.next), window);
    read.(mode := Idle)
  }

  function ObservedAll(s: State, told: seq<HB.Told>, window: nat): State {
    if told == [] then s else Observed(ObservedAll(s, told[..|told| - 1], window), told[|told| - 1], window)
  }

  /** One event noted, and what it releases observed. */
  function Note(n: Notes, e: HB.Event, stream: nat, window: nat): Notes {
    var (held, more) := HB.After(n.held, e);
    Notes(n.events + [e], held, n.told + more, ObservedAll(n.s, HB.ToldOf(more, stream), window))
  }

  function NoteAll(n: Notes, noted: seq<HB.Event>, stream: nat, window: nat): Notes {
    if noted == [] then n
    else Note(NoteAll(n, noted[..|noted| - 1], stream, window), noted[|noted| - 1], stream, window)
  }

  /** What a transaction may note of the box it consumes: nothing, or that it
      was read, perhaps after the message that came in it. */
  predicate Notable(noted: seq<HB.Event>, stream: nat, index: nat) {
    noted == []
    || (|noted| == 1 && ReadOf(noted[0], stream, index))
    || (|noted| == 2 && MessageOf(noted[0], stream, index) && ReadOf(noted[1], stream, index))
  }

  predicate ReadOf(e: HB.Event, stream: nat, index: nat) {
    e.Read? && e.stream == stream && e.index == index
  }

  predicate MessageOf(e: HB.Event, stream: nat, index: nat) {
    e.Message? && e.stream == stream && e.box == Some(index) && e.substream.None?
  }

  predicate Enabled(c: Client, move: Move, stream: nat) {
    match move
    case Receives(step, noted) =>
      && RC.Enabled(c.lane, step)
      && (noted != [] ==> step.Commit? && RC.InTurn(c.lane.cursor, step.next))
      && (step.Commit? ==> Notable(noted, stream, c.lane.task.value.row.current))
    case Elsewhere(event) => event.stream != stream || HB.IndexOf(event).None?
    case Acknowledges(step) =>
      match step
      case Compose(token) => token !in c.acks.pending
      case Written(_) => true
      case Abandoned(_) => true
      case Hold(_) => true
      case _ => false
  }

  function After(c: Client, move: Move, stream: nat, window: nat, decodes: Bytes -> bool): Client
    requires Enabled(c, move, stream)
  {
    match move
    case Receives(step, noted) =>
      c.(lane := RC.After(c.lane, step, decodes), notes := NoteAll(c.notes, noted, stream, window))
    case Elsewhere(event) => c.(notes := Note(c.notes, event, stream, window))
    case Acknowledges(step) => c.(acks := RR.AcksAfter(c.acks, step, Run(c.notes.s)))
  }

  function Begin(first: nat): Client {
    Client(RC.Begin(first), Notes([], [], [], State(first, None, 0, [], None, Idle, [])), RR.Acks(None, map[], false))
  }

  predicate Possible(first: nat, moves: seq<Move>, stream: nat, window: nat, decodes: Bytes -> bool)
    decreases |moves|, 0
  {
    moves == [] ||
    (Possible(first, moves[..|moves| - 1], stream, window, decodes)
     && Enabled(Reached(first, moves[..|moves| - 1], stream, window, decodes), moves[|moves| - 1], stream))
  }

  function Reached(first: nat, moves: seq<Move>, stream: nat, window: nat, decodes: Bytes -> bool): Client
    requires Possible(first, moves, stream, window, decodes)
    decreases |moves|, 1
  {
    if moves == [] then Begin(first)
    else
      After(Reached(first, moves[..|moves| - 1], stream, window, decodes), moves[|moves| - 1], stream, window, decodes)
  }

  // The reader.

  function LastTold(told: seq<HB.Told>): Option<nat> {
    if told == [] then None else Some(told[|told| - 1].index)
  }

  /** A reader that only observes has no gap, so its run ends at the last box
      it was told. */
  predicate NoGap(s: State, told: seq<HB.Told>) {
    s.kept == [] && s.lost.None? && s.last == LastTold(told)
  }

  lemma {:induction false} ObservedKept(s: State, told: seq<HB.Told>, more: seq<HB.Told>, window: nat)
    requires NoGap(s, told)
    ensures NoGap(ObservedAll(s, more, window), told + more)
  {
    if more == [] {
      assert told + more == told;
    } else {
      ObservedKept(s, told, more[..|more| - 1], window);
    }
  }

  predicate NotesKept(n: Notes, stream: nat) {
    (n.held, n.told) == HB.Reached(n.events) && NoGap(n.s, HB.ToldOf(n.told, stream))
  }

  lemma NoteKept(n: Notes, e: HB.Event, stream: nat, window: nat)
    requires NotesKept(n, stream)
    ensures
      var n' := Note(n, e, stream, window);
      NotesKept(n', stream) && HB.ToldOf(n.told, stream) <= HB.ToldOf(n'.told, stream)
  {
    var more := HB.After(n.held, e).1;
    ReachedNext(n.events, e);
    HB.ToldOfConcat(n.told, more, stream);
    ObservedKept(n.s, HB.ToldOf(n.told, stream), HB.ToldOf(more, stream), window);
  }

  lemma ReachedNext(events: seq<HB.Event>, e: HB.Event)
    ensures
      var (held, told) := HB.Reached(events);
      var (held', more) := HB.After(held, e);
      HB.Reached(events + [e]) == (held', told + more)
  {
    assert (events + [e])[..|events|] == events;
  }

  // The order of what is noted.

  /** The boxes noted of the stream, released or not, ascend below the cursor
      and were all read. */
  predicate InTurn(boxes: seq<HB.Box>, stream: nat, cursor: nat) {
    && HB.Lined(boxes, stream)
    && forall k | 0 <= k < |boxes| :: boxes[k].next.Some? && boxes[k].index < cursor
  }

  predicate OrderKept(events: seq<HB.Event>, stream: nat, cursor: nat) {
    var mine := HB.EventsOf(events, stream);
    HB.InOrder(mine, stream) && InTurn(HB.Boxes(mine), stream, cursor)
  }

  lemma EventsOfNext(events: seq<HB.Event>, e: HB.Event, stream: nat)
    ensures HB.EventsOf(events + [e], stream) ==
            HB.EventsOf(events, stream) + if e.stream == stream then [e] else []
  {
    assert (events + [e])[..|events|] == events;
  }

  lemma BoxesNext(mine: seq<HB.Event>, e: HB.Event, stream: nat)
    requires HB.InOrder(mine, stream) && e.stream == stream
    requires HB.IndexOf(e).Some? ==> HB.Turn(HB.Boxes(mine), HB.IndexOf(e).value)
    ensures HB.InOrder(mine + [e], stream) && HB.Boxes(mine + [e]) == HB.Updated(HB.Boxes(mine), e)
  {
    assert (mine + [e])[..|mine|] == mine;
  }

  /** A message without a box of its own, or the end of a substream, notes no
      box. */
  lemma NoBoxUpdated(boxes: seq<HB.Box>, e: HB.Event, cursor: nat)
    requires InTurn(boxes, e.stream, cursor) && HB.IndexOf(e).None?
    ensures InTurn(HB.Updated(boxes, e), e.stream, cursor)
  {
    HB.UpdatedLined(boxes, e);
    NoBoxLike(boxes, e);
    hide HB.Updated, HB.Lined;
  }

  lemma NoBoxLike(boxes: seq<HB.Box>, e: HB.Event)
    requires HB.IndexOf(e).None?
    ensures
      var boxes' := HB.Updated(boxes, e);
      && |boxes'| == |boxes|
      && forall k | 0 <= k < |boxes| :: boxes'[k].index == boxes[k].index && boxes'[k].next == boxes[k].next
  {
    match e
    case Message(stream, _, substream, plaintext) =>
      if substream.Some? {
        HB.ArrivedIs(boxes, stream, substream.value, plaintext);
      }
    case Settle(stream, arrivals) => HB.SettledIs(boxes, stream, arrivals);
    case Read(_, _, _, _, _) =>
  }

  lemma ElsewhereOrder(events: seq<HB.Event>, e: HB.Event, stream: nat, cursor: nat)
    requires OrderKept(events, stream, cursor) && (e.stream != stream || HB.IndexOf(e).None?)
    ensures OrderKept(events + [e], stream, cursor)
  {
    var mine := HB.EventsOf(events, stream);
    EventsOfNext(events, e, stream);
    if e.stream == stream {
      BoxesNext(mine, e, stream);
      NoBoxUpdated(HB.Boxes(mine), e, cursor);
    } else {
      assert mine + [] == mine;
    }
  }

  /** The box at the cursor noted as read. */
  lemma ReadUpdated(boxes: seq<HB.Box>, e: HB.Event, cursor: nat)
    requires e.Read? && HB.Lined(boxes, e.stream) && e.index == cursor && HB.Turn(boxes, cursor)
    requires forall k | 0 <= k < |boxes| && boxes[k].next.Some? :: boxes[k].index < cursor
    ensures InTurn(HB.Updated(boxes, e), e.stream, cursor + 1)
  {
    HB.UpdatedLined(boxes, e);
    HB.NotedLast(boxes, e.stream, e.index);
  }

  /** The message of the box at the cursor noted. */
  lemma MessageUpdated(boxes: seq<HB.Box>, e: HB.Event, cursor: nat)
    requires InTurn(boxes, e.stream, cursor) && MessageOf(e, e.stream, cursor)
    ensures
      var boxes' := HB.Updated(boxes, e);
      && HB.Lined(boxes', e.stream) && HB.Turn(boxes', cursor)
      && forall k | 0 <= k < |boxes'| && boxes'[k].next.Some? :: boxes'[k].index < cursor
  {
    HB.UpdatedLined(boxes, e);
    HB.NotedLast(boxes, e.stream, cursor);
  }

  lemma ReadOrder(mine: seq<HB.Event>, e: HB.Event, stream: nat, cursor: nat)
    requires HB.InOrder(mine, stream) && ReadOf(e, stream, cursor)
    requires HB.Lined(HB.Boxes(mine), stream) && HB.Turn(HB.Boxes(mine), cursor)
    requires forall k | 0 <= k < |HB.Boxes(mine)| && HB.Boxes(mine)[k].next.Some? :: HB.Boxes(mine)[k].index < cursor
    ensures HB.InOrder(mine + [e], stream) && InTurn(HB.Boxes(mine + [e]), stream, cursor + 1)
  {
    BoxesNext(mine, e, stream);
    ReadUpdated(HB.Boxes(mine), e, cursor);
  }

  lemma NotedOne(events: seq<HB.Event>, e: HB.Event, stream: nat, cursor: nat)
    requires OrderKept(events, stream, cursor) && ReadOf(e, stream, cursor)
    ensures OrderKept(events + [e], stream, cursor + 1)
  {
    EventsOfNext(events, e, stream);
    ReadOrder(HB.EventsOf(events, stream), e, stream, cursor);
  }

  lemma NotedTwo(events: seq<HB.Event>, m: HB.Event, e: HB.Event, stream: nat, cursor: nat)
    requires OrderKept(events, stream, cursor) && MessageOf(m, stream, cursor) && ReadOf(e, stream, cursor)
    ensures OrderKept(events + [m] + [e], stream, cursor + 1)
  {
    var mine := HB.EventsOf(events, stream);
    EventsOfNext(events, m, stream);
    BoxesNext(mine, m, stream);
    MessageUpdated(HB.Boxes(mine), m, cursor);
    EventsOfNext(events + [m], e, stream);
    ReadOrder(mine + [m], e, stream, cursor);
  }

  lemma NotedOrder(events: seq<HB.Event>, noted: seq<HB.Event>, stream: nat, cursor: nat)
    requires OrderKept(events, stream, cursor) && Notable(noted, stream, cursor) && noted != []
    ensures OrderKept(events + noted, stream, cursor + 1)
  {
    hide OrderKept;
    if |noted| == 1 {
      NotedOne(events, noted[0], stream, cursor);
      assert events + noted == events + [noted[0]];
    } else {
      NotedTwo(events, noted[0], noted[1], stream, cursor);
      assert events + noted == events + [noted[0]] + [noted[1]];
    }
  }

  // What is acknowledged.

  ghost predicate WasTold(told: seq<HB.Told>, index: Option<nat>) {
    index.Some? ==> exists k :: 0 <= k < |told| && told[k].index == index.value
  }

  ghost predicate AcksTold(acks: RR.Acks, told: seq<HB.Told>) {
    && WasTold(told, acks.published)
    && forall token | token in acks.pending ::
      WasTold(told, acks.pending[token].0) && WasTold(told, Some(acks.pending[token].1))
  }

  lemma AcksToldMore(acks: RR.Acks, told: seq<HB.Told>, told': seq<HB.Told>)
    requires AcksTold(acks, told) && told <= told'
    ensures AcksTold(acks, told')
  {}

  lemma AcksKept(acks: RR.Acks, step: RR.Step, s: State, told: seq<HB.Told>)
    requires AcksTold(acks, told) && NoGap(s, told)
    ensures AcksTold(RR.AcksAfter(acks, step, Run(s)), told)
  {
    RunIs(s, told);
  }

  lemma RunIs(s: State, told: seq<HB.Told>)
    requires NoGap(s, told)
    ensures Run(s) == LastTold(told) && WasTold(told, Run(s))
  {
    if told != [] {
      assert told[|told| - 1].index == s.last.value;
    }
  }

  // Every move.

  ghost predicate Inv(c: Client, stream: nat, decodes: Bytes -> bool) {
    && RC.LaneKept(c.lane, decodes)
    && NotesKept(c.notes, stream)
    && OrderKept(c.notes.events, stream, c.lane.cursor)
    && AcksTold(c.acks, HB.ToldOf(c.notes.told, stream))
  }

  function Mine(c: Client, stream: nat): seq<HB.Told> {
    HB.ToldOf(c.notes.told, stream)
  }

  lemma {:induction false} NoteAllEvents(n: Notes, noted: seq<HB.Event>, stream: nat, window: nat)
    ensures NoteAll(n, noted, stream, window).events == n.events + noted
  {
    if noted != [] {
      NoteAllEvents(n, noted[..|noted| - 1], stream, window);
      assert noted == noted[..|noted| - 1] + [noted[|noted| - 1]];
    }
  }

  lemma {:induction false} NoteAllKept(n: Notes, noted: seq<HB.Event>, stream: nat, window: nat)
    requires NotesKept(n, stream)
    ensures
      var n' := NoteAll(n, noted, stream, window);
      NotesKept(n', stream) && HB.ToldOf(n.told, stream) <= HB.ToldOf(n'.told, stream)
  {
    if noted != [] {
      var front := noted[..|noted| - 1];
      var before, e := NoteAll(n, front, stream, window), noted[|noted| - 1];
      NoteAllKept(n, front, stream, window);
      NoteKept(before, e, stream, window);
      assert NoteAll(n, noted, stream, window) == Note(before, e, stream, window);
    }
  }

  lemma LaterOrder(events: seq<HB.Event>, stream: nat, cursor: nat, cursor': nat)
    requires OrderKept(events, stream, cursor) && cursor <= cursor'
    ensures OrderKept(events, stream, cursor')
  {}

  /** A reply in turn is for the box at the cursor. */
  lemma CommitsAtCursor(lane: RC.Lane, step: RC.Step, decodes: Bytes -> bool)
    requires RC.CursorKept(lane) && RC.Enabled(lane, step) && step.Commit? && RC.InTurn(lane.cursor, step.next)
    ensures lane.task.value.row.current == lane.cursor
    ensures RC.After(lane, step, decodes).cursor == lane.cursor + 1
  {}

  lemma ReceivesOrder(lane: RC.Lane, step: RC.Step, noted: seq<HB.Event>, events: seq<HB.Event>, stream: nat,
                      decodes: Bytes -> bool)
    requires RC.LaneKept(lane, decodes) && RC.Enabled(lane, step) && OrderKept(events, stream, lane.cursor)
    requires noted != [] ==> step.Commit? && RC.InTurn(lane.cursor, step.next)
    requires step.Commit? ==> Notable(noted, stream, lane.task.value.row.current)
    ensures OrderKept(events + noted, stream, RC.After(lane, step, decodes).cursor)
  {
    hide RC.PiecesKept, RC.CursorKept, RC.After, OrderKept, Notable;
    if noted == [] {
      RC.StepKept(lane, step, decodes);
      assert events + noted == events;
      LaterOrder(events, stream, lane.cursor, RC.After(lane, step, decodes).cursor);
    } else {
      CommitsAtCursor(lane, step, decodes);
      NotedOrder(events, noted, stream, lane.cursor);
    }
  }

  lemma MoveKept(c: Client, move: Move, stream: nat, window: nat, decodes: Bytes -> bool)
    requires Inv(c, stream, decodes) && Enabled(c, move, stream)
    ensures
      var c' := After(c, move, stream, window, decodes);
      Inv(c', stream, decodes) && Mine(c, stream) <= Mine(c', stream)
  {
    match move
    case Receives(step, noted) =>
      RC.StepKept(c.lane, step, decodes);
      NoteAllKept(c.notes, noted, stream, window);
      NoteAllEvents(c.notes, noted, stream, window);
      ReceivesOrder(c.lane, step, noted, c.notes.events, stream, decodes);
      AcksToldMore(c.acks, Mine(c, stream), Mine(After(c, move, stream, window, decodes), stream));
    case Elsewhere(event) =>
      NoteKept(c.notes, event, stream, window);
      ElsewhereOrder(c.notes.events, event, stream, c.lane.cursor);
      AcksToldMore(c.acks, Mine(c, stream), Mine(After(c, move, stream, window, decodes), stream));
    case Acknowledges(ack) => AcksKept(c.acks, ack, c.notes.s, Mine(c, stream));
  }

  lemma {:induction false} RunKept(first: nat, moves: seq<Move>, stream: nat, window: nat, decodes: Bytes -> bool)
    requires Possible(first, moves, stream, window, decodes)
    ensures Inv(Reached(first, moves, stream, window, decodes), stream, decodes)
    decreases |moves|
  {
    if moves != [] {
      var front := moves[..|moves| - 1];
      RunKept(first, front, stream, window, decodes);
      MoveKept(Reached(first, front, stream, window, decodes), moves[|moves| - 1], stream, window, decodes);
    }
  }

  // What it means for whole runs.

  /** The boxes of the stream noted so far, as they are now. */
  function Noted(c: Client, stream: nat): seq<HB.Box> {
    HB.Boxes(HB.EventsOf(c.notes.events, stream))
  }

  /** What a client told of a stream is its boxes before the first that waits,
      and the rest are held. */
  lemma ToldAndHeld(c: Client, stream: nat, decodes: Bytes -> bool)
    requires Inv(c, stream, decodes)
    ensures
      var boxes, told := Noted(c, stream), Mine(c, stream);
      && |told| == HB.Ready(boxes) && HB.HeldOf(c.notes.held, stream) == boxes[HB.Ready(boxes)..]
      && (forall k | 0 <= k < |told| :: told[k].index == boxes[k].index)
      && InTurn(boxes, stream, c.lane.cursor)
  {
    var boxes := Noted(c, stream);
    HB.StreamTold(c.notes.events, stream);
    HB.ToldAre(boxes[..HB.Ready(boxes)]);
  }

  predicate Ascends(told: seq<HB.Told>) {
    forall i, j | 0 <= i < j < |told| :: told[i].index < told[j].index
  }

  lemma RunOrdered(c: Client, stream: nat, decodes: Bytes -> bool)
    requires Inv(c, stream, decodes)
    ensures Ascends(Mine(c, stream)) && Run(c.notes.s) == LastTold(Mine(c, stream))
    ensures WasTold(Mine(c, stream), c.acks.published)
  {
    hide OrderKept;
    ToldAndHeld(c, stream, decodes);
    RunIs(c.notes.s, Mine(c, stream));
  }

  /** Of what was told first, of the stream's boxes: where the last is, and which
      box any of it is. */
  lemma ToldAmong(boxes: seq<HB.Box>, told: seq<HB.Told>, n: nat, index: Option<nat>)
    requires |told| == n <= |boxes| && (forall k | 0 <= k < n :: told[k].index == boxes[k].index)
    requires WasTold(told, index)
    ensures LastTold(told) == if n == 0 then None else Some(boxes[n - 1].index)
    ensures index.Some? ==> exists k :: 0 <= k < n && boxes[k].index == index.value
  {
    if index.Some? {
      var k :| 0 <= k < |told| && told[k].index == index.value;
      assert boxes[k].index == index.value;
    }
  }

  lemma BeforeTheRest(boxes: seq<HB.Box>, stream: nat, cursor: nat, n: nat, index: nat)
    requires InTurn(boxes, stream, cursor) && n <= |boxes|
    requires exists k :: 0 <= k < n && boxes[k].index == index
    ensures index < cursor && forall box | box in boxes[n..] :: index < box.index
  {}

  /** At every moment the end of the run is exactly the last box before the
      first that waits for its message; what is published is one of the boxes
      up to it, which the cursor has consumed, and no box held or to come is at
      or before it. */
  lemma AcknowledgedAreTold(first: nat, moves: seq<Move>, stream: nat, window: nat, decodes: Bytes -> bool)
    requires Possible(first, moves, stream, window, decodes)
    ensures
      var c := Reached(first, moves, stream, window, decodes);
      var boxes := Noted(c, stream);
      var n := HB.Ready(boxes);
      && Run(c.notes.s) == (if n == 0 then None else Some(boxes[n - 1].index))
      && (c.acks.published.Some? ==>
            && c.acks.published.value < c.lane.cursor
            && (exists k :: 0 <= k < n && boxes[k].index == c.acks.published.value)
            && forall box | box in HB.HeldOf(c.notes.held, stream) :: c.acks.published.value < box.index)
  {
    hide Inv, Reached, Noted, Mine, InTurn, WasTold, LastTold, Run, HB.Ready, HB.HeldOf, Ascends;
    RunKept(first, moves, stream, window, decodes);
    var c := Reached(first, moves, stream, window, decodes);
    var boxes := Noted(c, stream);
    ToldAndHeld(c, stream, decodes);
    RunOrdered(c, stream, decodes);
    ToldAmong(boxes, Mine(c, stream), HB.Ready(boxes), c.acks.published);
    if c.acks.published.Some? {
      BeforeTheRest(boxes, stream, c.lane.cursor, HB.Ready(boxes), c.acks.published.value);
    }
  }

  lemma MoveForward(c: Client, move: Move, stream: nat, window: nat, decodes: Bytes -> bool)
    requires Inv(c, stream, decodes) && Enabled(c, move, stream)
    ensures
      var c' := After(c, move, stream, window, decodes);
      && !RG.Behind(Run(c'.notes.s), Run(c.notes.s))
      && (RG.Behind(c'.acks.published, c.acks.published) ==> move.Acknowledges? && move.ack.Abandoned?)
  {
    hide Inv;
    var c' := After(c, move, stream, window, decodes);
    MoveKept(c, move, stream, window, decodes);
    RunOrdered(c, stream, decodes);
    RunOrdered(c', stream, decodes);
    LaterTold(Mine(c, stream), Mine(c', stream));
  }

  /** No move takes the end of the run back, and none but abandoning a message
      takes back what is published. */
  lemma OnlyForward(first: nat, moves: seq<Move>, stream: nat, window: nat, decodes: Bytes -> bool)
    requires moves != [] && Possible(first, moves, stream, window, decodes)
    ensures
      var c := Reached(first, moves[..|moves| - 1], stream, window, decodes);
      var c' := Reached(first, moves, stream, window, decodes);
      var move := moves[|moves| - 1];
      && !RG.Behind(Run(c'.notes.s), Run(c.notes.s))
      && (RG.Behind(c'.acks.published, c.acks.published) ==> move.Acknowledges? && move.ack.Abandoned?)
  {
    var front := moves[..|moves| - 1];
    RunKept(first, front, stream, window, decodes);
    MoveForward(Reached(first, front, stream, window, decodes), moves[|moves| - 1], stream, window, decodes);
  }

  lemma LaterTold(told: seq<HB.Told>, told': seq<HB.Told>)
    requires told <= told' && Ascends(told')
    ensures !RG.Behind(LastTold(told'), LastTold(told))
    ensures forall index | WasTold(told, index) :: !RG.Behind(LastTold(told'), index)
  {}

  /** A message composed while nothing is held back publishes exactly the last
      box before the first that waits, if there is one. */
  lemma ComposeAcknowledges(first: nat, moves: seq<Move>, stream: nat, window: nat, decodes: Bytes -> bool)
    requires moves != [] && Possible(first, moves, stream, window, decodes)
    requires
      var move := moves[|moves| - 1];
      move.Acknowledges? && move.ack.Compose?
    requires !Reached(first, moves[..|moves| - 1], stream, window, decodes).acks.holding
    ensures
      var c := Reached(first, moves[..|moves| - 1], stream, window, decodes);
      var c' := Reached(first, moves, stream, window, decodes);
      var boxes := Noted(c, stream);
      var n := HB.Ready(boxes);
      && c'.notes == c.notes
      && c'.acks.published == if n == 0 then c.acks.published else Some(boxes[n - 1].index)
  {
    hide Noted, HB.Ready, Run;
    AcknowledgedAreTold(first, moves[..|moves| - 1], stream, window, decodes);
  }
}
