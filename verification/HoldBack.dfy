/**
  The boxes read but not told yet. A box that announced a substream waits for
  the message arriving through it, and so do the boxes read after it on the
  same stream.
 */
module HoldBack {
  import opened Basics

  datatype Box = Box(stream: nat, index: nat, next: Option<nat>, plaintext: Option<Bytes>, substream: Option<nat>)

  /** What `Group.observe` was told of a box. */
  datatype Told = Told(stream: nat, index: nat, plaintext: Option<Bytes>, next: nat)

  predicate Waiting(box: Box) {
    box.next.None? || box.substream.Some?
  }

  function Tell(box: Box): Told
    requires !Waiting(box)
  {
    Told(box.stream, box.index, box.plaintext, box.next.value)
  }

  // `_held_at`

  function Find(held: seq<Box>, stream: nat, index: nat): (i: nat)
    ensures i <= |held|
    ensures i < |held| ==> held[i].stream == stream && held[i].index == index
  {
    if held == [] || (held[0].stream == stream && held[0].index == index) then 0
    else 1 + Find(held[1..], stream, index)
  }

  /** The list with the box in it, and where. */
  function HeldAt(held: seq<Box>, stream: nat, index: nat): (r: (seq<Box>, nat))
    ensures r.1 < |r.0| && r.0[r.1].stream == stream && r.0[r.1].index == index
    ensures held <= r.0
  {
    var i := Find(held, stream, index);
    if i < |held| then (held, i) else (held + [Box(stream, index, None, None, None)], |held|)
  }

  // `_release`

  /** What is left of `held`, and what is told: the boxes of `stream` up to
      the first that waits, while `open`. */
  function Released(held: seq<Box>, stream: nat, open: bool): (seq<Box>, seq<Told>) {
    if held == [] then ([], [])
    else
      var box := held[0];
      if box.stream == stream && open && !Waiting(box) then
        var (rest, told) := Released(held[1..], stream, true);
        (rest, [Tell(box)] + told)
      else
        var (rest, told) := Released(held[1..], stream, open && box.stream != stream);
        ([box] + rest, told)
  }

  // The entry points.

  function Filled(held: seq<Box>, i: nat, plaintext: Bytes): seq<Box>
    requires i < |held|
  {
    held[i := held[i].(plaintext := Some(plaintext))]
  }

  /** A box that waited on the substream gets its message. */
  function ArrivedBox(box: Box, stream: nat, substream: nat, plaintext: Bytes): Box {
    if box.stream == stream && box.substream == Some(substream)
    then box.(plaintext := Some(plaintext), substream := None) else box
  }

  function Arrived(held: seq<Box>, stream: nat, substream: nat, plaintext: Bytes): seq<Box> {
    if held == [] then []
    else [ArrivedBox(held[0], stream, substream, plaintext)] + Arrived(held[1..], stream, substream, plaintext)
  }

  /** A box waits no longer on a substream no message is arriving through. */
  function SettledBox(box: Box, stream: nat, arriving: set<nat>): Box {
    if box.stream == stream && box.substream.Some? && box.substream.value !in arriving
    then box.(substream := None) else box
  }

  function Settled(held: seq<Box>, stream: nat, arriving: set<nat>): seq<Box> {
    if held == [] then []
    else [SettledBox(held[0], stream, arriving)] + Settled(held[1..], stream, arriving)
  }

  datatype Event =
    | Message(stream: nat, box: Option<nat>, substream: Option<nat>, plaintext: Bytes)            // on_message
    | Read(stream: nat, index: nat, next: nat, announced: Option<nat>, arriving: bool)            // box_read
    | Settle(stream: nat, arrivals: set<nat>)                                                     // settle

  /** The held boxes after an event, before any is released. */
  function Updated(held: seq<Box>, e: Event): seq<Box> {
    match e
    case Message(stream, box, substream, plaintext) =>
      var noted :=
        if box.None? then held
        else
          var (at, i) := HeldAt(held, stream, box.value);
          Filled(at, i, plaintext);
      if substream.None? then noted else Arrived(noted, stream, substream.value, plaintext)
    case Read(stream, index, next, announced, arriving) =>
      var (at, i) := HeldAt(held, stream, index);
      var read := at[i].(next := Some(next));
      at[i := if announced.Some? && read.plaintext.None? && arriving then read.(substream := announced) else read]
    case Settle(stream, arrivals) => Settled(held, stream, arrivals)
  }

  function After(held: seq<Box>, e: Event): (seq<Box>, seq<Told>) {
    Released(Updated(held, e), e.stream, true)
  }

  /** What is held after the events, and everything told, in order. */
  function Reached(events: seq<Event>): (seq<Box>, seq<Told>) {
    if events == [] then ([], [])
    else
      var (held, told) := Reached(events[..|events| - 1]);
      var (held', more) := After(held, events[|events| - 1]);
      (held', told + more)
  }

  // One stream at a time.

  function HeldOf(held: seq<Box>, stream: nat): seq<Box> {
    if held == [] then []
    else if held[0].stream == stream then [held[0]] + HeldOf(held[1..], stream)
    else HeldOf(held[1..], stream)
  }

  function ToldOf(told: seq<Told>, stream: nat): seq<Told> {
    if told == [] then []
    else if told[0].stream == stream then [told[0]] + ToldOf(told[1..], stream)
    else ToldOf(told[1..], stream)
  }

  function EventsOf(events: seq<Event>, stream: nat): seq<Event> {
    if events == [] then []
    else
      var front, last := EventsOf(events[..|events| - 1], stream), events[|events| - 1];
      if last.stream == stream then front + [last] else front
  }

  lemma HeldOfCons(box: Box, rest: seq<Box>, stream: nat)
    ensures HeldOf([box] + rest, stream) ==
            if box.stream == stream then [box] + HeldOf(rest, stream) else HeldOf(rest, stream)
  {}

  lemma ToldOfCons(told: Told, rest: seq<Told>, stream: nat)
    ensures ToldOf([told] + rest, stream) ==
            if told.stream == stream then [told] + ToldOf(rest, stream) else ToldOf(rest, stream)
  {}

  lemma {:induction false} HeldOfConcat(a: seq<Box>, b: seq<Box>, stream: nat)
    ensures HeldOf(a + b, stream) == HeldOf(a, stream) + HeldOf(b, stream)
  {
    if a == [] {
      assert a + b == b;
    } else {
      hide HeldOf;
      HeldOfConcat(a[1..], b, stream);
      HeldOfCons(a[0], a[1..], stream);
      HeldOfCons(a[0], a[1..] + b, stream);
      assert a == [a[0]] + a[1..] && a + b == [a[0]] + (a[1..] + b);
    }
  }

  lemma {:induction false} ToldOfConcat(a: seq<Told>, b: seq<Told>, stream: nat)
    ensures ToldOf(a + b, stream) == ToldOf(a, stream) + ToldOf(b, stream)
  {
    if a == [] {
      assert a + b == b;
    } else {
      hide ToldOf;
      ToldOfConcat(a[1..], b, stream);
      ToldOfCons(a[0], a[1..], stream);
      ToldOfCons(a[0], a[1..] + b, stream);
      assert a == [a[0]] + a[1..] && a + b == [a[0]] + (a[1..] + b);
    }
  }

  lemma {:induction false} HeldOfAll(held: seq<Box>, stream: nat)
    ensures forall k | 0 <= k < |HeldOf(held, stream)| :: HeldOf(held, stream)[k].stream == stream
    ensures HeldOf(HeldOf(held, stream), stream) == HeldOf(held, stream)
  {
    if held != [] {
      HeldOfAll(held[1..], stream);
      if held[0].stream == stream {
        HeldOfCons(held[0], HeldOf(held[1..], stream), stream);
      }
    }
  }

  /** Releasing one stream is releasing its boxes alone; another is untouched. */
  lemma {:induction false} ReleasedOf(held: seq<Box>, stream: nat, open: bool, other: nat)
    ensures
      var (rest, told) := Released(held, stream, open);
      if other == stream then
        && Released(HeldOf(held, stream), stream, open) == (HeldOf(rest, stream), told)
        && ToldOf(told, stream) == told
      else HeldOf(rest, other) == HeldOf(held, other) && ToldOf(told, other) == []
  {
    if held != [] {
      var box := held[0];
      var open' := if box.stream == stream then open && !Waiting(box) else open;
      var (rest, told) := Released(held[1..], stream, open');
      ReleasedOf(held[1..], stream, open', other);
      if open' && box.stream == stream {
        ToldOfCons(Tell(box), told, other);
      } else {
        HeldOfCons(box, rest, other);
      }
      if box.stream == stream {
        assert HeldOf(held, stream) == [box] + HeldOf(held[1..], stream);
        assert HeldOf(held, stream)[1..] == HeldOf(held[1..], stream);
      }
    }
  }

  lemma {:induction false} FindOf(held: seq<Box>, stream: nat, index: nat)
    ensures Find(held, stream, index) < |held| <==> Find(HeldOf(held, stream), stream, index) < |HeldOf(held, stream)|
    ensures
      var i := Find(held, stream, index);
      i < |held| ==> HeldOf(held[..i], stream) == HeldOf(held, stream)[..Find(HeldOf(held, stream), stream, index)]
    decreases |held|
  {
    if held != [] && !(held[0].stream == stream && held[0].index == index) {
      var i := Find(held, stream, index);
      FindOf(held[1..], stream, index);
      if i < |held| {
        assert held[..i] == [held[0]] + held[1..][..i - 1];
        HeldOfCons(held[0], held[1..][..i - 1], stream);
      }
    }
  }

  /** Changing a box of a stream changes it in the stream's boxes alone. */
  lemma SetOf(held: seq<Box>, i: nat, box: Box, other: nat)
    requires i < |held| && held[i].stream == box.stream
    ensures HeldOf(held[i := box], other) ==
            if other == box.stream
            then HeldOf(held[..i], other) + [box] + HeldOf(held[i + 1..], other)
            else HeldOf(held, other)
    ensures other == box.stream ==>
              HeldOf(held, other) == HeldOf(held[..i], other) + [held[i]] + HeldOf(held[i + 1..], other)
  {
    var rest := held[i + 1..];
    assert held == held[..i] + ([held[i]] + rest) && held[i := box] == held[..i] + ([box] + rest);
    HeldOfConcat(held[..i], [held[i]] + rest, other);
    HeldOfConcat(held[..i], [box] + rest, other);
    HeldOfCons(held[i], rest, other);
    HeldOfCons(box, rest, other);
  }

  lemma {:induction false} ArrivedOf(held: seq<Box>, stream: nat, substream: nat, plaintext: Bytes, other: nat)
    ensures HeldOf(Arrived(held, stream, substream, plaintext), other) ==
            if other == stream then Arrived(HeldOf(held, stream), stream, substream, plaintext) else HeldOf(held, other)
  {
    if held != [] {
      var rest := Arrived(held[1..], stream, substream, plaintext);
      ArrivedOf(held[1..], stream, substream, plaintext, other);
      HeldOfCons(Arrived(held, stream, substream, plaintext)[0], rest, other);
      assert held[0].stream == stream ==> HeldOf(held, stream)[1..] == HeldOf(held[1..], stream);
    }
  }

  lemma {:induction false} SettledOf(held: seq<Box>, stream: nat, arriving: set<nat>, other: nat)
    ensures HeldOf(Settled(held, stream, arriving), other) ==
            if other == stream then Settled(HeldOf(held, stream), stream, arriving) else HeldOf(held, other)
  {
    if held != [] {
      var rest := Settled(held[1..], stream, arriving);
      SettledOf(held[1..], stream, arriving, other);
      HeldOfCons(Settled(held, stream, arriving)[0], rest, other);
      assert held[0].stream == stream ==> HeldOf(held, stream)[1..] == HeldOf(held[1..], stream);
    }
  }

  /** Noting a box and setting it does the same to the stream's boxes alone. */
  lemma PutOf(held: seq<Box>, stream: nat, index: nat, box: Box, other: nat)
    requires box.stream == stream
    ensures
      var (at, i) := HeldAt(held, stream, index);
      var (lane, j) := HeldAt(HeldOf(held, stream), stream, index);
      && HeldOf(at[i := box], other) == if other == stream then lane[j := box] else HeldOf(held, other)
  {
    var (at, i) := HeldAt(held, stream, index);
    var (lane, j) := HeldAt(HeldOf(held, stream), stream, index);
    HeldAtOf(held, stream, index);
    SetOf(at, i, box, other);
    if other == stream {
      SetMiddle(lane, j, at[i], box, HeldOf(at[i + 1..], stream));
    } else if i == |held| {
      HeldOfConcat(held, [at[i]], other);
      assert HeldOf(held, other) + [] == HeldOf(held, other);
    }
  }

  lemma SetMiddle(lane: seq<Box>, j: nat, was: Box, box: Box, rest: seq<Box>)
    requires j < |lane| && lane == lane[..j] + [was] + rest
    ensures lane[j := box] == lane[..j] + [box] + rest
  {}

  lemma HeldAtOf(held: seq<Box>, stream: nat, index: nat)
    ensures
      var (at, i) := HeldAt(held, stream, index);
      var (lane, j) := HeldAt(HeldOf(held, stream), stream, index);
      HeldOf(at, stream) == lane && HeldOf(at[..i], stream) == lane[..j] && at[i] == lane[j]
  {
    var (at, i) := HeldAt(held, stream, index);
    FindOf(held, stream, index);
    if i == |held| {
      HeldOfConcat(held, [at[i]], stream);
      assert at[..i] == held;
    } else {
      SetOf(held, i, held[i], stream);
    }
  }

  lemma UpdatedOf(held: seq<Box>, e: Event, other: nat)
    ensures HeldOf(Updated(held, e), other) ==
            if other == e.stream then Updated(HeldOf(held, other), e) else HeldOf(held, other)
  {
    match e
    case Message(stream, box, substream, plaintext) =>
      var noted := if box.None? then held else
                   var (at, i) := HeldAt(held, stream, box.value);
                   Filled(at, i, plaintext);
      if box.Some? {
        var (at, i) := HeldAt(held, stream, box.value);
        HeldAtOf(held, stream, box.value);
        PutOf(held, stream, box.value, at[i].(plaintext := Some(plaintext)), other);
      }
      if substream.Some? {
        ArrivedOf(noted, stream, substream.value, plaintext, other);
      }
    case Read(stream, index, next, announced, arriving) =>
      var (at, i) := HeldAt(held, stream, index);
      var read := at[i].(next := Some(next));
      var box := if announced.Some? && read.plaintext.None? && arriving then read.(substream := announced) else read;
      HeldAtOf(held, stream, index);
      PutOf(held, stream, index, box, other);
    case Settle(stream, arrivals) => SettledOf(held, stream, arrivals, other);
  }

  /** A stream is told and held as if it were alone: no other delays or
      reorders it. */
  lemma {:induction false} StreamsIndependent(events: seq<Event>, stream: nat)
    ensures
      var (held, told) := Reached(events);
      Reached(EventsOf(events, stream)) == (HeldOf(held, stream), ToldOf(told, stream))
  {
    if events != [] {
      var front, e := events[..|events| - 1], events[|events| - 1];
      var (held, told) := Reached(front);
      var (held', more) := After(held, e);
      StreamsIndependent(front, stream);
      UpdatedOf(held, e, stream);
      ReleasedOf(Updated(held, e), e.stream, true, stream);
      ToldOfConcat(told, more, stream);
      if e.stream == stream {
        var mine := EventsOf(front, stream);
        assert EventsOf(events, stream) == mine + [e];
        assert (mine + [e])[..|mine + [e]| - 1] == mine;
      } else {
        assert ToldOf(told, stream) + [] == ToldOf(told, stream);
      }
    }
  }

  // Told in order, each once.

  /** The stream's boxes as they would be if none were ever released. */
  function Boxes(events: seq<Event>): seq<Box> {
    if events == [] then [] else Updated(Boxes(events[..|events| - 1]), events[|events| - 1])
  }

  /** How many boxes are ready before the first that waits. */
  function Ready(boxes: seq<Box>): (n: nat)
    ensures n <= |boxes|
    ensures forall k | 0 <= k < n :: !Waiting(boxes[k])
    ensures n < |boxes| ==> Waiting(boxes[n])
  {
    if boxes == [] || Waiting(boxes[0]) then 0 else 1 + Ready(boxes[1..])
  }

  predicate AllReady(boxes: seq<Box>) {
    forall k | 0 <= k < |boxes| :: !Waiting(boxes[k])
  }

  function TellAll(boxes: seq<Box>): seq<Told>
    requires AllReady(boxes)
  {
    if boxes == [] then [] else [Tell(boxes[0])] + TellAll(boxes[1..])
  }

  function IndexOf(e: Event): Option<nat> {
    match e
    case Message(_, box, _, _) => box
    case Read(_, index, _, _, _) => Some(index)
    case Settle(_, _) => None
  }

  /** A box is read after every earlier one, once; its own message comes just
      before it is noted as read. */
  predicate Turn(boxes: seq<Box>, index: nat) {
    boxes == [] ||
    var last := boxes[|boxes| - 1];
    if last.next.Some? then last.index < index else last.index == index
  }

  /** The events of one stream, as a reader that takes its boxes in order
      makes them. */
  predicate InOrder(events: seq<Event>, stream: nat) {
    events == [] ||
    (InOrder(events[..|events| - 1], stream)
     && events[|events| - 1].stream == stream
     && (IndexOf(events[|events| - 1]).Some? ==>
           Turn(Boxes(events[..|events| - 1]), IndexOf(events[|events| - 1]).value)))
  }

  /** Ascending, and only the last may not be noted as read yet. */
  predicate Lined(boxes: seq<Box>, stream: nat) {
    && (forall k | 0 <= k < |boxes| :: boxes[k].stream == stream)
    && (forall i, j | 0 <= i < j < |boxes| :: boxes[i].index < boxes[j].index)
    && (forall k | 0 <= k < |boxes| - 1 :: boxes[k].next.Some?)
  }

  lemma {:induction false} ArrivedIs(boxes: seq<Box>, stream: nat, substream: nat, plaintext: Bytes)
    ensures
      var r := Arrived(boxes, stream, substream, plaintext);
      |r| == |boxes| && forall k | 0 <= k < |boxes| :: r[k] == ArrivedBox(boxes[k], stream, substream, plaintext)
  {
    if boxes != [] {
      ArrivedIs(boxes[1..], stream, substream, plaintext);
    }
  }

  lemma {:induction false} SettledIs(boxes: seq<Box>, stream: nat, arriving: set<nat>)
    ensures
      var r := Settled(boxes, stream, arriving);
      |r| == |boxes| && forall k | 0 <= k < |boxes| :: r[k] == SettledBox(boxes[k], stream, arriving)
  {
    if boxes != [] {
      SettledIs(boxes[1..], stream, arriving);
    }
  }

  lemma {:induction false} ArrivedConcat(a: seq<Box>, b: seq<Box>, stream: nat, substream: nat, plaintext: Bytes)
    requires forall k | 0 <= k < |a| :: a[k].substream.None?
    ensures Arrived(a + b, stream, substream, plaintext) == a + Arrived(b, stream, substream, plaintext)
  {
    if a == [] {
      assert a + b == b;
    } else {
      ArrivedConcat(a[1..], b, stream, substream, plaintext);
      assert (a + b)[1..] == a[1..] + b && a == [a[0]] + a[1..];
    }
  }

  lemma {:induction false} SettledConcat(a: seq<Box>, b: seq<Box>, stream: nat, arriving: set<nat>)
    requires forall k | 0 <= k < |a| :: a[k].substream.None?
    ensures Settled(a + b, stream, arriving) == a + Settled(b, stream, arriving)
  {
    if a == [] {
      assert a + b == b;
    } else {
      SettledConcat(a[1..], b, stream, arriving);
      assert (a + b)[1..] == a[1..] + b && a == [a[0]] + a[1..];
    }
  }

  lemma {:induction false} FindConcat(a: seq<Box>, b: seq<Box>, stream: nat, index: nat)
    requires forall k | 0 <= k < |a| :: a[k].index != index
    ensures Find(a + b, stream, index) == |a| + Find(b, stream, index)
  {
    if a == [] {
      assert a + b == b;
    } else {
      FindConcat(a[1..], b, stream, index);
      assert (a + b)[1..] == a[1..] + b;
    }
  }

  lemma SetConcat(a: seq<Box>, b: seq<Box>, i: nat, box: Box)
    requires i < |b|
    ensures (a + b)[|a| + i] == b[i] && (a + b)[|a| + i := box] == a + b[i := box]
  {}

  lemma HeldAtConcat(a: seq<Box>, b: seq<Box>, stream: nat, index: nat)
    requires forall k | 0 <= k < |a| :: a[k].index != index
    ensures
      var (at, i) := HeldAt(b, stream, index);
      HeldAt(a + b, stream, index) == (a + at, |a| + i)
  {
    FindConcat(a, b, stream, index);
    if Find(b, stream, index) == |b| {
      var box := Box(stream, index, None, None, None);
      assert (a + b) + [box] == a + (b + [box]);
    }
  }

  lemma NotedConcat(a: seq<Box>, b: seq<Box>, stream: nat, index: nat, box: Box)
    requires forall k | 0 <= k < |a| :: a[k].index != index
    ensures
      var (at, i) := HeldAt(b, stream, index);
      var (at', i') := HeldAt(a + b, stream, index);
      at'[i'] == at[i] && at'[i' := box] == a + at[i := box]
  {
    HeldAtConcat(a, b, stream, index);
    var (at, i) := HeldAt(b, stream, index);
    SetConcat(a, at, i, box);
  }

  /** An event changes no box that is ready already. */
  lemma UpdatedConcat(a: seq<Box>, b: seq<Box>, e: Event)
    requires forall k | 0 <= k < |a| :: a[k].substream.None? && IndexOf(e) != Some(a[k].index)
    ensures Updated(a + b, e) == a + Updated(b, e)
  {
    match e
    case Message(stream, box, substream, plaintext) =>
      var noted := b;
      if box.Some? {
        var (at, i) := HeldAt(b, stream, box.value);
        noted := Filled(at, i, plaintext);
        NotedConcat(a, b, stream, box.value, noted[i]);
      }
      if substream.Some? {
        ArrivedConcat(a, noted, stream, substream.value, plaintext);
      }
    case Read(stream, index, next, announced, arriving) =>
      var (at, i) := HeldAt(b, stream, index);
      NotedConcat(a, b, stream, index, Updated(b, e)[i]);
    case Settle(stream, arrivals) => SettledConcat(a, b, stream, arrivals);
  }

  /** Where a box whose turn it is is noted: last. */
  lemma NotedLast(boxes: seq<Box>, stream: nat, index: nat)
    requires Lined(boxes, stream) && Turn(boxes, index)
    ensures
      Find(boxes, stream, index) ==
      if boxes != [] && boxes[|boxes| - 1].next.None? then |boxes| - 1 else |boxes|
    ensures forall k | 0 <= k < |boxes| && boxes[k].next.Some? :: boxes[k].index != index
  {}

  lemma LinedMore(boxes: seq<Box>, box: Box)
    requires Lined(boxes, box.stream)
    requires boxes != [] ==> boxes[|boxes| - 1].next.Some? && boxes[|boxes| - 1].index < box.index
    ensures Lined(boxes + [box], box.stream)
  {}

  lemma LinedSet(boxes: seq<Box>, box: Box)
    requires boxes != [] && Lined(boxes, box.stream) && boxes[|boxes| - 1].index == box.index
    ensures Lined(boxes[|boxes| - 1 := box], box.stream)
  {}

  lemma HeldAtLined(boxes: seq<Box>, stream: nat, index: nat, box: Box)
    requires Lined(boxes, stream) && Turn(boxes, index) && box.stream == stream && box.index == index
    ensures
      var (at, i) := HeldAt(boxes, stream, index);
      i == |at| - 1 && Lined(at[i := box], stream)
  {
    NotedLast(boxes, stream, index);
    if Find(boxes, stream, index) == |boxes| {
      LinedMore(boxes, box);
      assert HeldAt(boxes, stream, index).0[|boxes| := box] == boxes + [box];
    } else {
      LinedSet(boxes, box);
    }
  }

  lemma LinedLike(boxes: seq<Box>, boxes': seq<Box>, stream: nat)
    requires Lined(boxes, stream) && |boxes'| == |boxes|
    requires forall k | 0 <= k < |boxes| ::
               && boxes'[k].stream == boxes[k].stream
               && boxes'[k].index == boxes[k].index && boxes'[k].next == boxes[k].next
    ensures Lined(boxes', stream)
  {}

  lemma UpdatedLined(boxes: seq<Box>, e: Event)
    requires Lined(boxes, e.stream) && (IndexOf(e).Some? ==> Turn(boxes, IndexOf(e).value))
    ensures Lined(Updated(boxes, e), e.stream)
  {
    match e
    case Message(stream, box, substream, plaintext) =>
      var noted := boxes;
      if box.Some? {
        var (at, i) := HeldAt(boxes, stream, box.value);
        noted := Filled(at, i, plaintext);
        HeldAtLined(boxes, stream, box.value, noted[i]);
      }
      if substream.Some? {
        ArrivedIs(noted, stream, substream.value, plaintext);
        LinedLike(noted, Updated(boxes, e), stream);
      }
    case Read(stream, index, _, _, _) =>
      var (at, i) := HeldAt(boxes, stream, index);
      HeldAtLined(boxes, stream, index, Updated(boxes, e)[i]);
    case Settle(stream, arrivals) =>
      SettledIs(boxes, stream, arrivals);
      LinedLike(boxes, Updated(boxes, e), stream);
  }

  lemma {:induction false} BoxesLined(events: seq<Event>, stream: nat)
    requires InOrder(events, stream)
    ensures Lined(Boxes(events), stream)
  {
    if events != [] {
      BoxesLined(events[..|events| - 1], stream);
      UpdatedLined(Boxes(events[..|events| - 1]), events[|events| - 1]);
    }
  }

  lemma {:induction false} ReleasedIs(held: seq<Box>, stream: nat)
    requires forall k | 0 <= k < |held| :: held[k].stream == stream
    ensures Released(held, stream, true) == (held[Ready(held)..], TellAll(held[..Ready(held)]))
  {
    if held != [] {
      if Waiting(held[0]) {
        ReleasedNone(held, stream);
      } else {
        ReleasedIs(held[1..], stream);
        var n := Ready(held);
        assert held[..n][1..] == held[1..][..n - 1];
      }
    }
  }

  lemma {:induction false} ReleasedNone(held: seq<Box>, stream: nat)
    requires held != [] && held[0].stream == stream && Waiting(held[0])
    ensures Released(held, stream, true) == (held, [])
  {
    ReleasedClosed(held[1..], stream);
    assert held == [held[0]] + held[1..];
  }

  lemma {:induction false} ReleasedClosed(held: seq<Box>, stream: nat)
    ensures Released(held, stream, false) == (held, [])
  {
    if held != [] {
      ReleasedClosed(held[1..], stream);
      assert held == [held[0]] + held[1..];
    }
  }

  lemma {:induction false} ReadyConcat(a: seq<Box>, b: seq<Box>)
    requires AllReady(a)
    ensures Ready(a + b) == |a| + Ready(b)
  {
    if a == [] {
      assert a + b == b;
    } else {
      ReadyConcat(a[1..], b);
      assert (a + b)[1..] == a[1..] + b;
    }
  }

  lemma {:induction false} TellAllConcat(a: seq<Box>, b: seq<Box>)
    requires AllReady(a)
    requires AllReady(b)
    ensures TellAll(a + b) == TellAll(a) + TellAll(b)
  {
    if a == [] {
      assert a + b == b;
    } else {
      var rest := a[1..] + b;
      TellAllConcat(a[1..], b);
      assert (a + b)[0] == a[0] && (a + b)[1..] == rest;
      assert AllReady(rest) && AllReady(a + b) && TellAll(a + b) == [Tell(a[0])] + TellAll(rest);
    }
  }

  /** Of the boxes read on a stream, in reading order, those ready before the
      first that waits have been told, each once and with its own message, and
      the rest are held. So the first box held waits. */
  lemma {:induction false} ToldThenHeld(events: seq<Event>, stream: nat)
    requires InOrder(events, stream)
    ensures
      var boxes := Boxes(events);
      var n := Ready(boxes);
      Lined(boxes, stream) && Reached(events) == (boxes[n..], TellAll(boxes[..n]))
  {
    BoxesLined(events, stream);
    if events != [] {
      var front, e := events[..|events| - 1], events[|events| - 1];
      ToldThenHeld(front, stream);
      ToldNext(Boxes(front), Boxes(events), e);
    }
  }

  lemma ToldNext(before: seq<Box>, after: seq<Box>, e: Event)
    requires Lined(before, e.stream) && (IndexOf(e).Some? ==> Turn(before, IndexOf(e).value))
    requires after == Updated(before, e) && Lined(after, e.stream)
    ensures
      var (held, more) := After(before[Ready(before)..], e);
      && held == after[Ready(after)..]
      && TellAll(before[..Ready(before)]) + more == TellAll(after[..Ready(after)])
  {
    RestUpdated(before, e);
    RestReleased(before[..Ready(before)], Updated(before[Ready(before)..], e), after, e.stream);
  }

  lemma RestUpdated(before: seq<Box>, e: Event)
    requires Lined(before, e.stream) && (IndexOf(e).Some? ==> Turn(before, IndexOf(e).value))
    ensures Updated(before, e) == before[..Ready(before)] + Updated(before[Ready(before)..], e)
  {
    var done, rest := before[..Ready(before)], before[Ready(before)..];
    ReadyUntouched(before, e);
    assert before == done + rest;
    UpdatedConcat(done, rest, e);
  }

  lemma RestReleased(done: seq<Box>, held: seq<Box>, boxes: seq<Box>, stream: nat)
    requires boxes == done + held && Lined(boxes, stream) && AllReady(done)
    ensures
      var (rest, more) := Released(held, stream, true);
      rest == boxes[Ready(boxes)..] && TellAll(done) + more == TellAll(boxes[..Ready(boxes)])
  {
    HeldLined(done, held, boxes, stream);
    ReleasedIs(held, stream);
    ReadySplit(done, held, boxes);
  }

  lemma ReadyUntouched(boxes: seq<Box>, e: Event)
    requires Lined(boxes, e.stream) && (IndexOf(e).Some? ==> Turn(boxes, IndexOf(e).value))
    ensures forall k | 0 <= k < Ready(boxes) :: boxes[k].substream.None? && IndexOf(e) != Some(boxes[k].index)
  {}

  lemma HeldLined(done: seq<Box>, held: seq<Box>, boxes: seq<Box>, stream: nat)
    requires boxes == done + held && Lined(boxes, stream)
    ensures forall k | 0 <= k < |held| :: held[k].stream == stream
  {
    assert forall k | 0 <= k < |held| :: held[k] == boxes[|done| + k];
  }

  lemma ReadySplit(done: seq<Box>, held: seq<Box>, boxes: seq<Box>)
    requires boxes == done + held && AllReady(done)
    ensures Ready(boxes) == |done| + Ready(held)
    ensures held[Ready(held)..] == boxes[Ready(boxes)..]
    ensures TellAll(done) + TellAll(held[..Ready(held)]) == TellAll(boxes[..Ready(boxes)])
  {
    ReadyConcat(done, held);
    TellAllConcat(done, held[..Ready(held)]);
    assert done + held[..Ready(held)] == boxes[..Ready(boxes)];
  }

  /** After every event the first box held of every stream waits. */
  lemma {:induction false} HeadsWait(events: seq<Event>, stream: nat)
    ensures
      var mine := HeldOf(Reached(events).0, stream);
      mine == [] || Waiting(mine[0])
  {
    if events != [] {
      var front, e := events[..|events| - 1], events[|events| - 1];
      var held := Reached(front).0;
      HeadsWait(front, stream);
      UpdatedOf(held, e, stream);
      ReleasedOf(Updated(held, e), e.stream, true, stream);
      if e.stream == stream {
        var mine := HeldOf(Updated(held, e), stream);
        HeldOfAll(Updated(held, e), stream);
        ReleasedIs(mine, stream);
      }
    }
  }

  // Each box by itself.

  /** What one event does to the box `index` of a stream, if it is noted. */
  function Fated(box: Option<Box>, e: Event, index: nat): Option<Box> {
    var noted := if box.Some? then box.value else Box(e.stream, index, None, None, None);
    match e
    case Message(_, at, substream, plaintext) =>
      var told := if at == Some(index) then Some(noted.(plaintext := Some(plaintext))) else box;
      if told.Some? && substream.Some? && told.value.substream == substream
      then Some(told.value.(plaintext := Some(plaintext), substream := None))
      else told
    case Read(_, at, next, announced, arriving) =>
      if at != index then box
      else if announced.Some? && noted.plaintext.None? && arriving
      then Some(noted.(next := Some(next), substream := announced))
      else Some(noted.(next := Some(next)))
    case Settle(_, arrivals) =>
      if box.Some? && box.value.substream.Some? && box.value.substream.value !in arrivals
      then Some(box.value.(substream := None))
      else box
  }

  /** What becomes of the box `index` of a stream, whatever the others do. */
  function Fate(events: seq<Event>, index: nat): Option<Box> {
    if events == [] then None else Fated(Fate(events[..|events| - 1], index), events[|events| - 1], index)
  }

  function BoxAt(boxes: seq<Box>, stream: nat, index: nat): Option<Box> {
    var i := Find(boxes, stream, index);
    if i < |boxes| then Some(boxes[i]) else None
  }

  lemma {:induction false} FindLike(boxes: seq<Box>, boxes': seq<Box>, stream: nat, index: nat)
    requires |boxes'| == |boxes|
    requires forall k | 0 <= k < |boxes| :: boxes'[k].stream == boxes[k].stream && boxes'[k].index == boxes[k].index
    ensures Find(boxes', stream, index) == Find(boxes, stream, index)
  {
    if boxes != [] {
      FindLike(boxes[1..], boxes'[1..], stream, index);
    }
  }

  lemma {:induction false} FindSnoc(boxes: seq<Box>, box: Box, stream: nat, index: nat)
    ensures Find(boxes + [box], stream, index) ==
            if Find(boxes, stream, index) < |boxes| then Find(boxes, stream, index)
            else if box.stream == stream && box.index == index then |boxes|
            else |boxes| + 1
  {
    if boxes == [] {
      assert boxes + [box] == [box];
    } else {
      FindSnoc(boxes[1..], box, stream, index);
      assert (boxes + [box])[1..] == boxes[1..] + [box];
    }
  }

  /** Noting a box and setting it changes that box and no other. */
  lemma BoxAtPut(boxes: seq<Box>, stream: nat, at: nat, box: Box, index: nat)
    requires box.stream == stream && box.index == at
    ensures
      var (noted, i) := HeldAt(boxes, stream, at);
      && BoxAt(noted[i := box], stream, index) == (if index == at then Some(box) else BoxAt(boxes, stream, index))
      && noted[i] == (if BoxAt(boxes, stream, at).Some? then BoxAt(boxes, stream, at).value
                      else Box(stream, at, None, None, None))
  {
    var (noted, i) := HeldAt(boxes, stream, at);
    FindLike(noted, noted[i := box], stream, index);
    if i == |boxes| {
      FindSnoc(boxes, noted[i], stream, index);
    }
  }

  lemma BoxAtUpdated(boxes: seq<Box>, e: Event, index: nat)
    ensures BoxAt(Updated(boxes, e), e.stream, index) == Fated(BoxAt(boxes, e.stream, index), e, index)
  {
    match e
    case Message(stream, box, substream, plaintext) =>
      var noted := boxes;
      if box.Some? {
        var (at, i) := HeldAt(boxes, stream, box.value);
        noted := Filled(at, i, plaintext);
        BoxAtPut(boxes, stream, box.value, noted[i], index);
      }
      if substream.Some? {
        ArrivedIs(noted, stream, substream.value, plaintext);
        FindLike(noted, Updated(boxes, e), stream, index);
      }
    case Read(stream, at, _, _, _) =>
      var (noted, i) := HeldAt(boxes, stream, at);
      BoxAtPut(boxes, stream, at, Updated(boxes, e)[i], index);
    case Settle(stream, arrivals) =>
      SettledIs(boxes, stream, arrivals);
      FindLike(boxes, Updated(boxes, e), stream, index);
  }

  /** Each box of a stream is what its own events make of it: a message reaches
      its own box, or the boxes that announced its substream, and no other. */
  lemma {:induction false} BoxFates(events: seq<Event>, stream: nat, index: nat)
    requires forall n | 0 <= n < |events| :: events[n].stream == stream
    ensures BoxAt(Boxes(events), stream, index) == Fate(events, index)
  {
    if events != [] {
      BoxFates(events[..|events| - 1], stream, index);
      BoxAtUpdated(Boxes(events[..|events| - 1]), events[|events| - 1], index);
    }
  }

  predicate ReadAs(e: Event, index: nat, next: nat) {
    e.Read? && e.index == index && e.next == next
  }

  /** The boxes noted as read are exactly those that were. */
  lemma {:induction false} BoxesAreRead(events: seq<Event>, stream: nat, index: nat, next: nat)
    requires InOrder(events, stream)
    ensures (exists e :: e in events && ReadAs(e, index, next)) <==>
            exists box :: box in Boxes(events) && box.index == index && box.next == Some(next)
  {
    if events != [] {
      var front, e := events[..|events| - 1], events[|events| - 1];
      var before := Boxes(front);
      assert events == front + [e];
      BoxesAreRead(front, stream, index, next);
      BoxesLined(front, stream);
      UpdatedReads(before, e, index, next);
    }
  }

  predicate HasRead(boxes: seq<Box>, index: nat, next: nat) {
    exists box :: box in boxes && box.index == index && box.next == Some(next)
  }

  lemma UpdatedReads(boxes: seq<Box>, e: Event, index: nat, next: nat)
    requires Lined(boxes, e.stream) && (IndexOf(e).Some? ==> Turn(boxes, IndexOf(e).value))
    ensures HasRead(Updated(boxes, e), index, next) <==> HasRead(boxes, index, next) || ReadAs(e, index, next)
  {
    match e
    case Message(_, _, _, _) => MessageReads(boxes, e, index, next);
    case Read(_, _, _, _, _) => ReadReads(boxes, e, index, next);
    case Settle(stream, arrivals) =>
      SettledIs(boxes, stream, arrivals);
      SameReads(boxes, Updated(boxes, e), index, next);
  }

  lemma MessageReads(boxes: seq<Box>, e: Event, index: nat, next: nat)
    requires e.Message? && Lined(boxes, e.stream) && (e.box.Some? ==> Turn(boxes, e.box.value))
    ensures HasRead(Updated(boxes, e), index, next) <==> HasRead(boxes, index, next)
  {
    var noted := boxes;
    if e.box.Some? {
      var (at, i) := HeldAt(boxes, e.stream, e.box.value);
      noted := Filled(at, i, e.plaintext);
      NotedLast(boxes, e.stream, e.box.value);
      SameReads(boxes, noted, index, next);
    }
    if e.substream.Some? {
      var after := Arrived(noted, e.stream, e.substream.value, e.plaintext);
      ArrivedIs(noted, e.stream, e.substream.value, e.plaintext);
      SameReads(noted, after, index, next);
    }
  }

  lemma ReadReads(boxes: seq<Box>, e: Event, index: nat, next: nat)
    requires e.Read? && Lined(boxes, e.stream) && Turn(boxes, e.index)
    ensures HasRead(Updated(boxes, e), index, next) <==> HasRead(boxes, index, next) || ReadAs(e, index, next)
  {}

  /** Boxes that keep their index and successor, and perhaps one not read. */
  lemma SameReads(boxes: seq<Box>, boxes': seq<Box>, index: nat, next: nat)
    requires |boxes| <= |boxes'| <= |boxes| + 1
    requires forall k | 0 <= k < |boxes| :: boxes'[k].index == boxes[k].index && boxes'[k].next == boxes[k].next
    requires |boxes'| > |boxes| ==> boxes'[|boxes|].next.None?
    ensures HasRead(boxes', index, next) <==> HasRead(boxes, index, next)
  {}

  /** The same of any stream among others, each read in order: whatever comes
      between on the others, its boxes are told as far as they are ready. */
  lemma StreamTold(events: seq<Event>, stream: nat)
    requires InOrder(EventsOf(events, stream), stream)
    ensures
      var (held, told) := Reached(events);
      var boxes := Boxes(EventsOf(events, stream));
      var n := Ready(boxes);
      HeldOf(held, stream) == boxes[n..] && ToldOf(told, stream) == TellAll(boxes[..n])
  {
    StreamsIndependent(events, stream);
    ToldThenHeld(EventsOf(events, stream), stream);
  }

  lemma {:induction false} ToldAre(boxes: seq<Box>)
    requires AllReady(boxes)
    ensures |TellAll(boxes)| == |boxes|
    ensures forall k | 0 <= k < |boxes| :: TellAll(boxes)[k] == Tell(boxes[k])
  {
    if boxes != [] {
      ToldAre(boxes[1..]);
    }
  }
}
