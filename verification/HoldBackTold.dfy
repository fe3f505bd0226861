/**
  Which boxes are told, and with what, in terms of what happened: a box is told
  once it and every box noted before it on its stream has been read and waits
  for no message on its way, with the last message that came for it.
 */
module HoldBackTold {
  import opened Basics
  import opened HoldBack

  predicate OwnMessage(e: Event, index: nat) {
    e.Message? && e.box == Some(index)
  }

  predicate ReadsBox(e: Event, index: nat) {
    e.Read? && e.index == index
  }

  /** The message of the substream came, or none is arriving through it. */
  predicate Frees(e: Event, substream: nat) {
    (e.Message? && e.substream == Some(substream)) || (e.Settle? && substream !in e.arrivals)
  }

  ghost predicate Unread(events: seq<Event>, index: nat) {
    forall k | 0 <= k < |events| :: !ReadsBox(events[k], index)
  }

  ghost predicate NoMessage(events: seq<Event>, index: nat) {
    forall k | 0 <= k < |events| :: !OwnMessage(events[k], index)
  }

  ghost predicate NotFreed(events: seq<Event>, substream: nat) {
    forall k | 0 <= k < |events| :: !Frees(events[k], substream)
  }

  /** Event `r` read the box, which announced a substream through which a
      message was arriving; its own message had not come, and nothing has freed
      it since. */
  ghost predicate Awaits(events: seq<Event>, r: nat, index: nat, substream: nat) {
    && r < |events| && ReadsBox(events[r], index)
    && events[r].announced == Some(substream) && events[r].arriving
    && NoMessage(events[..r], index) && NotFreed(events[r + 1..], substream)
  }

  /** A message that came for the box: its own, or through the substream it
      waited on then. */
  ghost predicate CameFor(events: seq<Event>, k: nat, index: nat) {
    && k < |events| && events[k].Message?
    && (events[k].box == Some(index)
        || (events[k].substream.Some? && exists r: nat :: Awaits(events[..k], r, index, events[k].substream.value)))
  }

  /** The box as its events leave it, if any named it. */
  ghost predicate FateIs(events: seq<Event>, index: nat, fate: Option<Box>) {
    && (fate.None? <==> Unread(events, index) && NoMessage(events, index))
    && (fate.Some? ==>
          && (fate.value.next.None? <==> Unread(events, index))
          && (forall next: nat | fate.value.next == Some(next) :: WasRead(events, index, next))
          && (forall substream: nat ::
                fate.value.substream == Some(substream) <==> AwaitsSome(events, index, substream))
          && (forall plaintext: Bytes ::
                fate.value.plaintext == Some(plaintext) <==> CameLast(events, index, plaintext)))
  }

  ghost predicate WasRead(events: seq<Event>, index: nat, next: nat) {
    exists k :: 0 <= k < |events| && ReadAs(events[k], index, next)
  }

  ghost predicate AwaitsSome(events: seq<Event>, index: nat, substream: nat) {
    exists r: nat :: Awaits(events, r, index, substream)
  }

  /** The last message that came for the box. */
  ghost predicate CameLast(events: seq<Event>, index: nat, plaintext: Bytes) {
    exists k: nat ::
      && CameFor(events, k, index) && events[k].plaintext == plaintext
      && forall j: nat | k < j < |events| :: !CameFor(events, j, index)
  }

  // One more event.

  lemma UnreadNext(front: seq<Event>, e: Event, index: nat)
    ensures Unread(front + [e], index) <==> Unread(front, index) && !ReadsBox(e, index)
    ensures NoMessage(front + [e], index) <==> NoMessage(front, index) && !OwnMessage(e, index)
  {
    var events := front + [e];
    assert events[|front|] == e && forall k | 0 <= k < |front| :: events[k] == front[k];
  }

  lemma WasReadNext(front: seq<Event>, e: Event, index: nat, next: nat)
    ensures WasRead(front + [e], index, next) <==> WasRead(front, index, next) || ReadAs(e, index, next)
  {
    var events := front + [e];
    assert events[|front|] == e && forall k | 0 <= k < |front| :: events[k] == front[k];
  }

  lemma NotFreedNext(rest: seq<Event>, e: Event, substream: nat)
    ensures NotFreed(rest + [e], substream) <==> NotFreed(rest, substream) && !Frees(e, substream)
  {
    var events := rest + [e];
    assert events[|rest|] == e && forall k | 0 <= k < |rest| :: events[k] == rest[k];
  }

  lemma AwaitsNext(front: seq<Event>, e: Event, r: nat, index: nat, substream: nat)
    ensures r < |front| ==>
              (Awaits(front + [e], r, index, substream) <==> Awaits(front, r, index, substream) && !Frees(e, substream))
    ensures r == |front| ==>
              (Awaits(front + [e], r, index, substream)
               <==> ReadsBox(e, index) && e.announced == Some(substream) && e.arriving && NoMessage(front, index))
  {
    var events := front + [e];
    if r < |front| {
      assert events[..r] == front[..r] && events[r + 1..] == front[r + 1..] + [e];
      NotFreedNext(front[r + 1..], e, substream);
    } else if r == |front| {
      assert events[..r] == front && events[r + 1..] == [];
    }
  }

  lemma AwaitsSomeNext(front: seq<Event>, e: Event, index: nat, substream: nat)
    ensures AwaitsSome(front + [e], index, substream) <==>
            || (AwaitsSome(front, index, substream) && !Frees(e, substream))
            || (ReadsBox(e, index) && e.announced == Some(substream) && e.arriving && NoMessage(front, index))
  {
    hide Awaits, Frees;
    var events := front + [e];
    AwaitsNext(front, e, |front|, index, substream);
    forall r: nat
      ensures r < |front| ==>
                (Awaits(events, r, index, substream) <==> Awaits(front, r, index, substream) && !Frees(e, substream))
    {
      AwaitsNext(front, e, r, index, substream);
    }
    if r: nat :| Awaits(events, r, index, substream) {
      AwaitsWithin(events, r, index, substream);
    }
    if r: nat :| Awaits(front, r, index, substream) {
      AwaitsWithin(front, r, index, substream);
    }
  }

  lemma AwaitsWithin(events: seq<Event>, r: nat, index: nat, substream: nat)
    requires Awaits(events, r, index, substream)
    ensures r < |events|
  {}

  lemma CameForNext(front: seq<Event>, e: Event, k: nat, index: nat)
    ensures k < |front| ==> (CameFor(front + [e], k, index) <==> CameFor(front, k, index))
    ensures k == |front| ==>
              (CameFor(front + [e], k, index) <==>
               e.Message? && (e.box == Some(index)
                              || (e.substream.Some? && AwaitsSome(front, index, e.substream.value))))
  {
    var events := front + [e];
    if k < |front| {
      assert events[..k] == front[..k];
    } else if k == |front| {
      assert events[..k] == front;
    }
  }

  lemma CameLastNext(front: seq<Event>, e: Event, index: nat, plaintext: Bytes)
    ensures
      var came := e.Message? && (e.box == Some(index)
                                 || (e.substream.Some? && AwaitsSome(front, index, e.substream.value)));
      CameLast(front + [e], index, plaintext) <==>
      if came then e.plaintext == plaintext else CameLast(front, index, plaintext)
  {
    var events := front + [e];
    CameForNext(front, e, |front|, index);
    hide AwaitsSome;
    forall k: nat
      ensures k < |front| ==> (CameFor(events, k, index) <==> CameFor(front, k, index))
    {
      CameForNext(front, e, k, index);
    }
    CameForWithin(events, index);
    CameForWithin(front, index);
    hide CameFor;
    assert events[|front|] == e && forall k | 0 <= k < |front| :: events[k] == front[k];
  }

  lemma CameForWithin(events: seq<Event>, index: nat)
    ensures forall k: nat | CameFor(events, k, index) :: k < |events|
  {}

  // Each box.

  /** Until a box is read it awaits nothing, and what came for it is its own. */
  lemma {:induction false} UnreadCame(events: seq<Event>, index: nat)
    requires Unread(events, index)
    ensures forall substream: nat :: !AwaitsSome(events, index, substream)
    ensures NoMessage(events, index) <==> forall plaintext: Bytes :: !CameLast(events, index, plaintext)
  {
    if events != [] {
      var front, e := events[..|events| - 1], events[|events| - 1];
      assert events == front + [e];
      UnreadNext(front, e, index);
      UnreadCame(front, index);
      forall plaintext: Bytes
        ensures CameLast(events, index, plaintext) <==>
                if OwnMessage(e, index) then e.plaintext == plaintext else CameLast(front, index, plaintext)
      {
        CameLastNext(front, e, index, plaintext);
      }
      hide CameLast, NoMessage;
      if OwnMessage(e, index) {
        assert CameLast(events, index, e.plaintext);
      }
    }
  }

  lemma FateNext(front: seq<Event>, e: Event, index: nat, fate: Option<Box>)
    requires FateIs(front, index, fate) && (ReadsBox(e, index) ==> Unread(front, index))
    ensures FateIs(front + [e], index, Fated(fate, e, index))
  {
    var events := front + [e];
    UnreadNext(front, e, index);
    if Unread(front, index) {
      UnreadCame(front, index);
    }
    hide Unread, NoMessage, WasRead, AwaitsSome, CameLast;
    forall next: nat
      ensures WasRead(events, index, next) <==> WasRead(front, index, next) || ReadAs(e, index, next)
    {
      WasReadNext(front, e, index, next);
    }
    FateAwaits(front, e, index, fate);
    FateCame(front, e, index, fate);
  }

  lemma FateAwaits(front: seq<Event>, e: Event, index: nat, fate: Option<Box>)
    requires FateIs(front, index, fate) && (ReadsBox(e, index) ==> Unread(front, index))
    ensures
      var fate' := Fated(fate, e, index);
      fate'.Some? ==> forall substream: nat ::
        fate'.value.substream == Some(substream) <==> AwaitsSome(front + [e], index, substream)
  {
    if Unread(front, index) {
      UnreadCame(front, index);
    }
    hide Unread, NoMessage, WasRead, AwaitsSome, CameLast;
    forall substream: nat
      ensures Fated(fate, e, index).Some? ==>
                (Fated(fate, e, index).value.substream == Some(substream)
                 <==> AwaitsSome(front + [e], index, substream))
    {
      AwaitsSomeNext(front, e, index, substream);
    }
  }

  lemma FateCame(front: seq<Event>, e: Event, index: nat, fate: Option<Box>)
    requires FateIs(front, index, fate) && (ReadsBox(e, index) ==> Unread(front, index))
    ensures
      var fate' := Fated(fate, e, index);
      fate'.Some? ==> forall plaintext: Bytes ::
        fate'.value.plaintext == Some(plaintext) <==> CameLast(front + [e], index, plaintext)
  {
    if Unread(front, index) {
      UnreadCame(front, index);
    }
    hide Unread, NoMessage, WasRead, AwaitsSome, CameLast;
    forall plaintext: Bytes
      ensures Fated(fate, e, index).Some? ==>
                (Fated(fate, e, index).value.plaintext == Some(plaintext)
                 <==> CameLast(front + [e], index, plaintext))
    {
      CameLastNext(front, e, index, plaintext);
    }
  }

  lemma {:induction false} FatesAre(events: seq<Event>, stream: nat, index: nat)
    requires InOrder(events, stream)
    ensures forall k | 0 <= k < |events| :: events[k].stream == stream
    ensures FateIs(events, index, Fate(events, index))
  {
    if events == [] {
      assert Unread(events, index) && NoMessage(events, index);
    } else {
      var front, e := events[..|events| - 1], events[|events| - 1];
      assert events == front + [e];
      FatesAre(front, stream, index);
      if ReadsBox(e, index) {
        NotReadYet(front, stream, index);
      }
      FateNext(front, e, index, Fate(front, index));
    }
  }

  lemma NotReadYet(events: seq<Event>, stream: nat, index: nat)
    requires InOrder(events, stream) && Turn(Boxes(events), index) && FateIs(events, index, Fate(events, index))
    requires forall k | 0 <= k < |events| :: events[k].stream == stream
    ensures Unread(events, index)
  {
    BoxesLined(events, stream);
    BoxFates(events, stream, index);
    NotedLast(Boxes(events), stream, index);
    hide Unread, NoMessage, WasRead, AwaitsSome, CameLast, Lined, Turn;
  }

  // What is told.

  ghost predicate Named(events: seq<Event>, index: nat) {
    !Unread(events, index) || !NoMessage(events, index)
  }

  /** The box is not read, or waits on the substream it announced. */
  ghost predicate Waits(events: seq<Event>, index: nat) {
    Unread(events, index) || exists substream: nat :: AwaitsSome(events, index, substream)
  }

  lemma BoxIs(events: seq<Event>, stream: nat, k: nat)
    requires InOrder(events, stream) && k < |Boxes(events)|
    ensures
      var box := Boxes(events)[k];
      && box.stream == stream && Named(events, box.index) && (Waiting(box) <==> Waits(events, box.index))
      && FateIs(events, box.index, Some(box))
  {
    var boxes := Boxes(events);
    var index := boxes[k].index;
    BoxesLined(events, stream);
    FatesAre(events, stream, index);
    BoxFates(events, stream, index);
    FoundAt(boxes, stream, k);
    hide Unread, NoMessage, WasRead, AwaitsSome, CameLast;
    var substream := if boxes[k].substream.Some? then boxes[k].substream.value else 0;
    assert boxes[k].substream.Some? ==> AwaitsSome(events, index, substream);
  }

  lemma FoundAt(boxes: seq<Box>, stream: nat, k: nat)
    requires Lined(boxes, stream) && k < |boxes|
    ensures Find(boxes, stream, boxes[k].index) == k
  {
    FindFirst(boxes, stream, k);
  }

  lemma {:induction false} FindFirst(boxes: seq<Box>, stream: nat, k: nat)
    requires k < |boxes| && boxes[k].stream == stream
    requires forall j | 0 <= j < k :: boxes[j].index != boxes[k].index
    ensures Find(boxes, stream, boxes[k].index) == k
  {
    if k > 0 {
      FindFirst(boxes[1..], stream, k - 1);
    }
  }

  lemma NamedIsNoted(events: seq<Event>, stream: nat, index: nat)
    requires InOrder(events, stream) && Named(events, index)
    ensures exists k :: 0 <= k < |Boxes(events)| && Boxes(events)[k].index == index
  {
    FatesAre(events, stream, index);
    BoxFates(events, stream, index);
    var k := Find(Boxes(events), stream, index);
    assert k < |Boxes(events)| && Boxes(events)[k].index == index;
  }

  ghost predicate TellsOf(events: seq<Event>, told: Told) {
    && WasRead(events, told.index, told.next)
    && forall plaintext: Bytes :: told.plaintext == Some(plaintext) <==> CameLast(events, told.index, plaintext)
  }

  /** Of a stream, whatever comes between on others: a box was told exactly if it
      was named and every box named, at it or before, was read and waits on no
      substream; it was told once, in order, with its successor and the last
      message that came for it. */
  lemma ToldExactly(events: seq<Event>, stream: nat, index: nat)
    requires InOrder(EventsOf(events, stream), stream)
    ensures
      var mine, told := EventsOf(events, stream), ToldOf(Reached(events).1, stream);
      && ((exists k :: 0 <= k < |told| && told[k].index == index)
          <==> Named(mine, index) && forall i: nat | i <= index && Named(mine, i) :: !Waits(mine, i))
      && (forall j, k | 0 <= j < k < |told| :: told[j].index < told[k].index)
      && forall k | 0 <= k < |told| :: told[k].stream == stream && TellsOf(mine, told[k])
  {
    var mine := EventsOf(events, stream);
    var boxes, told := Boxes(mine), ToldOf(Reached(events).1, stream);
    StreamTold(events, stream);
    BoxesLined(mine, stream);
    ToldAre(boxes[..Ready(boxes)]);
    hide Reached, Boxes, InOrder, EventsOf, Named, Waits, TellAll, TellsOf;
    BoxesAre(mine, stream);
    forall k | 0 <= k < |told|
      ensures told[k].index == boxes[k].index && told[k].stream == stream && TellsOf(mine, told[k])
    {
      ToldIs(mine, stream, k);
    }
    ReadyUpTo(mine, boxes, stream, index);
  }

  lemma ToldIs(events: seq<Event>, stream: nat, k: nat)
    requires InOrder(events, stream) && k < |Boxes(events)| && !Waiting(Boxes(events)[k])
    ensures TellsOf(events, Tell(Boxes(events)[k]))
  {
    BoxIs(events, stream, k);
    hide Boxes, Unread, NoMessage, WasRead, AwaitsSome, CameLast;
  }

  lemma BoxesAre(events: seq<Event>, stream: nat)
    requires InOrder(events, stream)
    ensures
      var boxes := Boxes(events);
      && (forall k | 0 <= k < |boxes| ::
            Named(events, boxes[k].index) && (Waiting(boxes[k]) <==> Waits(events, boxes[k].index)))
      && (forall i: nat | Named(events, i) :: exists k :: 0 <= k < |boxes| && boxes[k].index == i)
  {
    hide Boxes, Named, Waits;
    forall k | 0 <= k < |Boxes(events)|
      ensures Named(events, Boxes(events)[k].index)
      ensures Waiting(Boxes(events)[k]) <==> Waits(events, Boxes(events)[k].index)
    {
      BoxIs(events, stream, k);
    }
    forall i: nat | Named(events, i)
      ensures exists k :: 0 <= k < |Boxes(events)| && Boxes(events)[k].index == i
    {
      NamedIsNoted(events, stream, i);
    }
  }

  lemma ReadyUpTo(mine: seq<Event>, boxes: seq<Box>, stream: nat, index: nat)
    requires Lined(boxes, stream)
    requires forall k | 0 <= k < |boxes| ::
               Named(mine, boxes[k].index) && (Waiting(boxes[k]) <==> Waits(mine, boxes[k].index))
    requires forall i: nat | Named(mine, i) :: exists k :: 0 <= k < |boxes| && boxes[k].index == i
    ensures (exists k :: 0 <= k < Ready(boxes) && boxes[k].index == index)
            <==> Named(mine, index) && forall i: nat | i <= index && Named(mine, i) :: !Waits(mine, i)
  {}
}
