/**
  The sending and the receiving half together: what a run of the send protocol
  put into the boxes of a stream is what the reader of that stream is given,
  whatever crashes and retries either of them went through.
 */
module EndToEnd {
  import opened Basics
  import opened Framing
  import opened OutboundTables
  import opened OutboundRun
  import opened OutboundUploads
  import opened OutboundTheorems
  import opened OutboundOutcomes
  import opened Reassembly
  import RC = ReceiveCursor
  import RD = ReceiveDatabase

  /** `events` is what the boxes of stream `s` hold, from its first one on. */
  ghost predicate ReadFrom(w: World, s: Uuid, events: seq<Event>) {
    && s in w.first
    && forall k | 0 <= k < |events| :: SeesBox(w, Box(s, w.first[s] + k), events[k])
  }

  ghost predicate SeesBox(w: World, b: Box, e: Event) {
    b in w.written && e == PieceOf(w.written[b])
  }

  /** Nothing is given before the last box, and there exactly the blob. */
  ghost predicate GivenAtLast(l: RC.Lane, blob: Bytes) {
    && |l.given| > 0
    && (forall n | 0 <= n < |l.given| - 1 :: l.given[n] == Unfinished)
    && l.given[|l.given| - 1] == Message(blob, l.first)
  }

  /** A reader that consumed the boxes of one message was given it at the last. */
  lemma MessageGiven(first: nat, taken: seq<RC.Step>, boxes: seq<Bytes>, blob: Bytes, decodes: Bytes -> bool)
    requires Carries(boxes, blob) && decodes(blob) && |blob| <= ASSEMBLY_HARD_CAP
    requires RC.Possible(first, taken, decodes)
    requires
      var l := RC.Reached(first, taken, decodes);
      |l.consumed| == |boxes| && Reads(l.consumed, 0, boxes)
    ensures GivenAtLast(RC.Reached(first, taken, decodes), blob)
  {
    hide Carries, Reads;
    RC.RunKept(first, taken, decodes);
    RC.BoxesConsumedOnce(first, taken, decodes);
    hide RC.LaneKept;
    MessageRoundTrip(first, RC.Reached(first, taken, decodes).consumed, 0, boxes, blob, decodes);
  }

  /** Once an upload is announced, reading its stream is reading its boxes. */
  lemma BoxesRead(ws: seq<World>, steps: seq<Step>, i: nat, agg: Uuid, c: Cast, events: seq<Event>)
    requires Run(ws, steps) && i < |ws| && agg in ws[i].uploads
    requires c in ws[i].cast && c.item.id == ws[i].uploads[agg].release
    requires |events| == |ws[i].uploads[agg].payloads| && ReadFrom(ws[i], agg, events)
    ensures Reads(events, 0, ws[i].uploads[agg].payloads)
  {
    AnnouncedAfterEveryChunk(ws, steps, i, agg, c);
    var w, boxes := ws[i], ws[i].uploads[agg].payloads;
    forall k | 0 <= k < |boxes|
      ensures events[k] == PieceOf(boxes[k - 0])
    {
      assert SeesBox(w, Box(agg, w.first[agg] + k), events[k]);
      assert Holds(w, Box(agg, w.first[agg] + k), boxes[k]);
    }
  }

  /** Serialize, send in order and reassemble is the identity: once the
      indirection of a message of several boxes was cast, whoever has read the
      boxes it announces was given nothing at any but the last, and at the last
      exactly the message. The count announced is the number of boxes. */
  lemma UploadReceived(ws: seq<World>, steps: seq<Step>, i: nat, agg: Uuid, c: Cast, blob: Bytes,
                       taken: seq<RC.Step>, decodes: Bytes -> bool)
    requires Run(ws, steps) && i < |ws| && agg in ws[i].uploads && agg in ws[i].first
    requires c in ws[i].cast && c.item.id == ws[i].uploads[agg].release
    requires Carries(ws[i].uploads[agg].payloads, blob) && decodes(blob) && |blob| <= ASSEMBLY_HARD_CAP
    requires RC.Possible(ws[i].first[agg], taken, decodes)
    requires
      var l := RC.Reached(ws[i].first[agg], taken, decodes);
      |l.consumed| == |ws[i].uploads[agg].payloads| && ReadFrom(ws[i], agg, l.consumed)
    ensures GivenAtLast(RC.Reached(ws[i].first[agg], taken, decodes), blob)
    ensures
      var w, u := ws[i], ws[i].uploads[agg];
      u.rcw in w.t.readCaps && Announces(c.item.payload, |u.payloads|, w.t.readCaps[u.rcw].cap)
  {
    AnnouncedAfterEveryChunk(ws, steps, i, agg, c);
    BoxesRead(ws, steps, i, agg, c, RC.Reached(ws[i].first[agg], taken, decodes).consumed);
    MessageGiven(ws[i].first[agg], taken, ws[i].uploads[agg].payloads, blob, decodes);
  }

  predicate Whole(payload: Bytes) {
    payload != [] && (payload[0] == MARK_F || payload[0] == MARK_I)
  }

  /** What a whole message gives at the box that holds it. */
  function OnItsOwn(payload: Bytes, at: nat, decodes: Bytes -> bool): Assembled
    requires Whole(payload)
  {
    if payload[0] == MARK_I then Release(payload[1..])
    else if decodes(payload[1..]) then Message(payload[1..], at)
    else Unfinished
  }

  /** Whatever was queued on `s` for a box of its own is a whole message, as
      `Framing.Serialize` makes them. */
  ghost predicate OnlyWhole(steps: seq<Step>, s: Uuid) {
    forall k, id, payload | 0 <= k < |steps| && steps[k] == Queueing(EnqueueBox(id, s, payload)) :: Whole(payload)
  }

  /** A message of one box is received as it was queued: its reader, whatever
      crashes and retries either side went through, is given exactly the payload
      queued for it, at the box it was sent in. */
  lemma MessagesReceived(ws: seq<World>, steps: seq<Step>, i: nat, s: Uuid, taken: seq<RC.Step>,
                         decodes: Bytes -> bool, k: nat, id: Uuid, payload: Bytes, n: nat)
    requires Run(ws, steps) && k < i < |ws| && steps[k] == Queueing(EnqueueBox(id, s, payload)) && OnlyWhole(steps, s)
    requires s in ws[i].t.writeCaps && ws[i].t.writeCaps[s].next.Some? && s in ws[i].first
    requires RC.Possible(ws[i].first[s], taken, decodes)
    requires
      var l := RC.Reached(ws[i].first[s], taken, decodes);
      n < |l.consumed| <= |Log(ws[i], s)| && ReadFrom(ws[i], s, l.consumed)
    requires Log(ws[i], s)[n].id == id
    ensures
      var w, l := ws[i], RC.Reached(ws[i].first[s], taken, decodes);
      && n < |l.given| && l.given[n] == OnItsOwn(payload, w.first[s] + n, decodes)
      && forall blob | Carries([payload], blob) && decodes(blob) :: l.given[n] == Message(blob, w.first[s] + n)
  {
    hide RC.Possible, RC.Reached, ReadFrom;
    BoxFate(ws, steps, k, i, id, s, payload);
    OwnStream(ws, steps, k, i, id, s, payload);
    LogIsWhole(ws, steps, i, s);
    LogReceived(ws, steps, i, s, taken, decodes, n);
  }

  lemma OwnStream(ws: seq<World>, steps: seq<Step>, k: nat, i: nat, id: Uuid, s: Uuid, payload: Bytes)
    requires Run(ws, steps) && k < i < |ws| && steps[k] == Queueing(EnqueueBox(id, s, payload))
    ensures s !in ws[i].uploads
  {
    BoxFollowed(ws, steps, k, i, id, s, payload);
  }

  lemma LogIsWhole(ws: seq<World>, steps: seq<Step>, i: nat, s: Uuid)
    requires Run(ws, steps) && i < |ws| && OnlyWhole(steps, s) && s !in ws[i].uploads
    ensures forall n | 0 <= n < |Log(ws[i], s)| :: Whole(Log(ws[i], s)[n].payload)
  {
    forall n | 0 <= n < |Log(ws[i], s)|
      ensures Whole(Log(ws[i], s)[n].payload)
    {
      LogWasQueued(ws, steps, i, s, n);
    }
  }

  /** What announces an upload is received as the read cap and the count of its
      stream, where it was sent. */
  lemma AnnouncementsReceived(ws: seq<World>, steps: seq<Step>, i: nat, s: Uuid, taken: seq<RC.Step>,
                              decodes: Bytes -> bool, agg: Uuid, n: nat)
    requires Run(ws, steps) && i < |ws| && OnlyWhole(steps, s) && s !in ws[i].uploads
    requires s in ws[i].t.writeCaps && ws[i].t.writeCaps[s].next.Some? && s in ws[i].first
    requires RC.Possible(ws[i].first[s], taken, decodes)
    requires
      var l := RC.Reached(ws[i].first[s], taken, decodes);
      n < |l.consumed| <= |Log(ws[i], s)| && ReadFrom(ws[i], s, l.consumed)
    requires agg in ws[i].uploads && ws[i].uploads[agg].main == s
    requires Log(ws[i], s)[n].id == ws[i].uploads[agg].release
    ensures
      var w, l := ws[i], RC.Reached(ws[i].first[s], taken, decodes);
      var u := w.uploads[agg];
      && u.rcw in w.t.readCaps && w.t.readCaps[u.rcw].cap.Some?
      && n < |l.given| && l.given[n].Release?
      && var cap := w.t.readCaps[u.rcw].cap.value;
      |cap| == READ_CAP_SIZE ==> ParseAnnouncement(l.given[n].body) == Substream(cap, Some(|u.chunks|))
  {
    hide RC.Possible, RC.Reached, ReadFrom;
    RunKept(ws, steps, i);
    EntryAnnounces(ws[i], agg, s, n);
    LogIsWhole(ws, steps, i, s);
    LogReceived(ws, steps, i, s, taken, decodes, n);
    hide Kept;
    var w, u := ws[i], ws[i].uploads[agg];
    var cap := w.t.readCaps[u.rcw].cap;
    if |cap.value| == READ_CAP_SIZE {
      AnnouncementRoundTrip(Log(w, s)[n].payload, |u.chunks|, cap);
    }
  }

  lemma LogReceived(ws: seq<World>, steps: seq<Step>, i: nat, s: Uuid,
                    taken: seq<RC.Step>, decodes: Bytes -> bool, n: nat)
    requires Run(ws, steps) && i < |ws| && s in ws[i].t.writeCaps && ws[i].t.writeCaps[s].next.Some?
    requires s in ws[i].first && RC.Possible(ws[i].first[s], taken, decodes)
    requires
      var l := RC.Reached(ws[i].first[s], taken, decodes);
      n < |l.consumed| <= |Log(ws[i], s)| && ReadFrom(ws[i], s, l.consumed)
    requires forall k | 0 <= k < |Log(ws[i], s)| :: Whole(Log(ws[i], s)[k].payload)
    ensures
      var w, l := ws[i], RC.Reached(ws[i].first[s], taken, decodes);
      n < |l.given| && l.given[n] == OnItsOwn(Log(w, s)[n].payload, w.first[s] + n, decodes)
  {
    var l := RC.Reached(ws[i].first[s], taken, decodes);
    RC.RunKept(ws[i].first[s], taken, decodes);
    BoxesHoldTheLog(ws, steps, i, s);
    WholeAlone(ws[i], s, l.consumed, n, decodes);
  }

  lemma SeenAs(w: World, s: Uuid, events: seq<Event>, k: nat)
    requires BoxesHoldLog(w, s) && ReadFrom(w, s, events) && k < |events| <= |Log(w, s)|
    ensures events[k] == PieceOf(Log(w, s)[k].payload)
  {}

  lemma WholeAlone(w: World, s: Uuid, events: seq<Event>, n: nat, decodes: Bytes -> bool)
    requires BoxesHoldLog(w, s) && ReadFrom(w, s, events) && n < |events| <= |Log(w, s)|
    requires forall k | 0 <= k < |Log(w, s)| :: Whole(Log(w, s)[k].payload)
    ensures Expected(w.first[s], events, n, decodes) == OnItsOwn(Log(w, s)[n].payload, w.first[s] + n, decodes)
  {
    SeenAs(w, s, events, n);
    if n > 0 {
      SeenAs(w, s, events, n - 1);
      assert Whole(Log(w, s)[n - 1].payload);
    }
    assert OpenTail(events, n) == n;
  }

  // The indirection itself.

  datatype Announced = Ignored | Substream(cap: Bytes, total: Option<nat>)

  function FromBigEndian32(b: Bytes): nat
    requires |b| == 4
  {
    b[0] as int * 0x100_0000 + b[1] as int * 0x1_0000 + b[2] as int * 0x100 + b[3]
  }

  /** What the drain of a read makes of the body of an indirection. */
  function ParseAnnouncement(body: Bytes): Announced {
    if |body| == READ_CAP_SIZE then Substream(body, None)
    else if |body| == READ_CAP_SIZE + 4 then Substream(body[4..], Some(FromBigEndian32(body[..4])))
    else Ignored
  }

  lemma BigEndianRoundTrip(n: nat)
    requires n < TWO_32
    ensures FromBigEndian32(BigEndian32(n)) == n
  {
    var hundreds := n / 0x100;
    assert hundreds / 0x100 == n / 0x1_0000 && hundreds / 0x1_0000 == n / 0x100_0000;
    assert n == hundreds * 0x100 + n % 0x100;
  }

  /** The reader learns the read cap and the count that were announced. */
  lemma AnnouncementRoundTrip(payload: Bytes, total: nat, cap: Option<Bytes>)
    requires Announces(payload, total, cap) && |cap.value| == READ_CAP_SIZE
    ensures PieceOf(payload) == Stored(Piece(I, payload[1..]))
    ensures ParseAnnouncement(payload[1..]) == Substream(cap.value, Some(total))
  {
    BigEndianRoundTrip(total);
    AnnouncementParts(BigEndian32(total), cap.value, payload[1..]);
  }

  lemma AnnouncementParts(count: Bytes, cap: Bytes, body: Bytes)
    requires |count| == 4 && |cap| == READ_CAP_SIZE && body == count + cap
    ensures ParseAnnouncement(body) == Substream(cap, Some(FromBigEndian32(count)))
  {}

  /** What is discarded when the substream read by `readCap` is done is exactly
      what announced it, with a chunk count or without. */
  lemma DiscardsAnnounced(pieces: Store, readCap: Bytes, k: nat)
    requires |readCap| == READ_CAP_SIZE
    ensures k in RD.Announcing(pieces, readCap) <==>
            k in pieces && pieces[k].kind.I?
            && ParseAnnouncement(pieces[k].body).Substream? && ParseAnnouncement(pieces[k].body).cap == readCap
  {}

  /** What an indirection is filled in with is read back as its read cap and
      count, or only its read cap; there is nothing to fill in exactly when the
      count does not fit. */
  lemma FilledInRoundTrip(t: Tables, id: Uuid)
    requires Eligible(t, {}, id) && t.queue[id].indirection.Some? && t.queue[id].payload == []
    ensures
      var cap := t.readCaps[t.queue[id].indirection.value];
      && (ToSeal(t, id).None? <==> cap.total.Some? && cap.total.value >= TWO_32)
      && (ToSeal(t, id).Some? && |cap.cap.value| == READ_CAP_SIZE ==>
            && PieceOf(ToSeal(t, id).value) == Stored(Piece(I, ToSeal(t, id).value[1..]))
            && ParseAnnouncement(ToSeal(t, id).value[1..]) == Substream(cap.cap.value, cap.total))
  {
    var cap := t.readCaps[t.queue[id].indirection.value];
    if cap.total.Some? && cap.total.value < TWO_32 && |cap.cap.value| == READ_CAP_SIZE {
      AnnouncementRoundTrip(ToSeal(t, id).value, cap.total.value, cap.cap);
    }
  }

  /** Exactly these bodies are announcements: a read cap, or a count that fits
      four bytes and a read cap. */
  lemma AnnouncementsAre(body: Bytes, cap: Bytes, total: Option<nat>)
    ensures ParseAnnouncement(body) == Substream(cap, total) <==>
            |cap| == READ_CAP_SIZE
            && if total.None? then body == cap else total.value < TWO_32 && body == BigEndian32(total.value) + cap
  {
    if total.Some? && total.value < TWO_32 {
      BigEndianRoundTrip(total.value);
    }
    if |body| == READ_CAP_SIZE + 4 {
      BigEndianBack(body[..4]);
      assert body == body[..4] + body[4..];
    }
  }

  lemma BigEndianBack(b: Bytes)
    requires |b| == 4
    ensures FromBigEndian32(b) < TWO_32 && BigEndian32(FromBigEndian32(b)) == b
  {
    var n, third, second := FromBigEndian32(b), b[0] as int * 0x1_0000 + b[1] as int * 0x100 + b[2],
                            b[0] as int * 0x100 + b[1];
    LastByte(n, third, b[3]);
    LastByte(third, second, b[2]);
    LastByte(second, b[0] as int, b[1]);
    assert n / 0x1_0000 == n / 0x100 / 0x100 && n / 0x100_0000 == n / 0x100 / 0x100 / 0x100;
  }

  lemma LastByte(n: nat, rest: nat, last: Byte)
    requires n == rest * 0x100 + last
    ensures n / 0x100 == rest && n % 0x100 == last
  {}
}
