/**
  No reachable state of the send protocol is a dead end: whatever crashed or was
  interrupted, a row whose turn it is can still be sent, and with it every chunk
  of an upload and what announces it.
 */
module OutboundProgress {
  import opened Basics
  import opened OutboundTables
  import opened OutboundRun
  import opened OutboundSafety
  import opened OutboundUploads
  import opened OutboundTheorems
  import opened OutboundOutcomes
  import opened OutboundControl
  import Sets

  ghost predicate Leads(w: World, steps: seq<Step>, w': World)
    decreases |steps|
  {
    if steps == [] then w' == w
    else Enabled(w, steps[0]) && Leads(Apply(w, steps[0]), steps[1..], w')
  }

  /** Some steps lead from `w` to `w'`. */
  ghost predicate CanReach(w: World, w': World) {
    exists steps: seq<Step> :: Leads(w, steps, w')
  }

  lemma Stay(w: World)
    ensures CanReach(w, w)
  {
    assert Leads(w, [], w);
  }

  lemma Step1(w: World, step: Step)
    requires Kept(w) && Enabled(w, step)
    ensures CanReach(w, Apply(w, step)) && Kept(Apply(w, step))
  {
    hide Kept, Apply;
    StepKept(w, step);
    assert Leads(Apply(w, step), [step][1..], Apply(w, step));
    assert Leads(w, [step], Apply(w, step));
  }

  lemma {:induction false} LeadsOn(w: World, a: seq<Step>, w': World, b: seq<Step>, w'': World)
    requires Leads(w, a, w') && Leads(w', b, w'')
    ensures Leads(w, a + b, w'')
    decreases |a|
  {
    if a == [] {
      assert a + b == b;
    } else {
      LeadsOn(Apply(w, a[0]), a[1..], w', b, w'');
      assert (a + b)[1..] == a[1..] + b;
    }
  }

  lemma ReachOn(w: World, w': World, w'': World)
    requires CanReach(w, w') && CanReach(w', w'')
    ensures CanReach(w, w'')
  {
    var a :| Leads(w, a, w');
    var b :| Leads(w', b, w'');
    LeadsOn(w, a, w', b, w'');
  }

  // From an envelope in flight to its acknowledgement.

  /** The tables, the log and the sealing tasks are as they were. */
  ghost predicate TasksOnly(w: World, w': World) {
    w'.t == w.t && w'.sealing == w.sealing && w'.log == w.log && w'.uploads == w.uploads
  }

  lemma CanBeLoaded(w: World, s: Uuid) returns (w': World)
    requires Kept(w) && s in w.t.inFlight && s in w.t.writeCaps && !w.t.writeCaps[s].paused
    ensures CanReach(w, w') && Kept(w') && TasksOnly(w, w')
    ensures Drain(s, w.t.inFlight[s], Ready) in w'.drains
  {
    FlightQueued(w, s);
    hide Kept;
    var d := Drain(s, w.t.inFlight[s], Loaded);
    var w1 := w.(drains := w.drains + {d});
    assert w1 == Apply(w, Drained(LoadDrain(s)));
    Step1(w, Drained(LoadDrain(s)));
    w' := w1.(drains := w1.drains + {d.(phase := Ready)});
    assert w' == Apply(w1, Drained(VerifyDrain(d)));
    Step1(w1, Drained(VerifyDrain(d)));
    ReachOn(w, w1, w');
  }

  lemma FlightQueued(w: World, s: Uuid)
    requires Kept(w) && s in w.t.inFlight && s in w.t.writeCaps
    ensures
      var e := w.t.inFlight[s];
      && e.plaintext in w.t.queue && w.t.queue[e.plaintext].stream == s && w.t.queue[e.plaintext].payload == e.sealed
      && w.t.writeCaps[s].next == Some(e.current) && e.next == e.current + 1
  {
    assert FlightRowKept(s, w.t.inFlight[s], w.t.queue, w.t.writeCaps, w.claims);
  }

  lemma CanBeDelivered(w: World, d: Drain) returns (w': World)
    requires Kept(w) && d in w.drains && d.phase.Ready?
    ensures CanReach(w, w') && Kept(w') && TasksOnly(w, w')
    ensures d in w'.drains && DrainCast(d) in w'.delivered
  {
    hide Kept;
    var c := DrainCast(d);
    var w1 := w.(cast := w.cast + {c});
    assert w1 == Apply(w, Drained(CastDrain(d)));
    Step1(w, Drained(CastDrain(d)));
    w' := w1.(delivered := w1.delivered + {c}, written := w1.written[c.box := c.item.payload]);
    assert w' == Apply(w1, Drained(Deliver(c)));
    Step1(w1, Drained(Deliver(c)));
    ReachOn(w, w1, w');
  }

  /** The row in flight on `s` was finalized. */
  ghost predicate Landed(w: World, w': World, s: Uuid)
    requires s in w.t.inFlight && s in w.t.writeCaps
  {
    var e := w.t.inFlight[s];
    && w'.t == Tables(w.t.queue - {e.plaintext}, w.t.inFlight - {s}, w.t.sent + {e.plaintext},
                      w.t.writeCaps[s := w.t.writeCaps[s].(next := Some(e.next))], w.t.readCaps)
    && w'.sealing == w.sealing && w'.uploads == w.uploads
    && Log(w', s) == Log(w, s) + [Item(e.plaintext, e.sealed)]
    && forall s' | s' != s :: Log(w', s') == Log(w, s')
  }

  lemma CanBePrechecked(w: World, d: Drain) returns (w': World)
    requires Kept(w) && d in w.drains && d.phase.Ready? && DrainCast(d) in w.delivered
    ensures CanReach(w, w') && Kept(w') && TasksOnly(w, w')
    ensures d.(phase := Prechecked(Precheck(w.t, d.stream))) in w'.drains
  {
    hide Kept;
    w' := w.(drains := w.drains + {d.(phase := Prechecked(Precheck(w.t, d.stream)))});
    assert w' == Apply(w, Drained(PrecheckAck(d)));
    Step1(w, Drained(PrecheckAck(d)));
  }

  lemma CanBeFinalized(w: World, s: Uuid, d: Drain) returns (w': World)
    requires Kept(w) && s in w.t.inFlight && s in w.t.writeCaps
    requires d in w.drains && d == Drain(s, w.t.inFlight[s], Prechecked(Precheck(w.t, s)))
    ensures CanReach(w, w') && Kept(w') && Landed(w, w', s)
  {
    FlightQueued(w, s);
    hide Kept, Landed;
    w' := Finalized(w, d);
    FinalizedLands(w, d);
    hide Finalized, CanReach;
    assert w' == Apply(w, Drained(FinalizeAck(d)));
    Step1(w, Drained(FinalizeAck(d)));
  }

  lemma FinalizedLands(w: World, d: Drain)
    requires d.phase.Prechecked? && d.stream in w.t.inFlight && w.t.inFlight[d.stream] == d.row
    requires d.stream in w.t.writeCaps && d.row.plaintext in w.t.queue
    requires w.t.queue[d.row.plaintext].payload == d.row.sealed && !Stale(d.phase.realNext, d.row)
    ensures Landed(w, Finalized(w, d), d.stream)
  {}

  /** What is in flight can be acknowledged and finalized. */
  lemma FlightCanLand(w: World, s: Uuid) returns (w': World)
    requires Kept(w) && s in w.t.inFlight && s in w.t.writeCaps && !w.t.writeCaps[s].paused
    ensures CanReach(w, w') && Kept(w') && Landed(w, w', s)
  {
    hide Kept, CanReach;
    var w1 := CanBeLoaded(w, s);
    var w2 := CanBeDelivered(w1, Drain(s, w.t.inFlight[s], Ready));
    var w3 := CanBePrechecked(w2, Drain(s, w.t.inFlight[s], Ready));
    w' := CanBeFinalized(w3, s, Drain(s, w.t.inFlight[s], Prechecked(Precheck(w.t, s))));
    ReachOn(w, w1, w2);
    ReachOn(w, w2, w3);
    ReachOn(w, w3, w');
  }

  // From an eligible row to an envelope in flight.

  lemma FreshId(used: set<Uuid>) returns (id: Uuid)
    ensures id !in used
  {
    return if used == {} then 0 else Sets.Largest(used) + 1;
  }

  /** Row `p` is in flight, sealed with `payload`; the rest is as it was. */
  ghost predicate Sealed(w: World, w': World, p: Uuid, payload: Bytes)
    requires p in w.t.queue
  {
    var s := w.t.queue[p].stream;
    && s in w'.t.inFlight && w'.t.inFlight[s].plaintext == p && w'.t.inFlight[s].sealed == payload
    && w'.t == FillIn(w.t, p, payload).(inFlight := w.t.inFlight[s := w'.t.inFlight[s]])
    && w'.sealing == w.sealing && w'.uploads == w.uploads && w'.log == w.log
  }

  /** An eligible row can be sealed. */
  lemma CanBeSealed(w: World, p: Uuid) returns (w': World)
    requires Kept(w) && Eligible(w.t, w.sealing.Keys, p) && ToSeal(w.t, p).Some?
    ensures CanReach(w, w') && Kept(w') && Sealed(w, w', p, ToSeal(w.t, p).value)
  {
    var s := w.t.queue[p].stream;
    var payload := ToSeal(w.t, p).value;
    hide Kept, ToSeal, Eligible, CanReach, Dispatched, Sealed;
    var w1 := CanBeDispatched(w, p);
    var w2 := CanReadCursor(w1, s);
    w' := CanCommit(w2, s);
    ReachOn(w, w1, w2);
    ReachOn(w, w2, w');
    TaskGone(w.sealing, s, w1.sealing[s], w2.sealing[s]);
    SealedThen(w, w2, w', p, payload);
  }

  lemma TaskGone(sealing: map<Uuid, OutboundRun.Sealing>, s: Uuid, z: OutboundRun.Sealing, z': OutboundRun.Sealing)
    requires s !in sealing
    ensures sealing[s := z][s := z'] - {s} == sealing
  {}

  lemma SealedThen(w: World, w2: World, w': World, p: Uuid, payload: Bytes)
    requires p in w.t.queue && w2.t == FillIn(w.t, p, payload)
    requires
      var s := w.t.queue[p].stream;
      && s in w'.t.inFlight && w'.t.inFlight[s].plaintext == p && w'.t.inFlight[s].sealed == payload
      && w'.t == w2.t.(inFlight := w2.t.inFlight[s := w'.t.inFlight[s]])
    requires w'.sealing == w.sealing && w'.uploads == w.uploads && w'.log == w.log
    ensures Sealed(w, w', p, payload)
  {}

  lemma CanBeDispatched(w: World, p: Uuid) returns (w': World)
    requires Kept(w) && Eligible(w.t, w.sealing.Keys, p) && ToSeal(w.t, p).Some?
    ensures CanReach(w, w') && Kept(w') && w' == Dispatched(w, p)
    ensures
      var s := w.t.queue[p].stream;
      && s in w'.t.writeCaps && w'.t.writeCaps[s].next.Some? && s !in w'.t.inFlight && s !in w.sealing
      && w'.t == FillIn(w.t, p, ToSeal(w.t, p).value) && w'.uploads == w.uploads && w'.log == w.log
      && w'.sealing == w.sealing[s := Sealing(p, ToSeal(w.t, p).value, None)]
  {
    hide Kept;
    w' := Dispatched(w, p);
    hide ToSeal;
    assert w' == Apply(w, OutboundRun.Sealed(Dispatch(p)));
    Step1(w, OutboundRun.Sealed(Dispatch(p)));
  }

  lemma CanReadCursor(w: World, s: Uuid) returns (w': World)
    requires Kept(w) && s in w.sealing && w.sealing[s].at.None?
    requires s in w.t.writeCaps && w.t.writeCaps[s].next.Some?
    ensures CanReach(w, w') && Kept(w')
    ensures w' == w.(sealing := w.sealing[s := w.sealing[s].(at := w.t.writeCaps[s].next)])
  {
    hide Kept;
    w' := w.(sealing := w.sealing[s := w.sealing[s].(at := w.t.writeCaps[s].next)]);
    assert w' == Apply(w, OutboundRun.Sealed(ReadCursor(s)));
    Step1(w, OutboundRun.Sealed(ReadCursor(s)));
  }

  lemma CanCommit(w: World, s: Uuid) returns (w': World)
    requires Kept(w) && s in w.sealing && w.sealing[s].at.Some? && s !in w.t.inFlight
    ensures CanReach(w, w') && Kept(w')
    ensures
      && s in w'.t.inFlight && w'.t.inFlight[s].plaintext == w.sealing[s].plaintext
      && w'.t.inFlight[s].sealed == w.sealing[s].payload
      && w'.t == w.t.(inFlight := w.t.inFlight[s := w'.t.inFlight[s]])
      && w'.sealing == w.sealing - {s} && w'.uploads == w.uploads && w'.log == w.log
  {
    hide Kept;
    var id := FreshId(w.used);
    w' := Committed(w, s, id, 0);
    assert w' == Apply(w, OutboundRun.Sealed(CommitEnvelope(s, id, 0)));
    Step1(w, OutboundRun.Sealed(CommitEnvelope(s, id, 0)));
  }

  // Any row whose turn it is.

  /** The stream's write cap is provisioned and it is not paused. */
  ghost predicate Writable(t: Tables, s: Uuid) {
    s in t.writeCaps && t.writeCaps[s].next.Some? && !t.writeCaps[s].paused
  }

  /** Nothing that was queued before row `p` is in its way. */
  ghost predicate InTurn(t: Tables, p: Uuid) {
    && p in t.queue
    && var row := t.queue[p];
    && Writable(t, row.stream)
    && (row.afterId.Some? ==> row.afterId.value in t.sent)
    && (row.afterStream.Some? ==> Remaining(t, row.afterStream.value) == {})
    && (row.indirection.Some? ==>
          && row.indirection.value in t.readCaps
          && var cap := t.readCaps[row.indirection.value];
          && cap.cap.Some? && (row.payload == [] && cap.total.Some? ==> cap.total.value < TWO_32))
  }

  lemma InTurnEligible(t: Tables, encrypting: set<Uuid>, p: Uuid)
    requires InTurn(t, p) && t.queue[p].stream !in t.inFlight && t.queue[p].stream !in encrypting
    ensures Eligible(t, encrypting, p) && ToSeal(t, p).Some?
  {}

  /** `w'` is reached from `w` by sending on `s`: of the other streams, and of
      what may be sent, nothing changed. */
  ghost predicate SentOn(w: World, w': World, s: Uuid) {
    && CanReach(w, w') && Kept(w')
    && w'.uploads == w.uploads && w'.t.readCaps == w.t.readCaps
    && (forall s' | Writable(w.t, s') :: Writable(w'.t, s'))
    && (forall s' | s' != s :: Log(w', s') == Log(w, s'))
    && Log(w, s) <= Log(w', s)
  }

  /** Row `p` was sent last. */
  ghost predicate SentLast(w: World, w': World, s: Uuid, p: Uuid) {
    && SentOn(w, w', s) && p !in w'.t.queue
    && |Log(w', s)| > |Log(w, s)| && Log(w', s)[|Log(w', s)| - 1].id == p
  }

  lemma SentOnOn(w: World, w': World, w'': World, s: Uuid)
    requires SentOn(w, w', s) && SentOn(w', w'', s)
    ensures SentOn(w, w'', s)
  {
    hide CanReach, Kept, Writable, Log;
    ReachOn(w, w', w'');
  }

  lemma SentOnLast(w: World, w': World, w'': World, s: Uuid, p: Uuid)
    requires SentOn(w, w', s) && SentLast(w', w'', s, p)
    ensures SentLast(w, w'', s, p)
  {
    SentOnOn(w, w', w'', s);
    hide CanReach, Kept, Writable, Log;
  }

  /** The task sealing for `s`, if any, can fail. */
  lemma CanStopSealing(w: World, s: Uuid) returns (w': World)
    requires Kept(w)
    ensures SentOn(w, w', s) && w'.t == w.t && s !in w'.sealing && w'.log == w.log
  {
    hide Kept;
    if s in w.sealing {
      w' := w.(sealing := w.sealing - {s});
      assert w' == Apply(w, OutboundRun.Sealed(SealingFails(s)));
      Step1(w, OutboundRun.Sealed(SealingFails(s)));
    } else {
      w' := w;
      Stay(w);
    }
  }

  lemma LandedSentOn(w: World, w': World, s: Uuid)
    requires CanReach(w, w') && Kept(w') && s in w.t.inFlight && s in w.t.writeCaps && Landed(w, w', s)
    ensures SentOn(w, w', s)
    ensures forall p | InTurn(w.t, p) && p != w.t.inFlight[s].plaintext :: InTurn(w'.t, p)
  {
    hide CanReach, Kept;
  }

  /** An eligible row can be sent. */
  lemma EligibleCanBeSent(w: World, p: Uuid) returns (w': World)
    requires Kept(w) && Eligible(w.t, w.sealing.Keys, p) && ToSeal(w.t, p).Some?
    ensures SentLast(w, w', w.t.queue[p].stream, p)
  {
    var s := w.t.queue[p].stream;
    assert Writable(w.t, s);
    var payload := ToSeal(w.t, p).value;
    hide Kept, CanReach, Eligible, ToSeal, Landed, Sealed, SentLast;
    var w1 := CanBeSealed(w, p);
    SealedReady(w, w1, p, payload);
    w' := FlightCanLand(w1, s);
    ReachOn(w, w1, w');
    SealedThenLanded(w, w1, w', p, payload);
  }

  lemma SealedReady(w: World, w1: World, p: Uuid, payload: Bytes)
    requires p in w.t.queue && Sealed(w, w1, p, payload) && Writable(w.t, w.t.queue[p].stream)
    ensures w.t.queue[p].stream in w1.t.inFlight && Writable(w1.t, w.t.queue[p].stream)
  {}

  lemma SealedThenLanded(w: World, w1: World, w': World, p: Uuid, payload: Bytes)
    requires p in w.t.queue && Sealed(w, w1, p, payload)
    requires w.t.queue[p].stream in w1.t.inFlight && w.t.queue[p].stream in w1.t.writeCaps
    requires Landed(w1, w', w.t.queue[p].stream) && CanReach(w, w') && Kept(w')
    ensures SentLast(w, w', w.t.queue[p].stream, p)
  {
    hide Kept, CanReach;
    assert w1.log == w.log && forall s :: Log(w1, s) == Log(w, s);
    assert w1.t.writeCaps == w.t.writeCaps;
  }

  lemma LandsLast(w: World, s: Uuid) returns (w': World)
    requires Kept(w) && s in w.t.inFlight && Writable(w.t, s) && s !in w.sealing
    ensures SentLast(w, w', s, w.t.inFlight[s].plaintext)
    ensures s !in w'.t.inFlight && s !in w'.sealing
    ensures forall p | InTurn(w.t, p) && p != w.t.inFlight[s].plaintext ::
        InTurn(w'.t, p) && w'.t.queue[p] == w.t.queue[p]
  {
    hide Kept, CanReach;
    w' := FlightCanLand(w, s);
    LandedSentOn(w, w', s);
  }

  /** A row whose turn it is can be sent, whatever is going on on its stream. */
  lemma RowCanBeSent(w: World, p: Uuid) returns (w': World)
    requires Kept(w) && InTurn(w.t, p)
    ensures SentLast(w, w', w.t.queue[p].stream, p)
  {
    var s := w.t.queue[p].stream;
    hide Kept, CanReach, SentOn, SentLast;
    var w1 := CanStopSealing(w, s);
    SentOnKept(w, w1, s);
    w' := CanSendNow(w1, p);
    SentOnLast(w, w1, w', s, p);
  }

  lemma SentOnKept(w: World, w': World, s: Uuid)
    requires SentOn(w, w', s)
    ensures Kept(w')
  {}

  lemma CanSendNow(w: World, p: Uuid) returns (w': World)
    requires Kept(w) && InTurn(w.t, p) && w.t.queue[p].stream !in w.sealing
    ensures SentLast(w, w', w.t.queue[p].stream, p)
  {
    var s := w.t.queue[p].stream;
    assert Writable(w.t, s);
    hide Kept, CanReach, SentOn, InTurn, Writable;
    if s in w.t.inFlight {
      var w1 := LandsLast(w, s);
      if w.t.inFlight[s].plaintext == p {
        w' := w1;
      } else {
        SentOnKept(w, w1, s);
        InTurnEligible(w1.t, w1.sealing.Keys, p);
        w' := EligibleCanBeSent(w1, p);
        SentOnLast(w, w1, w', s, p);
      }
    } else {
      InTurnEligible(w.t, w.sealing.Keys, p);
      w' := EligibleCanBeSent(w, p);
    }
  }

  // Whole messages.

  lemma ChunkInTurn(w: World, agg: Uuid)
    requires Kept(w) && agg in w.uploads && !w.uploads[agg].cancelled && Writable(w.t, agg)
    ensures
      var u := w.uploads[agg];
      && |Log(w, agg)| <= |u.chunks|
      && (|Log(w, agg)| < |u.chunks| ==>
            InTurn(w.t, u.chunks[|Log(w, agg)|]) && w.t.queue[u.chunks[|Log(w, agg)|]].stream == agg)
  {
    var u, done := w.uploads[agg], |Log(w, agg)|;
    assert UploadKept(agg, u, w.t, w.sealing, w.claims, LogOf(w.log, agg));
    if 0 < done < |u.chunks| {
      assert EntriesKept(agg, w.log[agg], w.first[agg], w.landed, w.delivered);
      assert w.log[agg][done - 1].id == u.chunks[done - 1];
    }
    if done < |u.chunks| {
      assert w.t.queue[u.chunks[done]] == ChunkRow(agg, u.chunks, u.payloads, done);
    }
  }

  /** What is left of an upload's chunks can be sent. */
  lemma {:induction false} ChunksCanBeSent(w: World, agg: Uuid) returns (w': World)
    requires Kept(w) && agg in w.uploads && !w.uploads[agg].cancelled && Writable(w.t, agg)
    requires |Log(w, agg)| <= |w.uploads[agg].chunks|
    ensures SentOn(w, w', agg) && |Log(w', agg)| == |w.uploads[agg].chunks|
    decreases |w.uploads[agg].chunks| - |Log(w, agg)|
  {
    var u := w.uploads[agg];
    ChunkInTurn(w, agg);
    hide Kept, CanReach, Writable, InTurn;
    if |Log(w, agg)| < |u.chunks| {
      var w1 := RowCanBeSent(w, u.chunks[|Log(w, agg)|]);
      ChunkInTurn(w1, agg);
      w' := ChunksCanBeSent(w1, agg);
      SentOnOn(w, w1, w', agg);
    } else {
      w' := w;
      Stay(w);
    }
  }

  /** What announces an upload can be sealed and sent: the stream that carries
      it is writable, and the substream's read cap and chunk count can go in. */
  ghost predicate Announceable(w: World, agg: Uuid)
    requires agg in w.uploads
  {
    var u := w.uploads[agg];
    && Writable(w.t, u.main) && |u.chunks| < TWO_32
    && u.rcw in w.t.readCaps && w.t.readCaps[u.rcw].cap.Some?
  }

  lemma ReleaseInTurn(w: World, agg: Uuid)
    requires Kept(w) && agg in w.uploads && !w.uploads[agg].cancelled && Announceable(w, agg)
    requires |Log(w, agg)| == |w.uploads[agg].chunks|
    ensures
      var u := w.uploads[agg];
      && (u.release in w.t.queue ==> InTurn(w.t, u.release) && w.t.queue[u.release].stream == u.main)
      && (u.release in w.t.queue || u.release in w.t.sent)
  {
    var u := w.uploads[agg];
    assert UploadKept(agg, u, w.t, w.sealing, w.claims, LogOf(w.log, agg));
  }

  lemma LastIsSent(w: World, s: Uuid)
    requires Kept(w) && |Log(w, s)| > 0
    ensures Log(w, s)[|Log(w, s)| - 1].id in w.t.sent
  {
    assert EntriesKept(s, w.log[s], w.first[s], w.landed, w.delivered);
  }

  ghost predicate UploadSent(w: World, w': World, agg: Uuid)
    requires agg in w.uploads
  {
    var u := w.uploads[agg];
    && CanReach(w, w') && w'.uploads == w.uploads
    && |Log(w', agg)| == |u.chunks| && u.release in w'.t.sent
  }

  /** Once its chunks were sent, so can be what announces it. */
  lemma ReleaseCanBeSent(w: World, agg: Uuid) returns (w': World)
    requires Kept(w) && agg in w.uploads && !w.uploads[agg].cancelled && Announceable(w, agg)
    requires |Log(w, agg)| == |w.uploads[agg].chunks|
    ensures UploadSent(w, w', agg)
  {
    var u := w.uploads[agg];
    ReleaseInTurn(w, agg);
    MainApart(w, agg);
    hide Kept, CanReach, Writable, InTurn, Announceable;
    if u.release in w.t.queue {
      w' := RowCanBeSent(w, u.release);
      LastIsSent(w', u.main);
    } else {
      w' := w;
      Stay(w);
    }
  }

  lemma AnnounceableCanFinish(w: World, agg: Uuid) returns (w': World)
    requires Kept(w) && agg in w.uploads && !w.uploads[agg].cancelled
    requires Writable(w.t, agg) && Announceable(w, agg)
    ensures UploadSent(w, w', agg)
  {
    ChunkInTurn(w, agg);
    hide Kept, CanReach, Writable, InTurn;
    var w1 := ChunksCanBeSent(w, agg);
    w' := ReleaseCanBeSent(w1, agg);
    ReachOn(w, w1, w');
  }

  // Making a stream writable.

  /** `w'` is reached from `w` by steps that only touch caps, and take none away. */
  ghost predicate CapsOnly(w: World, w': World) {
    CanReach(w, w') && Kept(w') && CapsPaired(w'.t.writeCaps, w'.t.readCaps) && CapsAside(w, w')
  }

  ghost predicate CapsAside(w: World, w': World) {
    && w'.t.queue == w.t.queue && w'.t.sent == w.t.sent && w'.log == w.log
    && w'.uploads == w.uploads && w'.used == w.used
    && w'.t.readCaps.Keys == w.t.readCaps.Keys && w'.t.writeCaps.Keys == w.t.writeCaps.Keys
    && (forall s | s in w.t.writeCaps && w'.t.writeCaps[s].paused :: w.t.writeCaps[s].paused)
    && (forall s | Writable(w.t, s) :: Writable(w'.t, s))
  }

  lemma CapsOnlyOn(w: World, w': World, w'': World)
    requires CapsOnly(w, w') && CapsOnly(w', w'')
    ensures CapsOnly(w, w'')
  {
    hide CanReach, Kept, CapsPaired, Writable;
    ReachOn(w, w', w'');
  }

  lemma CanResume(w: World, s: Uuid) returns (w': World)
    requires Kept(w) && CapsPaired(w.t.writeCaps, w.t.readCaps) && s in w.t.writeCaps
    requires w.t.writeCaps[s].paused ==> s in w.uploads
    ensures CapsOnly(w, w') && !w'.t.writeCaps[s].paused
  {
    hide Kept, CapsPaired;
    if w.t.writeCaps[s].paused {
      var step := Controlled(SetPaused(s, false));
      w' := w.(t := w.t.(writeCaps := w.t.writeCaps[s := w.t.writeCaps[s].(paused := false)]));
      assert w' == Apply(w, step);
      Step1(w, step);
      StepPaired(w, step);
    } else {
      w' := w;
      Stay(w);
    }
  }

  lemma ProvisionedIs(w: World, rcw: Uuid)
    requires CanQueue(w, ProvisionCaps(rcw, 0, []))
    ensures
      var w', s := Apply(w, Queueing(ProvisionCaps(rcw, 0, []))), w.t.readCaps[rcw].writeCap.value;
      CapsAside(w, w') && (!w.t.writeCaps[s].paused ==> Writable(w'.t, s))
  {}

  lemma Provisioned(w: World, rcw: Uuid, s: Uuid) returns (w': World)
    requires Kept(w) && CapsPaired(w.t.writeCaps, w.t.readCaps) && CanQueue(w, ProvisionCaps(rcw, 0, []))
    requires w.t.readCaps[rcw].writeCap == Some(s) && !w.t.writeCaps[s].paused
    ensures CapsOnly(w, w') && Writable(w'.t, s)
  {
    var step := Queueing(ProvisionCaps(rcw, 0, []));
    ProvisionedIs(w, rcw);
    hide Kept, CapsPaired, CapsAside, Apply, Writable, CanReach;
    w' := Apply(w, step);
    Step1(w, step);
    StepPaired(w, step);
  }

  lemma CanProvision(w: World, s: Uuid) returns (w': World)
    requires Kept(w) && CapsPaired(w.t.writeCaps, w.t.readCaps) && s in w.t.writeCaps && !w.t.writeCaps[s].paused
    ensures CapsOnly(w, w') && Writable(w'.t, s)
  {
    assert IsRead(w.t.readCaps, s);
    var rcw :| rcw in w.t.readCaps && w.t.readCaps[rcw].writeCap == Some(s);
    assert ReadsStream(w.t.readCaps[rcw], w.t.writeCaps);
    hide Kept, CapsPaired;
    if w.t.writeCaps[s].next.None? {
      hide CapsOnly;
      w' := Provisioned(w, rcw, s);
    } else {
      w' := w;
      Stay(w);
    }
  }

  /** Any stream there is can be made writable. */
  lemma CanBeWritable(w: World, s: Uuid) returns (w': World)
    requires Kept(w) && CapsPaired(w.t.writeCaps, w.t.readCaps) && s in w.t.writeCaps
    requires w.t.writeCaps[s].paused ==> s in w.uploads
    ensures CapsOnly(w, w') && Writable(w'.t, s)
  {
    hide Kept, CapsPaired, CanReach, Writable;
    var w1 := CanResume(w, s);
    w' := CanProvision(w1, s);
    CapsOnlyOn(w, w1, w');
  }

  // From any moment of any run.

  lemma MomentReady(ws: seq<World>, steps: seq<Step>, i: nat)
    requires Run(ws, steps) && i < |ws|
    ensures Kept(ws[i]) && CapsPaired(ws[i].t.writeCaps, ws[i].t.readCaps)
    ensures forall s | s in ws[i].t.writeCaps && ws[i].t.writeCaps[s].paused :: s in ws[i].uploads
  {
    RunKept(ws, steps, i);
    CapsStayPaired(ws, steps, i);
    hide Kept, CapsPaired;
    forall s | s in ws[i].t.writeCaps && ws[i].t.writeCaps[s].paused
      ensures s in ws[i].uploads
    {
      PausedExactly(ws, steps, i, s);
      if s !in ws[i].uploads {
        OnlyUploadsPause(ws, steps, i, s);
      }
    }
  }

  /** Where an upload stands: announced, with all chunks sent; or still to be
      announced, on a stream of its own that is not paused. */
  lemma UploadStands(w: World, agg: Uuid)
    requires Kept(w) && agg in w.uploads && !w.uploads[agg].cancelled
    ensures
      var u := w.uploads[agg];
      && agg in w.t.writeCaps && u.main !in w.uploads && u.rcw in w.t.readCaps
      && w.t.readCaps[u.rcw].writeCap == Some(agg)
      && (u.release in w.t.queue ==> u.main in w.t.writeCaps)
      && (u.release !in w.t.queue ==> u.release in w.t.sent && |Log(w, agg)| == |u.chunks|)
  {
    var u := w.uploads[agg];
    assert ShapeKept(agg, u, w.uploads, w.used);
    assert UploadKept(agg, u, w.t, w.sealing, w.claims, LogOf(w.log, agg));
  }

  /** Whatever crashed, failed, was paused or is under way: an upload that was
      not cancelled can still be sent to its end, and announced. */
  lemma UploadCanFinish(ws: seq<World>, steps: seq<Step>, i: nat, agg: Uuid)
    requires Run(ws, steps) && i < |ws| && agg in ws[i].uploads && !ws[i].uploads[agg].cancelled
    requires |ws[i].uploads[agg].chunks| < TWO_32
    ensures exists w' :: UploadSent(ws[i], w', agg)
  {
    MomentReady(ws, steps, i);
    var w, u := ws[i], ws[i].uploads[agg];
    UploadStands(w, agg);
    hide Run, Kept, CanReach, CapsPaired, Writable;
    if u.release in w.t.queue {
      var w1 := CanBeWritable(w, agg);
      var w2 := CanBeWritable(w1, u.main);
      CapsOnlyOn(w, w1, w2);
      UploadStands(w2, agg);
      WritableIsRead(w2, agg, u.rcw);
      var w' := AnnounceableCanFinish(w2, agg);
      ReachOn(w, w2, w');
      assert UploadSent(w, w', agg);
    } else {
      Stay(w);
      assert UploadSent(w, w, agg);
    }
  }

  lemma WritableIsRead(w: World, agg: Uuid, rcw: Uuid)
    requires CapsPaired(w.t.writeCaps, w.t.readCaps) && Writable(w.t, agg)
    requires rcw in w.t.readCaps && w.t.readCaps[rcw].writeCap == Some(agg)
    ensures w.t.readCaps[rcw].cap.Some?
  {
    assert ReadsStream(w.t.readCaps[rcw], w.t.writeCaps);
  }

  lemma MainApart(w: World, agg: Uuid)
    requires Kept(w) && agg in w.uploads
    ensures w.uploads[agg].main != agg
  {
    assert ShapeKept(agg, w.uploads[agg], w.uploads, w.used);
  }

  lemma {:induction false} BoxFollows(w: World, steps: seq<Step>, w': World, id: Uuid, s: Uuid, payload: Bytes)
    requires Kept(w) && BoxKept(w, id, s, payload) && Leads(w, steps, w')
    ensures BoxKept(w', id, s, payload)
    decreases |steps|
  {
    hide Kept, BoxKept, Apply, Enabled;
    if steps != [] {
      StepKept(w, steps[0]);
      BoxStays(w, steps[0], id, s, payload);
      BoxFollows(Apply(w, steps[0]), steps[1..], w', id, s, payload);
    }
  }

  lemma BoxSendable(w: World, id: Uuid, s: Uuid, payload: Bytes) returns (w': World)
    requires Kept(w) && BoxKept(w, id, s, payload) && Writable(w.t, s)
    ensures CanReach(w, w') && BoxKept(w', id, s, payload) && id !in w'.t.queue
  {
    if id in w.t.queue {
      hide Kept, Leads;
      w' := RowCanBeSent(w, id);
      hide BoxKept;
      var taken :| Leads(w, taken, w');
      BoxFollows(w, taken, w', id, s, payload);
    } else {
      w' := w;
      Stay(w);
    }
  }

  lemma BoxStands(w: World, id: Uuid, s: Uuid, payload: Bytes)
    requires Kept(w) && BoxKept(w, id, s, payload)
    ensures id in w.t.queue ==> s in w.t.writeCaps && s !in w.uploads
  {}

  /** And so can a message of one box, just as it was queued. */
  lemma BoxCanBeSent(ws: seq<World>, steps: seq<Step>, k: nat, i: nat, id: Uuid, s: Uuid, payload: Bytes)
    requires Run(ws, steps) && k < i < |ws| && steps[k] == Queueing(EnqueueBox(id, s, payload))
    ensures exists w' :: CanReach(ws[i], w') && Item(id, payload) in Log(w', s)
  {
    BoxFollowed(ws, steps, k, i, id, s, payload);
    MomentReady(ws, steps, i);
    var w := ws[i];
    BoxStands(w, id, s, payload);
    hide Run, Kept, CanReach, CapsPaired, Writable, BoxKept;
    var w' := w;
    Stay(w);
    if id in w.t.queue {
      var w1 := CanBeWritable(w, s);
      BoxAside(w, w1, id, s, payload);
      w' := BoxSendable(w1, id, s, payload);
      ReachOn(w, w1, w');
    }
    BoxIsLogged(w', id, s, payload);
  }

  lemma BoxAside(w: World, w': World, id: Uuid, s: Uuid, payload: Bytes)
    requires BoxKept(w, id, s, payload) && CapsAside(w, w')
    ensures BoxKept(w', id, s, payload)
  {
    assert Log(w', s) == Log(w, s) && Releases(w') == Releases(w);
    if id !in w.t.queue {
      var n :| 0 <= n < |Log(w, s)| && Log(w, s)[n] == Item(id, payload);
      assert Log(w', s)[n] == Item(id, payload);
    }
  }

  lemma BoxIsLogged(w: World, id: Uuid, s: Uuid, payload: Bytes)
    requires BoxKept(w, id, s, payload) && id !in w.t.queue
    ensures Item(id, payload) in Log(w, s)
  {
    var n :| 0 <= n < |Log(w, s)| && Log(w, s)[n] == Item(id, payload);
    assert Log(w, s)[n] in Log(w, s);
  }
}
