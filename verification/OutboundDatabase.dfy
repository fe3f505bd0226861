/**
  The send path's transactions over a database that they update in place. Each
  leaves the tables as the function of the same name in `OutboundTables` says,
  which is what the state machine in `OutboundRun` steps by.
 */
module OutboundDatabase {
  import opened Basics
  import opened OutboundTables

  /** `i` is an indirection row that announces what `rcw` reads. */
  predicate Indirects(queue: map<Uuid, Plaintext>, i: Uuid, rcw: Uuid) {
    i in queue && queue[i].indirection == Some(rcw)
  }

  /** The rows that are neither on stream `agg` nor `i`. */
  function Without(queue: map<Uuid, Plaintext>, agg: Uuid, i: Uuid): map<Uuid, Plaintext> {
    map p | p in queue && queue[p].stream != agg && p != i :: queue[p]
  }

  /** The envelopes that are neither of stream `agg` nor of the plaintext `i`. */
  function NotFor(inFlight: map<Uuid, Envelope>, agg: Uuid, i: Uuid): map<Uuid, Envelope> {
    map s | s in inFlight && s != agg && inFlight[s].plaintext != i :: inFlight[s]
  }

  class Database {
    var queue: map<Uuid, Plaintext>
    var inFlight: map<Uuid, Envelope>
    var sent: set<Uuid>
    var writeCaps: map<Uuid, WriteCap>
    var readCaps: map<Uuid, ReadCap>

    ghost function View(): Tables
      reads this
    {
      Tables(queue, inFlight, sent, writeCaps, readCaps)
    }

    constructor ()
      ensures View() == Tables(map[], map[], {}, map[], map[])
    {
      queue, inFlight, sent, writeCaps, readCaps := map[], map[], {}, map[], map[];
    }

    /** `PlaintextWAL.find_resendable`: of every stream with an eligible row,
        one such row, whichever. */
    method FindResendable(encrypting: set<Uuid>) returns (rows: set<Uuid>)
      ensures rows <= queue.Keys && forall id | id in rows :: Eligible(View(), encrypting, id)
      ensures forall p, q | p in rows && q in rows && queue[p].stream == queue[q].stream :: p == q
      ensures forall id | Eligible(View(), encrypting, id) ::
          exists q :: q in rows && queue[q].stream == queue[id].stream
    {
      rows := {};
      var left := queue.Keys;
      while left != {}
        invariant left <= queue.Keys && rows !! left
        invariant forall id | id in rows :: Eligible(View(), encrypting, id)
        invariant forall p, q | p in rows && q in rows && queue[p].stream == queue[q].stream :: p == q
        invariant forall id | Eligible(View(), encrypting, id) && id !in left ::
            exists q :: q in rows && queue[q].stream == queue[id].stream
      {
        var id :| id in left;
        left := left - {id};
        var row := queue[id];
        var chained := row.afterId.None? || row.afterId.value in sent;
        var open := row.afterStream.None? || forall p | p in queue :: queue[p].stream != row.afterStream.value;
        assert row.afterStream.Some? ==> (open <==> Remaining(View(), row.afterStream.value) == {}) by {
          if row.afterStream.Some? && !open {
            var p :| p in queue && queue[p].stream == row.afterStream.value;
            assert p in Remaining(View(), row.afterStream.value);
          }
        }
        var announced := row.indirection.None?
                         || (row.indirection.value in readCaps && readCaps[row.indirection.value].cap.Some?);
        var writable := row.stream in writeCaps && writeCaps[row.stream].next.Some? && !writeCaps[row.stream].paused;
        var taken := exists q | q in rows :: queue[q].stream == row.stream;
        if row.stream !in inFlight && row.stream !in encrypting && chained && open && announced && writable && !taken {
          rows := rows + {id};
        }
      }
    }

    /** The payload a dispatched row is sealed with, filled in first for an
        indirection. None, and nothing changed, when its chunk count does not
        fit four bytes. */
    method FillIn(id: Uuid) returns (payload: Option<Bytes>)
      requires Eligible(View(), {}, id)
      modifies this`queue
      ensures payload == old(ToSeal(View(), id))
      ensures View() == if payload.Some? then old(OutboundTables.FillIn(View(), id, ToSeal(View(), id).value))
                        else old(View())
      ensures queue.Keys == old(queue.Keys) && forall p | p in queue && p != id :: queue[p] == old(queue[p])
      ensures payload.Some? ==> queue[id] == old(queue[id]).(payload := payload.value)
      ensures payload.None? ==> queue[id] == old(queue[id])
      ensures queue[id].indirection.None? ==> payload == Some(old(queue[id].payload))
    {
      var row := queue[id];
      if row.indirection.Some? && row.payload == [] {
        var cap := readCaps[row.indirection.value];
        if cap.total.None? {
          payload := Some([MARK_I] + cap.cap.value);
        } else if cap.total.value < TWO_32 {
          payload := Some([MARK_I] + BigEndian32(cap.total.value) + cap.cap.value);
        } else {
          return None;
        }
        queue := queue[id := row.(payload := payload.value)];
      } else {
        payload := Some(row.payload);
        assert queue == queue[id := row.(payload := row.payload)];
      }
    }

    /** The end of `start_resending`. */
    method InsertEnvelope(stream: Uuid, e: Envelope) returns (ok: bool)
      modifies this`inFlight
      ensures ok <==> stream !in old(inFlight)
      ensures View() == old(OutboundTables.InsertEnvelope(View(), stream, e))
      ensures inFlight == if ok then old(inFlight)[stream := e] else old(inFlight)
    {
      ok := stream !in inFlight;
      if ok {
        inFlight := inFlight[stream := e];
      }
    }

    method DropRow(stream: Uuid, id: Uuid)
      modifies this`inFlight
      ensures View() == old(OutboundTables.DropRow(View(), stream, id))
      ensures inFlight.Keys == old(set s | s in inFlight && !(s == stream && inFlight[s].id == id))
      ensures forall s | s in inFlight :: inFlight[s] == old(inFlight[s])
    {
      if stream in inFlight && inFlight[stream].id == id {
        inFlight := inFlight - {stream};
      }
    }

    /** `_remint_mixwal`; false if the row is gone. */
    method Remint(stream: Uuid, id: Uuid, hash: nat, payload: Bytes) returns (ok: bool)
      modifies this`inFlight
      ensures ok <==> old(HasRow(View(), stream, id))
      ensures View() == old(OutboundTables.Remint(View(), stream, id, hash, payload))
      ensures inFlight.Keys == old(inFlight.Keys)
      ensures forall s | s in inFlight && !(ok && s == stream) :: inFlight[s] == old(inFlight[s])
      ensures ok ==>
                var row := old(inFlight[stream]);
                inFlight[stream] == Envelope(id, row.plaintext, hash, payload, row.current, row.current + 1)
    {
      ok := stream in inFlight && inFlight[stream].id == id;
      if ok {
        var row := inFlight[stream];
        inFlight := inFlight[stream := row.(hash := hash, sealed := payload, next := row.current + 1)];
      }
    }

    /** What `SentLog.mark_sent` does with the cursor its precheck read. */
    method Finalize(stream: Uuid, e: Envelope, realNext: Option<nat>)
      modifies this
      ensures View() == if Stale(realNext, e) then old(FinalizeStale(View(), stream, e))
                        else old(MarkSent(View(), stream, e))
      ensures e.plaintext in old(queue) ==> e.plaintext in sent && e.plaintext !in queue
      ensures stream in writeCaps && e.plaintext in old(queue) ==>
                writeCaps[stream].next == if realNext.Some? && realNext.value >= e.next
                                          then old(writeCaps[stream].next) else Some(e.next)
    {
      if realNext.Some? && realNext.value >= e.next {
        FinalizeStaleAck(stream, e);
      } else {
        MarkSentTxn(stream, e);
      }
    }

    method FinalizeStaleAck(stream: Uuid, e: Envelope)
      modifies this
      ensures View() == old(FinalizeStale(View(), stream, e))
      ensures writeCaps == old(writeCaps) && readCaps == old(readCaps) && queue == old(queue) - {e.plaintext}
      ensures sent == old(sent) + (if e.plaintext in old(queue) then {e.plaintext} else {})
      ensures stream in inFlight ==> inFlight[stream].id != e.id
    {
      if e.plaintext in queue {
        sent := sent + {e.plaintext};
        queue := queue - {e.plaintext};
      }
      DropRow(stream, e.id);
    }

    method MarkSentTxn(stream: Uuid, e: Envelope)
      modifies this
      ensures View() == old(MarkSent(View(), stream, e))
      ensures readCaps == old(readCaps) && queue == old(queue) - {e.plaintext}
      ensures sent == old(sent) + (if e.plaintext in old(queue) then {e.plaintext} else {})
      ensures writeCaps.Keys == old(writeCaps.Keys)
      ensures forall s | s in writeCaps ::
          writeCaps[s] == if s == stream && e.plaintext in old(queue)
                          then old(writeCaps[s]).(next := Some(e.next)) else old(writeCaps[s])
      ensures stream in inFlight ==> inFlight[stream].id != e.id
    {
      if e.plaintext !in queue {
        DropRow(stream, e.id);
        return;
      }
      sent := sent + {e.plaintext};
      if stream in writeCaps {
        writeCaps := writeCaps[stream := writeCaps[stream].(next := Some(e.next))];
      }
      DropRow(stream, e.id);
      queue := queue - {e.plaintext};
    }

    /** `cancel_upload`, which refuses exactly when there is nothing left to
        cancel: no indirection row reads `rcw`, or nothing is queued on the
        stream it announces. */
    method Cancel(rcw: Uuid) returns (ok: bool)
      modifies this
      ensures ok <==> old((exists i :: Indirects(queue, i, rcw)) && rcw in readCaps && readCaps[rcw].writeCap.Some?
                          && exists p :: p in queue && queue[p].stream == readCaps[rcw].writeCap.value)
      ensures !ok ==> View() == old(View())
      ensures sent == old(sent)
      ensures ok ==>
                var agg := old(readCaps[rcw].writeCap.value);
                && writeCaps == old(writeCaps) - {agg} && readCaps == old(readCaps) - {rcw}
                && exists i :: Indirects(old(queue), i, rcw) && View() == old(CancelUpload(View(), rcw, i))
                               && queue == Without(old(queue), agg, i) && inFlight == NotFor(old(inFlight), agg, i)
    {
      if i :| i in queue && queue[i].indirection == Some(rcw) {
        if rcw !in readCaps || readCaps[rcw].writeCap.None? {
          return false;
        }
        var agg := readCaps[rcw].writeCap.value;
        var rest := set p | p in queue && queue[p].stream == agg;
        assert rest == Remaining(View(), agg);
        if rest == {} {
          assert forall p | p in queue && queue[p].stream == agg :: p in rest;
          return false;
        }
        assert Indirects(queue, i, rcw);
        inFlight := map s | s in inFlight && s != agg && inFlight[s].plaintext != i :: inFlight[s];
        queue := queue - rest - {i};
        readCaps := readCaps - {rcw};
        writeCaps := writeCaps - {agg};
        return true;
      } else {
        return false;
      }
    }

    /** `upload_progress_after_ack`; None for a stream that no indirection with
        a chunk count announces. */
    method UploadProgress(agg: Uuid) returns (progress: Option<Progress>)
      ensures progress.None? <==> forall rcw :: !Announcing(View(), rcw, agg)
      ensures progress.Some? ==>
                var p := progress.value;
                && Announcing(View(), p.rcw, agg) && Some(p.total) == readCaps[p.rcw].total
                && p.done == ChunksSent(View(), agg, p.total)
                && p.bytesLeft == BytesOf(queue, Remaining(View(), agg))
    {
      if rcw :| rcw in readCaps && readCaps[rcw].writeCap == Some(agg) && readCaps[rcw].total.Some? {
        assert Announcing(View(), rcw, agg);
        var remaining, bytes := CountRemaining(agg);
        var total: int := readCaps[rcw].total.value;
        return Some(Progress(rcw, total - remaining, total, bytes));
      }
      return None;
    }

    method CountRemaining(stream: Uuid) returns (remaining: nat, bytes: int)
      ensures remaining == |Remaining(View(), stream)|
      ensures bytes == BytesOf(queue, Remaining(View(), stream))
    {
      var left := queue.Keys;
      ghost var counted: set<Uuid> := {};
      remaining, bytes := 0, 0;
      while left != {}
        invariant left <= queue.Keys
        invariant counted == set p | p in queue && p !in left && queue[p].stream == stream
        invariant remaining == |counted| && bytes == BytesOf(queue, counted)
      {
        var p :| p in left;
        left := left - {p};
        if queue[p].stream == stream {
          BytesOfMore(queue, counted, p);
          counted := counted + {p};
          remaining := remaining + 1;
          bytes := bytes + |queue[p].payload| - 1;
        }
      }
      assert counted == Remaining(View(), stream);
    }
  }
}
