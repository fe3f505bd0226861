/**
  A message as box payloads: `SendOperation.serialize` cuts a blob into
  continued boxes and a final one, `unserialize_opaque` joins them again.
 */
module Framing {
  import opened Basics

  /** What `serialize` queues. `total` is the count an indirection announces. */
  datatype Serialized =
    | Refused
    | Nothing
    | Single(payload: Bytes)
    | Chunked(payloads: seq<Bytes>, total: nat)

  function Concat(parts: seq<Bytes>): Bytes {
    if parts == [] then [] else parts[0] + Concat(parts[1..])
  }

  function Body(box: Bytes): Bytes
    requires box != []
  {
    box[1..]
  }

  /** The blob a run of boxes carries: all continued but the last, which is
      final, and their bodies joined are `blob`. */
  ghost predicate Carries(boxes: seq<Bytes>, blob: Bytes)
    decreases |boxes|
  {
    && boxes != [] && boxes[0] != []
    && if |boxes| == 1 then boxes[0] == [MARK_F] + blob
       else
         && boxes[0][0] == MARK_C
         && |Body(boxes[0])| <= |blob|
         && Body(boxes[0]) == blob[..|Body(boxes[0])|]
         && Carries(boxes[1..], blob[|Body(boxes[0])|..])
  }

  /** A blob starting at `from`, cut as `serialize` cuts it. */
  function Cut(blob: Bytes, from: nat, step: nat): (boxes: seq<Bytes>)
    requires step > 0 && from <= |blob|
    decreases |blob| - from
  {
    if |blob| - from <= step then [[MARK_F] + blob[from..]]
    else [[MARK_C] + blob[from..from + step]] + Cut(blob, from + step, step)
  }

  lemma {:induction false} CutCarries(blob: Bytes, from: nat, step: nat)
    requires step > 0 && from <= |blob|
    ensures Carries(Cut(blob, from, step), blob[from..])
    decreases |blob| - from
  {
    if |blob| - from > step {
      CutCarries(blob, from + step, step);
      var boxes := Cut(blob, from, step);
      assert boxes[1..] == Cut(blob, from + step, step);
      assert Body(boxes[0]) == blob[from..][..step];
      assert blob[from..][step..] == blob[from + step..];
    }
  }

  lemma {:induction false} CutFits(blob: Bytes, from: nat, step: nat)
    requires step > 0 && from <= |blob|
    ensures forall k | 0 <= k < |Cut(blob, from, step)| :: 0 < |Cut(blob, from, step)[k]| <= step + 1
    decreases |blob| - from
  {
    if |blob| - from > step {
      CutFits(blob, from + step, step);
    }
  }

  /** Every box of a cut but the last is full, so there are as few as can be. */
  lemma {:induction false} CutFull(blob: Bytes, from: nat, step: nat)
    requires step > 0 && from < |blob|
    ensures
      var n := |Cut(blob, from, step)|;
      && (forall k | 0 <= k < n - 1 :: |Cut(blob, from, step)[k]| == step + 1)
      && (n - 1) * step < |blob| - from <= n * step
    decreases |blob| - from
  {
    if |blob| - from > step {
      var m := |Cut(blob, from + step, step)|;
      CutFull(blob, from + step, step);
      assert |Cut(blob, from, step)| == m + 1;
      OneMore(m, step);
    }
  }

  lemma OneMore(m: nat, step: nat)
    ensures (m + 1) * step == m * step + step && m * step == (m - 1) * step + step
  {}

  /** The loop of `serialize` over a message too long for one box, with the
      assertion it ends on. */
  method CutUp(buf: Bytes, step: nat) returns (agg: seq<Bytes>)
    requires 0 < step < |buf|
    ensures agg == Cut(buf, 0, step) && |agg| >= 2
  {
    agg := [];
    var tell := 0;
    var off := 0;
    while off < |buf| - step
      invariant off == tell <= |buf|
      invariant agg + Cut(buf, tell, step) == Cut(buf, 0, step)
      invariant tell > 0 ==> |agg| > 0
      decreases |buf| - off
    {
      ghost var cut := agg + Cut(buf, tell, step);
      agg := agg + [[MARK_C] + buf[tell..tell + step]];
      assert agg + Cut(buf, tell + step, step) == cut;
      tell := tell + step;
      off := off + step;
    }
    var last := if tell + step <= |buf| then tell + step else |buf|;
    assert buf[tell..last] == buf[tell..];
    agg := agg + [[MARK_F] + buf[tell..last]];
    tell := last;
    assert tell == |buf|;  // the end-of-buffer assertion
  }

  /** `SendOperation.serialize`, over the encoded messages. */
  method Serialize(messages: seq<Bytes>, chunkSize: int) returns (out: Serialized)
    ensures out.Refused? <==> chunkSize <= 1
    ensures out.Nothing? <==> chunkSize > 1 && messages == []
    ensures out.Single? ==> Carries([out.payload], Concat(messages)) && |out.payload| <= chunkSize
    ensures out.Chunked? ==>
              && |out.payloads| == out.total >= 2
              && out.payloads == Cut(Concat(messages), 0, chunkSize - 1)
              && Carries(out.payloads, Concat(messages))
              && (forall k | 0 <= k < out.total :: 0 < |out.payloads[k]| <= chunkSize)
              && (forall k | 0 <= k < out.total - 1 :: |out.payloads[k]| == chunkSize)
              && (out.total - 1) * (chunkSize - 1) < |Concat(messages)| <= out.total * (chunkSize - 1)
    ensures chunkSize > 1 && messages != [] ==> (out.Single? <==> |Concat(messages)| + 1 <= chunkSize)
  {
    if chunkSize <= 1 {
      return Refused;
    }
    if messages == [] {
      return Nothing;
    }
    var buf: Bytes := [];
    for i := 0 to |messages|
      invariant buf == Concat(messages[..i])
    {
      ConcatSnoc(messages[..i], messages[i]);
      assert messages[..i + 1] == messages[..i] + [messages[i]];
      buf := buf + messages[i];
    }
    assert messages[..|messages|] == messages;
    var totalSize := |buf|;
    if totalSize + 1 <= chunkSize {
      return Single([MARK_F] + buf);
    }
    var step: nat := chunkSize - 1;
    var agg := CutUp(buf, step);
    CutCarries(buf, 0, step);
    CutFits(buf, 0, step);
    CutFull(buf, 0, step);
    assert buf[0..] == buf;
    out := Chunked(agg, |agg|);
  }

  lemma {:induction false} ConcatSnoc(parts: seq<Bytes>, last: Bytes)
    ensures Concat(parts + [last]) == Concat(parts) + last
  {
    if parts == [] {
      assert parts + [last] == [last];
      assert Concat([last]) == last + Concat([]);
    } else {
      ConcatSnoc(parts[1..], last);
      assert (parts + [last])[1..] == parts[1..] + [last];
    }
  }

  /** What `unserialize_opaque` returns or raises. */
  datatype Parsed = Incomplete | Blob(blob: Bytes) | Malformed

  /** `unserialize_opaque`. */
  method Unserialize(boxes: seq<Bytes>) returns (r: Parsed)
    ensures forall blob :: r == Blob(blob) <==> Carries(boxes, blob)
    ensures r.Incomplete? <==> forall k | 0 <= k < |boxes| :: boxes[k] != [] && boxes[k][0] == MARK_C
  {
    var parts: Bytes := [];
    for i := 0 to |boxes|
      invariant forall k | 0 <= k < i :: boxes[k] != [] && boxes[k][0] == MARK_C
      invariant i == |boxes| ==> boxes == []
      invariant forall blob :: Carries(boxes, blob) <==>
                               parts <= blob && Carries(boxes[i..], blob[|parts|..])
    {
      var box := boxes[i];
      if box == [] {
        return Malformed;
      }
      var kind, data := box[0], box[1..];
      if kind == MARK_C {
        if i == |boxes| - 1 {
          return Incomplete;
        }
        CarriesFirst(boxes, parts, i);
        parts := parts + data;
      } else if kind == MARK_F {
        if i != |boxes| - 1 {
          return Malformed;
        }
        assert boxes[i..] == [box];
        forall blob
          ensures Carries(boxes, blob) <==> blob == parts + data
        {
          if parts <= blob && Carries(boxes[i..], blob[|parts|..]) {
            assert box == [MARK_F] + blob[|parts|..];
            assert blob == parts + blob[|parts|..];
          }
          if blob == parts + data {
            assert blob[|parts|..] == data;
          }
        }
        return Blob(parts + data);
      } else {
        return Malformed;
      }
    }
    return Incomplete;
  }

  /** A continued box that is not the last: what it and the rest carry. */
  lemma CarriesFirst(boxes: seq<Bytes>, parts: Bytes, i: nat)
    requires i < |boxes| - 1 && boxes[i] != [] && boxes[i][0] == MARK_C
    ensures forall blob ::
      (parts <= blob && Carries(boxes[i..], blob[|parts|..])) <==>
      (parts + boxes[i][1..] <= blob && Carries(boxes[i + 1..], blob[|parts + boxes[i][1..]|..]))
  {}

  /** A run of boxes carries at most one blob, and no proper prefix of a run
      that carries one carries any. */
  lemma {:induction false} CarriesOnce(boxes: seq<Bytes>, blob: Bytes, blob': Bytes, n: nat)
    requires Carries(boxes, blob) && n <= |boxes| && Carries(boxes[..n], blob')
    ensures n == |boxes| && blob' == blob
    decreases |boxes|
  {
    if |boxes| == 1 {
      assert boxes[..n] == boxes;
      assert ([MARK_F] + blob)[1..] == blob && ([MARK_F] + blob')[1..] == blob';
    } else {
      assert n > 0 && boxes[..n][0] == boxes[0];
      if n == 1 {
        assert false;
      } else {
        var head := Body(boxes[0]);
        assert boxes[..n][1..] == boxes[1..][..n - 1];
        CarriesOnce(boxes[1..], blob[|head|..], blob'[|head|..], n - 1);
        assert blob == head + blob[|head|..] && blob' == head + blob'[|head|..];
      }
    }
  }

  /** Every box of a run that carries a blob is continued, except the last. */
  lemma {:induction false} CarriesMarks(boxes: seq<Bytes>, blob: Bytes)
    requires Carries(boxes, blob)
    ensures forall k | 0 <= k < |boxes| ::
              boxes[k] != [] && boxes[k][0] == if k == |boxes| - 1 then MARK_F else MARK_C
    decreases |boxes|
  {
    if |boxes| > 1 {
      CarriesMarks(boxes[1..], blob[|Body(boxes[0])|..]);
      assert forall k | 1 <= k < |boxes| :: boxes[k] == boxes[1..][k - 1];
    }
  }
}
