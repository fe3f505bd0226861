/**
  Putting one stream's messages together again. Each box read becomes a
  `ReceivedPiece`; `_try_assemble` walks back from a final piece to where its
  message began. Pieces of refused messages stay in the table, and so may lie
  before those of a later one.
 */
module Reassembly {
  import opened Basics
  import opened Framing

  datatype Kind = C | F | I

  datatype Piece = Piece(kind: Kind, body: Bytes)

  /** One stream's `ReceivedPiece` rows, by the counter of their box. */
  type Store = map<nat, Piece>

  datatype Assembled = Unfinished | Release(body: Bytes) | Message(blob: Bytes, start: nat)

  const ASSEMBLY_HARD_CAP: nat := 201 * 1024 * 1024

  /** Where the continued pieces right before `at` begin. */
  function TailStart(store: Store, at: nat): (start: nat)
    ensures start <= at
    ensures forall k | start <= k < at :: k in store && store[k].kind.C?
    ensures start > 0 ==> start - 1 !in store || !store[start - 1].kind.C?
  {
    if at > 0 && at - 1 in store && store[at - 1].kind.C? then TailStart(store, at - 1) else at
  }

  predicate Present(store: Store, from: nat, upto: nat) {
    from <= upto && forall k | from <= k <= upto :: k in store
  }

  function Joined(store: Store, from: nat, upto: nat): Bytes
    requires Present(store, from, upto)
    decreases upto - from
  {
    if from == upto then store[upto].body else store[from].body + Joined(store, from + 1, upto)
  }

  /** What becomes of the blob of the boxes from `start` through `at`. */
  function Verdict(blob: Bytes, start: nat, at: nat, decodes: Bytes -> bool): Assembled {
    if start < at && |blob| > ASSEMBLY_HARD_CAP then Unfinished
    else if decodes(blob) then Message(blob, start)
    else Unfinished
  }

  /** What `_try_assemble` finds at `at`; `decodes` says which blobs are
      messages this client can read. */
  function Assemble(store: Store, at: nat, decodes: Bytes -> bool): Assembled
    requires at in store
  {
    match store[at].kind
    case C => Unfinished
    case I => Release(store[at].body)
    case F =>
      var start := TailStart(store, at);
      Verdict(Joined(store, start, at), start, at, decodes)
  }

  function Mark(kind: Kind): Byte {
    match kind
    case C => MARK_C
    case F => MARK_F
    case I => MARK_I
  }

  function AsBox(piece: Piece): Bytes {
    [Mark(piece.kind)] + piece.body
  }

  function Chain(store: Store, from: nat, upto: nat): (boxes: seq<Bytes>)
    requires Present(store, from, upto)
    ensures |boxes| == upto - from + 1
    decreases upto - from
  {
    [AsBox(store[from])] + if from == upto then [] else Chain(store, from + 1, upto)
  }

  lemma {:induction false} ChainCarries(store: Store, from: nat, upto: nat)
    requires Present(store, from, upto)
    requires store[upto].kind.F? && forall k | from <= k < upto :: store[k].kind.C?
    ensures Carries(Chain(store, from, upto), Joined(store, from, upto))
    decreases upto - from
  {
    if from < upto {
      ChainCarries(store, from + 1, upto);
      var boxes, blob := Chain(store, from, upto), Joined(store, from, upto);
      assert boxes[1..] == Chain(store, from + 1, upto);
      assert blob[|store[from].body|..] == Joined(store, from + 1, upto);
    }
  }

  lemma ChainStep(store: Store, counter: nat, at: nat)
    requires 0 < counter && Present(store, counter, at) && counter - 1 in store
    ensures Present(store, counter - 1, at)
    ensures Chain(store, counter - 1, at) == [AsBox(store[counter - 1])] + Chain(store, counter, at)
    ensures |Joined(store, counter - 1, at)| == |store[counter - 1].body| + |Joined(store, counter, at)|
  {}

  /** `_try_assemble`. */
  method TryAssemble(store: Store, at: nat, decodes: Bytes -> bool) returns (r: Assembled)
    ensures r == if at in store then Assemble(store, at, decodes) else Unfinished
  {
    if at !in store {
      return Unfinished;
    }
    var cur := store[at];
    if cur.kind.I? {
      return Release(cur.body);
    }
    if !cur.kind.F? {
      return Unfinished;
    }
    var chain := [AsBox(cur)];
    assert chain == Chain(store, at, at) && Joined(store, at, at) == cur.body;
    var held := |cur.body|;
    var counter: nat := at;
    hide Chain, Joined, Carries;
    while counter > 0
      invariant counter <= at && TailStart(store, counter) == TailStart(store, at)
      invariant Present(store, counter, at)
      invariant forall k | counter <= k < at :: store[k].kind.C?
      invariant chain == Chain(store, counter, at)
      invariant held == |Joined(store, counter, at)|
      invariant counter < at ==> held <= ASSEMBLY_HARD_CAP
    {
      if counter - 1 !in store {
        break;
      }
      var prev := store[counter - 1];
      if prev.kind.F? || prev.kind.I? {
        break;
      }
      held := held + |prev.body|;
      if held > ASSEMBLY_HARD_CAP {
        ChainStep(store, counter, at);
        Refuses(store, counter - 1, at, decodes);
        return Unfinished;
      }
      ChainStep(store, counter, at);
      chain := [AsBox(prev)] + chain;
      counter := counter - 1;
    }
    assert TailStart(store, at) == counter;
    ChainCarries(store, counter, at);
    r := Parse(chain, Joined(store, counter, at), counter, decodes);
  }

  /** The end of `_try_assemble`: the chain is parsed and its blob decoded. */
  method Parse(chain: seq<Bytes>, ghost blob: Bytes, start: nat, decodes: Bytes -> bool) returns (r: Assembled)
    requires Carries(chain, blob)
    ensures r == if decodes(blob) then Message(blob, start) else Unfinished
  {
    CarriesOnly(chain, blob);
    var parsed := Unserialize(chain);
    assert parsed == Blob(blob);
    if parsed.Blob? && decodes(parsed.blob) {
      return Message(parsed.blob, start);
    }
    return Unfinished;
  }

  /** A run of continued pieces past the cap only gets longer. */
  lemma Refuses(store: Store, mid: nat, at: nat, decodes: Bytes -> bool)
    requires Present(store, mid, at) && TailStart(store, at) <= mid < at && store[at].kind.F?
    requires |Joined(store, mid, at)| > ASSEMBLY_HARD_CAP
    ensures Assemble(store, at, decodes) == Unfinished
  {
    JoinedGrows(store, TailStart(store, at), mid, at);
  }

  lemma CarriesOnly(boxes: seq<Bytes>, blob: Bytes)
    requires Carries(boxes, blob)
    ensures forall b | Carries(boxes, b) :: b == blob
  {
    forall b | Carries(boxes, b)
      ensures b == blob
    {
      assert boxes[..|boxes|] == boxes;
      CarriesOnce(boxes, blob, b, |boxes|);
    }
  }

  lemma {:induction false} JoinedGrows(store: Store, from: nat, mid: nat, upto: nat)
    requires from <= mid <= upto && Present(store, from, upto)
    ensures |Joined(store, mid, upto)| <= |Joined(store, from, upto)|
    decreases mid - from
  {
    if from < mid {
      JoinedGrows(store, from + 1, mid, upto);
    }
  }

  // A reader taking a stream's boxes in order.

  /** What became of one box: a piece was kept, or none was (a tombstone, a
      piece dropped, or a handler that failed). */
  datatype Event = Stored(piece: Piece) | Skipped

  /** The table after a box at `at`, and what assembling there gave. A message
      that was taken leaves the table. */
  function Feed(store: Store, at: nat, e: Event, decodes: Bytes -> bool): (r: (Store, Assembled)) {
    match e
    case Skipped => (store, Unfinished)
    case Stored(piece) =>
      var grown := store[at := piece];
      var found := Assemble(grown, at, decodes);
      (if found.Message? then grown - (set k | k in grown && found.start <= k <= at) else grown, found)
  }

  /** Of these boxes, the pieces that announce a substream. */
  function Announcements(store: Store, boxes: set<nat>): set<nat> {
    set k | k in store && k in boxes && store[k].kind.I?
  }

  /** The table after the boxes from `first` on. After each, any pieces that
      announce a substream may go (`_discard_substream_release`). */
  function Fed(first: nat, events: seq<Event>, gone: seq<set<nat>>, decodes: Bytes -> bool): Store
    requires |gone| == |events|
  {
    if events == [] then map[]
    else
      var n := |events| - 1;
      var store := Feed(Fed(first, events[..n], gone[..n], decodes), first + n, events[n], decodes).0;
      store - Announcements(store, gone[n])
  }

  /** Where the continued boxes right before the `n`th begin. */
  function OpenTail(events: seq<Event>, n: nat): (t: nat)
    requires n <= |events|
    ensures t <= n
    ensures forall k | t <= k < n :: events[k].Stored? && events[k].piece.kind.C?
    ensures t > 0 ==> events[t - 1].Skipped? || !events[t - 1].piece.kind.C?
  {
    if n > 0 && events[n - 1].Stored? && events[n - 1].piece.kind.C? then OpenTail(events, n - 1) else n
  }

  /** The bodies of the boxes from `from` through `upto`, joined. */
  function Bodies(events: seq<Event>, from: nat, upto: nat): Bytes
    requires from <= upto < |events|
    requires forall k | from <= k <= upto :: events[k].Stored?
    decreases upto - from
  {
    if from == upto then events[upto].piece.body else events[from].piece.body + Bodies(events, from + 1, upto)
  }

  /** What should be found at the `n`th box, by the boxes alone. */
  function Expected(first: nat, events: seq<Event>, n: nat, decodes: Bytes -> bool): Assembled
    requires n < |events|
  {
    if events[n].Skipped? || events[n].piece.kind.C? then Unfinished
    else if events[n].piece.kind.I? then Release(events[n].piece.body)
    else
      var t := OpenTail(events, n);
      Verdict(Bodies(events, t, n), first + t, first + n, decodes)
  }

  ghost predicate Matches(first: nat, events: seq<Event>, store: Store) {
    forall k | k in store :: first <= k < first + |events| && events[k - first] == Stored(store[k])
  }

  /** The table holds only pieces of boxes read, and every continued piece that
      no later box ended. */
  ghost predicate StoreKept(first: nat, events: seq<Event>, store: Store) {
    && Matches(first, events, store)
    && (forall k | first + OpenTail(events, |events|) <= k < first + |events| :: k in store)
  }

  lemma {:induction false} FedKept(first: nat, events: seq<Event>, gone: seq<set<nat>>, decodes: Bytes -> bool)
    requires |gone| == |events|
    ensures StoreKept(first, events, Fed(first, events, gone, decodes))
  {
    if events != [] {
      var n := |events| - 1;
      FedKept(first, events[..n], gone[..n], decodes);
      OpenTailPrefix(events, n, n);
      var store := Fed(first, events[..n], gone[..n], decodes);
      FeedKept(first, events, store, decodes);
    }
  }

  lemma FeedKept(first: nat, events: seq<Event>, store: Store, decodes: Bytes -> bool)
    requires events != [] && StoreKept(first, events[..|events| - 1], store)
    ensures StoreKept(first, events, Feed(store, first + |events| - 1, events[|events| - 1], decodes).0)
  {}

  lemma {:induction false} OpenTailPrefix(events: seq<Event>, n: nat, m: nat)
    requires n <= m <= |events|
    ensures OpenTail(events[..m], n) == OpenTail(events, n)
  {}

  /** Isolation: whatever was read before, refused messages included, what is
      assembled at a box is the maximal run of continued boxes ending at it. */
  lemma AssembledIsExpected(first: nat, events: seq<Event>, gone: seq<set<nat>>, e: Event, decodes: Bytes -> bool)
    requires |gone| == |events|
    ensures Feed(Fed(first, events, gone, decodes), first + |events|, e, decodes).1
         == Expected(first, events + [e], |events|, decodes)
  {
    hide Fed, Matches, StoreKept, Assemble;
    FedKept(first, events, gone, decodes);
    if e.Stored? {
      StoredNext(first, events, e, Fed(first, events, gone, decodes));
      AssembleAgrees(first, events + [e], Fed(first, events, gone, decodes)[first + |events| := e.piece],
                     |events|, decodes);
    }
  }

  lemma StoredNext(first: nat, events: seq<Event>, e: Event, store: Store)
    requires StoreKept(first, events, store) && e.Stored?
    ensures
      var n, grown := |events|, store[first + |events| := e.piece];
      && Matches(first, events + [e], grown)
      && forall k | first + OpenTail(events + [e], n) <= k <= first + n :: k in grown
  {
    assert (events + [e])[..|events|] == events;
    OpenTailPrefix(events + [e], |events|, |events|);
  }

  /** What is given at the `n`th box takes the piece of box `k` out of the table. */
  predicate Takes(found: Assembled, k: nat) {
    found.Message? && found.start <= k
  }

  /** Whether the piece of box `k` is in the table after the `n`th: it was taken
      by no message since it was stored, nor discarded as an announcement. */
  ghost predicate StaysStored(first: nat, events: seq<Event>, gone: seq<set<nat>>, decodes: Bytes -> bool, k: nat)
    requires |gone| == |events|
  {
    && first <= k < first + |events| && events[k - first].Stored?
    && forall n | k - first <= n < |events| ::
      && !Takes(Expected(first, events, n, decodes), k)
      && !(events[k - first].piece.kind.I? && k in gone[n])
  }

  lemma {:induction false} TableIs(first: nat, events: seq<Event>, gone: seq<set<nat>>, decodes: Bytes -> bool, k: nat)
    requires |gone| == |events|
    ensures k in Fed(first, events, gone, decodes) <==> StaysStored(first, events, gone, decodes, k)
    ensures k in Fed(first, events, gone, decodes) ==>
              Stored(Fed(first, events, gone, decodes)[k]) == events[k - first]
  {
    if events != [] {
      var n := |events| - 1;
      TableIs(first, events[..n], gone[..n], decodes, k);
      StaysNext(first, events, gone, decodes, k);
      FeedTakes(first, events, gone, decodes, k);
    }
  }

  lemma StaysNext(first: nat, events: seq<Event>, gone: seq<set<nat>>, decodes: Bytes -> bool, k: nat)
    requires |gone| == |events| && events != []
    ensures
      var n := |events| - 1;
      StaysStored(first, events, gone, decodes, k) <==> (
        && first <= k <= first + n && events[k - first].Stored?
        && (k == first + n || StaysStored(first, events[..n], gone[..n], decodes, k))
        && !Takes(Expected(first, events, n, decodes), k)
        && !(events[k - first].piece.kind.I? && k in gone[n]))
  {
    var n := |events| - 1;
    forall m | 0 <= m < n
      ensures Expected(first, events[..n], m, decodes) == Expected(first, events, m, decodes)
    {
      ExpectedPrefix(first, events, m, n, decodes);
    }
  }

  lemma FeedLeaves(store: Store, at: nat, e: Event, decodes: Bytes -> bool, k: nat)
    requires forall j | j in store :: j < at
    ensures
      var (left, found) := Feed(store, at, e, decodes);
      && (k in left <==> !Takes(found, k) && (k in store || (k == at && e.Stored?)))
      && (k in left ==> if k == at then e == Stored(left[k]) else left[k] == store[k])
  {
    hide Assemble;
  }

  lemma FeedTakes(first: nat, events: seq<Event>, gone: seq<set<nat>>, decodes: Bytes -> bool, k: nat)
    requires |gone| == |events| && events != []
    ensures
      var n := |events| - 1;
      var store := Fed(first, events[..n], gone[..n], decodes);
      k in Fed(first, events, gone, decodes) <==> (
        && !Takes(Expected(first, events, n, decodes), k)
        && if k == first + n then events[n].Stored? && !(events[n].piece.kind.I? && k in gone[n])
           else k in store && !(store[k].kind.I? && k in gone[n]))
  {
    var n := |events| - 1;
    var store := Fed(first, events[..n], gone[..n], decodes);
    FedLast(first, events, gone, decodes);
    hide Feed, Expected, Takes, Fed;
    FeedLeaves(store, first + n, events[n], decodes, k);
  }

  lemma FedLast(first: nat, events: seq<Event>, gone: seq<set<nat>>, decodes: Bytes -> bool)
    requires |gone| == |events| && events != []
    ensures
      var n := |events| - 1;
      var store := Fed(first, events[..n], gone[..n], decodes);
      var (left, found) := Feed(store, first + n, events[n], decodes);
      && (forall j | j in store :: j < first + n)
      && Fed(first, events, gone, decodes) == left - Announcements(left, gone[n])
      && found == Expected(first, events, n, decodes)
  {
    var n := |events| - 1;
    FedKept(first, events[..n], gone[..n], decodes);
    assert events[..n] + [events[n]] == events;
    AssembledIsExpected(first, events[..n], gone[..n], events[n], decodes);
    hide Feed, Expected, OpenTail;
  }

  lemma AssembleAgrees(first: nat, events: seq<Event>, store: Store, n: nat, decodes: Bytes -> bool)
    requires n < |events| && events[n].Stored? && Matches(first, events, store)
    requires forall k | first + OpenTail(events, n) <= k <= first + n :: k in store
    ensures Assemble(store, first + n, decodes) == Expected(first, events, n, decodes)
  {
    hide Matches, OpenTail, Joined, Bodies, TailStart;
    PieceAt(first, events, store, n);
    if events[n].piece.kind.F? {
      TailsAgree(first, events, store, n);
      JoinedAgree(first, events, store, OpenTail(events, n), n);
    }
  }

  lemma PieceAt(first: nat, events: seq<Event>, store: Store, n: nat)
    requires n < |events| && Matches(first, events, store) && first + n in store
    ensures events[n] == Stored(store[first + n])
  {
    assert events[first + n - first] == Stored(store[first + n]);
  }

  lemma {:induction false} TailsAgree(first: nat, events: seq<Event>, store: Store, n: nat)
    requires n < |events| && Matches(first, events, store)
    requires forall k | first + OpenTail(events, n) <= k < first + n :: k in store
    ensures TailStart(store, first + n) == first + OpenTail(events, n)
    decreases n
  {
    if n > 0 && events[n - 1].Stored? && events[n - 1].piece.kind.C? {
      TailsAgree(first, events, store, n - 1);
    }
  }

  lemma {:induction false} JoinedAgree(first: nat, events: seq<Event>, store: Store, from: nat, upto: nat)
    requires from <= upto < |events| && Matches(first, events, store)
    requires Present(store, first + from, first + upto)
    requires forall k | from <= k <= upto :: events[k].Stored?
    ensures Joined(store, first + from, first + upto) == Bodies(events, from, upto)
    decreases upto - from
  {
    assert store[first + from].body == events[from].piece.body by {
      assert events[first + from - first] == Stored(store[first + from]);
    }
    if from < upto {
      JoinedAgree(first, events, store, from + 1, upto);
      assert Joined(store, first + from, first + upto)
          == store[first + from].body + Joined(store, first + from + 1, first + upto);
      assert Bodies(events, from, upto) == events[from].piece.body + Bodies(events, from + 1, upto);
    }
  }

  /** What should be found at a box does not depend on the boxes after it. */
  lemma ExpectedPrefix(first: nat, events: seq<Event>, n: nat, m: nat, decodes: Bytes -> bool)
    requires n < m <= |events|
    ensures Expected(first, events[..m], n, decodes) == Expected(first, events, n, decodes)
  {
    OpenTailPrefix(events, n, m);
    if events[n].Stored? {
      BodiesPrefix(events, OpenTail(events, n), n, m);
    }
  }

  lemma {:induction false} BodiesPrefix(events: seq<Event>, from: nat, last: nat, m: nat)
    requires from <= last < m <= |events|
    requires forall k | from <= k <= last :: events[k].Stored?
    ensures Bodies(events[..m], from, last) == Bodies(events, from, last)
    decreases last - from
  {
    if from < last {
      BodiesPrefix(events, from + 1, last, m);
    }
  }

  // One message on a stream, from `serialize` to the reader.

  /** The piece a box payload is stored as; None for an unknown marker. */
  function PieceOf(box: Bytes): Event {
    if box == [] then Skipped
    else if box[0] == MARK_C then Stored(Piece(C, box[1..]))
    else if box[0] == MARK_F then Stored(Piece(F, box[1..]))
    else if box[0] == MARK_I then Stored(Piece(I, box[1..]))
    else Skipped
  }

  /** The boxes, read one after the other as the events from the `p`th on. */
  predicate Reads(events: seq<Event>, p: nat, boxes: seq<Bytes>) {
    && p + |boxes| <= |events|
    && forall k | p <= k < p + |boxes| :: events[k] == PieceOf(boxes[k - p])
  }

  /** A run of boxes that carries a blob, read in order right after something
      that is no continued box, gives nothing at every box but the last. There
      it gives exactly the blob if that is a message, in one box or within the
      cap, and else nothing. */
  lemma MessageRoundTrip(first: nat, events: seq<Event>, p: nat, boxes: seq<Bytes>, blob: Bytes, decodes: Bytes -> bool)
    requires Carries(boxes, blob) && Reads(events, p, boxes)
    requires p > 0 ==> events[p - 1].Skipped? || !events[p - 1].piece.kind.C?
    ensures forall n | p <= n < p + |boxes| - 1 :: Expected(first, events, n, decodes) == Unfinished
    ensures Expected(first, events, p + |boxes| - 1, decodes) ==
            if decodes(blob) && (|boxes| == 1 || |blob| <= ASSEMBLY_HARD_CAP) then Message(blob, first + p)
            else Unfinished
  {
    hide Carries, Reads;
    var last := p + |boxes| - 1;
    EventKinds(events, p, boxes, blob);
    OpenTailIs(events, p, last);
    BodiesAre(events, p, boxes, blob);
    assert Bodies(events, OpenTail(events, last), last) == blob;
  }

  lemma EventKinds(events: seq<Event>, p: nat, boxes: seq<Bytes>, blob: Bytes)
    requires Carries(boxes, blob) && Reads(events, p, boxes)
    ensures boxes != [] && p + |boxes| <= |events|
    ensures forall k | p <= k < p + |boxes| ::
              events[k].Stored? && events[k].piece.kind == if k == p + |boxes| - 1 then F else C
  {
    CarriesMarks(boxes, blob);
  }

  lemma {:induction false} OpenTailIs(events: seq<Event>, p: nat, n: nat)
    requires p <= n <= |events|
    requires forall k | p <= k < n :: events[k].Stored? && events[k].piece.kind.C?
    requires p > 0 ==> events[p - 1].Skipped? || !events[p - 1].piece.kind.C?
    ensures OpenTail(events, n) == p
    decreases n
  {}

  lemma {:induction false} BodiesAre(events: seq<Event>, p: nat, boxes: seq<Bytes>, blob: Bytes)
    requires Carries(boxes, blob) && Reads(events, p, boxes)
    requires forall k | p <= k <= p + |boxes| - 1 :: events[k].Stored?
    ensures Bodies(events, p, p + |boxes| - 1) == blob
    decreases |boxes|
  {
    assert events[p] == PieceOf(boxes[0]);
    if |boxes| > 1 {
      var rest := blob[|Body(boxes[0])|..];
      BodiesAre(events, p + 1, boxes[1..], rest);
      assert blob == Body(boxes[0]) + rest;
    }
  }

  function Marker(kind: Kind): Byte {
    match kind
    case C => MARK_C
    case F => MARK_F
    case I => MARK_I
  }

  /** A box is stored exactly if it begins with a marker, as a piece of that kind
      with the rest of it. */
  lemma PieceIs(box: Bytes, piece: Piece)
    ensures PieceOf(box) == Stored(piece) <==> box == [Marker(piece.kind)] + piece.body
  {}
}
