/** The held boxes of one conversation, changed in place by each entry point. */
module HoldBackObject {
  import opened Basics
  import opened HoldBack

  class Stored {
    var held: seq<Box>
    var told: seq<Told>

    constructor ()
      ensures held == [] && told == []
    {
      held, told := [], [];
    }

    method HoldAt(stream: nat, index: nat) returns (i: nat)
      modifies this`held
      ensures (held, i) == HeldAt(old(held), stream, index)
    {
      i := 0;
      while i < |held|
        invariant i <= |held| && Find(held, stream, index) == i + Find(held[i..], stream, index)
      {
        if held[i].stream == stream && held[i].index == index {
          return;
        }
        assert held[i..][1..] == held[i + 1..];
        i := i + 1;
      }
      held := held + [Box(stream, index, None, None, None)];
    }

    /** Each box of the stream in turn, up to the first that waits. */
    method Release(stream: nat)
      modifies this
      ensures var (rest, more) := Released(old(held), stream, true); held == rest && told == old(told) + more
    {
      var mine := HeldOf(held, stream);
      var n := 0;
      HeldOfAll(held, stream);
      while n < |mine|
        invariant n <= |mine| && HeldOf(held, stream) == mine[n..]
        invariant
          var (rest, more) := Released(held, stream, true);
          var (rest0, more0) := Released(old(held), stream, true);
          rest == rest0 && told + more == old(told) + more0
      {
        var box := mine[n];
        if Waiting(box) {
          break;
        }
        RemoveFirst(held, box);
        told := told + [Tell(box)];
        held := Removed(held, box);
        n := n + 1;
      }
      NothingReady(held, stream);
    }

    method OnMessage(stream: nat, box: Option<nat>, substream: Option<nat>, plaintext: Bytes)
      modifies this
      ensures
        var (rest, more) := After(old(held), Message(stream, box, substream, plaintext));
        held == rest && told == old(told) + more
    {
      if box.Some? {
        var i := HoldAt(stream, box.value);
        held := held[i := held[i].(plaintext := Some(plaintext))];
      }
      if substream.Some? {
        Arrive(stream, substream.value, plaintext);
      }
      Release(stream);
    }

    method Arrive(stream: nat, substream: nat, plaintext: Bytes)
      modifies this`held
      ensures held == Arrived(old(held), stream, substream, plaintext)
    {
      ghost var before := held;
      ArrivedIs(held, stream, substream, plaintext);
      for i := 0 to |held|
        invariant |held| == |before|
        invariant forall k | 0 <= k < |held| ::
                    held[k] == if k < i then ArrivedBox(before[k], stream, substream, plaintext) else before[k]
      {
        if held[i].stream == stream && held[i].substream == Some(substream) {
          held := held[i := held[i].(plaintext := Some(plaintext), substream := None)];
        }
      }
    }

    method BoxRead(stream: nat, index: nat, next: nat, announced: Option<nat>, arriving: bool)
      modifies this
      ensures
        var (rest, more) := After(old(held), Read(stream, index, next, announced, arriving));
        held == rest && told == old(told) + more
    {
      var i := HoldAt(stream, index);
      var box := held[i].(next := Some(next));
      if announced.Some? && box.plaintext.None? && arriving {
        box := box.(substream := announced);
      }
      held := held[i := box];
      Release(stream);
    }

    method Settle(stream: nat, arrivals: set<nat>)
      modifies this
      ensures
        var (rest, more) := After(old(held), Event.Settle(stream, arrivals));
        held == rest && told == old(told) + more
    {
      SettleAll(stream, arrivals);
      Release(stream);
    }

    method SettleAll(stream: nat, arrivals: set<nat>)
      modifies this`held
      ensures held == Settled(old(held), stream, arrivals)
    {
      ghost var before := held;
      SettledIs(held, stream, arrivals);
      for i := 0 to |held|
        invariant |held| == |before|
        invariant forall k | 0 <= k < |held| ::
                    held[k] == if k < i then SettledBox(before[k], stream, arrivals) else before[k]
      {
        if held[i].stream == stream && held[i].substream.Some? && held[i].substream.value !in arrivals {
          held := held[i := held[i].(substream := None)];
        }
      }
    }
  }

  /** `list.remove`: the first equal one. */
  function Removed(held: seq<Box>, box: Box): seq<Box> {
    if held == [] then []
    else if held[0] == box then held[1..]
    else [held[0]] + Removed(held[1..], box)
  }

  lemma {:induction false} RemoveFirst(held: seq<Box>, box: Box)
    requires HeldOf(held, box.stream) != [] && HeldOf(held, box.stream)[0] == box && !Waiting(box)
    ensures
      var (rest, more) := Released(Removed(held, box), box.stream, true);
      Released(held, box.stream, true) == (rest, [Tell(box)] + more)
    ensures HeldOf(Removed(held, box), box.stream) == HeldOf(held, box.stream)[1..]
  {
    if held[0].stream != box.stream {
      RemoveFirst(held[1..], box);
      HeldOfCons(held[0], Removed(held[1..], box), box.stream);
    }
  }

  lemma {:induction false} NothingReady(held: seq<Box>, stream: nat)
    requires HeldOf(held, stream) == [] || Waiting(HeldOf(held, stream)[0])
    ensures Released(held, stream, true) == (held, [])
  {
    if held != [] {
      if held[0].stream == stream {
        ReleasedNone(held, stream);
      } else {
        NothingReady(held[1..], stream);
        assert held == [held[0]] + held[1..];
      }
    }
  }
}
