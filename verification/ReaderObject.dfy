/** The reader as the object it is, each method against what it changes. */
module ReaderObject {
  import opened Basics
  import SR = StreamReader

  class Reader {
    var next: nat
    var last: Option<nat>
    var passed: int
    var kept: seq<SR.Skipped>
    var lost: Option<SR.Gap>
    var mode: SR.Mode
    var tried: seq<nat>

    function View(): SR.State
      reads this
    {
      SR.State(next, last, passed, kept, lost, mode, tried)
    }

    constructor (start: nat)
      ensures View() == SR.State(start, None, 0, [], None, SR.Idle, [])
    {
      next, last, passed, kept, lost, mode, tried := start, None, 0, [], None, SR.Idle, [];
    }

    method Read() returns (effects: seq<SR.Effect>)
      modifies this`mode
      ensures (View(), effects) == SR.Asked(old(View()))
      ensures effects == if old(mode).Idle? then [SR.ReadBox(next, false)] else []
      ensures mode == if old(mode).Idle? then SR.Reading else old(mode)
    {
      if !mode.Idle? {
        return [];
      }
      mode := SR.Reading;
      effects := [SR.ReadBox(next, false)];
    }

    method Scan(heard: seq<nat>, window: nat) returns (effects: seq<SR.Effect>)
      modifies this`mode, this`tried
      ensures (View(), effects) == SR.Scanned(old(View()), heard, window)
      ensures mode == SR.Scanning && effects == SR.Requests(old(View()), SR.ScanAsked(heard), window)
    {
      mode := SR.Scanning;
      tried := SR.StillTried(tried, heard, next);
      effects := SR.Rechecks(kept);
      var targets := SR.Ahead(heard, next, tried);
      if targets != [] {
        tried := tried + targets;
        return effects + [SR.Walk(next, targets, window)];
      }
      effects := effects + [SR.ReadBox(next, false)];
    }

    method Lose(at: int, before: Option<nat>)
      modifies this`lost
      ensures lost == SR.Lose(old(lost), at, before)
    {
      if lost.None? || at < lost.value.at {
        lost := Some(SR.Gap(at, before));
      }
    }

    method Forget(window: nat)
      modifies this`lost, this`kept
      ensures View() == SR.Forgotten(old(View()), window)
    {
      var bound := passed - window;
      for i := 0 to |kept|
        invariant kept == old(kept) && lost == SR.LoseBelow(old(lost), kept[..i], bound)
      {
        assert kept[..i + 1][..i] == kept[..i];
        if kept[i].at < bound {
          Lose(kept[i].at, kept[i].before);
        }
      }
      assert kept[..|kept|] == kept;
      kept := SR.KeptFrom(kept, bound);
    }

    /** Each box skipped is kept with the one before it. */
    method Keep(skipped: seq<nat>, start: int)
      modifies this`kept
      ensures kept == old(kept) + SR.SkippedFrom(skipped, start, last)
    {
      var before := last;
      ghost var all := kept + SR.SkippedFrom(skipped, start, last);
      for i := 0 to |skipped|
        invariant kept + SR.SkippedFrom(skipped[i..], start + i, before) == all
      {
        assert skipped[i..][1..] == skipped[i + 1..];
        kept := kept + [SR.Skipped(skipped[i], start + i, before)];
        before := Some(skipped[i]);
      }
      assert skipped[|skipped|..] == [];
    }

    method Walked(target: Option<nat>, skipped: seq<nat>, steps: nat, window: nat) returns (effects: seq<SR.Effect>)
      modifies this
      ensures View() == if target.None? then old(View())
                        else SR.Walked(old(View()), target.value, skipped, steps, window)
      ensures effects == [SR.ReadBox(next, false)]
      ensures mode == old(mode) && last == old(last) && tried == old(tried)
      ensures next == if target.Some? then target.value else old(next)
      ensures passed == if target.Some? then old(passed) + steps else old(passed)
    {
      if target.Some? {
        var start := passed + steps - |skipped|;
        if start > passed {
          Lose(passed, last);
        }
        Keep(skipped, start);
        passed := passed + steps;
        next := target.value;
        Forget(window);
      }
      effects := [SR.ReadBox(next, false)];
    }

    /** The plaintext is ingested if `ingest`. */
    method Found(index: nat, result: SR.Result, nextIndex: Option<nat>, window: nat)
      returns (ingest: bool, effects: seq<SR.Effect>)
      modifies this
      ensures (View(), ingest) == SR.Found(old(View()), index, result, nextIndex, window)
      ensures tried == old(tried)
      // A kept box, found again or not.
      ensures
        var i := SR.Position(old(kept), index);
        i < |old(kept)| ==>
          && (next, last, passed, lost, mode) == old((next, last, passed, lost, mode))
          && ingest == result.Data? && effects == []
          && kept == if result.NotFound? then old(kept) else old(kept)[..i] + old(kept)[i + 1..]
      // Any other that is not the next box of a reader at work.
      ensures SR.Position(old(kept), index) == |old(kept)| && (index != old(next) || old(mode).Idle?) ==>
                View() == old(View()) && !ingest && effects == []
      // The next box, not there yet: the reader waits to be asked again.
      ensures SR.Position(old(kept), index) == |old(kept)| && index == old(next) && !old(mode).Idle?
              && (result.NotFound? || nextIndex.None?) ==>
                && mode == SR.Idle && !ingest && effects == []
                && (next, last, passed, kept, lost) == old((next, last, passed, kept, lost))
      // The next box, read.
      ensures SR.Position(old(kept), index) == |old(kept)| && index == old(next) && !old(mode).Idle?
              && !result.NotFound? && nextIndex.Some? ==>
                && ingest == result.Data? && effects == [SR.ReadBox(next, false)]
                && next == nextIndex.value && last == Some(index) && passed == old(passed) + 1 && mode == old(mode)
                && kept == SR.KeptFrom(old(kept), passed - window)
                && lost == SR.LoseBelow(old(lost), old(kept), passed - window)
    {
      var i := SR.Position(kept, index);
      if i < |kept| {
        if !result.NotFound? {
          kept := kept[..i] + kept[i + 1..];
        }
        return result.Data?, [];
      }
      if index != next || mode.Idle? {
        return false, [];
      }
      if result.NotFound? || nextIndex.None? {
        mode := SR.Idle;
        return false, [];
      }
      last := Some(index);
      next := nextIndex.value;
      passed := passed + 1;
      Forget(window);
      return result.Data?, [SR.ReadBox(next, false)];
    }
  }
}
