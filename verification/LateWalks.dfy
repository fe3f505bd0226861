/**
  Runs of a reader with walks found however late. Such a walk may make the
  reader hand a plaintext out twice, or take its run back; what is acknowledged
  is still never past a box that was not read.
 */
module LateWalks {
  import opened Basics
  import opened StreamReader
  import RR = ReaderRuns
  import RG = RunRegress

  /** `s` and `acks` are the state. The rest is history: the first box not
      reached yet, the box passed at each count, the counts whose box was not
      read there or again since, and the boxes read. */
  datatype World = World(
    s: State,
    start: nat,
    top: nat,
    acks: RR.Acks,
    passes: seq<nat>,
    open: set<int>,
    read: set<nat>)

  datatype Step = Reads(e: Event) | Acknowledges(ack: RR.Step)

  /** A walk starts at any box the reader was at, or one before, and reports the
      last boxes before its target; a box's successor is the next one. */
  predicate Enabled(w: World, step: Step) {
    match step
    case Reads(e) =>
      (match e
       case WalkEnded(target, skipped, steps) =>
         target.Some? ==>
           && |skipped| <= steps <= target.value && skipped == RR.Reported(target.value, |skipped|)
           && w.start <= target.value - steps <= w.top
       case BoxRead(index, _, next) => next.Some? ==> next.value == index + 1
       case _ => true)
    case Acknowledges(ack) => ack.Compose? ==> ack.token !in w.acks.pending
  }

  function Max(a: nat, b: nat): nat {
    if a < b then b else a
  }

  /** The boxes passed and the open counts after the end of a walk: each box it
      stepped past is one. */
  function Stepped(passes: seq<nat>, target: nat, steps: nat): seq<nat>
    requires steps <= target
  {
    passes + RR.Reported(target, steps)
  }

  function OpenWith(passes: seq<nat>, open: set<int>, steps: nat): set<int> {
    open + RR.Between(|passes|, |passes| + steps)
  }

  function After(w: World, step: Step, window: nat): World
    requires Enabled(w, step)
  {
    match step
    case Reads(e) => AfterEvent(w, e, window).(s := Handled(w.s, e, window))
    case Acknowledges(ack) => w.(acks := RR.AcksAfter(w.acks, ack, Run(w.s)))
  }

  /** The history after an event. */
  function AfterEvent(w: World, e: Event, window: nat): World
    requires Enabled(w, Reads(e))
  {
    match e
    case WalkEnded(target, skipped, steps) =>
      if target.None? then w
      else
        w.(top := Max(w.top, target.value),
           passes := Stepped(w.passes, target.value, steps),
           open := OpenWith(w.passes, w.open, steps))
    case BoxRead(index, result, next) =>
      var i := Position(w.s.kept, index);
      if i < |w.s.kept| then
        if result.NotFound? then w
        else w.(open := w.open - {w.s.kept[i].at}, read := w.read + {index})
      else if Passes(w.s, e) then
        w.(top := Max(w.top, index + 1), passes := w.passes + [index], read := w.read + {index})
      else w
    case _ => w
  }

  /** The next box is read in order. */
  predicate Passes(s: State, e: Event) {
    && e.BoxRead? && Position(s.kept, e.index) == |s.kept| && e.index == s.next && !s.mode.Idle?
    && !e.result.NotFound? && e.next.Some?
  }

  function Begin(start: nat): World {
    World(RR.Begin(start).s, start, start, RR.Acks(None, map[], false), [], {}, {})
  }

  predicate Possible(start: nat, steps: seq<Step>, window: nat)
    decreases |steps|, 0
  {
    steps == [] ||
    (Possible(start, steps[..|steps| - 1], window)
     && Enabled(Reached(start, steps[..|steps| - 1], window), steps[|steps| - 1]))
  }

  function Reached(start: nat, steps: seq<Step>, window: nat): World
    requires Possible(start, steps, window)
    decreases |steps|, 1
  {
    if steps == [] then Begin(start)
    else After(Reached(start, steps[..|steps| - 1], window), steps[|steps| - 1], window)
  }

  // What every world keeps.

  /** The box was read, or is one of those left open before `bound`. */
  ghost predicate Covered(passes: seq<nat>, open: set<int>, read: set<nat>, b: nat, bound: int) {
    b in read || exists p: nat :: p in open && p < bound && p < |passes| && passes[p] == b
  }

  ghost predicate CoveredBelow(start: nat, passes: seq<nat>, open: set<int>, read: set<nat>, top: int, bound: int) {
    forall b: nat | start <= b < top :: Covered(passes, open, read, b, bound)
  }

  function Past(box: Option<nat>): int {
    if box.None? then 0 else box.value + 1
  }

  /** The gaps are the open counts, but for those after the one recorded as
      lost. */
  ghost predicate GapsAreOpen(s: State, passes: seq<nat>, open: set<int>) {
    && |passes| == s.passed && RR.GapsOrdered(s)
    && (forall p | p in open :: 0 <= p < s.passed && IsGap(s.kept, s.lost, p))
    && KeptOpen(s.kept, passes, open)
    && (s.lost.Some? ==> s.lost.value.at in open)
  }

  predicate IsGap(kept: seq<Skipped>, lost: Option<Gap>, p: int) {
    RR.IsKept(kept, p) || (lost.Some? && lost.value.at <= p)
  }

  predicate KeptOpen(kept: seq<Skipped>, passes: seq<nat>, open: set<int>) {
    forall box | box in kept :: 0 <= box.at < |passes| && box.at in open && passes[box.at] == box.index
  }

  /** Before each gap, only earlier ones are missing. */
  ghost predicate GapsCovered(start: nat, s: State, passes: seq<nat>, open: set<int>, read: set<nat>) {
    && (forall i | 0 <= i < |s.kept| ::
          CoveredBelow(start, passes, open, read, Past(s.kept[i].before), s.kept[i].at))
    && (s.lost.Some? ==> CoveredBelow(start, passes, open, read, Past(s.lost.value.before), s.lost.value.at))
  }

  ghost predicate ReadingKept(start: nat, top: nat, s: State, passes: seq<nat>, open: set<int>, read: set<nat>) {
    && GapsAreOpen(s, passes, open)
    && GapsCovered(start, s, passes, open, read)
    && CoveredBelow(start, passes, open, read, top, s.passed)
    && start <= s.next <= top && Past(s.last) <= top
  }

  /** Every box from the first through `box` was read. */
  predicate AllRead(start: nat, read: set<nat>, box: Option<nat>) {
    forall b: nat | start <= b < Past(box) :: b in read
  }

  predicate AcksKept(start: nat, read: set<nat>, acks: RR.Acks) {
    && AllRead(start, read, acks.published)
    && forall token | token in acks.pending ::
      AllRead(start, read, acks.pending[token].0) && AllRead(start, read, Some(acks.pending[token].1))
  }

  ghost predicate Inv(w: World) {
    ReadingKept(w.start, w.top, w.s, w.passes, w.open, w.read) && AcksKept(w.start, w.read, w.acks)
  }

  // Acknowledgements.

  /** The count of the first gap, or past all of them. */
  function FirstAt(s: State): int {
    if s.kept != [] && (s.lost.Some? ==> s.kept[0].at < s.lost.value.at) then s.kept[0].at
    else if s.lost.Some? then s.lost.value.at
    else s.passed
  }

  lemma NoneBefore(s: State, passes: seq<nat>, open: set<int>, p: int)
    requires GapsAreOpen(s, passes, open) && p in open
    ensures FirstAt(s) <= p
  {}

  lemma CoveredToFirst(start: nat, top: nat, s: State, passes: seq<nat>, open: set<int>, read: set<nat>)
    requires GapsCovered(start, s, passes, open, read)
    requires CoveredBelow(start, passes, open, read, top, s.passed) && Past(s.last) <= top
    ensures CoveredBelow(start, passes, open, read, Past(RG.BeforeFirst(s)), FirstAt(s))
  {
    hide Covered;
  }

  lemma RunSafe(start: nat, top: nat, s: State, passes: seq<nat>, open: set<int>, read: set<nat>)
    requires ReadingKept(start, top, s, passes, open, read)
    ensures AllRead(start, read, Run(s))
  {
    RG.RunOf(s);
    CoveredToFirst(start, top, s, passes, open, read);
    hide GapsAreOpen, GapsCovered, RG.BeforeFirst, Run, FirstAt;
    forall b: nat | start <= b < Past(Run(s))
      ensures b in read
    {
      assert Covered(passes, open, read, b, FirstAt(s));
      if b !in read {
        var p: nat :| p in open && p < FirstAt(s) && p < |passes| && passes[p] == b;
        NoneBefore(s, passes, open, p);
      }
    }
  }

  lemma AcksMore(start: nat, read: set<nat>, read': set<nat>, acks: RR.Acks)
    requires AcksKept(start, read, acks) && read <= read'
    ensures AcksKept(start, read', acks)
  {}

  lemma AcksStep(start: nat, read: set<nat>, acks: RR.Acks, ack: RR.Step, run: Option<nat>)
    requires AcksKept(start, read, acks) && AllRead(start, read, run)
    ensures AcksKept(start, read, RR.AcksAfter(acks, ack, run))
  {}

  // What is covered stays so.

  /** An open count stays open, or its box was read since. */
  ghost predicate StaysOpen(passes: seq<nat>, open: set<int>, passes': seq<nat>, open': set<int>, read': set<nat>) {
    && passes <= passes'
    && forall p: nat | p in open && p < |passes| :: p in open' || passes[p] in read'
  }

  lemma StillCovered(start: nat, passes: seq<nat>, open: set<int>, read: set<nat>, top: int, bound: int,
                     passes': seq<nat>, open': set<int>, read': set<nat>, bound': int)
    requires CoveredBelow(start, passes, open, read, top, bound) && bound <= bound'
    requires StaysOpen(passes, open, passes', open', read') && read <= read'
    ensures CoveredBelow(start, passes', open', read', top, bound')
  {
    forall b: nat | start <= b < top
      ensures Covered(passes', open', read', b, bound')
    {
      assert Covered(passes, open, read, b, bound);
      if b !in read {
        var p: nat :| p in open && p < bound && p < |passes| && passes[p] == b;
        assert passes'[p] == b;
      }
    }
  }

  lemma GapsStillCovered(start: nat, s: State, passes: seq<nat>, open: set<int>, read: set<nat>,
                         passes': seq<nat>, open': set<int>, read': set<nat>)
    requires GapsCovered(start, s, passes, open, read)
    requires StaysOpen(passes, open, passes', open', read') && read <= read'
    ensures GapsCovered(start, s, passes', open', read')
  {
    forall i | 0 <= i < |s.kept|
      ensures CoveredBelow(start, passes', open', read', Past(s.kept[i].before), s.kept[i].at)
    {
      var box := s.kept[i];
      StillCovered(start, passes, open, read, Past(box.before), box.at, passes', open', read', box.at);
    }
    if s.lost.Some? {
      var lost := s.lost.value;
      StillCovered(start, passes, open, read, Past(lost.before), lost.at, passes', open', read', lost.at);
    }
  }

  // Forgetting.

  lemma ForgottenOpen(s: State, passes: seq<nat>, open: set<int>, window: nat)
    requires GapsAreOpen(s, passes, open)
    ensures GapsAreOpen(Forgotten(s, window), passes, open)
  {
    hide RR.GapsOrdered, IsGap, KeptOpen, LoseBelow, KeptFrom;
    RR.ForgettingKeepsRun(s, window);
    LostOpen(s, passes, open, s.passed - window);
    forall p | p in open
      ensures IsGap(Forgotten(s, window).kept, Forgotten(s, window).lost, p)
    {
      StillGap(s, window, p);
    }
  }

  lemma LostOpen(s: State, passes: seq<nat>, open: set<int>, bound: int)
    requires KeptOpen(s.kept, passes, open) && (s.lost.Some? ==> s.lost.value.at in open)
    ensures KeptOpen(KeptFrom(s.kept, bound), passes, open)
    ensures
      var lost := LoseBelow(s.lost, s.kept, bound);
      lost.Some? ==> lost.value.at in open
  {
    RR.KeptFromIn(s.kept, bound);
    RR.LoseBelowIs(s.lost, s.kept, bound);
  }

  lemma StillGap(s: State, window: nat, p: int)
    requires IsGap(s.kept, s.lost, p)
    ensures IsGap(Forgotten(s, window).kept, Forgotten(s, window).lost, p)
  {
    var kept := Forgotten(s, window).kept;
    RR.KeptFromIn(s.kept, s.passed - window);
    RR.LoseBelowIs(s.lost, s.kept, s.passed - window);
    if RR.IsKept(s.kept, p) {
      var i :| 0 <= i < |s.kept| && s.kept[i].at == p;
      assert s.kept[i] in s.kept;
      if s.kept[i] in kept {
        var j :| 0 <= j < |kept| && kept[j] == s.kept[i];
        assert kept[j].at == p;
      }
    }
  }

  lemma ForgottenCovered(start: nat, s: State, passes: seq<nat>, open: set<int>, read: set<nat>, window: nat)
    requires GapsCovered(start, s, passes, open, read)
    ensures GapsCovered(start, Forgotten(s, window), passes, open, read)
  {
    var s' := Forgotten(s, window);
    RR.KeptFromIn(s.kept, s.passed - window);
    RR.LoseBelowIs(s.lost, s.kept, s.passed - window);
    forall i | 0 <= i < |s'.kept|
      ensures CoveredBelow(start, passes, open, read, Past(s'.kept[i].before), s'.kept[i].at)
    {
      assert s'.kept[i] in s'.kept;
      var j :| 0 <= j < |s.kept| && s.kept[j] == s'.kept[i];
    }
  }

  lemma ForgottenKept(start: nat, top: nat, s: State, passes: seq<nat>, open: set<int>, read: set<nat>, window: nat)
    requires ReadingKept(start, top, s, passes, open, read)
    ensures ReadingKept(start, top, Forgotten(s, window), passes, open, read)
  {
    hide GapsAreOpen, GapsCovered, CoveredBelow;
    ForgottenOpen(s, passes, open, window);
    ForgottenCovered(start, s, passes, open, read, window);
  }

  // A box read.

  lemma TakenKept(start: nat, top: nat, s: State, passes: seq<nat>, open: set<int>, read: set<nat>, i: nat)
    requires ReadingKept(start, top, s, passes, open, read) && i < |s.kept|
    ensures ReadingKept(start, top, s.(kept := s.kept[..i] + s.kept[i + 1..]), passes, open - {s.kept[i].at},
                        read + {s.kept[i].index})
  {
    var open', read', at := open - {s.kept[i].at}, read + {s.kept[i].index}, s.kept[i].at;
    var s' := s.(kept := s.kept[..i] + s.kept[i + 1..]);
    TakenOpen(s, passes, open, i);
    assert StaysOpen(passes, open, passes, open', read');
    StillCovered(start, passes, open, read, top, s.passed, passes, open', read', s.passed);
    GapsStillCovered(start, s, passes, open, read, passes, open', read');
    TakenCovered(start, s, passes, open', read', i);
  }

  lemma TakenOpen(s: State, passes: seq<nat>, open: set<int>, i: nat)
    requires GapsAreOpen(s, passes, open) && i < |s.kept|
    ensures GapsAreOpen(s.(kept := s.kept[..i] + s.kept[i + 1..]), passes, open - {s.kept[i].at})
  {
    var kept' := s.kept[..i] + s.kept[i + 1..];
    RG.TakenOrdered(s, i);
    OthersOpen(s.kept, passes, open, i);
    hide RR.GapsOrdered, IsGap, KeptOpen;
    forall p | p in open && p != s.kept[i].at
      ensures IsGap(kept', s.lost, p)
    {
      StillGapBeside(s.kept, s.lost, i, p);
    }
  }

  lemma OthersOpen(kept: seq<Skipped>, passes: seq<nat>, open: set<int>, i: nat)
    requires RR.Ascends(kept) && KeptOpen(kept, passes, open) && i < |kept|
    ensures KeptOpen(kept[..i] + kept[i + 1..], passes, open - {kept[i].at})
  {
    var kept' := kept[..i] + kept[i + 1..];
    forall box | box in kept'
      ensures box in kept && box.at != kept[i].at
    {
      var j :| 0 <= j < |kept'| && kept'[j] == box;
      assert box == kept[if j < i then j else j + 1];
    }
  }

  lemma StillGapBeside(kept: seq<Skipped>, lost: Option<Gap>, i: nat, p: int)
    requires i < |kept| && IsGap(kept, lost, p) && p != kept[i].at
    ensures IsGap(kept[..i] + kept[i + 1..], lost, p)
  {
    if RR.IsKept(kept, p) {
      var j :| 0 <= j < |kept| && kept[j].at == p;
      assert (kept[..i] + kept[i + 1..])[if j < i then j else j - 1] == kept[j];
    }
  }

  lemma TakenCovered(start: nat, s: State, passes: seq<nat>, open: set<int>, read: set<nat>, i: nat)
    requires GapsCovered(start, s, passes, open, read) && i < |s.kept|
    ensures GapsCovered(start, s.(kept := s.kept[..i] + s.kept[i + 1..]), passes, open, read)
  {
    var kept' := s.kept[..i] + s.kept[i + 1..];
    assert forall j | 0 <= j < |kept'| :: kept'[j] == s.kept[if j < i then j else j + 1];
  }

  lemma NextKept(start: nat, top: nat, s: State, passes: seq<nat>, open: set<int>, read: set<nat>)
    requires ReadingKept(start, top, s, passes, open, read)
    ensures
      var s' := s.(last := Some(s.next), next := s.next + 1, passed := s.passed + 1);
      ReadingKept(start, Max(top, s.next + 1), s', passes + [s.next], open, read + {s.next})
  {
    var read' := read + {s.next};
    assert StaysOpen(passes, open, passes + [s.next], open, read');
    StillCovered(start, passes, open, read, top, s.passed, passes + [s.next], open, read', s.passed + 1);
    GapsStillCovered(start, s, passes, open, read, passes + [s.next], open, read');
    assert forall box | box in s.kept :: (passes + [s.next])[box.at] == passes[box.at];
  }

  // The end of a walk, wherever it started.

  /** What is covered up to box `b`, if the walk started at or before what was
      covered. */
  lemma SteppedCovered(start: nat, top: nat, passes: seq<nat>, open: set<int>, read: set<nat>,
                       target: nat, steps: nat, last: int, bound: int)
    requires CoveredBelow(start, passes, open, read, top, |passes|)
    requires steps <= target && target - steps <= top && last <= target
    requires bound >= |passes| && bound >= |passes| + steps - (target - last)
    ensures CoveredBelow(start, Stepped(passes, target, steps), OpenWith(passes, open, steps), read,
                         last, bound)
  {
    var passes', open' := Stepped(passes, target, steps), OpenWith(passes, open, steps);
    assert StaysOpen(passes, open, passes', open', read);
    StillCovered(start, passes, open, read, top, |passes|, passes', open', read, bound);
    forall b: nat | start <= b < last
      ensures Covered(passes', open', read, b, bound)
    {
      if b >= top {
        var p: nat := |passes| + b - (target - steps);
        assert passes'[p] == b;
      }
    }
  }

  lemma JumpedOpen(s: State, passes: seq<nat>, open: set<int>, target: nat, steps: nat, reported: nat)
    requires GapsAreOpen(s, passes, open) && reported <= steps <= target
    ensures GapsAreOpen(Jumped(s, target, RR.Reported(target, reported), steps), Stepped(passes, target, steps),
                        OpenWith(passes, open, steps))
  {
    var skipped, open' := RR.Reported(target, reported), OpenWith(passes, open, steps);
    var s' := Jumped(s, target, skipped, steps);
    RG.JumpedOrdered(s, target, skipped, steps);
    JumpedKeptOpen(s, passes, open, target, steps, reported);
    JumpedLostOpen(s, passes, open, target, steps, skipped);
    forall p | p in open'
      ensures 0 <= p < s.passed + steps && IsGap(s'.kept, s'.lost, p)
    {
      JumpedGap(s, passes, open, target, steps, skipped, p);
    }
    hide RR.GapsOrdered, KeptOpen, IsGap, Jumped, OpenWith;
  }

  lemma JumpedLostOpen(s: State, passes: seq<nat>, open: set<int>, target: nat, steps: nat, skipped: seq<nat>)
    requires |passes| == s.passed && (s.lost.Some? ==> s.lost.value.at in open) && |skipped| <= steps <= target
    ensures
      var s' := Jumped(s, target, skipped, steps);
      && |Stepped(passes, target, steps)| == s'.passed == s.passed + steps
      && (s'.lost.Some? ==> s'.lost.value.at in OpenWith(passes, open, steps))
  {}

  lemma JumpedKeptOpen(s: State, passes: seq<nat>, open: set<int>, target: nat, steps: nat, reported: nat)
    requires KeptOpen(s.kept, passes, open) && |passes| == s.passed && reported <= steps <= target
    ensures KeptOpen(Jumped(s, target, RR.Reported(target, reported), steps).kept, Stepped(passes, target, steps),
                     OpenWith(passes, open, steps))
  {
    var skipped, first: nat := RR.Reported(target, reported), |passes| + steps - reported;
    var passes', open' := Stepped(passes, target, steps), OpenWith(passes, open, steps);
    AddedOpen(passes, target, steps, reported, s.last, open');
    KeptStillOpen(s.kept, passes, open, passes', open');
    KeptOpenBoth(s.kept, SkippedFrom(skipped, first, s.last), passes', open');
  }

  lemma JumpedGap(s: State, passes: seq<nat>, open: set<int>, target: nat, steps: nat, skipped: seq<nat>, p: int)
    requires GapsAreOpen(s, passes, open) && |skipped| <= steps && p in OpenWith(passes, open, steps)
    ensures
      var s' := Jumped(s, target, skipped, steps);
      0 <= p < s.passed + steps && IsGap(s'.kept, s'.lost, p)
  {
    var first := s.passed + steps - |skipped|;
    if p in open {
      GapBefore(s, target, skipped, steps, p);
    } else if p >= first {
      AddedGap(s, target, skipped, steps, p);
    } else {
      LostGap(s, target, skipped, steps, p);
    }
  }

  lemma GapBefore(s: State, target: nat, skipped: seq<nat>, steps: nat, p: int)
    requires IsGap(s.kept, s.lost, p)
    ensures
      var s' := Jumped(s, target, skipped, steps);
      IsGap(s'.kept, s'.lost, p)
  {
    var s' := Jumped(s, target, skipped, steps);
    if RR.IsKept(s.kept, p) {
      var i :| 0 <= i < |s.kept| && s.kept[i].at == p;
      assert s'.kept[i].at == p;
    }
  }

  /** What a walk does not report is past the gap recorded as lost. */
  lemma LostGap(s: State, target: nat, skipped: seq<nat>, steps: nat, p: int)
    requires RR.GapsOrdered(s) && s.passed <= p < s.passed + steps - |skipped|
    ensures
      var s' := Jumped(s, target, skipped, steps);
      IsGap(s'.kept, s'.lost, p)
  {}

  lemma AddedGap(s: State, target: nat, skipped: seq<nat>, steps: nat, p: int)
    requires |skipped| <= steps && s.passed + steps - |skipped| <= p < s.passed + steps
    ensures
      var s' := Jumped(s, target, skipped, steps);
      IsGap(s'.kept, s'.lost, p)
  {
    var first := s.passed + steps - |skipped|;
    RG.AddedAfter(skipped, first, s.last);
    var kept := Jumped(s, target, skipped, steps).kept;
    assert kept[|s.kept| + p - first] == SkippedFrom(skipped, first, s.last)[p - first];
  }

  lemma AddedOpen(passes: seq<nat>, target: nat, steps: nat, reported: nat, last: Option<nat>, open: set<int>)
    requires reported <= steps <= target && RR.Between(|passes|, |passes| + steps) <= open
    ensures KeptOpen(SkippedFrom(RR.Reported(target, reported), |passes| + steps - reported, last),
                     Stepped(passes, target, steps), open)
  {
    var skipped, first := RR.Reported(target, reported), |passes| + steps - reported;
    var added := SkippedFrom(skipped, first, last);
    RR.SkippedFromIs(skipped, first, last);
    forall box | box in added
      ensures 0 <= box.at < |passes| + steps && box.at in open && Stepped(passes, target, steps)[box.at] == box.index
    {
      var i :| 0 <= i < |added| && added[i] == box;
      assert box == Skipped(skipped[i], first + i, if i == 0 then last else Some(skipped[i - 1]));
    }
  }

  lemma KeptStillOpen(kept: seq<Skipped>, passes: seq<nat>, open: set<int>, passes': seq<nat>, open': set<int>)
    requires KeptOpen(kept, passes, open) && passes <= passes' && open <= open'
    ensures KeptOpen(kept, passes', open')
  {}

  lemma KeptOpenBoth(a: seq<Skipped>, b: seq<Skipped>, passes: seq<nat>, open: set<int>)
    requires KeptOpen(a, passes, open) && KeptOpen(b, passes, open)
    ensures KeptOpen(a + b, passes, open)
  {}

  /** Before a box the walk reports, only earlier ones are missing. */
  lemma AddedCovered(start: nat, top: nat, s: State, passes: seq<nat>, open: set<int>, read: set<nat>,
                     target: nat, steps: nat, reported: nat, k: nat)
    requires CoveredBelow(start, passes, open, read, top, s.passed) && |passes| == s.passed && Past(s.last) <= top
    requires k < reported <= steps <= target && target - steps <= top
    ensures
      var added := SkippedFrom(RR.Reported(target, reported), s.passed + steps - reported, s.last);
      && |added| == reported
      && CoveredBelow(start, Stepped(passes, target, steps), OpenWith(passes, open, steps), read,
                      Past(added[k].before), added[k].at)
  {
    var skipped, first := RR.Reported(target, reported), s.passed + steps - reported;
    RR.SkippedFromIs(skipped, first, s.last);
    if k == 0 {
      LastCovered(start, top, s, passes, open, read, target, steps, first);
    } else {
      SteppedCovered(start, top, passes, open, read, target, steps, skipped[k - 1] + 1, first + k);
    }
  }

  lemma LastCovered(start: nat, top: nat, s: State, passes: seq<nat>, open: set<int>, read: set<nat>,
                    target: nat, steps: nat, bound: int)
    requires CoveredBelow(start, passes, open, read, top, s.passed) && |passes| == s.passed && Past(s.last) <= top
    requires steps <= target && s.passed <= bound
    ensures CoveredBelow(start, Stepped(passes, target, steps), OpenWith(passes, open, steps), read,
                         Past(s.last), bound)
  {
    assert StaysOpen(passes, open, Stepped(passes, target, steps), OpenWith(passes, open, steps), read);
    StillCovered(start, passes, open, read, Past(s.last), s.passed,
                 Stepped(passes, target, steps), OpenWith(passes, open, steps), read, bound);
  }

  lemma JumpedCovered(start: nat, top: nat, s: State, passes: seq<nat>, open: set<int>, read: set<nat>,
                      target: nat, steps: nat, reported: nat)
    requires ReadingKept(start, top, s, passes, open, read)
    requires reported <= steps <= target && target - steps <= top
    ensures GapsCovered(start, Jumped(s, target, RR.Reported(target, reported), steps), Stepped(passes, target, steps),
                        OpenWith(passes, open, steps), read)
  {
    var skipped := RR.Reported(target, reported);
    var added, s' := SkippedFrom(skipped, s.passed + steps - reported, s.last), Jumped(s, target, skipped, steps);
    var passes', open' := Stepped(passes, target, steps), OpenWith(passes, open, steps);
    assert StaysOpen(passes, open, passes', open', read);
    GapsStillCovered(start, s, passes, open, read, passes', open', read);
    LastCovered(start, top, s, passes, open, read, target, steps, s.passed);
    RG.AddedAfter(skipped, s.passed + steps - reported, s.last);
    hide CoveredBelow, RR.GapsOrdered, KeptOpen, IsGap, Stepped, OpenWith, SkippedFrom;
    forall i | 0 <= i < |s'.kept|
      ensures CoveredBelow(start, passes', open', read, Past(s'.kept[i].before), s'.kept[i].at)
    {
      assert s'.kept[i] == if i < |s.kept| then s.kept[i] else added[i - |s.kept|];
      if i >= |s.kept| {
        AddedCovered(start, top, s, passes, open, read, target, steps, reported, i - |s.kept|);
      }
    }
  }

  lemma JumpedKept(start: nat, top: nat, s: State, passes: seq<nat>, open: set<int>, read: set<nat>,
                   target: nat, steps: nat, reported: nat)
    requires ReadingKept(start, top, s, passes, open, read)
    requires reported <= steps <= target && start <= target - steps <= top
    ensures ReadingKept(start, Max(top, target), Jumped(s, target, RR.Reported(target, reported), steps),
                        Stepped(passes, target, steps), OpenWith(passes, open, steps), read)
  {
    JumpedOpen(s, passes, open, target, steps, reported);
    JumpedCovered(start, top, s, passes, open, read, target, steps, reported);
    StepsCovered(start, top, passes, open, read, target, steps);
    hide GapsAreOpen, GapsCovered, CoveredBelow;
  }

  lemma StepsCovered(start: nat, top: nat, passes: seq<nat>, open: set<int>, read: set<nat>, target: nat, steps: nat)
    requires CoveredBelow(start, passes, open, read, top, |passes|)
    requires steps <= target && target - steps <= top
    ensures CoveredBelow(start, Stepped(passes, target, steps), OpenWith(passes, open, steps), read,
                         Max(top, target), |passes| + steps)
  {
    var passes', open' := Stepped(passes, target, steps), OpenWith(passes, open, steps);
    assert StaysOpen(passes, open, passes', open', read);
    SteppedCovered(start, top, passes, open, read, target, steps, target, |passes| + steps);
    StillCovered(start, passes, open, read, top, |passes|, passes', open', read, |passes| + steps);
  }

  // Every step.

  lemma EventKept(w: World, e: Event, window: nat)
    requires Inv(w) && Enabled(w, Reads(e))
    ensures
      var w' := After(w, Reads(e), window);
      ReadingKept(w'.start, w'.top, w'.s, w'.passes, w'.open, w'.read) && w.read <= w'.read
  {
    hide ReadingKept;
    match e
    case ReadAsked => SameKept(w.start, w.top, w.s, w.passes, w.open, w.read, Asked(w.s).0.mode, w.s.tried);
    case ScanAsked(heard) =>
      var s := Scanned(w.s, heard, window).0;
      SameKept(w.start, w.top, w.s, w.passes, w.open, w.read, s.mode, s.tried);
    case WalkEnded(target, skipped, steps) =>
      if target.Some? {
        WalkKept(w, target.value, steps, |skipped|, window);
      }
    case BoxRead(index, result, next) => BoxKept(w, index, result, next, window);
  }

  lemma SameKept(start: nat, top: nat, s: State, passes: seq<nat>, open: set<int>, read: set<nat>,
                 mode: Mode, tried: seq<nat>)
    requires ReadingKept(start, top, s, passes, open, read)
    ensures ReadingKept(start, top, s.(mode := mode, tried := tried), passes, open, read)
  {
    RG.SameRun(s, mode, tried);
    hide CoveredBelow, RR.GapsOrdered;
  }

  lemma WalkKept(w: World, target: nat, steps: nat, reported: nat, window: nat)
    requires ReadingKept(w.start, w.top, w.s, w.passes, w.open, w.read)
    requires reported <= steps <= target && w.start <= target - steps <= w.top
    ensures
      ReadingKept(w.start, Max(w.top, target), Walked(w.s, target, RR.Reported(target, reported), steps, window),
                  Stepped(w.passes, target, steps), OpenWith(w.passes, w.open, steps), w.read)
  {
    hide ReadingKept;
    JumpedKept(w.start, w.top, w.s, w.passes, w.open, w.read, target, steps, reported);
    ForgottenKept(w.start, Max(w.top, target), Jumped(w.s, target, RR.Reported(target, reported), steps),
                  Stepped(w.passes, target, steps), OpenWith(w.passes, w.open, steps), w.read, window);
  }

  lemma BoxKept(w: World, index: nat, result: Result, next: Option<nat>, window: nat)
    requires ReadingKept(w.start, w.top, w.s, w.passes, w.open, w.read)
    requires next.Some? ==> next.value == index + 1
    ensures
      var e := BoxRead(index, result, next);
      var w' := AfterEvent(w, e, window);
      ReadingKept(w'.start, w'.top, Handled(w.s, e, window), w'.passes, w'.open, w'.read) && w.read <= w'.read
  {
    hide ReadingKept;
    var i := Position(w.s.kept, index);
    if i < |w.s.kept| {
      TakenKept(w.start, w.top, w.s, w.passes, w.open, w.read, i);
    } else if Passes(w.s, BoxRead(index, result, next)) {
      var s := w.s.(last := Some(index), next := index + 1, passed := w.s.passed + 1);
      NextKept(w.start, w.top, w.s, w.passes, w.open, w.read);
      ForgottenKept(w.start, Max(w.top, index + 1), s, w.passes + [index], w.open, w.read + {index}, window);
    } else {
      var s := Found(w.s, index, result, next, window).0;
      SameKept(w.start, w.top, w.s, w.passes, w.open, w.read, s.mode, w.s.tried);
    }
  }

  lemma StepKept(w: World, step: Step, window: nat)
    requires Inv(w) && Enabled(w, step)
    ensures Inv(After(w, step, window)) && After(w, step, window).start == w.start
  {
    hide ReadingKept, AcksKept;
    match step
    case Reads(e) =>
      EventKept(w, e, window);
      AcksMore(w.start, w.read, After(w, step, window).read, w.acks);
    case Acknowledges(ack) =>
      RunSafe(w.start, w.top, w.s, w.passes, w.open, w.read);
      AcksStep(w.start, w.read, w.acks, ack, Run(w.s));
  }

  lemma {:induction false} RunKept(start: nat, steps: seq<Step>, window: nat)
    requires Possible(start, steps, window)
    ensures Inv(Reached(start, steps, window)) && Reached(start, steps, window).start == start
    decreases |steps|
  {
    if steps != [] {
      RunKept(start, steps[..|steps| - 1], window);
      StepKept(Reached(start, steps[..|steps| - 1], window), steps[|steps| - 1], window);
    }
  }

  /** Over any run, with walks found however late, every box from the first one
      through the end of the run was read, and so was every one through what is
      published. */
  lemma NeverPastUnread(start: nat, steps: seq<Step>, window: nat)
    requires Possible(start, steps, window)
    ensures
      var w := Reached(start, steps, window);
      AllRead(start, w.read, Run(w.s)) && AllRead(start, w.read, w.acks.published)
  {
    RunKept(start, steps, window);
    var w := Reached(start, steps, window);
    RunSafe(w.start, w.top, w.s, w.passes, w.open, w.read);
  }
}
