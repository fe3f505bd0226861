/**
  When the end of a reader's run goes back, and so what may be acknowledged:
  when the first gap is read again and nothing after it is as far on, or when a
  walk has taken the reader behind the last box it read in order.
 */
module RunRegress {
  import opened Basics
  import opened StreamReader
  import opened ReaderRuns

  predicate Behind(a: Option<nat>, b: Option<nat>) {
    b.Some? && (a.None? || a.value < b.value)
  }

  /** The first gap is read again. */
  predicate RereadsFirst(s: State, e: Event) {
    && e.BoxRead? && !e.result.NotFound?
    && s.kept != [] && e.index == s.kept[0].index
    && (s.lost.Some? ==> s.kept[0].at < s.lost.value.at)
  }

  /** The box before the gap after the first box kept, or the last one read if
      that is the only gap. */
  function BeforeNext(s: State): Option<nat>
    requires s.kept != []
  {
    if |s.kept| > 1 && (s.lost.Some? ==> s.kept[1].at < s.lost.value.at) then s.kept[1].before
    else if s.lost.Some? then s.lost.value.before
    else s.last
  }

  /** With no gap left, the next box is read, and it is behind the last one. */
  predicate ReadsBehind(s: State, e: Event) {
    && e.BoxRead? && !e.result.NotFound? && e.next.Some?
    && e.index == s.next && !s.mode.Idle?
    && s.kept == [] && s.lost.None? && Behind(Some(e.index), s.last)
  }

  predicate Regressive(s: State, e: Event) {
    ReadsBehind(s, e) || (RereadsFirst(s, e) && Behind(BeforeNext(s), s.kept[0].before))
  }

  /** A walk reports at most the boxes it stepped past, from wherever it
      started. */
  predicate Sensible(e: Event) {
    e.WalkEnded? && e.target.Some? ==> |e.skipped| <= e.steps
  }

  // The gaps of one state and the next.

  lemma RunIs(s: State, first: Gap)
    requires IsGap(s, first)
    requires forall gap | IsGap(s, gap) :: first.at <= gap.at && (gap.at == first.at ==> gap == first)
    ensures Run(s) == first.before
  {
    GapsAre(s);
    FirstOf(Gaps(s.kept, s.lost), first);
  }

  /** The box before the first gap, which is the first box kept or the one
      recorded as lost, or the last box read if there is none. */
  function BeforeFirst(s: State): Option<nat> {
    if s.kept != [] && (s.lost.Some? ==> s.kept[0].at < s.lost.value.at) then s.kept[0].before
    else if s.lost.Some? then s.lost.value.before
    else s.last
  }

  lemma RunOf(s: State)
    requires GapsOrdered(s)
    ensures Run(s) == BeforeFirst(s)
  {
    GapsApart(s);
    if s.kept != [] && (s.lost.Some? ==> s.kept[0].at < s.lost.value.at) {
      assert s.kept[0] in s.kept;
      RunIs(s, Gap(s.kept[0].at, s.kept[0].before));
    } else if s.lost.Some? {
      RunIs(s, s.lost.value);
    }
  }

  /** What a walk adds comes after every gap there was. */
  lemma AddedAfter(skipped: seq<nat>, first: int, last: Option<nat>)
    ensures
      var added := SkippedFrom(skipped, first, last);
      && |added| == |skipped| && (added != [] ==> added[0].before == last)
      && forall i | 0 <= i < |added| :: added[i].at == first + i
  {
    SkippedFromIs(skipped, first, last);
  }

  lemma JoinedAts(kept: seq<Skipped>, added: seq<Skipped>, passed: int, first: int)
    requires Ascends(kept) && forall i | 0 <= i < |kept| :: kept[i].at < passed
    requires passed <= first && forall i | 0 <= i < |added| :: added[i].at == first + i
    ensures Ascends(kept + added)
    ensures forall i | 0 <= i < |kept + added| ::
              if i < |kept| then (kept + added)[i] == kept[i]
              else first <= (kept + added)[i].at < first + |added|
  {
    AddedAscend(kept, added, passed, first);
    forall i | |kept| <= i < |kept + added|
      ensures first <= (kept + added)[i].at < first + |added|
    {
      assert (kept + added)[i] == added[i - |kept|];
    }
  }

  lemma JumpedOrdered(s: State, target: nat, skipped: seq<nat>, steps: nat)
    requires GapsOrdered(s) && |skipped| <= steps
    ensures GapsOrdered(Jumped(s, target, skipped, steps))
  {
    var first := s.passed + steps - |skipped|;
    var added := SkippedFrom(skipped, first, s.last);
    AddedAfter(skipped, first, s.last);
    hide SkippedFrom;
    JoinedAts(s.kept, added, s.passed, first);
  }

  lemma JumpedFirst(s: State, target: nat, skipped: seq<nat>, steps: nat)
    requires GapsOrdered(s) && |skipped| <= steps
    ensures BeforeFirst(Jumped(s, target, skipped, steps)) == BeforeFirst(s)
  {
    AddedAfter(skipped, s.passed + steps - |skipped|, s.last);
    hide SkippedFrom, Ascends;
  }

  /** The end of a walk leaves the run where it was, wherever it started and
      ended. */
  lemma WalkKeepsRun(s: State, target: nat, skipped: seq<nat>, steps: nat, window: nat)
    requires GapsOrdered(s) && |skipped| <= steps
    ensures
      var s' := Walked(s, target, skipped, steps, window);
      GapsOrdered(s') && Run(s') == Run(s)
  {
    var s' := Jumped(s, target, skipped, steps);
    JumpedOrdered(s, target, skipped, steps);
    JumpedFirst(s, target, skipped, steps);
    RunOf(s);
    RunOf(s');
    ForgettingKeepsRun(s', window);
  }

  /** Reading the next box moves the run there, forward or back, or leaves it
      at a gap. */
  lemma NextMovesRun(s: State, index: nat, next: nat, window: nat)
    requires GapsOrdered(s)
    ensures
      var s' := Forgotten(s.(last := Some(index), next := next, passed := s.passed + 1), window);
      && GapsOrdered(s')
      && Run(s') == if s.kept == [] && s.lost.None? then Some(index) else Run(s)
  {
    var s' := s.(last := Some(index), next := next, passed := s.passed + 1);
    RunOf(s);
    RunOf(s');
    ForgettingKeepsRun(s', window);
  }

  lemma TakenOrdered(s: State, i: nat)
    requires GapsOrdered(s) && i < |s.kept|
    ensures GapsOrdered(s.(kept := s.kept[..i] + s.kept[i + 1..]))
    ensures BeforeFirst(s.(kept := s.kept[..i] + s.kept[i + 1..])) ==
            if i == 0 && (s.lost.Some? ==> s.kept[0].at < s.lost.value.at) then BeforeNext(s) else BeforeFirst(s)
  {}

  lemma RecheckMovesRun(s: State, i: nat)
    requires GapsOrdered(s) && i < |s.kept|
    ensures
      var s' := s.(kept := s.kept[..i] + s.kept[i + 1..]);
      && GapsOrdered(s')
      && if i == 0 && (s.lost.Some? ==> s.kept[0].at < s.lost.value.at)
         then Run(s') == BeforeNext(s) && Run(s) == s.kept[0].before
         else Run(s') == Run(s)
  {
    TakenOrdered(s, i);
    RunOf(s);
    RunOf(s.(kept := s.kept[..i] + s.kept[i + 1..]));
  }

  lemma FirstPosition(kept: seq<Skipped>, index: nat)
    ensures kept != [] && index == kept[0].index <==> Position(kept, index) == 0 && kept != []
  {}

  lemma SameRun(s: State, mode: Mode, tried: seq<nat>)
    requires GapsOrdered(s)
    ensures
      var s' := s.(mode := mode, tried := tried);
      GapsOrdered(s') && Run(s') == Run(s)
  {}

  lemma BoxMovesRun(s: State, index: nat, result: Result, next: Option<nat>, window: nat)
    requires GapsOrdered(s)
    ensures
      var e, s' := BoxRead(index, result, next), Found(s, index, result, next, window).0;
      GapsOrdered(s') && (Behind(Run(s'), Run(s)) <==> Regressive(s, e))
  {
    hide Run, BeforeNext, GapsOrdered, Forgotten;
    var i, s' := Position(s.kept, index), Found(s, index, result, next, window).0;
    FirstPosition(s.kept, index);
    if i < |s.kept| && !result.NotFound? {
      RecheckMovesRun(s, i);
    } else if i == |s.kept| && index == s.next && !s.mode.Idle? && !result.NotFound? && next.Some? {
      NextMovesRun(s, index, next.value, window);
      NoGapRun(s);
    } else {
      SameRun(s, s'.mode, s.tried);
    }
  }

  lemma NoGapRun(s: State)
    ensures s.kept == [] && s.lost.None? ==> Run(s) == s.last
  {}

  /** Exactly when the run goes back, whatever the reader is given: the first
      gap is read again, and the box before the next gap, or the last one read
      if there is none, is behind the one before it; or there is no gap, and
      the box read is behind the last one. */
  lemma StepTakesRunBack(s: State, e: Event, window: nat)
    requires GapsOrdered(s) && Sensible(e)
    ensures GapsOrdered(Handled(s, e, window))
    ensures Behind(Run(Handled(s, e, window)), Run(s)) <==> Regressive(s, e)
  {
    hide Run, BeforeNext, GapsOrdered, Found, Walked;
    match e
    case ReadAsked => SameRun(s, Asked(s).0.mode, s.tried);
    case ScanAsked(heard) => SameRun(s, Scanned(s, heard, window).0.mode, Scanned(s, heard, window).0.tried);
    case WalkEnded(target, skipped, steps) =>
      if target.Some? {
        WalkKeepsRun(s, target.value, skipped, steps, window);
      }
    case BoxRead(index, result, next) => BoxMovesRun(s, index, result, next, window);
  }

  // Runs, walks found late included.

  predicate AllSensible(events: seq<Event>) {
    forall k | 0 <= k < |events| :: Sensible(events[k])
  }

  /** A new reader after the events. */
  function StateAfter(start: nat, events: seq<Event>, window: nat): State {
    if events == [] then Begin(start).s
    else Handled(StateAfter(start, events[..|events| - 1], window), events[|events| - 1], window)
  }

  function RunAfter(start: nat, events: seq<Event>, n: nat, window: nat): Option<nat>
    requires n <= |events|
  {
    Run(StateAfter(start, events[..n], window))
  }

  predicate Regresses(start: nat, events: seq<Event>, k: nat, window: nat)
    requires k < |events|
  {
    Regressive(StateAfter(start, events[..k], window), events[k])
  }

  lemma {:induction false} AlwaysOrdered(start: nat, events: seq<Event>, window: nat)
    requires AllSensible(events)
    ensures GapsOrdered(StateAfter(start, events, window))
  {
    if events != [] {
      AlwaysOrdered(start, events[..|events| - 1], window);
      StepTakesRunBack(StateAfter(start, events[..|events| - 1], window), events[|events| - 1], window);
    }
  }

  lemma NextRun(start: nat, events: seq<Event>, k: nat, window: nat)
    requires AllSensible(events) && k < |events|
    ensures Behind(RunAfter(start, events, k + 1, window), RunAfter(start, events, k, window)) <==>
            Regresses(start, events, k, window)
  {
    hide Run, Regressive, Handled, GapsOrdered;
    assert events[..k + 1][..k] == events[..k];
    AlwaysOrdered(start, events[..k], window);
    StepTakesRunBack(StateAfter(start, events[..k], window), events[k], window);
  }

  lemma {:induction false} RunsForward(start: nat, events: seq<Event>, i: nat, j: nat, window: nat)
    requires AllSensible(events) && i <= j <= |events|
    requires forall k | i <= k < j :: !Regresses(start, events, k, window)
    ensures !Behind(RunAfter(start, events, j, window), RunAfter(start, events, i, window))
    decreases j
  {
    hide RunAfter, Regresses;
    if i < j {
      RunsForward(start, events, i, j - 1, window);
      NextRun(start, events, j - 1, window);
    }
  }

  /** Over any run, with walks found however late, the end of the reader's run
      goes back somewhere between two moments exactly if such an event is
      between them. */
  lemma RunGoesBackExactly(start: nat, events: seq<Event>, n: nat, m: nat, window: nat)
    requires AllSensible(events) && n <= m <= |events|
    ensures (exists k | n <= k < m :: Regresses(start, events, k, window)) <==>
            exists i, j | n <= i <= j <= m ::
              Behind(RunAfter(start, events, j, window), RunAfter(start, events, i, window))
  {
    hide RunAfter, Regresses;
    if k :| n <= k < m && Regresses(start, events, k, window) {
      NextRun(start, events, k, window);
      assert Behind(RunAfter(start, events, k + 1, window), RunAfter(start, events, k, window));
    } else {
      forall i, j | n <= i <= j <= m
        ensures !Behind(RunAfter(start, events, j, window), RunAfter(start, events, i, window))
      {
        RunsForward(start, events, i, j, window);
      }
    }
  }

  // Runs whose walks are found from the box the reader is at.

  /** What a step of `ReaderRuns` gives the reader, if anything. */
  function EventOf(s: State, step: Step): Option<Event> {
    match step
    case Ask => Some(ReadAsked)
    case Scan(heard) => Some(ScanAsked(heard))
    case WalkFails => Some(WalkEnded(None, [], 0))
    case WalkFinds(steps, reported) =>
      if reported > steps then None
      else Some(WalkEnded(Some(s.next + steps), Reported(s.next + steps, reported), steps))
    case Answer(index, result, more) => Some(BoxRead(index, result, if more then Some(index + 1) else None))
    case _ => None
  }

  lemma StepIsEvent(w: World, step: Step, window: nat)
    requires Enabled(w, step)
    ensures
      var e := EventOf(w.s, step);
      && (e.Some? ==> Sensible(e.value))
      && After(w, step, window).s == if e.Some? then Handled(w.s, e.value, window) else w.s
  {}

  /** The step reads the only gap again, and the last box read in order is
      behind the one before it. */
  predicate RereadsOnly(s: State, step: Step) {
    && step.Answer? && !step.result.NotFound?
    && |s.kept| == 1 && s.lost.None? && step.index == s.kept[0].index
    && Behind(s.last, s.kept[0].before)
  }

  lemma TightRereadsOnly(w: World, step: Step)
    requires Positions(w.start, w.s, w.read, w.lost) && Tight(w.start, w.s)
    ensures
      var e := EventOf(w.s, step);
      e.Some? && Regressive(w.s, e.value) <==> RereadsOnly(w.s, step)
  {
    if w.s.kept != [] {
      assert w.s.kept[0] in w.s.kept;
      if |w.s.kept| > 1 {
        assert w.s.kept[1] in w.s.kept && w.s.kept[0].at < w.s.kept[1].at;
      }
    }
  }

  lemma {:induction false} EarlierFromOrder(start: nat, steps: seq<Step>, n: nat, window: nat)
    requires Possible(start, steps, window) && WalksFromOrder(start, steps, window) && n <= |steps|
    ensures Possible(start, steps[..n], window) && WalksFromOrder(start, steps[..n], window)
    decreases |steps|
  {
    if n == |steps| {
      assert steps[..n] == steps;
    } else {
      EarlierFromOrder(start, steps[..|steps| - 1], n, window);
      assert steps[..|steps| - 1][..n] == steps[..n];
    }
  }

  lemma TightStep(w: World, step: Step, window: nat)
    requires Positions(w.start, w.s, w.read, w.lost) && Tight(w.start, w.s) && Enabled(w, step)
    ensures Behind(Run(After(w, step, window).s), Run(w.s)) <==> RereadsOnly(w.s, step)
  {
    hide Positions, Tight, Run, Regressive, Handled, After, RereadsOnly, GapsOrdered;
    var e := EventOf(w.s, step);
    PositionsOrdered(w.start, w.s, w.read, w.lost);
    StepIsEvent(w, step, window);
    TightRereadsOnly(w, step);
    if e.Some? {
      StepTakesRunBack(w.s, e.value, window);
    }
  }

  /** Where every walk starts right after a box read in order, and is found from
      there, one case is left: the only gap is read again. */
  lemma OnlyGapTakesRunBack(start: nat, steps: seq<Step>, k: nat, window: nat)
    requires Possible(start, steps, window) && WalksFromOrder(start, steps, window) && k < |steps|
    ensures
      var w, w' := Moment(start, steps, k, window), Moment(start, steps, k + 1, window);
      Behind(Run(w'.s), Run(w.s)) <==> RereadsOnly(w.s, steps[k])
  {
    hide Run, RereadsOnly, After;
    EarlierFromOrder(start, steps, k, window);
    RunTight(start, steps[..k], window);
    MomentKept(start, steps, k, window);
    MomentNext(start, steps, k, window);
    TightStep(Moment(start, steps, k, window), steps[k], window);
  }

  // That it happens.

  lemma ReachedNext(start: nat, steps: seq<Step>, step: Step, window: nat)
    requires Possible(start, steps, window) && Enabled(Reached(start, steps, window), step)
    ensures Possible(start, steps + [step], window)
    ensures Reached(start, steps + [step], window) == After(Reached(start, steps, window), step, window)
    ensures WalksFromOrder(start, steps, window)
            && (step.WalkFinds? ==> InOrder(Reached(start, steps, window))) ==>
              WalksFromOrder(start, steps + [step], window)
  {
    assert (steps + [step])[..|steps|] == steps;
  }

  lemma {:induction false} KeptAll(kept: seq<Skipped>, bound: int)
    requires Within(kept, bound)
    ensures KeptFrom(kept, bound) == kept && LoseBelow(None, kept, bound) == None
  {
    if kept != [] {
      KeptAll(kept[..|kept| - 1], bound);
      assert kept == kept[..|kept| - 1] + [kept[|kept| - 1]];
    }
  }

  /** A reader that read box 0, then stepped past boxes 1 and 2 to box 3, and
      then read those again, one by one. */
  const READ_ONE := State(1, Some(0), 1, [], None, Reading, [])
  const JUMPED := State(3, Some(0), 3, [Skipped(1, 1, Some(0)), Skipped(2, 2, Some(1))], None, Reading, [])
  const READ_TWO := State(3, Some(0), 3, [Skipped(2, 2, Some(1))], None, Reading, [])
  const READ_ALL := State(3, Some(0), 3, [], None, Reading, [])

  const TO_ONE := [Ask, Answer(0, Data, true)]
  const TO_JUMP := TO_ONE + [WalkFinds(2, 2)]
  const TO_TWO := TO_JUMP + [Answer(1, Data, true)]
  const TO_ALL := TO_TWO + [Answer(2, Data, true)]

  lemma ReachesOne()
    ensures Possible(0, TO_ONE, 8) && WalksFromOrder(0, TO_ONE, 8)
    ensures Reached(0, TO_ONE, 8).s == READ_ONE && Reached(0, TO_ONE, 8).handed == [0]
  {
    ReachedNext(0, [], Ask, 8);
    assert [] + [Ask] == [Ask] && [Ask] + [Answer(0, Data, true)] == TO_ONE;
    ReachedNext(0, [Ask], Answer(0, Data, true), 8);
  }

  lemma JumpedFrom()
    ensures Forgotten(JumpedBy(READ_ONE, 2, 2), 8) == JUMPED
  {
    SkippedFromIs(Reported(3, 2), 1, Some(0));
    assert Reported(3, 2) == [1, 2];
    assert SkippedFrom([1, 2], 1, Some(0)) == JUMPED.kept;
    assert READ_ONE.kept + JUMPED.kept == JUMPED.kept;
    KeptAll(JUMPED.kept, -5);
  }

  lemma ReachesJump()
    ensures Possible(0, TO_JUMP, 8) && WalksFromOrder(0, TO_JUMP, 8) && Reached(0, TO_JUMP, 8).s == JUMPED
  {
    ReachesOne();
    RunKept(0, TO_ONE, 8);
    ReachedNext(0, TO_ONE, WalkFinds(2, 2), 8);
    JumpedFrom();
  }

  lemma ReachesTwo()
    ensures Possible(0, TO_TWO, 8) && WalksFromOrder(0, TO_TWO, 8) && Reached(0, TO_TWO, 8).s == READ_TWO
  {
    ReachesJump();
    ReachedNext(0, TO_JUMP, Answer(1, Data, true), 8);
  }

  lemma ReachesAll()
    ensures Possible(0, TO_ALL, 8) && WalksFromOrder(0, TO_ALL, 8) && Reached(0, TO_ALL, 8).s == READ_ALL
  {
    ReachesTwo();
    ReachedNext(0, TO_TWO, Answer(2, Data, true), 8);
  }

  /** It happens: with every walk started right after a box read in order, once
      box 1 is read again the run is at box 1, and once box 2 is too it is back
      at box 0. */
  lemma RunGoesBack()
    ensures Possible(0, TO_TWO, 8) && Run(Reached(0, TO_TWO, 8).s) == Some(1)
    ensures Possible(0, TO_ALL, 8) && Run(Reached(0, TO_ALL, 8).s) == Some(0)
    ensures TO_TWO < TO_ALL && WalksFromOrder(0, TO_ALL, 8)
  {
    ReachesTwo();
    ReachesAll();
    assert Run(READ_TWO) == Some(1) && Run(READ_ALL) == Some(0);
  }

  lemma NextState(start: nat, events: seq<Event>, e: Event, window: nat)
    ensures StateAfter(start, events + [e], window) == Handled(StateAfter(start, events, window), e, window)
  {
    assert (events + [e])[..|events|] == events;
  }

  const READ_THREE :=
    [ReadAsked] + [BoxRead(0, Tombstone, Some(1))] + [BoxRead(1, Tombstone, Some(2))]
    + [BoxRead(2, Tombstone, Some(3))]
  const WALKED_LATE := READ_THREE + [WalkEnded(Some(1), [0], 1)]
  const REREAD := WALKED_LATE + [BoxRead(0, Tombstone, Some(1))]
  const READ_BACK := REREAD + [BoxRead(1, Tombstone, Some(2))]

  function InOrderTo(n: nat): State {
    State(n, if n == 0 then None else Some(n - 1), n, [], None, Reading, [])
  }

  lemma ReadsOneMore(events: seq<Event>, n: nat)
    requires StateAfter(0, events, 8) == InOrderTo(n)
    ensures StateAfter(0, events + [BoxRead(n, Tombstone, Some(n + 1))], 8) == InOrderTo(n + 1)
  {
    NextState(0, events, BoxRead(n, Tombstone, Some(n + 1)), 8);
    hide StateAfter;
  }

  lemma ReadsThree()
    ensures StateAfter(0, READ_THREE, 8) == InOrderTo(3)
  {
    var asked := [ReadAsked];
    var one := asked + [BoxRead(0, Tombstone, Some(1))];
    assert [] + [ReadAsked] == asked;
    NextState(0, [], ReadAsked, 8);
    hide InOrderTo;
    AskedIs();
    ReadsOneMore(asked, 0);
    ReadsOneMore(one, 1);
    ReadsOneMore(one + [BoxRead(1, Tombstone, Some(2))], 2);
  }

  lemma AskedIs()
    ensures Handled(StateAfter(0, [], 8), ReadAsked, 8) == InOrderTo(0)
  {}

  lemma WalksLate()
    ensures StateAfter(0, WALKED_LATE, 8) == State(1, Some(2), 4, [Skipped(0, 3, Some(2))], None, Reading, [])
  {
    var box := Skipped(0, 3, Some(2));
    ReadsThree();
    NextState(0, READ_THREE, WalkEnded(Some(1), [0], 1), 8);
    SkippedFromIs([0], 3, Some(2));
    assert SkippedFrom([0], 3, Some(2)) == [box] && [] + [box] == [box];
    KeptAll([box], -4);
  }

  lemma RereadsAndGoesBack()
    ensures StateAfter(0, REREAD, 8) == State(1, Some(2), 4, [], None, Reading, [])
    ensures StateAfter(0, READ_BACK, 8) == State(2, Some(1), 5, [], None, Reading, [])
  {
    WalksLate();
    NextState(0, WALKED_LATE, BoxRead(0, Tombstone, Some(1)), 8);
    NextState(0, REREAD, BoxRead(1, Tombstone, Some(2)), 8);
    hide StateAfter;
  }

  /** It happens after a late walk with no gap left: boxes 0, 1 and 2 are read as
      tombstones, a walk from box 0 ends at box 1 and has box 0 read again, and
      then box 1 is. Nothing is handed out twice. */
  lemma LateWalkTakesRunBack()
    ensures AllSensible(READ_BACK) && REREAD < READ_BACK
    ensures Run(StateAfter(0, REREAD, 8)) == Some(2) && Run(StateAfter(0, READ_BACK, 8)) == Some(1)
  {
    RereadsAndGoesBack();
    hide StateAfter;
  }
}
