/**
  A reader and what it has asked for. What is asked is answered in any order and
  however late. A reader that is not idle has its next box or a walk to wait
  for, unless an answer for its next box was taken for a kept one; and one that
  came to the end of its stream asks for the same box when it is asked to read.
 */
module ReaderAsks {
  import opened Basics
  import opened StreamReader
  import RR = ReaderRuns
  import RG = RunRegress

  /** `due` is what was asked for and not answered. */
  datatype Asking = Asking(s: State, due: multiset<Effect>)

  /** What the reader is given, and which request it answers. */
  datatype Move = Move(e: Event, answered: Option<Effect>)

  /** A walk that found a target reports the last boxes before it; a box's
      successor is the next one. */
  predicate Answers(request: Effect, e: Event) {
    match e
    case BoxRead(index, _, next) =>
      request.ReadBox? && request.index == index && (next.Some? ==> next.value == index + 1)
    case WalkEnded(target, skipped, steps) =>
      && request.Walk?
      && (target.Some? ==>
            && target.value in request.targets && request.start < target.value && steps == target.value - request.start
            && |skipped| <= steps && skipped == RR.Reported(target.value, |skipped|))
    case _ => false
  }

  predicate Enabled(a: Asking, move: Move) {
    match move.answered
    case None => move.e.ReadAsked? || move.e.ScanAsked?
    case Some(request) => request in a.due && Answers(request, move.e)
  }

  function StillDue(a: Asking, move: Move): multiset<Effect> {
    if move.answered.Some? then a.due - multiset{move.answered.value} else a.due
  }

  function After(a: Asking, move: Move, window: nat): Asking {
    Asking(Handled(a.s, move.e, window), StillDue(a, move) + multiset(Requests(a.s, move.e, window)))
  }

  function Begin(start: nat): Asking {
    Asking(RR.Begin(start).s, multiset{})
  }

  predicate Possible(start: nat, moves: seq<Move>, window: nat)
    decreases |moves|
  {
    moves == [] ||
    (Possible(start, moves[..|moves| - 1], window)
     && Enabled(Reached(start, moves[..|moves| - 1], window), moves[|moves| - 1]))
  }

  function Reached(start: nat, moves: seq<Move>, window: nat): Asking
    decreases |moves|
  {
    if moves == [] then Begin(start)
    else After(Reached(start, moves[..|moves| - 1], window), moves[|moves| - 1], window)
  }

  // Working and waiting.

  predicate IsKept(kept: seq<Skipped>, index: nat) {
    exists i :: 0 <= i < |kept| && kept[i].index == index
  }

  /** Something is still to come that makes the reader go on. */
  predicate Waits(next: nat, due: multiset<Effect>) {
    ReadBox(next, false) in due || exists request :: request in due && request.Walk?
  }

  /** A reader that is not idle waits for something. */
  predicate Working(a: Asking) {
    a.s.mode.Idle? || Waits(a.s.next, a.due)
  }

  /** The answer for the next box is taken for that of a kept one, and nothing
      else is on its way. */
  predicate Stalls(a: Asking, move: Move) {
    && move.e.BoxRead? && move.e.index == a.s.next && !a.s.mode.Idle? && IsKept(a.s.kept, a.s.next)
    && !Waits(a.s.next, StillDue(a, move))
  }

  lemma PositionKept(kept: seq<Skipped>, index: nat)
    ensures Position(kept, index) < |kept| <==> IsKept(kept, index)
  {}

  /** A step leaves a reader at work with nothing to wait for exactly if it is
      such an answer. */
  lemma StallsExactly(a: Asking, move: Move, window: nat)
    requires Working(a) && Enabled(a, move)
    ensures !Working(After(a, move, window)) <==> Stalls(a, move)
  {
    match move.e
    case ReadAsked =>
    case ScanAsked(heard) => ScanWaits(a, heard, window);
    case WalkEnded(_, _, _) => assert ReadBox(After(a, move, window).s.next, false) in After(a, move, window).due;
    case BoxRead(index, result, next) => BoxWaits(a, move, window);
  }

  lemma ScanWaits(a: Asking, heard: seq<nat>, window: nat)
    ensures Waits(a.s.next, multiset(Requests(a.s, ScanAsked(heard), window)))
  {
    var requests := Requests(a.s, ScanAsked(heard), window);
    var last := requests[|requests| - 1];
    ScanAsks(a.s, heard, window);
    assert last in requests;
    assert last in multiset(requests);
  }

  lemma BoxWaits(a: Asking, move: Move, window: nat)
    requires Working(a) && Enabled(a, move) && move.e.BoxRead?
    ensures !Working(After(a, move, window)) <==> Stalls(a, move)
  {
    var a' := After(a, move, window);
    PositionKept(a.s.kept, move.e.index);
    hide Forgotten, Position;
    if move.e.index == a.s.next && !a.s.mode.Idle? && !IsKept(a.s.kept, move.e.index) {
      assert a'.s.mode.Idle? || ReadBox(a'.s.next, false) in a'.due;
    } else {
      assert a'.due == StillDue(a, move) && a'.s.mode == a.s.mode && a'.s.next == a.s.next;
      hide After;
      if move.e.index != a.s.next && Waits(a.s.next, a.due) {
        OthersStillDue(a, move);
      }
    }
  }

  /** An answer for another box takes away nothing that is waited for. */
  lemma OthersStillDue(a: Asking, move: Move)
    requires Enabled(a, move) && move.e.BoxRead? && move.e.index != a.s.next && Waits(a.s.next, a.due)
    ensures Waits(a.s.next, StillDue(a, move))
  {
    if request :| request in a.due && request.Walk? {
      assert request in StillDue(a, move);
    }
  }

  // Runs.

  lemma {:induction false} EarlierPossible(start: nat, moves: seq<Move>, n: nat, window: nat)
    requires Possible(start, moves, window) && n <= |moves|
    ensures Possible(start, moves[..n], window)
    decreases |moves|
  {
    if n == |moves| {
      assert moves[..n] == moves;
    } else {
      EarlierPossible(start, moves[..|moves| - 1], n, window);
      assert moves[..|moves| - 1][..n] == moves[..n];
    }
  }

  /** The reader after the first `n` moves. */
  function Moment(start: nat, moves: seq<Move>, n: nat, window: nat): Asking
    requires n <= |moves|
  {
    Reached(start, moves[..n], window)
  }

  lemma MomentNext(start: nat, moves: seq<Move>, n: nat, window: nat)
    requires Possible(start, moves, window) && n < |moves|
    ensures
      var a := Moment(start, moves, n, window);
      Enabled(a, moves[n]) && Moment(start, moves, n + 1, window) == After(a, moves[n], window)
  {
    EarlierPossible(start, moves, n + 1, window);
    assert moves[..n + 1][..n] == moves[..n];
  }

  /** Each walk that found its target is reported while the reader is where the
      walk began. */
  predicate Prompt(start: nat, moves: seq<Move>, window: nat)
    decreases |moves|
  {
    moves == [] ||
    (&& Prompt(start, moves[..|moves| - 1], window)
     && var move, a := moves[|moves| - 1], Reached(start, moves[..|moves| - 1], window);
     move.e.WalkEnded? && move.e.target.Some? && move.answered.Some? && move.answered.value.Walk? ==>
       move.answered.value.start == a.s.next)
  }

  predicate KeptBehind(s: State) {
    forall i | 0 <= i < |s.kept| :: s.kept[i].index < s.next
  }

  lemma ForgottenBehind(s: State, window: nat)
    requires KeptBehind(s)
    ensures KeptBehind(Forgotten(s, window))
  {
    var kept := KeptFrom(s.kept, s.passed - window);
    RR.KeptFromIn(s.kept, s.passed - window);
    forall i | 0 <= i < |kept|
      ensures kept[i].index < s.next
    {
      assert kept[i] in kept;
    }
  }

  lemma WalkBehind(s: State, target: nat, skipped: seq<nat>, steps: nat, window: nat)
    requires KeptBehind(s) && s.next < target && |skipped| <= steps <= target
    requires skipped == RR.Reported(target, |skipped|)
    ensures KeptBehind(Walked(s, target, skipped, steps, window))
  {
    var jumped := Jumped(s, target, skipped, steps);
    var added := SkippedFrom(skipped, s.passed + steps - |skipped|, s.last);
    RR.SkippedFromIs(skipped, s.passed + steps - |skipped|, s.last);
    forall i | 0 <= i < |jumped.kept|
      ensures jumped.kept[i].index < target
    {
      if i >= |s.kept| {
        var k := i - |s.kept|;
        assert jumped.kept[i] == added[k];
        assert added[k] == Skipped(skipped[k], s.passed + steps - |skipped| + k,
                                   if k == 0 then s.last else Some(skipped[k - 1]));
        assert RR.Reported(target, |skipped|)[k] == target - |skipped| + k;
      }
    }
    ForgottenBehind(jumped, window);
  }

  lemma NextBehind(s: State, window: nat)
    requires KeptBehind(s)
    ensures KeptBehind(Forgotten(s.(last := Some(s.next), next := s.next + 1, passed := s.passed + 1), window))
  {
    ForgottenBehind(s.(last := Some(s.next), next := s.next + 1, passed := s.passed + 1), window);
  }

  lemma StepBehind(a: Asking, move: Move, window: nat)
    requires KeptBehind(a.s) && Enabled(a, move)
    requires move.e.WalkEnded? && move.e.target.Some? ==> move.answered.value.start == a.s.next
    ensures KeptBehind(After(a, move, window).s)
  {
    hide Forgotten;
    match move.e
    case ReadAsked =>
    case ScanAsked(_) =>
    case WalkEnded(target, skipped, steps) =>
      if target.Some? {
        WalkBehind(a.s, target.value, skipped, steps, window);
      }
    case BoxRead(index, result, next) => NextBehind(a.s, window);
  }

  /** Over any run with walks reported in time, a reader that is not idle has its
      next box or a walk to wait for, and so has every reader just asked to
      read. */
  lemma {:induction false} WorkingIsAsking(start: nat, moves: seq<Move>, window: nat)
    requires Possible(start, moves, window) && Prompt(start, moves, window)
    ensures
      var a := Reached(start, moves, window);
      && Working(a) && KeptBehind(a.s)
      && (moves != [] && moves[|moves| - 1].e.ReadAsked? ==> !a.s.mode.Idle? && Waits(a.s.next, a.due))
    decreases |moves|
  {
    if moves != [] {
      var front, move := moves[..|moves| - 1], moves[|moves| - 1];
      WorkingIsAsking(start, front, window);
      var a := Reached(start, front, window);
      StallsExactly(a, move, window);
      StepBehind(a, move, window);
    }
  }

  // The end of the stream.

  /** The next box was not there, or had no successor. */
  predicate EndReached(s: State, e: Event) {
    && e.BoxRead? && e.index == s.next && !s.mode.Idle? && !IsKept(s.kept, s.next)
    && (e.result.NotFound? || e.next.None?)
  }

  /** Nothing that sets an idle reader to work. */
  predicate Quiet(e: Event) {
    e.BoxRead? || (e.WalkEnded? && e.target.None?)
  }

  lemma QuietStaysIdle(s: State, e: Event, window: nat)
    requires s.mode.Idle? && Quiet(e)
    ensures Handled(s, e, window).mode.Idle? && Handled(s, e, window).next == s.next
  {}

  lemma EndIdles(s: State, e: Event, window: nat)
    requires EndReached(s, e)
    ensures Handled(s, e, window) == s.(mode := Idle) && Requests(s, e, window) == []
  {
    PositionKept(s.kept, s.next);
  }

  lemma {:induction false} IdleSince(start: nat, moves: seq<Move>, n: nat, m: nat, window: nat)
    requires Possible(start, moves, window) && n < m <= |moves|
    requires EndReached(Moment(start, moves, n, window).s, moves[n].e)
    requires forall k | n < k < m :: Quiet(moves[k].e)
    ensures
      var s := Moment(start, moves, m, window).s;
      s.mode.Idle? && s.next == Moment(start, moves, n, window).s.next
    decreases m
  {
    hide Moment, Handled, EndReached, Quiet, Possible, Enabled, Requests, StillDue;
    MomentNext(start, moves, m - 1, window);
    if m == n + 1 {
      EndIdles(Moment(start, moves, n, window).s, moves[n].e, window);
    } else {
      IdleSince(start, moves, n, m - 1, window);
      QuietStaysIdle(Moment(start, moves, m - 1, window).s, moves[m - 1].e, window);
    }
  }

  /** Once the box a reader is at is answered as not there, or without a
      successor, nothing else changes and the reader is idle at that box until
      it is asked to read or scan, or a walk is found; and then asking it to
      read asks for exactly that box again. */
  lemma EndAskedAgain(start: nat, moves: seq<Move>, n: nat, m: nat, window: nat)
    requires Possible(start, moves, window) && n < m < |moves|
    requires EndReached(Moment(start, moves, n, window).s, moves[n].e)
    requires (forall k | n < k < m :: Quiet(moves[k].e)) && moves[m] == Move(ReadAsked, None)
    ensures
      var s := Moment(start, moves, n, window).s;
      var a, a' := Moment(start, moves, m, window), Moment(start, moves, m + 1, window);
      && Moment(start, moves, n + 1, window).s == s.(mode := Idle)
      && a.s.mode.Idle? && a.s.next == s.next
      && a'.s == a.s.(mode := Reading) && a'.due == a.due + multiset{ReadBox(s.next, false)}
  {
    hide Moment;
    MomentNext(start, moves, n, window);
    EndIdles(Moment(start, moves, n, window).s, moves[n].e, window);
    IdleSince(start, moves, n, m, window);
    MomentNext(start, moves, m, window);
    hide Possible, EndReached, Quiet;
  }

  // A late walk can stall a reader.

  lemma ReachedNext(start: nat, moves: seq<Move>, move: Move, window: nat)
    ensures Reached(start, moves + [move], window) == After(Reached(start, moves, window), move, window)
    ensures Possible(start, moves, window) && Enabled(Reached(start, moves, window), move) ==>
              Possible(start, moves + [move], window)
  {
    assert (moves + [move])[..|moves|] == moves;
  }

  /** Two scans before either's walk ends, the farther found first; then the
      boxes asked for are read. */
  const FAR := Walk(0, [2], 8)
  const NEAR := Walk(0, [1], 8)
  const STALLING: seq<Move> := [
    Move(ScanAsked([2]), None),
    Move(ScanAsked([1]), None),
    Move(WalkEnded(Some(2), [0, 1], 2), Some(FAR)),
    Move(WalkEnded(Some(1), [0], 1), Some(NEAR)),
    Move(BoxRead(1, Data, Some(2)), Some(ReadBox(1, false))),
    Move(BoxRead(2, Data, Some(3)), Some(ReadBox(2, false)))]

  /** What they lead to, one after the other. */
  const SCANNED_FAR := State(0, None, 0, [], None, Scanning, [2])
  const SCANNED_NEAR := State(0, None, 0, [], None, Scanning, [1])
  const FAR_FOUND := State(2, None, 2, [Skipped(0, 0, None), Skipped(1, 1, Some(0))], None, Scanning, [1])
  const NEAR_FOUND :=
    State(1, None, 3, [Skipped(0, 0, None), Skipped(1, 1, Some(0)), Skipped(0, 2, None)], None, Scanning, [1])
  const NEXT_TAKEN := State(1, None, 3, [Skipped(0, 0, None), Skipped(0, 2, None)], None, Scanning, [1])

  lemma ScanFinds(s: State, target: nat)
    requires s.next == 0 && s.kept == [] && target > 0 && |s.tried| <= 1 && target !in s.tried
    ensures Scanned(s, [target], 8) == (s.(mode := Scanning, tried := [target]), [Walk(0, [target], 8)])
  {
    var tried, targets := StillTried(s.tried, [target], 0), Ahead([target], 0, []);
    DistinctWithin(tried, []);
    DistinctWithin(targets, [target]);
    assert target in targets && targets[0] in targets;
    assert tried == [] && targets == [target] && Rechecks([]) == [];
    assert Scanned(s, [target], 8).0.tried == [] + [target] == [target];
    assert Scanned(s, [target], 8).1 == [] + [Walk(0, [target], 8)] == [Walk(0, [target], 8)];
  }

  lemma ScansLead()
    ensures Scanned(Begin(0).s, [2], 8) == (SCANNED_FAR, [FAR])
    ensures Scanned(SCANNED_FAR, [1], 8) == (SCANNED_NEAR, [NEAR])
  {
    ScanFinds(Begin(0).s, 2);
    ScanFinds(SCANNED_FAR, 1);
  }

  lemma WalksLead()
    ensures Walked(SCANNED_NEAR, 2, [0, 1], 2, 8) == FAR_FOUND
    ensures Walked(FAR_FOUND, 1, [0], 1, 8) == NEAR_FOUND
  {
    RR.SkippedFromIs([0, 1], 0, None);
    RR.SkippedFromIs([0], 2, None);
    assert [] + SkippedFrom([0, 1], 0, None) == FAR_FOUND.kept;
    assert FAR_FOUND.kept + SkippedFrom([0], 2, None) == NEAR_FOUND.kept;
    RG.KeptAll(FAR_FOUND.kept, -6);
    RG.KeptAll(NEAR_FOUND.kept, -5);
  }

  lemma AnswersLead()
    ensures Found(NEAR_FOUND, 1, Data, Some(2), 8) == (NEXT_TAKEN, true)
    ensures Found(NEXT_TAKEN, 2, Data, Some(3), 8) == (NEXT_TAKEN, false)
  {
    var kept := NEAR_FOUND.kept;
    assert kept[0].index == 0 && kept[1].index == 1;
    assert Position(kept, 1) == 1;
    assert kept[..1] + kept[2..] == NEXT_TAKEN.kept;
    assert forall i | 0 <= i < 2 :: NEXT_TAKEN.kept[i].index == 0;
    assert Position(NEXT_TAKEN.kept, 2) == 2;
  }

  lemma StallingScans()
    ensures Possible(0, STALLING[..1], 8) && Reached(0, STALLING[..1], 8) == Asking(SCANNED_FAR, multiset{FAR})
  {
    ScansLead();
    assert Reached(0, [], 8) == Begin(0) && Possible(0, [], 8);
    hide Scanned, Reached, Possible;
    ReachedNext(0, [], STALLING[0], 8);
    assert [] + [STALLING[0]] == STALLING[..1];
  }

  lemma StallingBegins()
    ensures Possible(0, STALLING[..2], 8)
    ensures Reached(0, STALLING[..2], 8) == Asking(SCANNED_NEAR, multiset{FAR, NEAR})
  {
    StallingScans();
    ScansLead();
    hide Scanned, Reached, Possible;
    ReachedNext(0, STALLING[..1], STALLING[1], 8);
    assert STALLING[..1] + [STALLING[1]] == STALLING[..2];
  }

  lemma StallingJumps()
    ensures Possible(0, STALLING[..3], 8)
    ensures Reached(0, STALLING[..3], 8) == Asking(FAR_FOUND, multiset{NEAR, ReadBox(2, false)})
  {
    StallingBegins();
    WalksLead();
    hide Walked, Reached, Possible;
    assert RR.Reported(2, 2) == [0, 1];
    ReachedNext(0, STALLING[..2], STALLING[2], 8);
    assert STALLING[..2] + [STALLING[2]] == STALLING[..3];
  }

  lemma StallingJumpsBack()
    ensures Possible(0, STALLING[..4], 8)
    ensures Reached(0, STALLING[..4], 8) == Asking(NEAR_FOUND, multiset{ReadBox(2, false), ReadBox(1, false)})
  {
    StallingJumps();
    WalksLead();
    hide Walked, Reached, Possible;
    assert RR.Reported(1, 1) == [0];
    ReachedNext(0, STALLING[..3], STALLING[3], 8);
    assert STALLING[..3] + [STALLING[3]] == STALLING[..4];
  }

  /** It happens: a walk found late takes the reader back to a kept box, the
      answer for that box is taken for the kept one's, and the reader is left
      scanning with nothing on its way, so that asking it to read asks for
      nothing. */
  lemma LateWalkStalls()
    ensures Possible(0, STALLING, 8)
    ensures
      var a := Reached(0, STALLING, 8);
      a.due == multiset{} && !a.s.mode.Idle? && Requests(a.s, ReadAsked, 8) == []
  {
    StallingJumpsBack();
    AnswersLead();
    hide Found, Reached, Possible;
    ReachedNext(0, STALLING[..4], STALLING[4], 8);
    assert STALLING[..4] + [STALLING[4]] == STALLING[..5];
    assert Reached(0, STALLING[..5], 8) == Asking(NEXT_TAKEN, multiset{ReadBox(2, false)});
    ReachedNext(0, STALLING[..5], STALLING[5], 8);
    assert STALLING[..5] + [STALLING[5]] == STALLING;
  }
}
