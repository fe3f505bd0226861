/**
  Walks found from a box the reader has moved on from. The reader goes where
  the walk ended and keeps what it reported, whether it passed those boxes
  already or not; a plaintext can be handed out twice after that, in some
  continuation, exactly if one of those boxes was handed out or is kept.
 */
module StaleWalks {
  import opened Basics
  import opened StreamReader
  import opened ReaderRuns
  import opened RunRegress

  /** A reader and the boxes whose plaintext it handed out. */
  datatype Trail = Trail(s: State, handed: set<nat>)

  /** Steps as in `ReaderRuns`: a walk starts from the box the reader is at. */
  predicate Fits(step: Step) {
    step.WalkFinds? ==> 0 < step.steps && step.reported <= step.steps
  }

  /** The step hands a plaintext out. */
  predicate HandsOut(t: Trail, step: Step, window: nat) {
    step.Answer? && Found(t.s, step.index, step.result, if step.more then Some(step.index + 1) else None, window).1
  }

  function Moved(t: Trail, step: Step, window: nat): Trail
    requires Fits(step)
  {
    match step
    case Ask => t.(s := Asked(t.s).0)
    case Scan(heard) => t.(s := Scanned(t.s, heard, window).0)
    case WalkFinds(steps, reported) => t.(s := Forgotten(JumpedBy(t.s, steps, reported), window))
    case Answer(index, result, more) =>
      var s := Found(t.s, index, result, if more then Some(index + 1) else None, window).0;
      Trail(s, if HandsOut(t, step, window) then t.handed + {index} else t.handed)
    case _ => t
  }

  /** One of the steps, taken in order, hands out a box handed out before. */
  predicate HandsOutTwice(t: Trail, steps: seq<Step>, window: nat)
    decreases |steps|
  {
    && steps != [] && Fits(steps[0])
    && ((HandsOut(t, steps[0], window) && steps[0].index in t.handed)
        || HandsOutTwice(Moved(t, steps[0], window), steps[1..], window))
  }

  ghost predicate MayHandOutTwice(t: Trail, window: nat) {
    exists more :: HandsOutTwice(t, more, window)
  }

  // Where it cannot happen.

  predicate IndexKept(kept: seq<Skipped>, b: int) {
    exists i :: 0 <= i < |kept| && kept[i].index == b
  }

  predicate KeptOnce(kept: seq<Skipped>) {
    forall i, j | 0 <= i < j < |kept| :: kept[i].index != kept[j].index
  }

  predicate Below(kept: seq<Skipped>, next: int) {
    forall i | 0 <= i < |kept| :: kept[i].index < next
  }

  /** No box that may still be read was handed out. */
  predicate Unrepeated(s: State, handed: set<nat>) {
    && KeptOnce(s.kept) && Below(s.kept, s.next)
    && (forall b | b in handed :: b < s.next && !IndexKept(s.kept, b))
  }

  lemma {:induction false} KeptFromOnce(kept: seq<Skipped>, bound: int)
    requires KeptOnce(kept)
    ensures KeptOnce(KeptFrom(kept, bound))
  {
    if kept != [] {
      var front := kept[..|kept| - 1];
      var rest := KeptFrom(front, bound);
      KeptFromOnce(front, bound);
      KeptFromIn(front, bound);
      forall i | 0 <= i < |rest|
        ensures rest[i].index != kept[|kept| - 1].index
      {
        assert rest[i] in front;
      }
    }
  }

  lemma KeptFromIndexes(kept: seq<Skipped>, bound: int, b: int)
    ensures IndexKept(KeptFrom(kept, bound), b) <==>
            exists i :: 0 <= i < |kept| && kept[i].index == b && kept[i].at >= bound
  {
    KeptFromIn(kept, bound);
    var rest := KeptFrom(kept, bound);
    if i :| 0 <= i < |rest| && rest[i].index == b {
      assert rest[i] in kept;
      var j :| 0 <= j < |kept| && kept[j] == rest[i];
      assert kept[j].index == b && kept[j].at >= bound;
    }
    if i :| 0 <= i < |kept| && kept[i].index == b && kept[i].at >= bound {
      assert kept[i] in rest;
    }
  }

  lemma ForgottenUnrepeated(s: State, handed: set<nat>, window: nat)
    requires Unrepeated(s, handed)
    ensures Unrepeated(Forgotten(s, window), handed)
  {
    var bound := s.passed - window;
    var rest := KeptFrom(s.kept, bound);
    KeptFromOnce(s.kept, bound);
    KeptFromIn(s.kept, bound);
    forall i | 0 <= i < |rest|
      ensures rest[i].index < s.next
    {
      assert rest[i] in s.kept;
    }
    forall b | b in handed
      ensures !IndexKept(rest, b)
    {
      KeptFromIndexes(s.kept, bound, b);
    }
  }

  // A walk.

  /** The first box a walk makes the reader keep: of those it reports, the last
      ones that fit the window. */
  function LeastKept(target: nat, reported: nat, window: nat): nat
    requires reported <= target
  {
    target - if reported < window then reported else window
  }

  function AfterStale(t: Trail, target: nat, steps: nat, reported: nat, window: nat): Trail
    requires reported <= target
  {
    t.(s := Walked(t.s, target, Reported(target, reported), steps, window))
  }

  /** The box is kept, and stays so when the reader passes so many more. */
  predicate StaysKept(s: State, steps: nat, window: nat, b: int) {
    exists i :: 0 <= i < |s.kept| && s.kept[i].index == b && s.kept[i].at >= s.passed + steps - window
  }

  /** The reader has passed box `b`, but the walk takes it back to before it,
      and it was handed out or is kept. */
  predicate Retaken(t: Trail, target: nat, steps: nat, reported: nat, window: nat, b: nat)
    requires reported <= target
  {
    LeastKept(target, reported, window) <= b < t.s.next && (b in t.handed || StaysKept(t.s, steps, window, b))
  }

  lemma {:induction false} KeptFromBoth(a: seq<Skipped>, b: seq<Skipped>, bound: int)
    ensures KeptFrom(a + b, bound) == KeptFrom(a, bound) + KeptFrom(b, bound)
  {
    if b == [] {
      assert a + b == a;
    } else {
      var front := b[..|b| - 1];
      assert (a + b)[..|a + b| - 1] == a + front;
      KeptFromBoth(a, front, bound);
    }
  }

  /** What the walk adds: the boxes from the least one on, each once. */
  lemma AddedIndexes(target: nat, reported: nat, passed: int, last: Option<nat>, window: nat)
    requires reported <= target
    ensures
      var added := KeptFrom(SkippedFrom(Reported(target, reported), passed - reported, last), passed - window);
      && KeptOnce(added)
      && forall b :: IndexKept(added, b) <==> LeastKept(target, reported, window) <= b < target
  {
    var skipped, bound := Reported(target, reported), passed - window;
    var all := SkippedFrom(skipped, passed - reported, last);
    SkippedFromIs(skipped, passed - reported, last);
    forall i | 0 <= i < |all|
      ensures all[i].index == target - reported + i && all[i].at == passed - reported + i
    {
      assert all[i] == Skipped(skipped[i], passed - reported + i, if i == 0 then last else Some(skipped[i - 1]));
    }
    KeptFromOnce(all, bound);
    forall b
      ensures IndexKept(KeptFrom(all, bound), b) <==> LeastKept(target, reported, window) <= b < target
    {
      KeptFromIndexes(all, bound, b);
      if LeastKept(target, reported, window) <= b < target {
        assert all[b - target + reported].index == b;
      }
    }
  }

  /** What is kept after the walk: what stays kept, and what it adds. */
  lemma WalkedKept(s: State, target: nat, steps: nat, reported: nat, window: nat)
    requires reported <= target
    ensures
      var s' := Walked(s, target, Reported(target, reported), steps, window);
      var bound := s.passed + steps - window;
      && s'.next == target && s'.mode == s.mode
      && s'.kept == KeptFrom(s.kept, bound)
                    + KeptFrom(SkippedFrom(Reported(target, reported), s.passed + steps - reported, s.last), bound)
  {
    KeptFromBoth(s.kept, SkippedFrom(Reported(target, reported), s.passed + steps - reported, s.last),
                 s.passed + steps - window);
  }

  lemma JoinedOnce(a: seq<Skipped>, b: seq<Skipped>, least: int, target: int, handed: set<nat>)
    requires KeptOnce(a) && KeptOnce(b) && least <= target
    requires forall i | 0 <= i < |a| :: a[i].index < least && a[i].index !in handed
    requires forall i | 0 <= i < |b| :: least <= b[i].index < target
    requires forall h | h in handed :: h < least
    ensures KeptOnce(a + b) && Below(a + b, target) && forall h | h in handed :: !IndexKept(a + b, h)
  {}

  lemma HarmlessWalk(t: Trail, target: nat, steps: nat, reported: nat, window: nat)
    requires Unrepeated(t.s, t.handed) && reported <= target
    requires forall b :: !Retaken(t, target, steps, reported, window, b)
    ensures Unrepeated(AfterStale(t, target, steps, reported, window).s, t.handed)
  {
    var s, bound := t.s, t.s.passed + steps - window;
    var rest := KeptFrom(s.kept, bound);
    var added := KeptFrom(SkippedFrom(Reported(target, reported), s.passed + steps - reported, s.last), bound);
    var least := LeastKept(target, reported, window);
    WalkedKept(s, target, steps, reported, window);
    AddedIndexes(target, reported, s.passed + steps, s.last, window);
    KeptFromOnce(s.kept, bound);
    forall i | 0 <= i < |rest|
      ensures rest[i].index < least && rest[i].index !in t.handed
    {
      RestBelow(t, target, steps, reported, window, i);
    }
    forall i | 0 <= i < |added|
      ensures least <= added[i].index < target
    {
      assert IndexKept(added, added[i].index);
    }
    forall b | b in t.handed
      ensures b < least
    {
      assert !Retaken(t, target, steps, reported, window, b);
    }
    JoinedOnce(rest, added, least, target, t.handed);
  }

  lemma RestBelow(t: Trail, target: nat, steps: nat, reported: nat, window: nat, i: nat)
    requires Unrepeated(t.s, t.handed) && reported <= target
    requires forall b :: !Retaken(t, target, steps, reported, window, b)
    requires i < |KeptFrom(t.s.kept, t.s.passed + steps - window)|
    ensures
      var b := KeptFrom(t.s.kept, t.s.passed + steps - window)[i].index;
      b < LeastKept(target, reported, window) && b !in t.handed
  {
    var rest := KeptFrom(t.s.kept, t.s.passed + steps - window);
    var b := rest[i].index;
    assert IndexKept(rest, b);
    KeptFromIndexes(t.s.kept, t.s.passed + steps - window, b);
    assert StaysKept(t.s, steps, window, b);
    assert !Retaken(t, target, steps, reported, window, b);
    var j :| 0 <= j < |t.s.kept| && t.s.kept[j].index == b;
    assert IndexKept(t.s.kept, b);
  }

  // Every step.

  lemma TakenUnrepeated(s: State, handed: set<nat>, i: nat)
    requires Unrepeated(s, handed) && i < |s.kept|
    ensures
      var s' := s.(kept := s.kept[..i] + s.kept[i + 1..]);
      Unrepeated(s', handed) && Unrepeated(s', handed + {s.kept[i].index})
  {
    var kept, kept' := s.kept, s.kept[..i] + s.kept[i + 1..];
    assert forall j | 0 <= j < |kept'| :: kept'[j] == kept[if j < i then j else j + 1];
    forall b | IndexKept(kept', b)
      ensures IndexKept(kept, b) && b != kept[i].index
    {
      var j :| 0 <= j < |kept'| && kept'[j].index == b;
      assert kept[if j < i then j else j + 1].index == b;
    }
  }

  lemma NextUnrepeated(s: State, handed: set<nat>, window: nat)
    requires Unrepeated(s, handed)
    ensures
      var s' := s.(last := Some(s.next), next := s.next + 1, passed := s.passed + 1);
      Unrepeated(Forgotten(s', window), handed) && Unrepeated(Forgotten(s', window), handed + {s.next})
  {
    var s' := s.(last := Some(s.next), next := s.next + 1, passed := s.passed + 1);
    ForgottenUnrepeated(s', handed, window);
    ForgottenUnrepeated(s', handed + {s.next}, window);
  }

  /** A walk found from the box the reader is at takes nothing back. */
  lemma OwnWalk(t: Trail, steps: nat, reported: nat, window: nat)
    requires Unrepeated(t.s, t.handed) && 0 < steps && reported <= steps
    ensures Unrepeated(Forgotten(JumpedBy(t.s, steps, reported), window), t.handed)
  {
    HarmlessWalk(t, t.s.next + steps, steps, reported, window);
  }

  lemma AnswerUnrepeated(t: Trail, index: nat, result: Result, more: bool, window: nat)
    requires Unrepeated(t.s, t.handed)
    ensures
      var step := Answer(index, result, more);
      var t' := Moved(t, step, window);
      Unrepeated(t'.s, t'.handed) && (HandsOut(t, step, window) ==> index !in t.handed)
  {
    var i := Position(t.s.kept, index);
    if i < |t.s.kept| {
      assert IndexKept(t.s.kept, index);
      TakenUnrepeated(t.s, t.handed, i);
    } else {
      NextUnrepeated(t.s, t.handed, window);
    }
  }

  lemma StepUnrepeated(t: Trail, step: Step, window: nat)
    requires Unrepeated(t.s, t.handed) && Fits(step)
    ensures
      var t' := Moved(t, step, window);
      Unrepeated(t'.s, t'.handed) && (HandsOut(t, step, window) ==> step.index !in t.handed)
  {
    match step
    case WalkFinds(steps, reported) => OwnWalk(t, steps, reported, window);
    case Answer(index, result, more) => AnswerUnrepeated(t, index, result, more, window);
    case _ =>
  }

  lemma {:induction false} NeverTwice(t: Trail, steps: seq<Step>, window: nat)
    requires Unrepeated(t.s, t.handed)
    ensures !HandsOutTwice(t, steps, window)
    decreases |steps|
  {
    if steps != [] && Fits(steps[0]) {
      StepUnrepeated(t, steps[0], window);
      NeverTwice(Moved(t, steps[0], window), steps[1..], window);
    }
  }

  // Where it can.

  lemma First(t: Trail, step: Step, steps: seq<Step>, window: nat)
    requires Fits(step)
    requires (HandsOut(t, step, window) && step.index in t.handed)
             || HandsOutTwice(Moved(t, step, window), steps, window)
    ensures HandsOutTwice(t, [step] + steps, window)
  {
    assert ([step] + steps)[1..] == steps;
  }

  /** A box kept is handed out when it is found. */
  lemma KeptHandedOut(t: Trail, b: nat, window: nat)
    requires IndexKept(t.s.kept, b)
    ensures
      var step := Answer(b, Data, true);
      HandsOut(t, step, window) && Moved(t, step, window).handed == t.handed + {b}
      && Moved(t, step, window).s.next == t.s.next
  {}

  lemma NextHandedOut(t: Trail, window: nat)
    requires !t.s.mode.Idle? && !IndexKept(t.s.kept, t.s.next)
    ensures
      var step := Answer(t.s.next, Data, true);
      HandsOut(t, step, window) && Moved(t, step, window).handed == t.handed + {t.s.next}
      && Moved(t, step, window).s.next == t.s.next + 1
  {}

  /** A box handed out and not passed yet is handed out again, once the reader
      comes to it. */
  lemma {:induction false} ComesAgain(t: Trail, b: nat, window: nat) returns (steps: seq<Step>)
    requires b in t.handed && t.s.next <= b
    ensures HandsOutTwice(t, steps, window)
    decreases b - t.s.next
  {
    var n := t.s.next;
    var read := Answer(n, Data, true);
    var t1 := Moved(t, Ask, window);
    if IndexKept(t.s.kept, n) {
      KeptHandedOut(t1, n, window);
      steps := HandedAgain(Moved(t1, read, window), window);
      First(t1, read, steps, window);
      First(t, Ask, [read] + steps, window);
      steps := [Ask] + ([read] + steps);
    } else if n in t.handed {
      NextHandedOut(t1, window);
      First(t1, read, [], window);
      First(t, Ask, [read] + [], window);
      steps := [Ask] + ([read] + []);
    } else {
      NextHandedOut(t1, window);
      steps := ComesAgain(Moved(t1, read, window), b, window);
      First(t1, read, steps, window);
      First(t, Ask, [read] + steps, window);
      steps := [Ask] + ([read] + steps);
    }
  }

  /** The next box was handed out already. */
  lemma HandedAgain(t: Trail, window: nat) returns (steps: seq<Step>)
    requires t.s.next in t.handed && !t.s.mode.Idle?
    ensures HandsOutTwice(t, steps, window)
  {
    if IndexKept(t.s.kept, t.s.next) {
      KeptHandedOut(t, t.s.next, window);
    } else {
      NextHandedOut(t, window);
    }
    steps := [Answer(t.s.next, Data, true)] + [];
    First(t, Answer(t.s.next, Data, true), [], window);
  }

  /** A box kept twice is handed out twice. */
  lemma KeptTwice(t: Trail, i: nat, j: nat, window: nat) returns (steps: seq<Step>)
    requires i < j < |t.s.kept| && t.s.kept[i].index == t.s.kept[j].index
    ensures HandsOutTwice(t, steps, window)
  {
    var kept, b := t.s.kept, t.s.kept[i].index;
    var step := Answer(b, Data, true);
    var t', k := Moved(t, step, window), Position(kept, b);
    KeptHandedOut(t, b, window);
    assert k <= i;
    assert t'.s.kept == kept[..k] + kept[k + 1..] && t'.s.kept[j - 1] == kept[j];
    assert IndexKept(t'.s.kept, b);
    KeptHandedOut(t', b, window);
    First(t', step, [], window);
    First(t, step, [step] + [], window);
    steps := [step] + ([step] + []);
  }

  lemma RetakenComesAgain(t: Trail, target: nat, steps: nat, reported: nat, window: nat, b: nat)
    returns (more: seq<Step>)
    requires reported <= target && Retaken(t, target, steps, reported, window, b)
    ensures HandsOutTwice(AfterStale(t, target, steps, reported, window), more, window)
  {
    var t' := AfterStale(t, target, steps, reported, window);
    var bound, read := t.s.passed + steps - window, Answer(b, Data, true);
    var rest := KeptFrom(t.s.kept, bound);
    var added := KeptFrom(SkippedFrom(Reported(target, reported), t.s.passed + steps - reported, t.s.last), bound);
    WalkedKept(t.s, target, steps, reported, window);
    AddedIndexes(target, reported, t.s.passed + steps, t.s.last, window);
    KeptFromIndexes(t.s.kept, bound, b);
    assert t'.s.kept == rest + added && t'.s.next == target && t'.handed == t.handed;
    assert StaysKept(t.s, steps, window, b) ==> IndexKept(rest, b);
    assert b < target ==> IndexKept(added, b);
    if b < target {
      var j :| 0 <= j < |added| && added[j].index == b;
      assert t'.s.kept[|rest| + j].index == b;
      if b in t.handed {
        KeptHandedOut(t', b, window);
        First(t', read, [], window);
        more := [read] + [];
      } else {
        var i :| 0 <= i < |rest| && rest[i].index == b;
        more := KeptTwice(t', i, |rest| + j, window);
      }
    } else if b in t.handed {
      more := ComesAgain(t', b, window);
    } else {
      var i :| 0 <= i < |rest| && rest[i].index == b;
      assert t'.s.kept[i].index == b;
      KeptHandedOut(t', b, window);
      more := ComesAgain(Moved(t', read, window), b, window);
      First(t', read, more, window);
      more := [read] + more;
    }
  }

  /** Exactly when a walk found, wherever it started, can make the reader hand
      a plaintext out twice: a box the reader passed is retaken. */
  lemma StaleWalkExactly(t: Trail, target: nat, steps: nat, reported: nat, window: nat)
    requires Unrepeated(t.s, t.handed) && reported <= target
    ensures MayHandOutTwice(AfterStale(t, target, steps, reported, window), window) <==>
            exists b: nat :: Retaken(t, target, steps, reported, window, b)
  {
    if b: nat :| Retaken(t, target, steps, reported, window, b) {
      var more := RetakenComesAgain(t, target, steps, reported, window, b);
    } else {
      HarmlessWalk(t, target, steps, reported, window);
      var t' := AfterStale(t, target, steps, reported, window);
      forall more
        ensures !HandsOutTwice(t', more, window)
      {
        NeverTwice(t', more, window);
      }
    }
  }

  // Of the runs of `ReaderRuns`.

  function Boxes(start: nat, counts: seq<int>): set<nat> {
    if counts == [] then {}
    else Boxes(start, counts[1..]) + if start + counts[0] >= 0 then {(start + counts[0]) as nat} else {}
  }

  lemma {:induction false} InBoxes(start: nat, counts: seq<int>, b: nat)
    ensures b in Boxes(start, counts) <==> exists i :: 0 <= i < |counts| && start + counts[i] == b
  {
    if counts != [] {
      var rest := counts[1..];
      InBoxes(start, rest, b);
      if i :| 0 <= i < |counts| && start + counts[i] == b {
        assert i == 0 || rest[i - 1] == counts[i];
      }
      if i :| 0 <= i < |rest| && start + rest[i] == b {
        assert counts[i + 1] == rest[i];
      }
    }
  }

  function TrailOf(w: World): Trail {
    Trail(w.s, Boxes(w.start, w.handed))
  }

  lemma KeptIndex(start: nat, s: State, read: set<int>, lost: set<int>, i: nat)
    requires Positions(start, s, read, lost) && i < |s.kept|
    ensures s.kept[i].index == start + s.kept[i].at < s.next && s.kept[i].at !in read
  {
    assert BoxKept(start, s.passed, s.kept[i]);
    assert IsKept(s.kept, s.kept[i].at);
  }

  lemma HandedPassed(start: nat, s: State, read: set<int>, lost: set<int>, handed: seq<int>, b: nat)
    requires Positions(start, s, read, lost) && HandedOnce(handed, read) && b in Boxes(start, handed)
    ensures b < s.next && b - start in read
  {
    InBoxes(start, handed, b);
  }

  lemma WorldUnrepeated(w: World, window: nat)
    requires ReadingKept(w, window)
    ensures Unrepeated(w.s, TrailOf(w).handed)
  {
    forall i | 0 <= i < |w.s.kept|
      ensures w.s.kept[i].index == w.start + w.s.kept[i].at < w.s.next && w.s.kept[i].at !in w.read
    {
      KeptIndex(w.start, w.s, w.read, w.lost, i);
    }
    forall b | b in TrailOf(w).handed
      ensures b < w.s.next && b - w.start in w.read
    {
      HandedPassed(w.start, w.s, w.read, w.lost, w.handed, b);
    }
    NoneAgain(w.start, w.s, w.read, TrailOf(w).handed);
  }

  lemma NoneAgain(start: nat, s: State, read: set<int>, handed: set<nat>)
    requires Ascends(s.kept)
    requires forall i | 0 <= i < |s.kept| :: s.kept[i].index == start + s.kept[i].at < s.next && s.kept[i].at !in read
    requires forall b | b in handed :: b < s.next && b - start in read
    ensures Unrepeated(s, handed)
  {}

  /** At any moment of a run, a walk found from a box the reader has moved on
      from can make it hand a plaintext out twice exactly if it retakes a box.
      If all it could retake was handed out, as when boxes were read in order
      since it started, that is exactly if the first box it makes the reader
      keep, or else its target, is before the one the reader is at. */
  lemma StaleWalkOnRun(start: nat, taken: seq<Step>, target: nat, steps: nat, reported: nat, window: nat)
    requires Possible(start, taken, window) && reported <= target
    ensures
      var t := TrailOf(Reached(start, taken, window));
      var least := LeastKept(target, reported, window);
      var twice := MayHandOutTwice(AfterStale(t, target, steps, reported, window), window);
      && (twice <==> exists b: nat :: Retaken(t, target, steps, reported, window, b))
      && ((forall b | least <= b < t.s.next :: b in t.handed) ==> (twice <==> least < t.s.next))
  {
    RunKept(start, taken, window);
    var t := TrailOf(Reached(start, taken, window));
    WorldUnrepeated(Reached(start, taken, window), window);
    StaleWalkExactly(t, target, steps, reported, window);
    var least := LeastKept(target, reported, window);
    if least < t.s.next && least in t.handed {
      assert Retaken(t, target, steps, reported, window, least);
    }
  }

  /** It happens: box 0 is read in order while a walk from box 0 is under way,
      and kept again for the walk's report of it, so its plaintext is handed
      out a second time. */
  lemma StaleWalkHandsOutTwice()
    ensures Possible(0, TO_ONE, 8) && 0 in TrailOf(Reached(0, TO_ONE, 8)).handed
    ensures HandsOutTwice(AfterStale(TrailOf(Reached(0, TO_ONE, 8)), 2, 2, 2, 8), [Answer(0, Data, true)] + [], 8)
  {
    ReachesOne();
    RunKept(0, TO_ONE, 8);
    InBoxes(0, [0], 0);
    assert [0][0] == 0;
    KeptAgain(Trail(READ_ONE, Boxes(0, [0])));
  }

  lemma KeptAgain(t: Trail)
    requires t.s == READ_ONE && 0 in t.handed
    ensures HandsOutTwice(AfterStale(t, 2, 2, 2, 8), [Answer(0, Data, true)] + [], 8)
  {
    WalkedKept(t.s, 2, 2, 2, 8);
    AddedIndexes(2, 2, 3, t.s.last, 8);
    var t' := AfterStale(t, 2, 2, 2, 8);
    var added := KeptFrom(SkippedFrom(Reported(2, 2), 1, t.s.last), -5);
    assert t'.s.kept == added;
    KeptHandedOut(t', 0, 8);
    First(t', Answer(0, Data, true), [], 8);
  }
}
