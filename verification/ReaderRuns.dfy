/**
  Runs of one stream's reader together with what is acknowledged of it. Boxes
  are read in order, rechecked, jumped over by walks and forgotten, in any mix;
  what is acknowledged is never past a box that was not read.

  The successor of a box is the next one, and a walk's target is found from the
  box the reader is at: reads stop while a walk is under way.
 */
module ReaderRuns {
  import opened Basics
  import opened StreamReader

  /** The acknowledgements of this stream: `Ledger` and the pending messages. */
  datatype Acks = Acks(published: Option<nat>, pending: map<nat, (Option<nat>, nat)>, holding: bool)

  /** `s` and `acks` are the state. `read`, `lost` and `handed` are history, by
      the count a box was passed at: the boxes read, those lost, and those whose
      plaintext was handed out, in that order. */
  datatype World = World(s: State, start: nat, acks: Acks, read: set<int>, lost: set<int>, handed: seq<int>)

  datatype Step =
    | Ask                                          // read
    | Scan(heard: seq<nat>)
    | WalkFails
    | WalkFinds(steps: nat, reported: nat)         // the last `reported` boxes before the target
    | Answer(index: nat, result: Result, more: bool)
    | Compose(token: nat)
    | Written(token: nat)
    | Abandoned(token: nat)
    | Hold(holding: bool)

  function Begin(start: nat): World {
    World(State(start, None, 0, [], None, Idle, []), start, Acks(None, map[], false), {}, {}, [])
  }

  /** `owed` */
  function Owed(acks: Acks, run: Option<nat>): Option<nat> {
    if acks.holding || run.None? || acks.published == run then None else run
  }

  /** `_with_acks`, for this stream. */
  function Composed(acks: Acks, token: nat, run: Option<nat>): Acks {
    match Owed(acks, run)
    case None => acks
    case Some(owed) => acks.(published := Some(owed), pending := acks.pending[token := (acks.published, owed)])
  }

  /** `abandoned` */
  function TakenBack(acks: Acks, token: nat): Acks {
    if token !in acks.pending then acks
    else
      var (before, sent) := acks.pending[token];
      acks.(published := if acks.published == Some(sent) then before else acks.published,
            pending := acks.pending - {token})
  }

  function Reported(target: nat, reported: nat): seq<nat>
    requires reported <= target
  {
    seq(reported, i requires 0 <= i < reported => target - reported + i)
  }

  predicate Enabled(w: World, step: Step) {
    match step
    case WalkFinds(steps, reported) => 0 < steps && reported <= steps
    case Compose(token) => token !in w.acks.pending
    case _ => true
  }

  /** The counts of the boxes that forgetting gives up. */
  function GivenUp(kept: seq<Skipped>, bound: int): set<int> {
    set i | 0 <= i < |kept| && kept[i].at < bound :: kept[i].at
  }

  function Between(low: int, high: int): (between: set<int>)
    ensures forall p :: p in between <==> low <= p < high
    decreases high - low
  {
    if low >= high then {} else {low} + Between(low + 1, high)
  }

  function After(w: World, step: Step, window: nat): World
    requires Enabled(w, step)
  {
    match step
    case Ask => w.(s := Asked(w.s).0)
    case Scan(heard) => w.(s := Scanned(w.s, heard, window).0)
    case WalkFails => w
    case WalkFinds(steps, reported) => AfterWalk(w, steps, reported, window)
    case Answer(index, result, more) => AfterAnswer(w, index, result, more, window)
    case _ => w.(acks := AcksAfter(w.acks, step, Run(w.s)))
  }

  /** What the steps that are not the reader's make of the acknowledgements. */
  function AcksAfter(acks: Acks, step: Step, run: Option<nat>): Acks {
    match step
    case Compose(token) => Composed(acks, token, run)
    case Written(token) => acks.(pending := acks.pending - {token})
    case Abandoned(token) => TakenBack(acks, token)
    case Hold(holding) => acks.(holding := holding)
    case _ => acks
  }

  function AfterWalk(w: World, steps: nat, reported: nat, window: nat): World
    requires 0 < steps && reported <= steps
  {
    var s := JumpedBy(w.s, steps, reported);
    w.(s := Forgotten(s, window),
       lost := w.lost + Between(w.s.passed, s.passed - reported) + GivenUp(s.kept, s.passed - window))
  }

  /** The state a walk of so many steps leaves before anything is forgotten. */
  function JumpedBy(s: State, steps: nat, reported: nat): State
    requires 0 < steps && reported <= steps
  {
    Jumped(s, s.next + steps, Reported(s.next + steps, reported), steps)
  }

  function AfterAnswer(w: World, index: nat, result: Result, more: bool, window: nat): World {
    var (s, ingest) := Found(w.s, index, result, if more then Some(index + 1) else None, window);
    var i := Position(w.s.kept, index);
    if i < |w.s.kept| then
      var at := w.s.kept[i].at;
      w.(s := s,
         read := if result.NotFound? then w.read else w.read + {at},
         handed := if ingest then w.handed + [at] else w.handed)
    else if s.passed > w.s.passed then
      w.(s := s,
         read := w.read + {w.s.passed},
         lost := w.lost + GivenUp(w.s.kept, s.passed - window),
         handed := if ingest then w.handed + [w.s.passed] else w.handed)
    else w.(s := s)
  }

  // What every world keeps.

  predicate IsKept(kept: seq<Skipped>, p: int) {
    exists i :: 0 <= i < |kept| && kept[i].at == p
  }

  predicate Ascends(kept: seq<Skipped>) {
    forall i, j | 0 <= i < j < |kept| :: kept[i].at < kept[j].at
  }

  /** A gap comes after the box that may be acknowledged before it. */
  predicate BeforeIt(start: nat, at: int, before: Option<nat>) {
    before.Some? ==> before.value < start + at
  }

  predicate BoxKept(start: nat, passed: int, box: Skipped) {
    0 <= box.at < passed && box.index == start + box.at && BeforeIt(start, box.at, box.before)
  }

  predicate LostKept(start: nat, lost: set<int>, first: Option<Gap>) {
    match first
    case None => lost == {}
    case Some(gap) =>
      gap.at in lost && BeforeIt(start, gap.at, gap.before) && forall p | p in lost :: gap.at <= p
  }

  /** Every box passed is read, kept or lost, and only one of them. */
  predicate Partition(passed: int, read: set<int>, lost: set<int>, kept: seq<Skipped>) {
    && read !! lost
    && (forall p | p in read :: 0 <= p < passed && !IsKept(kept, p))
    && (forall p | p in lost :: 0 <= p < passed && !IsKept(kept, p))
    && (forall p | 0 <= p < passed :: p in read || p in lost || IsKept(kept, p))
  }

  predicate Positions(start: nat, s: State, read: set<int>, lost: set<int>) {
    && s.passed >= 0 && s.next == start + s.passed
    && Ascends(s.kept)
    && (forall i | 0 <= i < |s.kept| :: BoxKept(start, s.passed, s.kept[i]))
    && Partition(s.passed, read, lost, s.kept)
    && LostKept(start, lost, s.lost)
    && (s.last.Some? ==> s.last.value < s.next)
  }

  predicate Within(kept: seq<Skipped>, bound: int) {
    forall i | 0 <= i < |kept| :: kept[i].at >= bound
  }

  predicate HandedOnce(handed: seq<int>, read: set<int>) {
    && (forall i | 0 <= i < |handed| :: handed[i] in read)
    && (forall i, j | 0 <= i < j < |handed| :: handed[i] != handed[j])
  }

  /** Every box at or before `box` was read. */
  predicate AllRead(start: nat, read: set<int>, box: Option<nat>) {
    box.Some? ==> forall p | 0 <= p <= box.value - start :: p in read
  }

  predicate AcksKept(start: nat, read: set<int>, acks: Acks) {
    && AllRead(start, read, acks.published)
    && forall token | token in acks.pending ::
      AllRead(start, read, acks.pending[token].0) && AllRead(start, read, Some(acks.pending[token].1))
  }

  /** What every world keeps, but for the acknowledgements. */
  predicate ReadingKept(w: World, window: nat) {
    && Positions(w.start, w.s, w.read, w.lost) && Within(w.s.kept, w.s.passed - window)
    && HandedOnce(w.handed, w.read)
  }

  predicate Inv(w: World, window: nat) {
    ReadingKept(w, window) && AcksKept(w.start, w.read, w.acks)
  }

  // Forgetting.

  lemma {:induction false} KeptFromIn(kept: seq<Skipped>, bound: int)
    ensures forall box :: box in KeptFrom(kept, bound) <==> box in kept && box.at >= bound
  {
    if kept != [] {
      KeptFromIn(kept[..|kept| - 1], bound);
      assert kept == kept[..|kept| - 1] + [kept[|kept| - 1]];
    }
  }

  lemma {:induction false} KeptFromAscends(kept: seq<Skipped>, bound: int)
    requires Ascends(kept)
    ensures Ascends(KeptFrom(kept, bound)) && Within(KeptFrom(kept, bound), bound)
  {
    if kept != [] {
      var front, box := kept[..|kept| - 1], kept[|kept| - 1];
      var rest := KeptFrom(front, bound);
      KeptFromAscends(front, bound);
      KeptFromIn(front, bound);
      forall i | 0 <= i < |rest|
        ensures rest[i].at < box.at
      {
        assert rest[i] in front;
      }
    }
  }

  lemma KeptFromIs(kept: seq<Skipped>, bound: int)
    requires Ascends(kept)
    ensures
      var r := KeptFrom(kept, bound);
      && Ascends(r) && Within(r, bound)
      && forall box :: box in r <==> box in kept && box.at >= bound
  {
    KeptFromIn(kept, bound);
    KeptFromAscends(kept, bound);
  }

  lemma {:induction false} LoseBelowKept(start: nat, passed: int, lost: set<int>, first: Option<Gap>,
                                         kept: seq<Skipped>, bound: int)
    requires LostKept(start, lost, first)
    requires forall i | 0 <= i < |kept| :: BoxKept(start, passed, kept[i])
    ensures LostKept(start, lost + GivenUp(kept, bound), LoseBelow(first, kept, bound))
  {
    if kept == [] {
      assert lost + GivenUp(kept, bound) == lost;
    } else {
      var front, box := kept[..|kept| - 1], kept[|kept| - 1];
      LoseBelowKept(start, passed, lost, first, front, bound);
      assert BoxKept(start, passed, box);
      var less, more := lost + GivenUp(front, bound), lost + GivenUp(kept, bound);
      assert more == if box.at < bound then less + {box.at} else less;
    }
  }

  /** What is forgotten goes from the boxes kept to those lost. */
  lemma ForgottenPartition(kept: seq<Skipped>, bound: int, passed: int, read: set<int>, lost: set<int>)
    requires Ascends(kept) && Partition(passed, read, lost, kept)
    requires forall i | 0 <= i < |kept| :: 0 <= kept[i].at < passed
    ensures Partition(passed, read, lost + GivenUp(kept, bound), KeptFrom(kept, bound))
  {
    var left := KeptFrom(kept, bound);
    KeptFromIs(kept, bound);
    forall p
      ensures p in GivenUp(kept, bound) <==> IsKept(kept, p) && p < bound
      ensures IsKept(left, p) <==> IsKept(kept, p) && p >= bound
    {
      if IsKept(left, p) {
        var i :| 0 <= i < |left| && left[i].at == p;
        assert left[i] in kept;
      }
      if IsKept(kept, p) && p >= bound {
        var i :| 0 <= i < |kept| && kept[i].at == p;
        assert kept[i] in left;
      }
    }
  }

  lemma ForgottenKept(start: nat, s: State, read: set<int>, lost: set<int>, window: nat)
    requires Positions(start, s, read, lost)
    ensures
      var s' := Forgotten(s, window);
      && Positions(start, s', read, lost + GivenUp(s.kept, s.passed - window))
      && Within(s'.kept, s'.passed - window)
  {
    var bound := s.passed - window;
    var kept := KeptFrom(s.kept, bound);
    KeptFromIs(s.kept, bound);
    LoseBelowKept(start, s.passed, lost, s.lost, s.kept, bound);
    assert forall i | 0 <= i < |s.kept| :: BoxKept(start, s.passed, s.kept[i]) && 0 <= s.kept[i].at < s.passed;
    ForgottenPartition(s.kept, bound, s.passed, read, lost);
    forall i | 0 <= i < |kept|
      ensures BoxKept(start, s.passed, kept[i])
    {
      assert kept[i] in s.kept;
    }
  }

  // Every step.

  lemma KeptWithout(kept: seq<Skipped>, i: nat)
    requires Ascends(kept) && i < |kept|
    ensures
      var kept' := kept[..i] + kept[i + 1..];
      && Ascends(kept') && |kept'| == |kept| - 1
      && (forall j | 0 <= j < |kept'| :: kept'[j] == kept[if j < i then j else j + 1])
      && forall p :: IsKept(kept', p) <==> IsKept(kept, p) && p != kept[i].at
  {
    var kept' := kept[..i] + kept[i + 1..];
    forall p
      ensures IsKept(kept', p) <==> IsKept(kept, p) && p != kept[i].at
    {
      if IsKept(kept, p) && p != kept[i].at {
        var j :| 0 <= j < |kept| && kept[j].at == p;
        assert kept'[if j < i then j else j - 1].at == p;
      }
    }
  }

  lemma PartitionTaken(passed: int, read: set<int>, lost: set<int>, kept: seq<Skipped>, kept': seq<Skipped>, at: int)
    requires Partition(passed, read, lost, kept) && IsKept(kept, at) && 0 <= at < passed
    requires forall p :: IsKept(kept', p) <==> IsKept(kept, p) && p != at
    ensures Partition(passed, read + {at}, lost, kept') && at !in read
  {}

  /** Reading a kept box again takes it out. */
  lemma RecheckKept(w: World, i: nat)
    requires Positions(w.start, w.s, w.read, w.lost) && i < |w.s.kept|
    ensures
      var s' := w.s.(kept := w.s.kept[..i] + w.s.kept[i + 1..]);
      Positions(w.start, s', w.read + {w.s.kept[i].at}, w.lost) && w.s.kept[i].at !in w.read
  {
    var kept, at := w.s.kept, w.s.kept[i].at;
    assert BoxKept(w.start, w.s.passed, kept[i]) && IsKept(kept, at);
    KeptWithout(kept, i);
    PartitionTaken(w.s.passed, w.read, w.lost, kept, kept[..i] + kept[i + 1..], at);
    hide Partition, IsKept;
  }

  /** The next box read in order. */
  lemma NextKept(w: World, mode: Mode)
    requires Positions(w.start, w.s, w.read, w.lost)
    ensures
      var s' := w.s.(last := Some(w.s.next), next := w.s.next + 1, passed := w.s.passed + 1, mode := mode);
      Positions(w.start, s', w.read + {w.s.passed}, w.lost) && w.s.passed !in w.read
  {}

  lemma {:induction false} SkippedFromIs(skipped: seq<nat>, start: int, before: Option<nat>)
    ensures
      var r := SkippedFrom(skipped, start, before);
      && |r| == |skipped|
      && forall i | 0 <= i < |r| ::
        r[i] == Skipped(skipped[i], start + i, if i == 0 then before else Some(skipped[i - 1]))
  {
    if skipped != [] {
      SkippedFromIs(skipped[1..], start + 1, Some(skipped[0]));
    }
  }

  /** What a walk adds to the boxes kept. */
  lemma AddedKept(w: World, steps: nat, reported: nat, first: int, added: seq<Skipped>)
    requires Positions(w.start, w.s, w.read, w.lost) && 0 < steps && reported <= steps
    requires first == w.s.passed + steps - reported
    requires added == SkippedFrom(Reported(w.s.next + steps, reported), first, w.s.last)
    ensures |added| == reported
    ensures forall i | 0 <= i < |added| :: added[i].at == first + i
    ensures forall i | 0 <= i < |added| :: BoxKept(w.start, w.s.passed + steps, added[i])
  {
    var skipped := Reported(w.s.next + steps, reported);
    SkippedFromIs(skipped, first, w.s.last);
    forall i | 0 <= i < |added|
      ensures added[i].at == first + i && BoxKept(w.start, w.s.passed + steps, added[i])
    {
      assert skipped[i] == w.start + first + i;
      assert added[i] == Skipped(skipped[i], first + i, if i == 0 then w.s.last else Some(skipped[i - 1]));
    }
  }

  lemma JumpLoses(w: World, first: int)
    requires Positions(w.start, w.s, w.read, w.lost) && w.s.passed <= first
    ensures LostKept(w.start, w.lost + Between(w.s.passed, first),
                     if first > w.s.passed then Lose(w.s.lost, w.s.passed, w.s.last) else w.s.lost)
  {}

  lemma JumpedKept(w: World, steps: nat, reported: nat)
    requires Positions(w.start, w.s, w.read, w.lost) && 0 < steps && reported <= steps
    ensures
      var s := JumpedBy(w.s, steps, reported);
      Positions(w.start, s, w.read, w.lost + Between(w.s.passed, s.passed - reported))
  {
    var first, s' := w.s.passed + steps - reported, JumpedBy(w.s, steps, reported);
    var added := SkippedFrom(Reported(w.s.next + steps, reported), first, w.s.last);
    AddedKept(w, steps, reported, first, added);
    JumpLoses(w, first);
    assert forall i | 0 <= i < |w.s.kept| :: BoxKept(w.start, w.s.passed, w.s.kept[i]) && w.s.kept[i].at < w.s.passed;
    assert forall i | |w.s.kept| <= i < |s'.kept| :: s'.kept[i] == added[i - |w.s.kept|];
    WalkPartition(w, first, s'.passed, s'.kept);
    AddedAscend(w.s.kept, added, w.s.passed, first);
    forall i | 0 <= i < |s'.kept|
      ensures BoxKept(w.start, s'.passed, s'.kept[i])
    {
      if i < |w.s.kept| {
        assert BoxKept(w.start, w.s.passed, w.s.kept[i]);
      } else {
        assert s'.kept[i] == added[i - |w.s.kept|];
      }
    }
  }

  lemma WalkKept(w: World, steps: nat, reported: nat, window: nat)
    requires Positions(w.start, w.s, w.read, w.lost) && 0 < steps && reported <= steps
    ensures
      var w' := AfterWalk(w, steps, reported, window);
      Positions(w.start, w'.s, w.read, w'.lost) && Within(w'.s.kept, w'.s.passed - window)
  {
    var s := JumpedBy(w.s, steps, reported);
    JumpedKept(w, steps, reported);
    ForgottenKept(w.start, s, w.read, w.lost + Between(w.s.passed, s.passed - reported), window);
  }

  lemma AddedAscend(kept: seq<Skipped>, added: seq<Skipped>, passed: int, first: int)
    requires Ascends(kept) && forall i | 0 <= i < |kept| :: kept[i].at < passed
    requires passed <= first && forall i | 0 <= i < |added| :: added[i].at == first + i
    ensures Ascends(kept + added)
  {}

  lemma WalkPartition(w: World, first: int, passed: int, kept: seq<Skipped>)
    requires Positions(w.start, w.s, w.read, w.lost) && w.s.passed <= first <= passed
    requires |kept| == |w.s.kept| + passed - first
    requires w.s.kept <= kept && forall i | |w.s.kept| <= i < |kept| :: kept[i].at == first + i - |w.s.kept|
    ensures Partition(passed, w.read, w.lost + Between(w.s.passed, first), kept)
  {
    forall p
      ensures IsKept(kept, p) <==> IsKept(w.s.kept, p) || first <= p < passed
    {
      if IsKept(w.s.kept, p) {
        var i :| 0 <= i < |w.s.kept| && w.s.kept[i].at == p;
        assert kept[i].at == p;
      }
      if first <= p < passed {
        assert kept[|w.s.kept| + p - first].at == p;
      }
      if IsKept(kept, p) {
        var i :| 0 <= i < |kept| && kept[i].at == p;
        if i < |w.s.kept| {
          assert w.s.kept[i].at == p;
        }
      }
    }
    forall p | p in w.read || p in w.lost
      ensures !IsKept(kept, p)
    {}
  }

  lemma InOrderKept(w: World, mode: Mode, window: nat)
    requires Positions(w.start, w.s, w.read, w.lost)
    ensures
      var s := w.s.(last := Some(w.s.next), next := w.s.next + 1, passed := w.s.passed + 1, mode := mode);
      var s' := Forgotten(s, window);
      && Positions(w.start, s', w.read + {w.s.passed}, w.lost + GivenUp(w.s.kept, s.passed - window))
      && Within(s'.kept, s'.passed - window)
      && w.s.passed !in w.read
  {
    NextKept(w, mode);
    var s := w.s.(last := Some(w.s.next), next := w.s.next + 1, passed := w.s.passed + 1, mode := mode);
    ForgottenKept(w.start, s, w.read + {w.s.passed}, w.lost, window);
  }

  lemma HandedMore(handed: seq<int>, read: set<int>, p: int)
    requires HandedOnce(handed, read) && p !in read
    ensures HandedOnce(handed, read + {p}) && HandedOnce(handed + [p], read + {p})
  {}

  lemma AnswerKept(w: World, index: nat, result: Result, more: bool, window: nat)
    requires ReadingKept(w, window)
    ensures
      var w' := AfterAnswer(w, index, result, more, window);
      ReadingKept(w', window) && w.read <= w'.read && w.lost <= w'.lost
  {
    if Position(w.s.kept, index) < |w.s.kept| {
      RecheckAnswer(w, index, result, more, window);
    } else if index == w.s.next && !w.s.mode.Idle? && !result.NotFound? && more {
      InOrderAnswer(w, result, window);
    }
  }

  lemma InOrderAnswer(w: World, result: Result, window: nat)
    requires ReadingKept(w, window) && Position(w.s.kept, w.s.next) == |w.s.kept|
    requires !w.s.mode.Idle? && !result.NotFound?
    ensures
      var w' := AfterAnswer(w, w.s.next, result, true, window);
      ReadingKept(w', window) && w.read <= w'.read && w.lost <= w'.lost
  {
    InOrderKept(w, w.s.mode, window);
    HandedMore(w.handed, w.read, w.s.passed);
    var s := w.s.(last := Some(w.s.next), next := w.s.next + 1, passed := w.s.passed + 1);
    assert AfterAnswer(w, w.s.next, result, true, window).s == Forgotten(s, window);
  }

  lemma RecheckAnswer(w: World, index: nat, result: Result, more: bool, window: nat)
    requires ReadingKept(w, window) && Position(w.s.kept, index) < |w.s.kept|
    ensures
      var w' := AfterAnswer(w, index, result, more, window);
      ReadingKept(w', window) && w.read <= w'.read && w.lost == w'.lost
  {
    var i := Position(w.s.kept, index);
    RecheckKept(w, i);
    HandedMore(w.handed, w.read, w.s.kept[i].at);
  }

  /** What is acknowledged now is never past an unread box. */
  lemma RunSafe(start: nat, s: State, read: set<int>, lost: set<int>)
    requires Positions(start, s, read, lost)
    ensures AllRead(start, read, Run(s))
  {}

  lemma GapIn(start: nat, s: State, lost: set<int>, passed: int, read: set<int>, gap: Gap)
    requires Positions(start, s, read, lost) && passed == s.passed && gap in Gaps(s.kept, s.lost)
    ensures 0 <= gap.at < passed && BeforeIt(start, gap.at, gap.before)
  {}

  lemma AcksMore(start: nat, read: set<int>, read': set<int>, acks: Acks)
    requires AcksKept(start, read, acks) && read <= read'
    ensures AcksKept(start, read', acks)
  {}

  lemma StepKept(w: World, step: Step, window: nat)
    requires Inv(w, window) && Enabled(w, step)
    ensures
      var w' := After(w, step, window);
      Inv(w', window) && w'.start == w.start && w.read <= w'.read && w.lost <= w'.lost
  {
    match step
    case Ask =>
    case Scan(heard) =>
    case WalkFails =>
    case WalkFinds(steps, reported) => WalkKept(w, steps, reported, window);
    case Answer(index, result, more) =>
      AnswerKept(w, index, result, more, window);
      AcksMore(w.start, w.read, After(w, step, window).read, w.acks);
    case Compose(token) => RunSafe(w.start, w.s, w.read, w.lost);
    case Written(token) =>
    case Abandoned(token) =>
    case Hold(holding) =>
  }

  // Runs.

  /** Whether the steps can be taken one after the other. */
  predicate Possible(start: nat, steps: seq<Step>, window: nat)
    decreases |steps|, 0
  {
    steps == [] ||
    (Possible(start, steps[..|steps| - 1], window)
     && Enabled(Reached(start, steps[..|steps| - 1], window), steps[|steps| - 1]))
  }

  function Reached(start: nat, steps: seq<Step>, window: nat): World
    requires Possible(start, steps, window)
    decreases |steps|, 1
  {
    if steps == [] then Begin(start)
    else After(Reached(start, steps[..|steps| - 1], window), steps[|steps| - 1], window)
  }

  lemma {:induction false} RunKept(start: nat, steps: seq<Step>, window: nat)
    requires Possible(start, steps, window)
    ensures Inv(Reached(start, steps, window), window) && Reached(start, steps, window).start == start
    decreases |steps|
  {
    if steps != [] {
      RunKept(start, steps[..|steps| - 1], window);
      StepKept(Reached(start, steps[..|steps| - 1], window), steps[|steps| - 1], window);
    }
  }

  lemma {:induction false} EarlierPossible(start: nat, steps: seq<Step>, n: nat, window: nat)
    requires Possible(start, steps, window) && n <= |steps|
    ensures Possible(start, steps[..n], window)
    decreases |steps|
  {
    if n == |steps| {
      assert steps[..n] == steps;
    } else {
      EarlierPossible(start, steps[..|steps| - 1], n, window);
      assert steps[..|steps| - 1][..n] == steps[..n];
    }
  }

  /** The world after the first `n` steps. */
  function Moment(start: nat, steps: seq<Step>, n: nat, window: nat): World
    requires Possible(start, steps, window) && n <= |steps|
  {
    EarlierPossible(start, steps, n, window);
    Reached(start, steps[..n], window)
  }

  lemma MomentNext(start: nat, steps: seq<Step>, n: nat, window: nat)
    requires Possible(start, steps, window) && n < |steps|
    ensures
      var w := Moment(start, steps, n, window);
      Enabled(w, steps[n]) && Moment(start, steps, n + 1, window) == After(w, steps[n], window)
  {
    EarlierPossible(start, steps, n + 1, window);
    assert steps[..n + 1][..n] == steps[..n];
  }

  lemma MomentKept(start: nat, steps: seq<Step>, n: nat, window: nat)
    requires Possible(start, steps, window) && n <= |steps|
    ensures Inv(Moment(start, steps, n, window), window) && Moment(start, steps, n, window).start == start
  {
    EarlierPossible(start, steps, n, window);
    RunKept(start, steps[..n], window);
  }

  lemma LostNext(start: nat, steps: seq<Step>, n: nat, window: nat)
    requires Possible(start, steps, window) && n < |steps|
    ensures Moment(start, steps, n, window).lost <= Moment(start, steps, n + 1, window).lost
  {
    MomentNext(start, steps, n, window);
    MomentKept(start, steps, n, window);
    StepKept(Moment(start, steps, n, window), steps[n], window);
  }

  /** In every reachable state every box at or before the end of the run was
      read, and so was every box at or before what was acknowledged. */
  lemma NeverPastUnread(start: nat, steps: seq<Step>, window: nat)
    requires Possible(start, steps, window)
    ensures
      var w := Reached(start, steps, window);
      && AllRead(start, w.read, Run(w.s))
      && AllRead(start, w.read, w.acks.published)
  {
    RunKept(start, steps, window);
    var w := Reached(start, steps, window);
    RunSafe(w.start, w.s, w.read, w.lost);
  }

  /** Conservation: every box passed is read, kept or lost, and only one of
      them; `lost` is the first of the lost; the boxes kept ascend, are within
      the window and no more than it; and none is handed out twice. */
  lemma Conserved(start: nat, steps: seq<Step>, window: nat)
    requires Possible(start, steps, window)
    ensures
      var w := Reached(start, steps, window);
      && w.s.next == start + w.s.passed && Partition(w.s.passed, w.read, w.lost, w.s.kept)
      && (w.lost == {} <==> w.s.lost.None?)
      && (w.s.lost.Some? ==> w.s.lost.value.at in w.lost && forall p | p in w.lost :: w.s.lost.value.at <= p)
      && Ascends(w.s.kept) && |w.s.kept| <= window && Within(w.s.kept, w.s.passed - window)
      && HandedOnce(w.handed, w.read)
  {
    RunKept(start, steps, window);
    var w := Reached(start, steps, window);
    if w.s.kept != [] {
      AtLeast(w.s.kept, |w.s.kept| - 1, w.s.passed - window);
      assert BoxKept(start, w.s.passed, w.s.kept[|w.s.kept| - 1]);
    }
  }

  lemma {:induction false} AtLeast(kept: seq<Skipped>, i: nat, bound: int)
    requires Ascends(kept) && Within(kept, bound) && i < |kept|
    ensures kept[i].at >= bound + i
  {
    if i > 0 {
      AtLeast(kept, i - 1, bound);
    }
  }

  lemma {:induction false} LostStays(start: nat, steps: seq<Step>, n: nat, m: nat, window: nat, p: int)
    requires Possible(start, steps, window) && n <= m <= |steps|
    requires p in Moment(start, steps, n, window).lost
    ensures p in Moment(start, steps, m, window).lost
    decreases m
  {
    if n < m {
      LostStays(start, steps, n, m - 1, window, p);
      LostNext(start, steps, m - 1, window);
    }
  }

  /** A box once lost stays unread: from that moment on the run ends before it,
      and so does what is published. */
  lemma LostForGood(start: nat, steps: seq<Step>, n: nat, m: nat, window: nat, p: int)
    requires Possible(start, steps, window) && n <= m <= |steps|
    requires p in Moment(start, steps, n, window).lost
    ensures
      var w := Moment(start, steps, m, window);
      && p in w.lost && p !in w.read
      && (Run(w.s).Some? ==> Run(w.s).value < start + p)
      && (w.acks.published.Some? ==> w.acks.published.value < start + p)
  {
    LostStays(start, steps, n, m, window, p);
    EarlierPossible(start, steps, m, window);
    RunKept(start, steps[..m], window);
    NeverPastUnread(start, steps[..m], window);
  }

  // While publishing is held back.

  /** What was published at one of the first moments, the n-th included. */
  ghost predicate WasPublished(start: nat, steps: seq<Step>, n: nat, window: nat, published: Option<nat>)
    requires Possible(start, steps, window) && n <= |steps|
  {
    exists k | 0 <= k <= n :: Moment(start, steps, k, window).acks.published == published
  }

  predicate PublishedChanges(start: nat, steps: seq<Step>, k: nat, window: nat)
    requires Possible(start, steps, window) && k < |steps|
  {
    Moment(start, steps, k + 1, window).acks.published != Moment(start, steps, k, window).acks.published
  }

  /** What a pending message would be taken back to was published once. */
  lemma {:induction false} PendingWas(start: nat, steps: seq<Step>, n: nat, window: nat, token: nat)
    requires Possible(start, steps, window) && n <= |steps|
    requires token in Moment(start, steps, n, window).acks.pending
    ensures WasPublished(start, steps, n, window, Moment(start, steps, n, window).acks.pending[token].0)
  {
    if n > 0 {
      MomentNext(start, steps, n - 1, window);
      var acks, acks' := Moment(start, steps, n - 1, window).acks, Moment(start, steps, n, window).acks;
      if token in acks.pending && acks.pending[token] == acks'.pending[token] {
        PendingWas(start, steps, n - 1, window, token);
      } else {
        assert acks'.pending[token].0 == acks.published;
      }
    }
  }

  /** A step taken while publishing is held back makes no message pending. */
  lemma HeldPending(w: World, step: Step, window: nat, token: nat)
    requires Enabled(w, step) && w.acks.holding && token in After(w, step, window).acks.pending
    ensures token in w.acks.pending && w.acks.pending[token] == After(w, step, window).acks.pending[token]
  {}

  lemma {:induction false} PendingShrinks(start: nat, steps: seq<Step>, n: nat, m: nat, window: nat, token: nat)
    requires Possible(start, steps, window) && n <= m <= |steps|
    requires forall k | n <= k < m :: Moment(start, steps, k, window).acks.holding
    requires token in Moment(start, steps, m, window).acks.pending
    ensures
      var acks, acks' := Moment(start, steps, n, window).acks, Moment(start, steps, m, window).acks;
      token in acks.pending && acks.pending[token] == acks'.pending[token]
    decreases m
  {
    hide Moment, After;
    if n < m {
      MomentNext(start, steps, m - 1, window);
      HeldPending(Moment(start, steps, m - 1, window), steps[m - 1], window, token);
      PendingShrinks(start, steps, n, m - 1, window, token);
    }
  }

  lemma PublishedNext(start: nat, steps: seq<Step>, k: nat, window: nat)
    requires Possible(start, steps, window) && k < |steps| && PublishedChanges(start, steps, k, window)
    requires Moment(start, steps, k, window).acks.holding
    ensures
      var acks, acks' := Moment(start, steps, k, window).acks, Moment(start, steps, k + 1, window).acks;
      steps[k].Abandoned? && steps[k].token in acks.pending && acks'.published == acks.pending[steps[k].token].0
  {
    MomentNext(start, steps, k, window);
  }

  lemma HeldChange(start: nat, steps: seq<Step>, n: nat, k: nat, window: nat)
    requires Possible(start, steps, window) && n <= k < |steps| && PublishedChanges(start, steps, k, window)
    requires forall l | n <= l <= k :: Moment(start, steps, l, window).acks.holding
    ensures steps[k].Abandoned? && steps[k].token in Moment(start, steps, n, window).acks.pending
    ensures WasPublished(start, steps, n, window, Moment(start, steps, k + 1, window).acks.published)
  {
    PublishedNext(start, steps, k, window);
    PendingShrinks(start, steps, n, k, window, steps[k].token);
    PendingWas(start, steps, n, window, steps[k].token);
  }

  lemma {:induction false} HeldIsOld(start: nat, steps: seq<Step>, n: nat, m: nat, window: nat)
    requires Possible(start, steps, window) && n <= m <= |steps|
    requires forall k | n <= k < m :: Moment(start, steps, k, window).acks.holding
    ensures WasPublished(start, steps, n, window, Moment(start, steps, m, window).acks.published)
    decreases m
  {
    if n < m {
      HeldIsOld(start, steps, n, m - 1, window);
      if PublishedChanges(start, steps, m - 1, window) {
        HeldChange(start, steps, n, m - 1, window);
      }
    }
  }

  /** While an induction holds publishing back, from the n-th moment to the
      m-th, what is published changes only when a message pending since before
      is abandoned, and is always something published by the n-th moment. */
  lemma HoldingPublishesNothing(start: nat, steps: seq<Step>, n: nat, m: nat, window: nat)
    requires Possible(start, steps, window) && n <= m <= |steps|
    requires forall k | n <= k < m :: Moment(start, steps, k, window).acks.holding
    ensures WasPublished(start, steps, n, window, Moment(start, steps, m, window).acks.published)
    ensures forall k | n <= k < m && PublishedChanges(start, steps, k, window) ::
              steps[k].Abandoned? && steps[k].token in Moment(start, steps, n, window).acks.pending
  {
    HeldIsOld(start, steps, n, m, window);
    forall k | n <= k < m && PublishedChanges(start, steps, k, window)
      ensures steps[k].Abandoned? && steps[k].token in Moment(start, steps, n, window).acks.pending
    {
      HeldChange(start, steps, n, k, window);
    }
  }

  // Forgetting and the run.

  lemma {:induction false} FirstOf(gaps: seq<Gap>, first: Gap)
    requires first in gaps && forall gap | gap in gaps :: first.at <= gap.at && (gap.at == first.at ==> gap == first)
    ensures FirstGap(gaps) == first
  {}

  /** What orders the gaps: each was passed at a count of its own, below the
      reader's. */
  predicate GapsOrdered(s: State) {
    && Ascends(s.kept)
    && (forall i | 0 <= i < |s.kept| :: s.kept[i].at < s.passed)
    && (s.lost.Some? ==>
          s.lost.value.at < s.passed && forall i | 0 <= i < |s.kept| :: s.kept[i].at != s.lost.value.at)
  }

  lemma PositionsOrdered(start: nat, s: State, read: set<int>, lost: set<int>)
    requires Positions(start, s, read, lost)
    ensures GapsOrdered(s)
  {
    forall i | 0 <= i < |s.kept|
      ensures s.kept[i].at < s.passed && IsKept(s.kept, s.kept[i].at)
    {
      assert BoxKept(start, s.passed, s.kept[i]);
    }
  }

  /** Forgetting leaves the end of the run where it was. */
  lemma ForgettingKeepsRun(s: State, window: nat)
    requires GapsOrdered(s)
    ensures Run(Forgotten(s, window)) == Run(s) && GapsOrdered(Forgotten(s, window))
  {
    var s' := Forgotten(s, window);
    var gaps, gaps' := Gaps(s.kept, s.lost), Gaps(s'.kept, s'.lost);
    GapsAre(s);
    GapsAre(s');
    ForgottenOrdered(s, window);
    forall gap | gap in gaps'
      ensures gap in gaps
    {
      NoNewGap(s, window, gap);
    }
    if gaps != [] {
      var first := FirstGap(gaps);
      FirstStays(s, window, first);
      GapsApart(s);
      FirstOf(gaps', first);
    }
  }

  lemma ForgottenOrdered(s: State, window: nat)
    requires GapsOrdered(s)
    ensures GapsOrdered(Forgotten(s, window))
  {
    var kept := KeptFrom(s.kept, s.passed - window);
    KeptFromIs(s.kept, s.passed - window);
    LoseBelowIs(s.lost, s.kept, s.passed - window);
    forall i | 0 <= i < |kept|
      ensures kept[i].at < s.passed && kept[i].at >= s.passed - window && kept[i] in s.kept
    {
      assert kept[i] in kept;
    }
  }

  lemma NoNewGap(s: State, window: nat, gap: Gap)
    requires IsGap(Forgotten(s, window), gap)
    ensures IsGap(s, gap)
  {
    KeptFromIn(s.kept, s.passed - window);
    LoseBelowIs(s.lost, s.kept, s.passed - window);
  }

  lemma FirstStays(s: State, window: nat, first: Gap)
    requires GapsOrdered(s) && IsGap(s, first)
    requires forall gap | IsGap(s, gap) :: first.at <= gap.at
    ensures IsGap(Forgotten(s, window), first)
  {
    KeptFromIn(s.kept, s.passed - window);
    LoseBelowIs(s.lost, s.kept, s.passed - window);
    GapsApart(s);
  }

  predicate IsGap(s: State, gap: Gap) {
    s.lost == Some(gap) || exists box :: box in s.kept && gap == Gap(box.at, box.before)
  }

  lemma GapsAre(s: State)
    ensures forall gap :: gap in Gaps(s.kept, s.lost) <==> IsGap(s, gap)
  {}

  lemma GapsApart(s: State)
    requires GapsOrdered(s)
    ensures forall a, b | IsGap(s, a) && IsGap(s, b) && a.at == b.at :: a == b
  {}

  /** The gap recorded as lost is the first of the one before and those given up. */
  lemma {:induction false} LoseBelowIs(lost: Option<Gap>, kept: seq<Skipped>, bound: int)
    ensures
      var r := LoseBelow(lost, kept, bound);
      && (r == lost || (r.Some? && exists box :: box in kept && box.at < bound && r.value == Gap(box.at, box.before)))
      && (lost.Some? ==> r.Some? && r.value.at <= lost.value.at)
      && (forall box | box in kept && box.at < bound :: r.Some? && r.value.at <= box.at)
  {
    if kept != [] {
      LoseBelowIs(lost, kept[..|kept| - 1], bound);
      assert kept == kept[..|kept| - 1] + [kept[|kept| - 1]];
    }
  }

  // How exact the run is.

  /** The box before the one passed at `at`. */
  function JustBefore(start: nat, at: int): Option<nat> {
    if at <= 0 then None else Some(start + at - 1)
  }

  /** Each gap that may be first is right after the box that may be
      acknowledged before it. */
  predicate Tight(start: nat, s: State) {
    && (forall box | box in s.kept ::
          box.before == JustBefore(start, box.at) || (s.lost.Some? && s.lost.value.at < box.at))
    && (s.lost.Some? ==> s.lost.value.before == JustBefore(start, s.lost.value.at))
  }

  /** The last box passed was read in order. */
  predicate InOrder(w: World) {
    w.s.last == JustBefore(w.start, w.s.passed)
  }

  /** Every walk starts right after a box read in order. */
  predicate WalksFromOrder(start: nat, steps: seq<Step>, window: nat)
    requires Possible(start, steps, window)
    decreases |steps|
  {
    steps == [] ||
    (WalksFromOrder(start, steps[..|steps| - 1], window)
     && (steps[|steps| - 1].WalkFinds? ==> InOrder(Reached(start, steps[..|steps| - 1], window))))
  }

  lemma ForgottenTight(start: nat, s: State, window: nat)
    requires Ascends(s.kept) && Tight(start, s)
    ensures Tight(start, Forgotten(s, window))
  {
    KeptFromIs(s.kept, s.passed - window);
    LoseBelowIs(s.lost, s.kept, s.passed - window);
  }

  lemma JumpedTight(w: World, steps: nat, reported: nat)
    requires Positions(w.start, w.s, w.read, w.lost) && 0 < steps && reported <= steps
    requires Tight(w.start, w.s) && InOrder(w)
    ensures Tight(w.start, JumpedBy(w.s, steps, reported))
  {
    var first, s' := w.s.passed + steps - reported, JumpedBy(w.s, steps, reported);
    var skipped := Reported(w.s.next + steps, reported);
    var added := SkippedFrom(skipped, first, w.s.last);
    SkippedFromIs(skipped, first, w.s.last);
    forall box | box in added
      ensures box.before == JustBefore(w.start, box.at) || (s'.lost.Some? && s'.lost.value.at < box.at)
    {
      var i :| 0 <= i < |added| && added[i] == box;
      assert i > 0 ==> skipped[i - 1] == w.start + first + i - 1;
    }
    forall box | box in w.s.kept
      ensures box.before == JustBefore(w.start, box.at) || (s'.lost.Some? && s'.lost.value.at < box.at)
    {}
  }

  lemma WalkTight(w: World, steps: nat, reported: nat, window: nat)
    requires Positions(w.start, w.s, w.read, w.lost) && 0 < steps && reported <= steps
    requires Tight(w.start, w.s) && InOrder(w)
    ensures Tight(w.start, AfterWalk(w, steps, reported, window).s)
  {
    var s' := JumpedBy(w.s, steps, reported);
    JumpedKept(w, steps, reported);
    JumpedTight(w, steps, reported);
    ForgottenTight(w.start, s', window);
    assert AfterWalk(w, steps, reported, window).s == Forgotten(s', window);
  }

  lemma StepTight(w: World, step: Step, window: nat)
    requires Inv(w, window) && Enabled(w, step) && Tight(w.start, w.s) && (step.WalkFinds? ==> InOrder(w))
    ensures Tight(w.start, After(w, step, window).s)
  {
    match step
    case WalkFinds(steps, reported) => WalkTight(w, steps, reported, window);
    case Answer(index, result, more) => AnswerTight(w, index, result, more, window);
    case _ =>
  }

  lemma AnswerTight(w: World, index: nat, result: Result, more: bool, window: nat)
    requires Inv(w, window) && Tight(w.start, w.s)
    ensures Tight(w.start, AfterAnswer(w, index, result, more, window).s)
  {
    var i, s' := Position(w.s.kept, index), AfterAnswer(w, index, result, more, window).s;
    if i < |w.s.kept| {
      assert forall box | box in s'.kept :: box in w.s.kept;
    } else {
      ForgottenTight(w.start, w.s.(last := Some(index), next := index + 1, passed := w.s.passed + 1), window);
    }
  }

  lemma {:induction false} RunTight(start: nat, steps: seq<Step>, window: nat)
    requires Possible(start, steps, window) && WalksFromOrder(start, steps, window)
    ensures Tight(start, Reached(start, steps, window).s)
    decreases |steps|
  {
    if steps != [] {
      RunTight(start, steps[..|steps| - 1], window);
      RunKept(start, steps[..|steps| - 1], window);
      StepTight(Reached(start, steps[..|steps| - 1], window), steps[|steps| - 1], window);
    }
  }

  /** If every walk started right after a box read in order, the run ends
      exactly before the first box that was not read if and only if a gap is
      left or the last box passed was read in order. */
  lemma RunExact(start: nat, steps: seq<Step>, window: nat)
    requires Possible(start, steps, window) && WalksFromOrder(start, steps, window)
    ensures
      var w := Reached(start, steps, window);
      (exists n: nat :: RunEndsBefore(w, n)) <==> w.s.kept != [] || w.s.lost.Some? || InOrder(w)
  {
    RunKept(start, steps, window);
    RunTight(start, steps, window);
    var w := Reached(start, steps, window);
    if w.s.kept != [] || w.s.lost.Some? {
      FirstGapEndsRun(w);
    } else {
      NoGapEndsRun(w);
    }
  }

  /** The boxes before count `n` were read, that at `n` was not, and the run
      ends there. */
  predicate RunEndsBefore(w: World, n: nat) {
    && n <= w.s.passed && n !in w.read && (forall p | 0 <= p < n :: p in w.read)
    && Run(w.s) == JustBefore(w.start, n)
  }

  lemma NoGapEndsRun(w: World)
    requires Positions(w.start, w.s, w.read, w.lost) && w.s.kept == [] && w.s.lost.None?
    ensures (exists n: nat :: RunEndsBefore(w, n)) <==> InOrder(w)
  {
    var passed: nat := w.s.passed;
    assert Gaps(w.s.kept, w.s.lost) == [];
    assert passed !in w.read && forall p | 0 <= p < passed :: p in w.read;
    if InOrder(w) {
      assert RunEndsBefore(w, passed);
    }
  }

  lemma FirstGapEndsRun(w: World)
    requires Positions(w.start, w.s, w.read, w.lost) && Tight(w.start, w.s)
    requires w.s.kept != [] || w.s.lost.Some?
    ensures exists n: nat :: RunEndsBefore(w, n)
  {
    var gaps := Gaps(w.s.kept, w.s.lost);
    var first := FirstGap(gaps);
    RunSafe(w.start, w.s, w.read, w.lost);
    GapIn(w.start, w.s, w.lost, w.s.passed, w.read, first);
    GapsAre(w.s);
    if w.s.lost != Some(first) {
      var box :| box in w.s.kept && first == Gap(box.at, box.before);
      assert IsKept(w.s.kept, first.at);
    }
    assert first.before == JustBefore(w.start, first.at);
    assert first.at > 0 ==> Run(w.s) == Some((w.start + first.at - 1) as nat);
    assert RunEndsBefore(w, first.at);
  }

  // What is published.

  /** Whether the last of the first `n` steps that began or ended a hold began it. */
  function LastHold(steps: seq<Step>, n: nat): bool
    requires n <= |steps|
  {
    if n == 0 then false else if steps[n - 1].Hold? then steps[n - 1].holding else LastHold(steps, n - 1)
  }

  /** Publishing is held back exactly while an induction holds it. */
  lemma {:induction false} HoldsExactly(start: nat, steps: seq<Step>, n: nat, window: nat)
    requires Possible(start, steps, window) && n <= |steps|
    ensures Moment(start, steps, n, window).acks.holding <==> LastHold(steps, n)
  {
    if n > 0 {
      HoldsExactly(start, steps, n - 1, window);
      MomentNext(start, steps, n - 1, window);
      HoldingNext(Moment(start, steps, n - 1, window), steps[n - 1], window);
      hide Moment, After;
    }
  }

  lemma HoldingNext(w: World, step: Step, window: nat)
    requires Enabled(w, step)
    ensures After(w, step, window).acks.holding == if step.Hold? then step.holding else w.acks.holding
  {}

  /** A message composed while nothing is held back leaves exactly the end of
      the run published, if there is one; it is pending with what was published
      before exactly if that changed. One composed under a hold, or before
      anything was read, changes nothing. */
  lemma ComposePublishes(start: nat, steps: seq<Step>, n: nat, window: nat)
    requires Possible(start, steps, window) && n < |steps| && steps[n].Compose?
    ensures
      var w, w' := Moment(start, steps, n, window), Moment(start, steps, n + 1, window);
      var run, token := Run(w.s), steps[n].token;
      && w'.s == w.s
      && (w.acks.holding || run.None? ==> w'.acks == w.acks)
      && (!w.acks.holding && run.Some? ==> w'.acks.published == run && !w'.acks.holding)
      && (token in w'.acks.pending <==> w'.acks.published != w.acks.published)
      && (token in w'.acks.pending ==>
            w'.acks.pending == w.acks.pending[token := (w.acks.published, run.value)])
      && (token !in w'.acks.pending ==> w'.acks.pending == w.acks.pending)
  {
    MomentNext(start, steps, n, window);
  }

  predicate Ends(step: Step, token: nat) {
    step == Written(token) || step == Abandoned(token)
  }

  lemma PendingNext(w: World, step: Step, window: nat, token: nat)
    requires Enabled(w, step)
    ensures
      var pending, pending' := w.acks.pending, After(w, step, window).acks.pending;
      && (token in pending && !Ends(step, token) ==> token in pending' && pending'[token] == pending[token])
      && (token !in pending && step != Compose(token) ==> token !in pending')
      && (Ends(step, token) ==> token !in pending')
  {}

  lemma {:induction false} PendingStays(start: nat, steps: seq<Step>, n: nat, m: nat, window: nat, token: nat)
    requires Possible(start, steps, window) && n <= m <= |steps|
    requires forall k | n <= k < m :: !Ends(steps[k], token)
    requires token in Moment(start, steps, n, window).acks.pending
    ensures
      var acks, acks' := Moment(start, steps, n, window).acks, Moment(start, steps, m, window).acks;
      token in acks'.pending && acks'.pending[token] == acks.pending[token]
    decreases m
  {
    hide Moment, After;
    if n < m {
      PendingStays(start, steps, n, m - 1, window, token);
      MomentNext(start, steps, m - 1, window);
      PendingNext(Moment(start, steps, m - 1, window), steps[m - 1], window, token);
    }
  }

  lemma {:induction false} EndedStays(start: nat, steps: seq<Step>, n: nat, m: nat, window: nat, token: nat)
    requires Possible(start, steps, window) && n < m <= |steps| && Ends(steps[n], token)
    requires forall k | n < k < m :: steps[k] != Compose(token)
    ensures token !in Moment(start, steps, m, window).acks.pending
    decreases m
  {
    hide Moment, After;
    MomentNext(start, steps, m - 1, window);
    PendingNext(Moment(start, steps, m - 1, window), steps[m - 1], window, token);
    if n + 1 < m {
      EndedStays(start, steps, n, m - 1, window, token);
    }
  }

  /** Abandoning a message that changed what is published gives that back,
      unless something else was published meanwhile. */
  lemma AbandonedGivesBack(start: nat, steps: seq<Step>, n: nat, m: nat, window: nat, token: nat)
    requires Possible(start, steps, window) && n < m < |steps|
    requires steps[n] == Compose(token) && PublishedChanges(start, steps, n, window)
    requires steps[m] == Abandoned(token) && forall k | n < k < m :: !Ends(steps[k], token)
    ensures
      var before, composed := Moment(start, steps, n, window).acks, Moment(start, steps, n + 1, window).acks;
      var acks, acks' := Moment(start, steps, m, window).acks, Moment(start, steps, m + 1, window).acks;
      && acks'.published == (if acks.published == composed.published then before.published else acks.published)
      && acks'.pending == acks.pending - {token} && acks'.holding == acks.holding
  {
    ComposePublishes(start, steps, n, window);
    PendingStays(start, steps, n + 1, m, window, token);
    MomentNext(start, steps, m, window);
    hide Moment;
  }

  /** Abandoning a message that was written or abandoned before, and not made
      again, changes nothing. */
  lemma EndedStandsStill(start: nat, steps: seq<Step>, n: nat, m: nat, window: nat, token: nat)
    requires Possible(start, steps, window) && n < m < |steps|
    requires Ends(steps[n], token) && forall k | n < k < m :: steps[k] != Compose(token)
    requires steps[m] == Abandoned(token)
    ensures Moment(start, steps, m + 1, window) == Moment(start, steps, m, window)
  {
    EndedStays(start, steps, n, m, window, token);
    MomentNext(start, steps, m, window);
    hide Moment;
  }
}
