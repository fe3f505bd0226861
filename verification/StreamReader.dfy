/**
  Reading one member's stream: in order, with the boxes a walk stepped past kept
  for rechecking, and those no longer kept lost for good. A box is named by its
  counter.
 */
module StreamReader {
  import opened Basics

  datatype Mode = Idle | Reading | Scanning

  /** A box not read yet: `at` is how many boxes the reader had passed when it
      came to it, `before` the box it was at then, or the last one skipped. */
  datatype Skipped = Skipped(index: nat, at: int, before: Option<nat>)

  datatype Gap = Gap(at: int, before: Option<nat>)

  datatype State = State(
    next: nat,
    last: Option<nat>,
    passed: int,
    kept: seq<Skipped>,
    lost: Option<Gap>,
    mode: Mode,
    tried: seq<nat>)

  datatype Result = Data | Tombstone | NotFound

  datatype Effect = ReadBox(index: nat, recheck: bool) | Walk(start: nat, targets: seq<nat>, keep: nat)

  // What is acknowledged.

  function GapsOf(kept: seq<Skipped>): (gaps: seq<Gap>)
    ensures |gaps| == |kept| && forall i | 0 <= i < |kept| :: gaps[i] == Gap(kept[i].at, kept[i].before)
  {
    seq(|kept|, i requires 0 <= i < |kept| => Gap(kept[i].at, kept[i].before))
  }

  function Gaps(kept: seq<Skipped>, lost: Option<Gap>): seq<Gap> {
    GapsOf(kept) + if lost.Some? then [lost.value] else []
  }

  /** The gap passed first. */
  function FirstGap(gaps: seq<Gap>): (first: Gap)
    requires gaps != []
    ensures first in gaps && forall gap | gap in gaps :: first.at <= gap.at
  {
    if |gaps| == 1 then gaps[0]
    else
      var first := FirstGap(gaps[1..]);
      if gaps[0].at <= first.at then gaps[0] else first
  }

  /** `Reader.run`: how far the stream may be acknowledged. */
  function Run(s: State): Option<nat> {
    var gaps := Gaps(s.kept, s.lost);
    if gaps == [] then s.last else FirstGap(gaps).before
  }

  // What the methods of `Reader` change.

  /** `read`: an idle reader asks for the next box. */
  function Asked(s: State): (State, seq<Effect>) {
    if s.mode.Idle? then (s.(mode := Reading), [ReadBox(s.next, false)]) else (s, [])
  }

  function Lose(lost: Option<Gap>, at: int, before: Option<nat>): Option<Gap> {
    if lost.None? || at < lost.value.at then Some(Gap(at, before)) else lost
  }

  function LoseBelow(lost: Option<Gap>, kept: seq<Skipped>, bound: int): Option<Gap> {
    if kept == [] then lost
    else
      var front := LoseBelow(lost, kept[..|kept| - 1], bound);
      var box := kept[|kept| - 1];
      if box.at < bound then Lose(front, box.at, box.before) else front
  }

  function KeptFrom(kept: seq<Skipped>, bound: int): seq<Skipped> {
    if kept == [] then []
    else
      var front := KeptFrom(kept[..|kept| - 1], bound);
      var box := kept[|kept| - 1];
      if box.at >= bound then front + [box] else front
  }

  /** `_forget` */
  function Forgotten(s: State, window: nat): State {
    s.(lost := LoseBelow(s.lost, s.kept, s.passed - window), kept := KeptFrom(s.kept, s.passed - window))
  }

  function SkippedFrom(skipped: seq<nat>, start: int, before: Option<nat>): seq<Skipped> {
    if skipped == [] then []
    else
      [Skipped(skipped[0], start, before)] + SkippedFrom(skipped[1..], start + 1, Some(skipped[0]))
  }

  /** What a walk that found its target passes: the boxes it reports are kept,
      and those before them lost. */
  function Jumped(s: State, target: nat, skipped: seq<nat>, steps: nat): State {
    var start := s.passed + steps - |skipped|;
    s.(lost := if start > s.passed then Lose(s.lost, s.passed, s.last) else s.lost,
       kept := s.kept + SkippedFrom(skipped, start, s.last),
       passed := s.passed + steps,
       next := target)
  }

  /** `walked`, when a target was found. */
  function Walked(s: State, target: nat, skipped: seq<nat>, steps: nat, window: nat): State {
    Forgotten(Jumped(s, target, skipped, steps), window)
  }

  /** Where in `kept` the box `index` is first, if anywhere. */
  function Position(kept: seq<Skipped>, index: nat): (i: nat)
    ensures i <= |kept|
    ensures i < |kept| ==> kept[i].index == index
    ensures forall j | 0 <= j < i :: kept[j].index != index
  {
    if kept == [] || kept[0].index == index then 0 else 1 + Position(kept[1..], index)
  }

  /** What `found` makes of one box read: the state, and whether its plaintext
      is to be ingested. */
  function Found(s: State, index: nat, result: Result, next: Option<nat>, window: nat): (State, bool) {
    var i := Position(s.kept, index);
    if i < |s.kept| then
      (if result.NotFound? then s else s.(kept := s.kept[..i] + s.kept[i + 1..]), result.Data?)
    else if index != s.next || s.mode.Idle? then (s, false)
    else if result.NotFound? || next.None? then (s.(mode := Idle), false)
    else
      (Forgotten(s.(last := Some(index), next := next.value, passed := s.passed + 1), window), result.Data?)
  }

  /** `ahead`: the boxes heard of past `here` that were not tried, each once. */
  function Ahead(heard: seq<nat>, here: nat, tried: seq<nat>): (targets: seq<nat>)
    ensures forall h :: h in targets <==> h in heard && h > here && h !in tried
    ensures forall i, j | 0 <= i < j < |targets| :: targets[i] != targets[j]
  {
    if heard == [] then []
    else
      var targets := Ahead(heard[..|heard| - 1], here, tried);
      var h := heard[|heard| - 1];
      assert heard == heard[..|heard| - 1] + [h];
      if h > here && h !in tried && h !in targets then targets + [h] else targets
  }

  function StillTried(tried: seq<nat>, heard: seq<nat>, here: nat): (r: seq<nat>)
    ensures forall t :: t in r <==> t in tried && t > here && t in heard
    ensures (forall i, j | 0 <= i < j < |tried| :: tried[i] != tried[j]) ==>
              forall i, j | 0 <= i < j < |r| :: r[i] != r[j]
  {
    if tried == [] then []
    else
      var front := StillTried(tried[..|tried| - 1], heard, here);
      var t := tried[|tried| - 1];
      assert tried == tried[..|tried| - 1] + [t];
      assert forall i | 0 <= i < |front| :: front[i] in front;
      if t > here && t in heard then front + [t] else front
  }

  function Rechecks(kept: seq<Skipped>): seq<Effect> {
    seq(|kept|, i requires 0 <= i < |kept| => ReadBox(kept[i].index, true))
  }

  /** `scan` */
  function Scanned(s: State, heard: seq<nat>, window: nat): (State, seq<Effect>) {
    var tried := StillTried(s.tried, heard, s.next);
    var targets := Ahead(heard, s.next, tried);
    if targets != [] then
      (s.(mode := Scanning, tried := tried + targets), Rechecks(s.kept) + [Walk(s.next, targets, window)])
    else
      (s.(mode := Scanning, tried := tried), Rechecks(s.kept) + [ReadBox(s.next, false)])
  }

  // What a reader is given, by `Group.handle` and `_box_read`.

  datatype Event =
    | ReadAsked
    | ScanAsked(heard: seq<nat>)
    | WalkEnded(target: Option<nat>, skipped: seq<nat>, steps: nat)
    | BoxRead(index: nat, result: Result, next: Option<nat>)

  function Handled(s: State, e: Event, window: nat): State {
    match e
    case ReadAsked => Asked(s).0
    case ScanAsked(heard) => Scanned(s, heard, window).0
    case WalkEnded(target, skipped, steps) =>
      if target.None? then s else Walked(s, target.value, skipped, steps, window)
    case BoxRead(index, result, next) => Found(s, index, result, next, window).0
  }

  /** What it asks for in return. */
  function Requests(s: State, e: Event, window: nat): seq<Effect> {
    var s' := Handled(s, e, window);
    match e
    case ReadAsked => Asked(s).1
    case ScanAsked(heard) => Scanned(s, heard, window).1
    case WalkEnded(_, _, _) => [ReadBox(s'.next, false)]
    case BoxRead(_, _, _) => if s'.passed > s.passed then [ReadBox(s'.next, false)] else []
  }

  /** What was tried stays small: each box once, ahead of here, still heard. */
  lemma ScanTries(s: State, heard: seq<nat>, window: nat)
    requires forall i, j | 0 <= i < j < |s.tried| :: s.tried[i] != s.tried[j]
    ensures
      var tried := Scanned(s, heard, window).0.tried;
      && (forall t :: t in tried <==> t in heard && t > s.next)
      && (forall i, j | 0 <= i < j < |tried| :: tried[i] != tried[j])
      && |tried| <= |heard|
  {
    var still := StillTried(s.tried, heard, s.next);
    var targets := Ahead(heard, s.next, still);
    var tried := Scanned(s, heard, window).0.tried;
    assert tried == still + targets;
    assert forall i | 0 <= i < |still| :: still[i] in still;
    assert forall i | 0 <= i < |targets| :: targets[i] in targets;
    assert forall t :: t in tried <==> t in still || t in targets;
    forall t | t in tried
      ensures t in heard
    {}
    DistinctWithin(tried, heard);
  }

  /** What a scan asks for: each kept box again, oldest first, and then either
      a walk to exactly the boxes heard of ahead that were not looked for, or,
      if there are none, the next box. */
  lemma ScanAsks(s: State, heard: seq<nat>, window: nat)
    ensures
      var effects := Scanned(s, heard, window).1;
      var last := effects[|effects| - 1];
      && |effects| == |s.kept| + 1
      && (forall i | 0 <= i < |s.kept| :: effects[i] == ReadBox(s.kept[i].index, true))
      && (last == ReadBox(s.next, false) <==> forall h | h in heard && h > s.next :: h in s.tried)
      && (last.Walk? <==> exists h :: h in heard && h > s.next && h !in s.tried)
      && (last.Walk? ==> last.start == s.next && last.keep == window)
      && (last.Walk? ==> forall h :: h in last.targets <==> h in heard && h > s.next && h !in s.tried)
  {
    var tried := StillTried(s.tried, heard, s.next);
    var targets := Ahead(heard, s.next, tried);
    assert forall h :: h in targets <==> h in heard && h > s.next && h !in s.tried;
    if targets != [] {
      assert targets[0] in targets;
    }
  }

  lemma {:induction false} DistinctWithin(a: seq<nat>, b: seq<nat>)
    requires forall i, j | 0 <= i < j < |a| :: a[i] != a[j]
    requires forall t | t in a :: t in b
    ensures |a| <= |b|
  {
    if a != [] {
      var t := a[|a| - 1];
      assert t in a && t in b;
      var k :| 0 <= k < |b| && b[k] == t;
      var rest := b[..k] + b[k + 1..];
      forall u | u in a[..|a| - 1]
        ensures u in rest
      {
        assert u in a && u in b;
        var m :| 0 <= m < |b| && b[m] == u;
        assert m != k;
        assert if m < k then rest[m] == u else rest[m - 1] == u;
      }
      DistinctWithin(a[..|a| - 1], rest);
    }
  }
}
