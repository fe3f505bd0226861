/**
  Runs of the Sent box: boxes are written once and rewritten for those behind,
  epochs never go back, and a box everyone has acknowledged stays so.
 */
module SentBoxRuns {
  import opened Basics
  import opened Sets
  import opened SentBox

  /** A rewrite as it happened: in which epoch, and whether everyone had
      acknowledged the box. */
  datatype Event = Event(epoch: int, box: nat, plaintext: Option<Bytes>, acked: bool)

  /** `written` are the boxes ever recorded, `gone` those whose plaintext was
      not there or was dropped, `log` every rewrite. */
  datatype World = World(
    records: Records,
    backfilled: int,
    epoch: int,
    acked: set<nat>,
    written: set<nat>,
    gone: set<nat>,
    log: seq<Event>)

  datatype Step =
    | Note(index: Index, plaintext: Option<Bytes>, control: bool)
    | Ack(boxes: set<nat>)
    | Tick(epoch: int)
    | Retain(policy: Retention)
    | Backfill

  function Begin(epoch: int): World {
    World(map[], -1, epoch, {}, {}, {}, [])
  }

  predicate Enabled(w: World, step: Step) {
    match step
    case Note(index, plaintext, control) => index.idx64 !in w.written
    case Tick(epoch) => w.epoch <= epoch
    case _ => true
  }

  function Logged(writes: seq<Write>, epoch: int, acked: set<nat>): seq<Event> {
    seq(|writes|, i requires 0 <= i < |writes| =>
      Event(epoch, writes[i].index.idx64, writes[i].plaintext, writes[i].index.idx64 in acked))
  }

  /** The boxes that lost their plaintext, or their record. */
  function Lost(before: Records, after: Records): set<nat> {
    set i | i in before && (i !in after || after[i].plaintext.None?)
  }

  function After(w: World, step: Step): World
    requires Enabled(w, step)
  {
    match step
    case Note(index, plaintext, control) =>
      w.(records := w.records[index.idx64 := Record(index, plaintext, control, w.epoch, false)],
         written := w.written + {index.idx64},
         gone := if plaintext.None? then w.gone + {index.idx64} else w.gone)
    case Ack(boxes) => w.(acked := w.acked + boxes)
    case Tick(epoch) => w.(epoch := epoch)
    case Retain(policy) =>
      var records := Retained(w.records, w.epoch, policy, w.acked);
      w.(records := records, gone := w.gone + Lost(w.records, records))
    case Backfill =>
      if w.epoch == w.backfilled then w
      else
        var (records, writes) := Backfilled(w.records, w.acked);
        w.(records := records, backfilled := w.epoch, log := w.log + Logged(writes, w.epoch, w.acked))
  }

  predicate Possible(epoch: int, steps: seq<Step>)
    decreases |steps|, 0
  {
    steps == [] ||
    (Possible(epoch, steps[..|steps| - 1]) && Enabled(Reached(epoch, steps[..|steps| - 1]), steps[|steps| - 1]))
  }

  function Reached(epoch: int, steps: seq<Step>): World
    requires Possible(epoch, steps)
    decreases |steps|, 1
  {
    if steps == [] then Begin(epoch) else After(Reached(epoch, steps[..|steps| - 1]), steps[|steps| - 1])
  }

  // What every world keeps.

  predicate RecordKept(i: nat, r: Record, written: set<nat>, gone: set<nat>) {
    r.index.idx64 == i && i in written && (i in gone <==> r.plaintext.None?)
  }

  /** A box written as acknowledged by all is settled, or has no record left. */
  predicate EventKept(e: Event, records: Records, written: set<nat>, gone: set<nat>, acked: set<nat>) {
    && e.box in written
    && (e.acked ==> e.plaintext.None? && e.box in acked && e.box in gone
                    && (e.box in records ==> records[e.box].settled))
  }

  /** No later event writes an earlier one's box in its epoch, nor a second
      time as acknowledged by all. */
  predicate Apart(a: Event, b: Event) {
    && a.epoch <= b.epoch
    && (a.epoch == b.epoch ==> a.box < b.box)
    && (a.box == b.box ==> !a.acked || !b.acked)
  }

  ghost predicate Inv(w: World) {
    && (forall i | i in w.records :: RecordKept(i, w.records[i], w.written, w.gone))
    && (forall n | 0 <= n < |w.log| :: EventKept(w.log[n], w.records, w.written, w.gone, w.acked))
    && (forall n | 0 <= n < |w.log| :: w.log[n].epoch <= w.backfilled)
    && (forall m, n | 0 <= m < n < |w.log| :: Apart(w.log[m], w.log[n]))
    && w.gone <= w.written
    && (w.log != [] ==> w.backfilled <= w.epoch)
  }

  // A backfill.

  predicate Named(records: Records) {
    forall i | i in records :: records[i].index.idx64 == i
  }

  /** The write is what its record calls for: its plaintext, or a tombstone if
      that is gone, for those behind; for nobody, a tombstone not written yet. */
  predicate Called(records: Records, acked: set<nat>, write: Write) {
    var i := write.index.idx64;
    && i in records && write.index == records[i].index && write.plaintext == records[i].plaintext
    && (i in acked ==> records[i].plaintext.None? && !records[i].settled)
  }

  predicate Ascending(writes: seq<Write>) {
    forall k, l | 0 <= k < l < |writes| :: writes[k].index.idx64 < writes[l].index.idx64
  }

  lemma {:induction false} RewritesAscend(records: Records, order: seq<nat>, n: nat, acked: set<nat>)
    requires AllIn(order, records) && n <= |order| && Named(records)
    requires forall i, j | 0 <= i < j < |order| :: order[i] < order[j]
    ensures
      var writes := Rewrites(records, order, n, acked);
      && Ascending(writes)
      && (forall k | 0 <= k < |writes| :: n > 0 && writes[k].index.idx64 <= order[n - 1])
  {
    if n > 0 {
      RewritesAscend(records, order, n - 1, acked);
    }
  }

  lemma {:induction false} RewritesAre(records: Records, order: seq<nat>, n: nat, acked: set<nat>, write: Write)
    requires AllIn(order, records) && n <= |order| && Named(records)
    ensures write in Rewrites(records, order, n, acked) <==>
            write.index.idx64 in order[..n] && Called(records, acked, write)
  {
    if n > 0 {
      RewritesAre(records, order, n - 1, acked, write);
      assert order[..n] == order[..n - 1] + [order[n - 1]];
    }
  }

  /** What a backfill writes, in ascending order: exactly the boxes someone has
      yet to acknowledge, and as tombstones those everyone has acknowledged once
      their plaintext is gone and until they are settled. */
  lemma BackfillWrites(records: Records, acked: set<nat>)
    requires Named(records)
    ensures Ascending(Backfilled(records, acked).1)
    ensures forall write :: write in Backfilled(records, acked).1 <==> Called(records, acked, write)
  {
    var order := Upward(records.Keys);
    RestOfUpward(records.Keys);
    RewritesAscend(records, order, |order|, acked);
    forall write
      ensures write in Backfilled(records, acked).1 <==> Called(records, acked, write)
    {
      RewritesAre(records, order, |order|, acked, write);
      assert order[..|order|] == order;
    }
  }

  lemma BackfillKept(w: World)
    requires Inv(w)
    ensures Inv(After(w, Backfill))
  {
    if w.epoch != w.backfilled {
      var (records, writes) := Backfilled(w.records, w.acked);
      assert forall i | i in w.records :: RecordKept(i, w.records[i], w.written, w.gone);
      BackfillWrites(w.records, w.acked);
      forall k | 0 <= k < |writes|
        ensures Called(w.records, w.acked, writes[k])
      {
        assert writes[k] in writes;
      }
      LogGrows(w, writes);
    }
  }

  lemma LogGrows(w: World, writes: seq<Write>)
    requires Inv(w) && w.epoch != w.backfilled && Ascending(writes)
    requires forall k | 0 <= k < |writes| :: Called(w.records, w.acked, writes[k])
    ensures Inv(w.(records := AllSettled(w.records, w.acked), backfilled := w.epoch,
                   log := w.log + Logged(writes, w.epoch, w.acked)))
  {}

  // Every step.

  lemma NoteKept(w: World, index: Index, plaintext: Option<Bytes>, control: bool)
    requires Inv(w) && index.idx64 !in w.written
    ensures Inv(After(w, Note(index, plaintext, control)))
  {}

  lemma RetainKept(w: World, policy: Retention)
    requires Inv(w)
    ensures Inv(After(w, Retain(policy)))
  {}

  lemma StepKept(w: World, step: Step)
    requires Inv(w) && Enabled(w, step)
    ensures Inv(After(w, step))
  {
    match step
    case Note(index, plaintext, control) => NoteKept(w, index, plaintext, control);
    case Ack(boxes) =>
      forall n | 0 <= n < |w.log|
        ensures EventKept(w.log[n], w.records, w.written, w.gone, w.acked + boxes)
      {
        assert EventKept(w.log[n], w.records, w.written, w.gone, w.acked);
      }
    case Tick(epoch) =>
    case Retain(policy) => RetainKept(w, policy);
    case Backfill => BackfillKept(w);
  }

  lemma {:induction false} RunKept(epoch: int, steps: seq<Step>)
    requires Possible(epoch, steps)
    ensures Inv(Reached(epoch, steps))
    decreases |steps|
  {
    if steps != [] {
      RunKept(epoch, steps[..|steps| - 1]);
      StepKept(Reached(epoch, steps[..|steps| - 1]), steps[|steps| - 1]);
    }
  }

  /** Over any run a box is rewritten at most once in an epoch, the rewrites of
      an epoch ascend, and a box everyone has acknowledged is written at most
      once more, as a tombstone. */
  lemma RewritesBounded(epoch: int, steps: seq<Step>, m: nat, n: nat)
    requires Possible(epoch, steps) && m < n < |Reached(epoch, steps).log|
    ensures
      var a, b := Reached(epoch, steps).log[m], Reached(epoch, steps).log[n];
      && (a.epoch == b.epoch ==> a.box < b.box)
      && (a.box == b.box ==> !a.acked || !b.acked)
      && (b.acked ==> b.plaintext.None?) && (a.acked ==> a.plaintext.None?)
  {
    RunKept(epoch, steps);
    var w := Reached(epoch, steps);
    assert Apart(w.log[m], w.log[n]);
    assert EventKept(w.log[m], w.records, w.written, w.gone, w.acked);
    assert EventKept(w.log[n], w.records, w.written, w.gone, w.acked);
  }

  /** What one step adds to the log is written without a plaintext if it was
      gone, and not at all if its box was acknowledged by all and settled. */
  lemma StepWrites(w: World, step: Step, n: nat)
    requires Inv(w) && Enabled(w, step) && |w.log| <= n < |After(w, step).log|
    ensures
      var e := After(w, step).log[n];
      && e.box in w.written && (e.box in w.gone ==> e.plaintext.None?) && (e.acked <==> e.box in w.acked)
  {
    var writes := Backfilled(w.records, w.acked).1;
    assert forall i | i in w.records :: RecordKept(i, w.records[i], w.written, w.gone);
    BackfillWrites(w.records, w.acked);
    assert writes[n - |w.log|] in writes;
    assert Called(w.records, w.acked, writes[n - |w.log|]);
  }

  lemma StepGrows(w: World, step: Step)
    requires Enabled(w, step)
    ensures w.gone <= After(w, step).gone && w.acked <= After(w, step).acked && w.log <= After(w, step).log
  {}

  /** A plaintext that was dropped is never written again: every rewrite of its
      box after that is a tombstone. And every rewrite after everyone has
      acknowledged the box counts as acknowledged, so there is at most one. */
  lemma {:induction false} DroppedStaysDropped(epoch: int, steps: seq<Step>, j: nat, n: nat)
    requires Possible(epoch, steps) && j < |steps| && Possible(epoch, steps[..j])
    requires |Reached(epoch, steps[..j]).log| <= n < |Reached(epoch, steps).log|
    ensures
      var early, e := Reached(epoch, steps[..j]), Reached(epoch, steps).log[n];
      && (e.box in early.gone ==> e.plaintext.None?)
      && (e.box in early.acked ==> e.acked)
    decreases |steps|
  {
    var front := steps[..|steps| - 1];
    var w := Reached(epoch, front);
    assert front[..j] == steps[..j];
    RunKept(epoch, front);
    StepGrows(w, steps[|steps| - 1]);
    if j < |front| && n < |w.log| {
      DroppedStaysDropped(epoch, front, j, n);
    } else {
      assert front[..|front|] == front;
      GoneGrows(epoch, front, j);
      StepWrites(w, steps[|steps| - 1], n);
    }
  }

  lemma {:induction false} GoneGrows(epoch: int, steps: seq<Step>, j: nat)
    requires Possible(epoch, steps) && j <= |steps| && Possible(epoch, steps[..j])
    ensures Reached(epoch, steps[..j]).gone <= Reached(epoch, steps).gone
    ensures Reached(epoch, steps[..j]).acked <= Reached(epoch, steps).acked
    decreases |steps|
  {
    if j == |steps| {
      assert steps[..j] == steps;
    } else {
      var front := steps[..|steps| - 1];
      assert front[..j] == steps[..j];
      GoneGrows(epoch, front, j);
      StepGrows(Reached(epoch, front), steps[|steps| - 1]);
    }
  }

  // How long content is kept.

  const SECONDS_A_DAY := 86400
  const REPLICA_EPOCH_SECONDS := 604800
  const DEFAULT_WINDOW := 3

  /** Division that rounds up, as `math.ceil` of a quotient. */
  function CeilDiv(a: int, b: int): (q: int)
    requires b > 0
    ensures (q - 1) * b < a <= q * b
  {
    if a % b == 0 then a / b else a / b + 1
  }

  /** `_policy` */
  function PolicyFor(sentDays: Option<nat>): Retention {
    match sentDays
    case None => Retention(None, true, None)
    case Some(days) =>
      var epochs := CeilDiv(days * SECONDS_A_DAY, REPLICA_EPOCH_SECONDS) + 1;
      Retention(Some(if epochs > DEFAULT_WINDOW then epochs else DEFAULT_WINDOW), true, Some(epochs))
  }

  /** The replica epoch `seconds` after the first one began. */
  function EpochAt(seconds: nat): nat {
    seconds / REPLICA_EPOCH_SECONDS
  }

  lemma {:induction false} EarlierPossible(epoch: int, steps: seq<Step>, n: nat)
    requires Possible(epoch, steps) && n <= |steps|
    ensures Possible(epoch, steps[..n])
    decreases |steps|
  {
    if n == |steps| {
      assert steps[..n] == steps;
    } else {
      EarlierPossible(epoch, steps[..|steps| - 1], n);
      assert steps[..|steps| - 1][..n] == steps[..n];
    }
  }

  /** The world after the first `n` steps. */
  function Moment(epoch: int, steps: seq<Step>, n: nat): World
    requires Possible(epoch, steps) && n <= |steps|
  {
    EarlierPossible(epoch, steps, n);
    Reached(epoch, steps[..n])
  }

  lemma MomentNext(epoch: int, steps: seq<Step>, n: nat)
    requires Possible(epoch, steps) && n < |steps|
    ensures Enabled(Moment(epoch, steps, n), steps[n])
    ensures Moment(epoch, steps, n + 1) == After(Moment(epoch, steps, n), steps[n])
  {
    EarlierPossible(epoch, steps, n + 1);
    assert steps[..n + 1][..n] == steps[..n];
  }

  /** The step notes a message of the member's own, with its content. */
  predicate Sends(step: Step) {
    step.Note? && step.plaintext.Some? && !step.control
  }

  /** What is left of a record noted in `epoch` while its content is not due
      for its age: all of it until everyone has acknowledged the box. */
  predicate Stands(w: World, note: Step, epoch: int)
    requires Sends(note)
  {
    var i := note.index.idx64;
    && i in w.records && w.records[i].written == epoch && !w.records[i].control
    && (i !in w.acked ==> w.records[i] == Record(note.index, note.plaintext, false, epoch, false))
  }

  lemma StepStands(w: World, step: Step, note: Step, epoch: int, sentDays: Option<nat>)
    requires Enabled(w, step) && Sends(note) && Stands(w, note, epoch) && note.index.idx64 in w.written
    requires step.Retain? ==> step.policy == PolicyFor(sentDays)
    requires PolicyFor(sentDays).keepSent.Some? ==> w.epoch - epoch < PolicyFor(sentDays).keepSent.value
    ensures Stands(After(w, step), note, epoch) && note.index.idx64 in After(w, step).written
  {}

  lemma {:induction false} StandsWhileYoung(epoch: int, steps: seq<Step>, j: nat, n: nat, sentDays: Option<nat>)
    requires Possible(epoch, steps) && j < n <= |steps| && Sends(steps[j])
    requires forall k | j < k < n && steps[k].Retain? :: steps[k].policy == PolicyFor(sentDays)
    requires PolicyFor(sentDays).keepSent.Some? ==>
               Moment(epoch, steps, n).epoch - Moment(epoch, steps, j).epoch < PolicyFor(sentDays).keepSent.value
    ensures
      var w, noted := Moment(epoch, steps, n), Moment(epoch, steps, j).epoch;
      Stands(w, steps[j], noted) && steps[j].index.idx64 in w.written
    decreases n
  {
    MomentNext(epoch, steps, n - 1);
    if j < n - 1 {
      StandsWhileYoung(epoch, steps, j, n - 1, sentDays);
      StepStands(Moment(epoch, steps, n - 1), steps[n - 1], steps[j], Moment(epoch, steps, j).epoch, sentDays);
    }
  }

  /** Nothing is left of the content of box `i`, nor will be. */
  predicate ContentGone(w: World, i: nat) {
    i in w.written && (i in w.records ==> w.records[i].plaintext.None?)
  }

  /** What is left of a record noted in `epoch`, ever. */
  predicate Dated(w: World, i: nat, epoch: int) {
    i in w.written && (i in w.records ==> w.records[i].written == epoch && !w.records[i].control)
  }

  lemma StepDated(w: World, step: Step, i: nat, epoch: int)
    requires Enabled(w, step) && Dated(w, i, epoch)
    ensures Dated(After(w, step), i, epoch)
    ensures ContentGone(w, i) ==> ContentGone(After(w, step), i)
  {}

  lemma {:induction false} DatedFrom(epoch: int, steps: seq<Step>, j: nat, n: nat)
    requires Possible(epoch, steps) && j < n <= |steps| && Sends(steps[j])
    ensures Dated(Moment(epoch, steps, n), steps[j].index.idx64, Moment(epoch, steps, j).epoch)
    decreases n
  {
    MomentNext(epoch, steps, n - 1);
    if j < n - 1 {
      DatedFrom(epoch, steps, j, n - 1);
      StepDated(Moment(epoch, steps, n - 1), steps[n - 1], steps[j].index.idx64, Moment(epoch, steps, j).epoch);
    }
  }

  /** Once the policy was applied to content that was due for its age, it is
      gone for good. */
  lemma {:induction false} GoneOnceDue(epoch: int, steps: seq<Step>, j: nat, k: nat, n: nat, sentDays: Option<nat>)
    requires Possible(epoch, steps) && j < k < n <= |steps| && Sends(steps[j])
    requires steps[k] == Retain(PolicyFor(sentDays)) && sentDays.Some?
    requires Moment(epoch, steps, k).epoch - Moment(epoch, steps, j).epoch >= PolicyFor(sentDays).keepSent.value
    ensures ContentGone(Moment(epoch, steps, n), steps[j].index.idx64)
    decreases n
  {
    hide After, Moment, PolicyFor;
    var i, noted := steps[j].index.idx64, Moment(epoch, steps, j).epoch;
    MomentNext(epoch, steps, n - 1);
    DatedFrom(epoch, steps, j, n - 1);
    if k < n - 1 {
      GoneOnceDue(epoch, steps, j, k, n - 1, sentDays);
      StepDated(Moment(epoch, steps, n - 1), steps[n - 1], i, noted);
    } else {
      DueGoes(Moment(epoch, steps, k), i, noted, sentDays);
    }
  }

  lemma DueGoes(w: World, i: nat, noted: int, sentDays: Option<nat>)
    requires Dated(w, i, noted) && sentDays.Some? && w.epoch - noted >= PolicyFor(sentDays).keepSent.value
    ensures ContentGone(After(w, Retain(PolicyFor(sentDays))), i)
  {}

  /** Whole epochs against days: content is not due for its age before the days
      asked are over, and is two epochs after that. */
  lemma EpochsOfDays(days: nat, written: nat, now: nat)
    ensures
      var age, keep := EpochAt(now) - EpochAt(written), PolicyFor(Some(days)).keepSent.value;
      && (now - written < days * SECONDS_A_DAY ==> age < keep)
      && (now - written >= days * SECONDS_A_DAY + 2 * REPLICA_EPOCH_SECONDS ==> age >= keep)
  {}

  /** Over any run under a policy of `days` days, from the moment a message is
      noted: for those days its record stays, with its content until everyone
      has acknowledged it; and once the policy is applied two epochs after that,
      the content is gone for good. Without a policy nothing goes for its age. */
  lemma KeptAsLongAsAsked(epoch: int, steps: seq<Step>, j: nat, n: nat, sentDays: Option<nat>, written: nat, now: nat)
    requires Possible(epoch, steps) && j < n <= |steps| && Sends(steps[j])
    requires forall k | j < k < n && steps[k].Retain? :: steps[k].policy == PolicyFor(sentDays)
    requires Moment(epoch, steps, j).epoch == EpochAt(written) && Moment(epoch, steps, n).epoch == EpochAt(now)
    ensures
      var w, i := Moment(epoch, steps, n), steps[j].index.idx64;
      && (sentDays.None? || now - written < sentDays.value * SECONDS_A_DAY ==>
            && i in w.records
            && (i !in w.acked ==>
                  w.records[i] == Record(steps[j].index, steps[j].plaintext, false, EpochAt(written), false)))
      && (forall k, later: nat | j < k < n && steps[k].Retain? && sentDays.Some?
            && Moment(epoch, steps, k).epoch == EpochAt(later)
            && later - written >= sentDays.value * SECONDS_A_DAY + 2 * REPLICA_EPOCH_SECONDS ::
            i in w.records ==> w.records[i].plaintext.None?)
  {
    if sentDays.None? || now - written < sentDays.value * SECONDS_A_DAY {
      if sentDays.Some? {
        EpochsOfDays(sentDays.value, written, now);
      }
      StandsWhileYoung(epoch, steps, j, n, sentDays);
    }
    forall k, later: nat | j < k < n && steps[k].Retain? && sentDays.Some?
      && Moment(epoch, steps, k).epoch == EpochAt(later)
      && later - written >= sentDays.value * SECONDS_A_DAY + 2 * REPLICA_EPOCH_SECONDS
      ensures ContentGone(Moment(epoch, steps, n), steps[j].index.idx64)
    {
      EpochsOfDays(sentDays.value, written, later);
      GoneOnceDue(epoch, steps, j, k, n, sentDays);
    }
  }

  // What becomes of every record.

  /** Step `k` applied a policy whose window the record noted at `j` is past. */
  predicate Expires(epoch: int, steps: seq<Step>, j: nat, k: nat)
    requires Possible(epoch, steps) && j < |steps| && k < |steps|
  {
    && steps[k].Retain? && steps[k].policy.window.Some?
    && Moment(epoch, steps, k).epoch - Moment(epoch, steps, j).epoch > steps[k].policy.window.value
  }

  /** Step `k` applied a policy that keeps the content no longer: for its age,
      unless it is a control message, or since everyone has acknowledged it. */
  predicate Drops(epoch: int, steps: seq<Step>, j: nat, k: nat)
    requires Possible(epoch, steps) && j < |steps| && k < |steps| && steps[j].Note?
  {
    && steps[k].Retain?
    && var w := Moment(epoch, steps, k);
    || (!steps[j].control && steps[k].policy.keepSent.Some?
        && w.epoch - Moment(epoch, steps, j).epoch >= steps[k].policy.keepSent.value)
    || (steps[k].policy.discardAcked && steps[j].index.idx64 in w.acked)
  }

  /** Step `k` was the backfill of its epoch, and wrote the record as a
      tombstone that everyone had acknowledged, or had done so before. */
  predicate Settles(epoch: int, steps: seq<Step>, j: nat, k: nat)
    requires Possible(epoch, steps) && k < |steps| && j < |steps| && steps[j].Note?
  {
    && steps[k].Backfill?
    && var w, i := Moment(epoch, steps, k), steps[j].index.idx64;
    w.epoch != w.backfilled && i in w.acked && i in w.records && w.records[i].plaintext.None?
  }

  ghost predicate HasExpired(epoch: int, steps: seq<Step>, j: nat, n: nat)
    requires Possible(epoch, steps) && j < |steps| && n <= |steps|
  {
    exists k :: j < k < n && Expires(epoch, steps, j, k)
  }

  ghost predicate HasDropped(epoch: int, steps: seq<Step>, j: nat, n: nat)
    requires Possible(epoch, steps) && j < |steps| && n <= |steps| && steps[j].Note?
  {
    exists k :: j < k < n && Drops(epoch, steps, j, k)
  }

  ghost predicate HasSettled(epoch: int, steps: seq<Step>, j: nat, n: nat)
    requires Possible(epoch, steps) && j < |steps| && n <= |steps| && steps[j].Note?
  {
    exists k :: j < k < n && Settles(epoch, steps, j, k)
  }

  lemma HasNext(epoch: int, steps: seq<Step>, j: nat, n: nat)
    requires Possible(epoch, steps) && j < n < |steps| && steps[j].Note?
    ensures HasExpired(epoch, steps, j, n + 1) <==> HasExpired(epoch, steps, j, n) || Expires(epoch, steps, j, n)
    ensures HasDropped(epoch, steps, j, n + 1) <==> HasDropped(epoch, steps, j, n) || Drops(epoch, steps, j, n)
    ensures HasSettled(epoch, steps, j, n + 1) <==> HasSettled(epoch, steps, j, n) || Settles(epoch, steps, j, n)
  {
    hide Expires, Drops, Settles, Possible;
  }

  /** What is left of the record noted at `j` after the first `n` steps. */
  ghost predicate RecordIs(epoch: int, steps: seq<Step>, j: nat, n: nat)
    requires Possible(epoch, steps) && j < n <= |steps| && steps[j].Note?
  {
    var w, i := Moment(epoch, steps, n), steps[j].index.idx64;
    && i in w.written
    && (i in w.records <==> !HasExpired(epoch, steps, j, n))
    && (i in w.records ==>
          var r := w.records[i];
          && r.index == steps[j].index && r.control == steps[j].control
          && r.written == Moment(epoch, steps, j).epoch
          && r.plaintext == (if HasDropped(epoch, steps, j, n) then None else steps[j].plaintext)
          && (r.settled <==> HasSettled(epoch, steps, j, n)))
  }

  /** Over any run, with any policies: a record goes exactly when one is applied
      whose window it is past, its content exactly when one is applied that keeps
      it no longer, and nothing else of it ever changes but that it is settled. */
  lemma {:induction false} RecordsExactly(epoch: int, steps: seq<Step>, j: nat, n: nat)
    requires Possible(epoch, steps) && j < n <= |steps| && steps[j].Note?
    ensures RecordIs(epoch, steps, j, n)
    decreases n
  {
    hide RecordIs, Possible, Reached;
    if j < n - 1 {
      RecordsExactly(epoch, steps, j, n - 1);
      RecordNext(epoch, steps, j, n - 1);
    } else {
      RecordBegins(epoch, steps, j);
    }
  }

  lemma RecordBegins(epoch: int, steps: seq<Step>, j: nat)
    requires Possible(epoch, steps) && j < |steps| && steps[j].Note?
    ensures RecordIs(epoch, steps, j, j + 1)
  {
    MomentNext(epoch, steps, j);
    hide Moment, Possible, Reached, Expires, Drops, Settles;
  }

  lemma RecordNext(epoch: int, steps: seq<Step>, j: nat, n: nat)
    requires Possible(epoch, steps) && j < n < |steps| && steps[j].Note? && RecordIs(epoch, steps, j, n)
    ensures RecordIs(epoch, steps, j, n + 1)
  {
    MomentNext(epoch, steps, n);
    hide Moment, Possible, Reached;
    RecordStep(Moment(epoch, steps, n), steps[n], steps[j].index.idx64);
    HasNext(epoch, steps, j, n);
    hide After, HasExpired, HasDropped, HasSettled;
  }

  lemma RecordStep(w: World, step: Step, i: nat)
    requires Enabled(w, step) && i in w.written
    ensures
      var w' := After(w, step);
      && i in w'.written
      && (i in w'.records <==> i in w.records && !(step.Retain? && Expired(w.records[i], w.epoch, step.policy)))
      && (i in w'.records ==>
            var r := w.records[i];
            w'.records[i] ==
            if step.Retain? && Due(r, w.epoch, step.policy, i in w.acked) then r.(plaintext := None)
            else if step.Backfill? && w.epoch != w.backfilled && i in w.acked && r.plaintext.None?
              then r.(settled := true)
            else r)
  {}

  /** A policy of so many days keeps content for the least number of whole epochs
      that is an epoch more than the days, and the record for as many, but for
      three at least; without one both are kept for good. Either way what
      everyone has acknowledged is discarded. */
  lemma PolicyIs(sentDays: Option<nat>)
    ensures
      var policy := PolicyFor(sentDays);
      && policy.discardAcked
      && (policy.keepSent.Some? <==> sentDays.Some?) && (policy.window.Some? <==> sentDays.Some?)
      && (sentDays.Some? ==>
            var days, keep := sentDays.value * SECONDS_A_DAY, policy.keepSent.value;
            && (keep - 2) * REPLICA_EPOCH_SECONDS < days <= (keep - 1) * REPLICA_EPOCH_SECONDS
            && policy.window.value >= keep && policy.window.value >= 3
            && (policy.window.value == keep || policy.window.value == 3))
  {}
}
