/**
  From a box of ours consumed by every member to its content dropped here: each
  member's client consumes the boxes of our stream, acknowledges them by our
  place in its own roster, and the acknowledgement, decoded and resolved here,
  counts towards what retention may drop.
 */
module Receipts {
  import opened Basics
  import opened KeyOrder
  import opened Numbering
  import NA = NumberingAgreement
  import NT = NumberingOverTime
  import AC = AckCodec
  import A = Acknowledging
  import RC = ReceiveCursor
  import RR = ReaderRuns
  import SR = StreamReader
  import SB = SentBox

  /** A message's `Acks` field, and who wrote the message. */
  datatype Letter = Letter(sender: Key, field: Bytes)

  /** `clients` are the others' clients of our stream and `mail` what they sent;
      the rest is ours: the rosters, the members read, what each of them
      acknowledged, and the Sent box. */
  datatype World = World(
    clients: map<Key, A.Client>,
    mail: set<Letter>,
    view: NT.View,
    members: set<Key>,
    ackedBy: map<Key, int>,
    records: SB.Records,
    epoch: int)

  datatype Step =
    | Joins(who: Key, first: nat)                                // a client of our stream begins
    | Works(who: Key, move: A.Move)                              // and receives, observes or acknowledges
    | Writes(who: Key, token: nat, acks: map<nat, nat>)          // a message composed with these
    | Reads(letter: Letter)                                      // and read here
    | Learns(change: NT.Change)
    | Follows(who: Key)
    | Forgets(who: Key)
    | Sends(index: SB.Index, plaintext: Option<Bytes>, control: bool)
    | Retains(epoch: int, policy: SB.Retention)

  /** The group: the rosters, whose stream it is, and the stream's number in the
      others' clients. */
  datatype Group = Group(t: NA.Truth, me: Key, stream: nat, window: nat, decodes: Bytes -> bool)

  /** The place is ours in that roster. */
  predicate OurPlace(g: Group, owner: Key, at: nat) {
    NA.InRoster(g.t, owner, at) && g.t.rosters[owner][at] == g.me
  }

  /** What a client owes of our stream. */
  function Owes(c: A.Client): Option<nat> {
    RR.Owed(c.acks, SR.Run(c.notes.s))
  }

  /** A message names us by our place, for the index owed of our stream; what it
      says of other streams is left open. */
  predicate Acknowledged(g: Group, who: Key, c: A.Client, acks: map<nat, nat>) {
    && AC.InRange(acks)
    && forall at | at in acks && OurPlace(g, who, at) :: Owes(c) == Some(acks[at])
  }

  predicate Enabled(g: Group, w: World, step: Step) {
    match step
    case Joins(who, first) => who !in w.clients && who in g.t.members
    case Works(who, move) => who in w.clients && A.Enabled(w.clients[who], move, g.stream)
    case Writes(who, token, acks) =>
      && who in w.clients && A.Enabled(w.clients[who], Composing(token), g.stream)
      && Acknowledged(g, who, w.clients[who], acks)
    case Reads(letter) => letter in w.mail
    case Learns(change) => NT.Enabled(g.t, w.view, change)
    case Follows(who) => true
    case Forgets(who) => true
    case Sends(_, _, _) => true
    case Retains(_, _) => true
  }

  function Composing(token: nat): A.Move {
    A.Acknowledges(RR.Compose(token))
  }

  /** What the member has acknowledged once these entries of its field, in order,
      were taken in: an entry counts if it resolves to us and names a box of
      ours. */
  function Credited(v: NT.View, me: Key, sender: Key, acks: map<nat, nat>, ats: seq<nat>, records: SB.Records,
                    acked: int): int
    requires forall k | 0 <= k < |ats| :: ats[k] in acks
  {
    if ats == [] then acked
    else
      var at, rest := ats[|ats| - 1], Credited(v, me, sender, acks, ats[..|ats| - 1], records, acked);
      if Resolve(v.r, sender, at) == Some(me) && acks[at] in records && acks[at] > rest then acks[at] else rest
  }

  /** `_ingest`, for the acknowledgements: a field that is malformed has none. */
  function AckedBy(g: Group, w: World, letter: Letter): map<Key, int> {
    match AC.Decode(letter.field)
    case AcksError => w.ackedBy
    case Ok(acks) =>
      AC.AcceptedFields(letter.field);
      var before := if letter.sender in w.ackedBy then w.ackedBy[letter.sender] else -1;
      Counted(w.ackedBy, letter.sender, before,
              Credited(w.view, g.me, letter.sender, acks, AC.IndexesOf(acks), w.records, before))
  }

  function Counted(ackedBy: map<Key, int>, sender: Key, before: int, after: int): map<Key, int> {
    if after == before then ackedBy else ackedBy[sender := after]
  }

  /** `_everyone_acked` */
  predicate EveryoneAcked(members: set<Key>, ackedBy: map<Key, int>, i: nat) {
    forall who | who in members :: who in ackedBy && ackedBy[who] >= i
  }

  function AckedByAll(w: World): set<nat> {
    set i | i in w.records && EveryoneAcked(w.members, w.ackedBy, i)
  }

  function After(g: Group, w: World, step: Step): World
    requires Enabled(g, w, step)
  {
    match step
    case Joins(who, first) => w.(clients := w.clients[who := A.Begin(first)])
    case Works(who, move) =>
      w.(clients := w.clients[who := A.After(w.clients[who], move, g.stream, g.window, g.decodes)])
    case Writes(who, token, acks) =>
      w.(clients := w.clients[who := A.After(w.clients[who], Composing(token), g.stream, g.window, g.decodes)],
         mail := w.mail + {Letter(who, AC.FieldOf(acks))})
    case Reads(letter) => w.(ackedBy := AckedBy(g, w, letter))
    case Learns(change) => w.(view := NT.After(g.t, w.view, change))
    case Follows(who) => w.(members := w.members + {who})
    case Forgets(who) => w.(members := w.members - {who}, ackedBy := w.ackedBy - {who})
    case Sends(index, plaintext, control) =>
      w.(records := w.records[index.idx64 := SB.Record(index, plaintext, control, w.epoch, false)])
    case Retains(epoch, policy) =>
      w.(epoch := epoch, records := SB.Retained(w.records, epoch, policy, AckedByAll(w)))
  }

  const START := World(map[], {}, NT.View(EMPTY, map[]), {}, map[], map[], 0)

  predicate Possible(g: Group, steps: seq<Step>)
    decreases |steps|, 0
  {
    steps == [] ||
    (Possible(g, steps[..|steps| - 1]) && Enabled(g, Reached(g, steps[..|steps| - 1]), steps[|steps| - 1]))
  }

  function Reached(g: Group, steps: seq<Step>): World
    requires Possible(g, steps)
    decreases |steps|, 1
  {
    if steps == [] then START else After(g, Reached(g, steps[..|steps| - 1]), steps[|steps| - 1])
  }

  // What every world keeps.

  /** The client has consumed box `i` of our stream, or began after it. */
  predicate Consumed(clients: map<Key, A.Client>, who: Key, i: int) {
    who in clients && i < clients[who].lane.cursor
  }

  ghost predicate ClientsKept(g: Group, clients: map<Key, A.Client>) {
    forall who | who in clients :: who in g.t.members && A.Inv(clients[who], g.stream, g.decodes)
  }

  /** Whatever a letter says of our stream, its sender had consumed. */
  ghost predicate LetterKept(g: Group, clients: map<Key, A.Client>, letter: Letter) {
    && letter.sender in clients
    && (AC.Decode(letter.field).Ok? ==>
          forall at | at in AC.Decode(letter.field).value && OurPlace(g, letter.sender, at) ::
            Consumed(clients, letter.sender, AC.Decode(letter.field).value[at]))
  }

  ghost predicate MailKept(g: Group, clients: map<Key, A.Client>, mail: set<Letter>) {
    forall letter | letter in mail :: LetterKept(g, clients, letter)
  }

  ghost predicate AckedKept(clients: map<Key, A.Client>, ackedBy: map<Key, int>) {
    forall who | who in ackedBy :: Consumed(clients, who, ackedBy[who])
  }

  ghost predicate Inv(g: Group, w: World) {
    && ClientsKept(g, w.clients) && MailKept(g, w.clients, w.mail)
    && AckedKept(w.clients, w.ackedBy) && NT.Inv(g.t, w.view)
  }

  predicate TrueGroup(g: Group) {
    NA.TrueRosters(g.t) && g.me in g.t.members
  }

  // The others' clients.

  lemma RunConsumed(c: A.Client, stream: nat, decodes: Bytes -> bool)
    requires A.Inv(c, stream, decodes) && SR.Run(c.notes.s).Some?
    ensures SR.Run(c.notes.s).value < c.lane.cursor
  {
    hide A.OrderKept;
    A.ToldAndHeld(c, stream, decodes);
    A.RunIs(c.notes.s, A.Mine(c, stream));
  }

  lemma CursorGrows(c: A.Client, move: A.Move, g: Group)
    requires A.Inv(c, g.stream, g.decodes) && A.Enabled(c, move, g.stream)
    ensures c.lane.cursor <= A.After(c, move, g.stream, g.window, g.decodes).lane.cursor
  {
    if move.Receives? {
      RC.StepKept(c.lane, move.step, g.decodes);
    }
  }

  ghost predicate Grow(clients: map<Key, A.Client>, clients': map<Key, A.Client>) {
    forall who | who in clients :: who in clients' && clients[who].lane.cursor <= clients'[who].lane.cursor
  }

  lemma MailGrows(g: Group, clients: map<Key, A.Client>, clients': map<Key, A.Client>, mail: set<Letter>)
    requires MailKept(g, clients, mail) && Grow(clients, clients')
    ensures MailKept(g, clients', mail)
  {
    forall letter | letter in mail
      ensures LetterKept(g, clients', letter)
    {
      assert LetterKept(g, clients, letter);
      if AC.Decode(letter.field).Ok? {
        forall at | at in AC.Decode(letter.field).value && OurPlace(g, letter.sender, at)
          ensures Consumed(clients', letter.sender, AC.Decode(letter.field).value[at])
        {
          assert Consumed(clients, letter.sender, AC.Decode(letter.field).value[at]);
        }
      }
    }
  }

  lemma AckedGrows(clients: map<Key, A.Client>, clients': map<Key, A.Client>, ackedBy: map<Key, int>)
    requires AckedKept(clients, ackedBy) && Grow(clients, clients')
    ensures AckedKept(clients', ackedBy)
  {}

  lemma BeginKept(g: Group, first: nat)
    ensures A.Inv(A.Begin(first), g.stream, g.decodes)
  {
    A.RunKept(first, [], g.stream, g.window, g.decodes);
  }

  lemma WorksKept(g: Group, w: World, who: Key, move: A.Move)
    requires Inv(g, w) && who in w.clients && A.Enabled(w.clients[who], move, g.stream)
    ensures
      var clients := w.clients[who := A.After(w.clients[who], move, g.stream, g.window, g.decodes)];
      ClientsKept(g, clients) && MailKept(g, clients, w.mail) && AckedKept(clients, w.ackedBy)
  {
    hide A.Inv, MailKept, AckedKept, NT.Inv;
    var c := w.clients[who];
    var clients := w.clients[who := A.After(c, move, g.stream, g.window, g.decodes)];
    A.MoveKept(c, move, g.stream, g.window, g.decodes);
    CursorGrows(c, move, g);
    assert Grow(w.clients, clients);
    MailGrows(g, w.clients, clients, w.mail);
    AckedGrows(w.clients, clients, w.ackedBy);
  }

  // Letters.

  lemma LetterWritten(g: Group, clients: map<Key, A.Client>, who: Key, c: A.Client, acks: map<nat, nat>)
    requires A.Inv(c, g.stream, g.decodes) && Acknowledged(g, who, c, acks)
    requires who in clients && c.lane.cursor <= clients[who].lane.cursor
    ensures LetterKept(g, clients, Letter(who, AC.FieldOf(acks)))
  {
    AC.FieldRoundTrip(acks);
    forall at | at in acks && OurPlace(g, who, at)
      ensures Consumed(clients, who, acks[at])
    {
      RunConsumed(c, g.stream, g.decodes);
    }
  }

  lemma {:induction false} CreditedIs(v: NT.View, me: Key, sender: Key, acks: map<nat, nat>, ats: seq<nat>,
                                      records: SB.Records, acked: int)
    requires forall k | 0 <= k < |ats| :: ats[k] in acks
    ensures
      var r := Credited(v, me, sender, acks, ats, records, acked);
      r == acked || exists k :: 0 <= k < |ats| && Resolve(v.r, sender, ats[k]) == Some(me) && r == acks[ats[k]]
  {
    if ats != [] {
      var front := ats[..|ats| - 1];
      CreditedIs(v, me, sender, acks, front, records, acked);
      var rest := Credited(v, me, sender, acks, front, records, acked);
      if k :| 0 <= k < |front| && Resolve(v.r, sender, front[k]) == Some(me) && rest == acks[front[k]] {
        assert ats[k] == front[k];
      }
    }
  }

  /** What resolves to us here is our place in its owner's own roster. */
  lemma ResolvedToUs(g: Group, v: NT.View, owner: Key, at: nat)
    requires TrueGroup(g) && NT.Inv(g.t, v) && owner in g.t.members && Resolve(v.r, owner, at) == Some(g.me)
    ensures OurPlace(g, owner, at)
  {
    NA.ResolvedIsTrue(g.t, v.names, v.r, owner, at, {});
  }

  lemma CreditConsumed(g: Group, clients: map<Key, A.Client>, v: NT.View, sender: Key, acks: map<nat, nat>,
                       ats: seq<nat>, records: SB.Records, acked: int)
    requires TrueGroup(g) && NT.Inv(g.t, v) && sender in g.t.members
    requires forall k | 0 <= k < |ats| :: ats[k] in acks
    requires forall at | at in acks && OurPlace(g, sender, at) :: Consumed(clients, sender, acks[at])
    ensures
      var r := Credited(v, g.me, sender, acks, ats, records, acked);
      r == acked || Consumed(clients, sender, r)
  {
    hide NT.Inv, OurPlace, Credited;
    CreditedIs(v, g.me, sender, acks, ats, records, acked);
    if k :| 0 <= k < |ats| && Resolve(v.r, sender, ats[k]) == Some(g.me)
            && Credited(v, g.me, sender, acks, ats, records, acked) == acks[ats[k]] {
      ResolvedToUs(g, v, sender, ats[k]);
    }
  }

  lemma CountedKept(clients: map<Key, A.Client>, ackedBy: map<Key, int>, sender: Key, before: int, after: int)
    requires AckedKept(clients, ackedBy) && (after == before || Consumed(clients, sender, after))
    ensures AckedKept(clients, Counted(ackedBy, sender, before, after))
  {}

  lemma ReadsKept(g: Group, w: World, letter: Letter)
    requires TrueGroup(g) && Inv(g, w) && letter in w.mail
    ensures AckedKept(w.clients, AckedBy(g, w, letter))
  {
    assert LetterKept(g, w.clients, letter) && letter.sender in g.t.members;
    hide A.Inv, NT.Inv, AC.Decode, AC.FieldOf, AC.InRange, Credited, Counted, MailKept, ClientsKept, AckedKept;
    match AC.Decode(letter.field)
    case AcksError =>
    case Ok(acks) =>
      var before := if letter.sender in w.ackedBy then w.ackedBy[letter.sender] else -1;
      AC.AcceptedFields(letter.field);
      CreditConsumed(g, w.clients, w.view, letter.sender, acks, AC.IndexesOf(acks), w.records, before);
      CountedKept(w.clients, w.ackedBy, letter.sender, before,
                  Credited(w.view, g.me, letter.sender, acks, AC.IndexesOf(acks), w.records, before));
  }

  // Every step.

  lemma StepKept(g: Group, w: World, step: Step)
    requires TrueGroup(g) && Inv(g, w) && Enabled(g, w, step)
    ensures Inv(g, After(g, w, step))
  {
    hide A.Inv, NT.Inv;
    match step
    case Joins(who, first) =>
      var clients := w.clients[who := A.Begin(first)];
      BeginKept(g, first);
      MailGrows(g, w.clients, clients, w.mail);
      AckedGrows(w.clients, clients, w.ackedBy);
    case Works(who, move) => WorksKept(g, w, who, move);
    case Writes(who, token, acks) =>
      var w' := After(g, w, step);
      WorksKept(g, w, who, Composing(token));
      CursorGrows(w.clients[who], Composing(token), g);
      LetterWritten(g, w'.clients, who, w.clients[who], acks);
    case Reads(letter) => ReadsKept(g, w, letter);
    case Learns(change) => NT.ChangeKept(g.t, w.view, change);
    case Follows(_) =>
    case Forgets(_) =>
    case Sends(_, _, _) =>
    case Retains(_, _) =>
  }

  lemma {:induction false} RunKept(g: Group, steps: seq<Step>)
    requires TrueGroup(g) && Possible(g, steps)
    ensures Inv(g, Reached(g, steps))
    decreases |steps|
  {
    if steps != [] {
      RunKept(g, steps[..|steps| - 1]);
      StepKept(g, Reached(g, steps[..|steps| - 1]), steps[|steps| - 1]);
    } else {
      NT.RunKept(g.t, []);
    }
  }

  /** The record's content is due for its age, or the record is. */
  predicate Aged(r: SB.Record, epoch: int, policy: SB.Retention) {
    SB.Expired(r, epoch, policy) || SB.Due(r, epoch, policy, false)
  }

  /** Over any run: whatever content retention drops before its age is due was
      in a box that every member read had consumed, or that its client began
      after. */
  lemma DroppedWasConsumed(g: Group, steps: seq<Step>, epoch: int, policy: SB.Retention, i: nat, who: Key)
    requires TrueGroup(g) && Possible(g, steps) && Enabled(g, Reached(g, steps), Retains(epoch, policy))
    requires
      var w := Reached(g, steps);
      var w' := After(g, w, Retains(epoch, policy));
      && i in w.records && w.records[i].plaintext.Some? && !Aged(w.records[i], epoch, policy)
      && (i !in w'.records || w'.records[i].plaintext.None?)
      && who in w.members
    ensures
      var w := Reached(g, steps);
      who in w.clients && i < w.clients[who].lane.first + |w.clients[who].lane.consumed|
  {
    RunKept(g, steps);
    var w := Reached(g, steps);
    assert i in AckedByAll(w) && Consumed(w.clients, who, w.ackedBy[who]);
  }

  // And what is acknowledged is dropped.

  /** What a member is taken to have acknowledged. */
  function LastAcked(ackedBy: map<Key, int>, who: Key): int {
    if who in ackedBy then ackedBy[who] else -1
  }

  /** The entry of a field counts: it is for us, and for a box we recorded. */
  predicate Counts(g: Group, w: World, sender: Key, acks: map<nat, nat>, at: nat) {
    at in acks && Resolve(w.view.r, sender, at) == Some(g.me) && acks[at] in w.records
  }

  lemma {:induction false} CreditedMost(g: Group, w: World, sender: Key, acks: map<nat, nat>, ats: seq<nat>, acked: int)
    requires forall k | 0 <= k < |ats| :: ats[k] in acks
    ensures
      var r := Credited(w.view, g.me, sender, acks, ats, w.records, acked);
      && r >= acked && (forall k | 0 <= k < |ats| && Counts(g, w, sender, acks, ats[k]) :: r >= acks[ats[k]])
      && (r == acked || exists k | 0 <= k < |ats| :: Counts(g, w, sender, acks, ats[k]) && r == acks[ats[k]])
  {
    if ats != [] {
      var front := ats[..|ats| - 1];
      CreditedMost(g, w, sender, acks, front, acked);
      assert forall k | 0 <= k < |front| :: ats[k] == front[k];
    }
  }

  /** `before` and `after` differ, if at all, by the greatest entry that counts. */
  ghost predicate CreditsMost(g: Group, w: World, sender: Key, acks: map<nat, nat>, before: int, after: int) {
    && after >= before
    && (forall at: nat | Counts(g, w, sender, acks, at) :: after >= acks[at])
    && (after == before || exists at: nat :: Counts(g, w, sender, acks, at) && after == acks[at])
  }

  lemma ReadAcks(g: Group, w: World, letter: Letter)
    ensures
      var before, after := w.ackedBy, AckedBy(g, w, letter);
      && (forall who | who != letter.sender :: LastAcked(after, who) == LastAcked(before, who))
      && match AC.Decode(letter.field)
         case AcksError => after == before
         case Ok(acks) =>
           CreditsMost(g, w, letter.sender, acks, LastAcked(before, letter.sender), LastAcked(after, letter.sender))
  {
    hide AC.Decode, AC.FieldOf, AC.InRange, Credited;
    match AC.Decode(letter.field)
    case AcksError =>
    case Ok(acks) =>
      AC.AcceptedFields(letter.field);
      var ats, before := AC.IndexesOf(acks), LastAcked(w.ackedBy, letter.sender);
      CreditedMost(g, w, letter.sender, acks, ats, before);
      AllCount(g, w, letter.sender, acks, ats, before,
               Credited(w.view, g.me, letter.sender, acks, ats, w.records, before));
      hide CreditsMost;
  }

  lemma AllCount(g: Group, w: World, sender: Key, acks: map<nat, nat>, ats: seq<nat>, before: int, after: int)
    requires forall at: nat :: at in ats <==> at in acks
    requires after >= before && forall k | 0 <= k < |ats| && Counts(g, w, sender, acks, ats[k]) :: after >= acks[ats[k]]
    requires after == before || exists k | 0 <= k < |ats| :: Counts(g, w, sender, acks, ats[k]) && after == acks[ats[k]]
    ensures CreditsMost(g, w, sender, acks, before, after)
  {}

  /** Reading a letter takes its sender to have acknowledged exactly the greatest
      of what it was taken to before and of the entries that count; nobody else's
      changes, and a malformed field changes nothing. */
  lemma ReadingCredits(g: Group, w: World, letter: Letter)
    requires letter in w.mail
    ensures
      var before, after := w.ackedBy, After(g, w, Reads(letter)).ackedBy;
      var sender := letter.sender;
      && (forall who | who != sender :: LastAcked(after, who) == LastAcked(before, who))
      && match AC.Decode(letter.field)
         case AcksError => after == before
         case Ok(acks) => CreditsMost(g, w, sender, acks, LastAcked(before, sender), LastAcked(after, sender))
  {
    ReadAcks(g, w, letter);
    hide AC.Decode, AckedBy, Counts, LastAcked;
  }

  /** Content that is not due for its age goes exactly if the policy discards
      what everyone has acknowledged, and every member read has. */
  lemma AckedIsDropped(g: Group, w: World, epoch: int, policy: SB.Retention, i: nat)
    requires i in w.records && w.records[i].plaintext.Some? && !Aged(w.records[i], epoch, policy)
    ensures
      var records := After(g, w, Retains(epoch, policy)).records;
      && i in records
      && (records[i].plaintext.None? <==>
          policy.discardAcked && forall who | who in w.members :: LastAcked(w.ackedBy, who) >= i)
  {
    assert i in AckedByAll(w) <==> EveryoneAcked(w.members, w.ackedBy, i);
  }

  lemma MailGrowsBy(g: Group, w: World, step: Step)
    requires Enabled(g, w, step)
    ensures w.mail <= After(g, w, step).mail
    ensures step.Writes? ==> Letter(step.who, AC.FieldOf(step.acks)) in After(g, w, step).mail
  {
    hide A.After, AckedBy, NT.After, SB.Retained, AC.FieldOf;
  }

  lemma {:induction false} MailStays(g: Group, steps: seq<Step>, n: nat)
    requires Possible(g, steps) && n <= |steps| && Possible(g, steps[..n])
    ensures Reached(g, steps[..n]).mail <= Reached(g, steps).mail
    decreases |steps|
  {
    if n == |steps| {
      assert steps[..n] == steps;
    } else {
      var front := steps[..|steps| - 1];
      assert front[..n] == steps[..n];
      MailGrowsBy(g, Reached(g, front), steps[|steps| - 1]);
      hide After, Enabled;
      MailStays(g, front, n);
    }
  }

  lemma WrittenIsThere(g: Group, steps: seq<Step>, n: nat)
    requires Possible(g, steps) && n < |steps| && Possible(g, steps[..n + 1]) && steps[n].Writes?
    ensures Letter(steps[n].who, AC.FieldOf(steps[n].acks)) in Reached(g, steps).mail
  {
    assert steps[..n + 1][..n] == steps[..n];
    MailGrowsBy(g, Reached(g, steps[..n]), steps[n]);
    hide After, Enabled;
    MailStays(g, steps, n + 1);
  }

  /** Whatever a message acknowledges counts once it is read: from when it was
      written it can be read, and then its writer is taken to have acknowledged
      each of our boxes it names by a place that resolves to us. */
  lemma WrittenIsCredited(g: Group, steps: seq<Step>, n: nat, token: nat, who: Key, acks: map<nat, nat>, at: nat)
    requires Possible(g, steps) && n < |steps| && Possible(g, steps[..n + 1])
    requires steps[n] == Writes(who, token, acks) && AC.InRange(acks)
    requires Counts(g, Reached(g, steps), who, acks, at)
    ensures
      var w, letter := Reached(g, steps), Letter(who, AC.FieldOf(acks));
      && Enabled(g, w, Reads(letter))
      && LastAcked(After(g, w, Reads(letter)).ackedBy, who) >= acks[at]
  {
    WrittenIsThere(g, steps, n);
    var w, letter := Reached(g, steps), Letter(who, AC.FieldOf(acks));
    hide Possible, Reached;
    AC.FieldRoundTrip(acks);
    hide AC.Decode, AC.FieldOf, AC.InRange;
    ReadingCredits(g, w, letter);
    hide After;
  }
}
