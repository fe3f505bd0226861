# Verified models of the group chat client

These Dafny modules model the parts of the client where a crash, a lost reply
or an unlucky interleaving could lose, repeat or misplace a message, and prove
what holds of every run of them. `dafny verify dfyconfig.toml` checks all of it.

**Sending** (`OutboundTables`, `OutboundDatabase`, `OutboundRun`,
`OutboundSafety`, `OutboundUploads`, `OutboundTheorems`, `OutboundOutcomes`,
`OutboundControl`, `OutboundProgress`). The outbound
write-ahead log is five tables and the transactions on them. `OutboundDatabase`
has the transactions as methods that update the tables in place, each against
the function of the same name in `OutboundTables`. `OutboundRun` is the protocol
as a state machine whose steps are those functions, the volatile moves of the
tasks, and the mixnet. Tasks are over-approximated: what a drain learned is only
forgotten in a crash, so an acknowledgement may be processed any number of
times, with its precheck and its finalize apart from each other and between any
other steps. `OutboundSafety` and `OutboundUploads` are the invariants, and
`OutboundTheorems` what they mean for whole runs. `OutboundOutcomes` follows
every row from when it is queued to where it ends, `OutboundControl` says what
may be sent when, and `OutboundProgress` that no reachable state is a dead end.

**Framing and reassembly** (`Framing`, `Reassembly`, `ReceiveCursor`,
`ReceiveDatabase`, `EndToEnd`). A message is cut into box payloads, the pieces
read are put together again, and the cursor of a stream moves past each box once:
`ReceiveCursor` is that protocol as a state machine, and `ReceiveDatabase` its
transactions in place. `EndToEnd` composes both halves: what a run of the send
protocol put into the boxes is what a run of the receive protocol is given.

**Rosters** (`KeyOrder`, `Numbering`, `NumberingAgreement`, `NumberingRetired`,
`NumberingOverTime`, `RosterObjects`). Every member's partial view of everyone's
numbering. `NumberingOverTime` has announcements and retirements in any order.
`RosterObjects` has the rosters as objects: founders' rosters share their
`Entry` objects, and `Retire` changes them in place.

**Streams and acknowledgements** (`StreamReader`, `ReaderObject`, `ReaderRuns`,
`ReaderAsks`, `RunRegress`, `StaleWalks`, `LateWalks`, `LedgerObject`,
`HoldBack`, `HoldBackTold`, `HoldBackObject`, `Acknowledging`, `SentBox`,
`SentBoxRuns`, `Receipts`). The
reader that may jump over boxes, forget them and recheck them, what is
acknowledged of it, the boxes held back while a substream arrives, and what a
member may still rewrite of its own stream. `ReaderAsks` follows what a reader
asked for until it is answered, and `HoldBackTold` says which boxes are told,
with what, in terms of what happened. `RunRegress` says when the end of a
reader's run goes back, `StaleWalks` when a plaintext may be handed out twice,
and `LateWalks` that neither lets an unread box be acknowledged. `Acknowledging`
composes the receive cursor, the boxes held back, the reader that observes them
and the ledger: the way from a box consumed to its acknowledgement. `Receipts`
goes on from there, through the `Acks` field and the rosters, to what the Sent
box drops because everyone acknowledged it.

**Codecs** (`AckCodec`, `StateCodec`). The `Acks` field and the saved group
state. `Basics` and `Sets` hold what the others share.

Assumed of what is outside: boxes of one stream are injectively numbered and the
thin client names the next one as a box's successor; an acknowledgement of the
courier means the box was written; each session commit is one atomic step and a
crash loses what is not in a table; identifiers of new rows are fresh.

Four things the code does not promise, each with the exact condition and an
input that shows it:

- The end of a reader's run is a safe bound (`LateWalks.NeverPastUnread`), not a
  monotone one. Over any run, with walks found however late, it goes back exactly
  at two kinds of event: the first gap is read again, and the box before the next
  gap (the last box read in order, if there is none) is behind the one before it;
  or no gap is left, and the box read in order is behind the last one
  (`RunRegress.StepTakesRunBack`, `RunRegress.RunGoesBackExactly`). Where every
  walk starts right after a box read in order and is found from there, that is
  exactly if the only gap is read again, and the last box read in order is behind
  the one before it (`RunRegress.OnlyGapTakesRunBack`). `RunRegress.RunGoesBack`
  and `RunRegress.LateWalkTakesRunBack` reach one of each kind.
- A plaintext is handed out at most once only if no walk is found late. A walk
  found when its reader has moved on can make it hand one out twice, in some
  continuation, exactly if a box from the first one it makes the reader keep (or
  its target) up to the one the reader is at was handed out or stays kept
  (`StaleWalks.StaleWalkOnRun`); after boxes read in order, exactly if that first
  box is before the one the reader is at. `StaleWalks.StaleWalkHandsOutTwice`
  reaches such a walk.
- A reader that is not idle has its next box or a walk to wait for, as long as
  walks are reported where they began (`ReaderAsks.WorkingIsAsking`). A late walk
  can take it back to a box it has kept; then the answer for that box is taken for
  the kept one's, and the reader is left at work with nothing on its way, exactly
  if nothing else that it waits for is (`ReaderAsks.StallsExactly`). Asking it to
  read asks for nothing then; only a scan does. `ReaderAsks.LateWalkStalls`
  reaches such a reader after two scans asked for before either's walk ends.
- An optional enum with a null member is not read back: it is, exactly if it has
  none (`StateCodec.OptionalEnum`). None of the saved types has one.

## Model

| member | source | states |
|---|---|---|
| OutboundDatabase.Database.FindResendable | src/katzenqt/persistent.py:1036-1110 | every row picked is eligible, at most one a stream, and no stream with an eligible row is passed over |
| OutboundDatabase.Database.FillIn | src/katzenqt/network.py:4085-4135 | an indirection is filled in once, with its chunk count before the read cap, and not at all when the count does not fit; nothing else changes |
| OutboundDatabase.Database.InsertEnvelope | src/katzenqt/network.py:4141-4204 | the one row a stream may have in flight is never replaced |
| OutboundDatabase.Database.Remint | src/katzenqt/network.py:1133-1204 | only the row with that id is sealed again: a new envelope with the payload given, at the index it already had |
| OutboundDatabase.Database.Finalize | src/katzenqt/persistent.py:645-713 | the cursor read before decides between the stale and the normal transaction |
| OutboundDatabase.Database.FinalizeStaleAck | src/katzenqt/persistent.py:926-948 | the stale path leaves the cursor alone |
| OutboundDatabase.Database.MarkSentTxn | src/katzenqt/persistent.py:951-1006 | plaintext, envelope, cursor and sent log change together, or only the envelope goes |
| OutboundDatabase.Database.Cancel | src/katzenqt/network.py:3331-3425 | it refuses exactly if no indirection reads that cap or nothing is queued on the stream announced, whatever is in flight; otherwise every row and envelope of the upload and of its indirection goes, and both caps, and nothing else |
| OutboundDatabase.Database.UploadProgress | src/katzenqt/persistent.py:836-871 | for a stream that an indirection with a chunk count announces, the chunks no longer queued of that count and the payload bytes still queued; nothing for any other stream |
| OutboundTheorems.StepKept | src/katzenqt/network.py:1173-1366 | every step, from every world the invariants allow, keeps them |
| OutboundTheorems.NoBoxCastTwice | src/katzenqt/network.py:4046-4204 | no box is ever cast with two different plaintexts, over any run with crashes, re-sends, re-mints, pauses and cancelled uploads |
| OutboundTheorems.BoxesHoldTheLog | src/katzenqt/persistent.py:951-1006 | the boxes from a stream's first up to its cursor hold exactly the finalized plaintexts of the stream, in the order they were finalized |
| OutboundTheorems.FinalizedExactlyOnce | src/katzenqt/persistent.py:881-904 | the sent log is exactly what was finalized, each plaintext at one place of one stream, and none of it is queued any more |
| OutboundTheorems.CursorNeverRegresses | src/katzenqt/persistent.py:645-713 | however acknowledgements repeat and interleave, the cursor of a stream never goes back and its log only grows |
| OutboundTheorems.StalePathMarksNothing | src/katzenqt/persistent.py:926-948 | the stale path never marks anything as sent, and a finalize marks a plaintext exactly if it was still queued, which then was delivered |
| OutboundTheorems.StaleExactly | src/katzenqt/persistent.py:645-713 | at every moment the guard takes the stale path for an acknowledgement exactly if its stream is still there and its plaintext was finalized before |
| OutboundTheorems.AnnouncedAfterEveryChunk | src/katzenqt/persistent.py:1061-1092 | when an indirection is cast every chunk was finalized, chunk k is in the k-th box of the substream, and the payload announces their number and the substream's read cap |
| OutboundTheorems.ChunksSentInOrder | src/katzenqt/models.py:381-441 | at every moment the chunks sent are the first ones, in order, as they were queued |
| OutboundTheorems.CancelledNeverAnnounced | src/katzenqt/network.py:3331-3425 | the indirection of a cancelled upload is never cast, before the cancel or after |
| OutboundTheorems.ProgressMatchesGate | src/katzenqt/persistent.py:836-871 | what is reported of an upload is the chunks finalized, of all of them, and the bytes of the others, and is complete exactly when the gate on the indirection opens |
| OutboundTheorems.NextIsEligible | src/katzenqt/persistent.py:1036-1110 | on an idle provisioned stream the next chunk may always be sealed, and after the last one the indirection |
| OutboundOutcomes.CancelTakesAll | src/katzenqt/network.py:3331-3425 | over any run, cancelling an upload that has a chunk queued, even with one in flight, leaves no row, envelope or cap of it nor its indirection, marks it cancelled and touches nothing else; with every chunk sent it changes nothing |
| OutboundOutcomes.RowOutcome | src/katzenqt/persistent.py:951-1006 | a queued row stays as it was queued (an indirection may be filled in once), leaves as the next entry of its own stream's log, or goes with the upload that is cancelled |
| OutboundOutcomes.BoxFate | src/katzenqt/models.py:362-380 | over any run, a message of one box is queued with the payload it was given until it is in the log of its stream, once and with that payload |
| OutboundOutcomes.LogWasQueued | src/katzenqt/persistent.py:951-1006 | nothing is finalized that was not queued: every log entry is a one-box message as it was queued on that stream, the chunk of an upload at its place, or what announces an upload queued there |
| OutboundOutcomes.DrainGoesOn | src/katzenqt/network.py:1173-1366 | a drain whose plaintext is gone takes its envelope out of flight, and no other; one whose plaintext is queued goes on |
| OutboundOutcomes.RemintRenews | src/katzenqt/network.py:1133-1204 | what was refused as stale gets a new envelope, for the same plaintext in the same box |
| OutboundControl.UploadsAsQueued | src/katzenqt/models.py:381-441 | the uploads of any moment are exactly those queued before it, with the chunks, payloads and streams they were queued with |
| OutboundControl.CapsStand | src/katzenqt/network.py:3746-3782 | a read cap stays what it was provisioned as, and its stream begins at the index given |
| OutboundControl.CapsStayPaired | src/katzenqt/network.py:3746-3782 | at every moment each stream has one read cap, both are provisioned or neither is, and what is not still can be |
| OutboundControl.PausedExactly | src/katzenqt/network.py:3266-3328 | a stream is paused exactly if the last step that set its flag paused it |
| OutboundControl.PausedStandsStill | src/katzenqt/network.py:3266-3328 | while a stream is paused nothing more is sealed for it or picked up to be cast |
| OutboundControl.EligibleExactly | src/katzenqt/persistent.py:1036-1110 | over any run, a queued row may be sealed exactly if its stream is provisioned, neither paused nor busy, and it is its turn: the next chunk, the indirection with every chunk sent and its cap there, or any one-box message |
| OutboundProgress.UploadCanFinish | src/katzenqt/persistent.py:1036-1110 | from every moment of every run, whatever crashed, failed or was paused, an upload not cancelled can still be sent to its last chunk and announced |
| OutboundProgress.BoxCanBeSent | src/katzenqt/persistent.py:1036-1110 | and a message of one box can still be sent, as it was queued |
| Framing.Serialize | src/katzenqt/models.py:348-441 | the boxes carry the blob, each fits the chunk size and all but the last are full, so that there are as few as possible; the announced total is their number, one box is used exactly when the blob fits it, and a chunk size below two is refused |
| Framing.CutUp | src/katzenqt/models.py:396-422 | the cut covers the buffer: the end-of-buffer assertion never fails |
| Framing.CutCarries | src/katzenqt/models.py:396-422 | cutting from anywhere carries the rest of the blob, for every step |
| Framing.Unserialize | src/katzenqt/models.py:807-863 | a blob is returned exactly when the boxes carry it, and nothing yet exactly when all are continued |
| Framing.CarriesOnce | src/katzenqt/models.py:807-863 | boxes carry at most one blob, and no proper prefix of them carries any |
| Reassembly.TryAssemble | src/katzenqt/network.py:1970-2043 | the walk back stops at the boundary, the gap or the start, and refuses only several pieces past the cap |
| Reassembly.AssembledIsExpected | src/katzenqt/network.py:1996-2043 | whatever pieces earlier messages left in the table, what is assembled at a box is the maximal run of continued boxes ending there |
| Reassembly.PieceIs | src/katzenqt/network.py:2535-2700 | a box is stored exactly if it begins with one of the three markers, as a piece of that kind |
| Reassembly.MessageRoundTrip | src/katzenqt/network.py:1996-2043 | boxes that carry a blob, read in order, give nothing before the last, and there exactly the blob if it decodes and is one box or within the cap, and nothing otherwise |
| EndToEnd.UploadReceived | src/katzenqt/network.py:2535-2700 | serialize, send in order and reassemble is the identity over runs of both protocols: whoever has read the boxes an indirection announces was given the message at the last box and nothing before, and the count announced is the number of boxes |
| EndToEnd.MessagesReceived | src/katzenqt/network.py:2535-2700 | over runs of both protocols, a message queued for a box of its own is given to its reader with exactly the payload queued, at the box it was sent in |
| EndToEnd.AnnouncementsReceived | src/katzenqt/network.py:2664-2691 | and what announces an upload is given as the read cap and the number of chunks of its stream |
| EndToEnd.AnnouncementRoundTrip | src/katzenqt/network.py:2664-2691 | the reader of an indirection learns the read cap and the count that were announced |
| EndToEnd.DiscardsAnnounced | src/katzenqt/network.py:2121-2150 | what leaves the table once a substream is done is exactly what announced its read cap, with a count or without |
| EndToEnd.AnnouncementsAre | src/katzenqt/network.py:2664-2691 | a body is an announcement exactly if it is a read cap, or a count of four bytes and a read cap |
| EndToEnd.FilledInRoundTrip | src/katzenqt/network.py:4085-4135 | whatever an indirection is filled in with is read back as its read cap and count, and there is none exactly if the count does not fit |
| ReceiveCursor.BoxesConsumedOnce | src/katzenqt/network.py:2431-2519 | across crashes, rollbacks, retries and pauses every box below the cursor was consumed exactly once, in order, and gave what the boxes up to it call for |
| ReceiveCursor.CursorMovesByOne | src/katzenqt/network.py:2740-2813 | no step moves the cursor back or past more than one box, and it moves exactly when a box is consumed |
| ReceiveCursor.ConsumesExactly | src/katzenqt/network.py:2069-2079 | over any run a step consumes a box exactly if it is a reply that names the next one, a box given up, or a tombstone whose row is there and at the cursor; the cursor moves past it and its row goes |
| ReceiveCursor.TableHolds | src/katzenqt/network.py:2431-2519 | a piece is in the table exactly if its box brought it, no message given since took it, and it was not discarded |
| ReceiveCursor.NeverStuck | src/katzenqt/network.py:3788-3896 | from every moment the stream can be armed again and the box at the cursor consumed |
| ReceiveCursor.StepKept | src/katzenqt/network.py:2069-2079 | tombstones, drops and stale tasks keep the cursor and the table in step |
| ReceiveDatabase.Stream.Arm | src/katzenqt/network.py:3788-3896 | a stream is armed only if it has no row |
| ReceiveDatabase.Stream.Commit | src/katzenqt/network.py:2431-2738 | a reply that names the box after the cursor stores its piece, gives what the piece completes and moves the cursor there; any other only loses its row |
| ReceiveDatabase.Stream.Drop | src/katzenqt/network.py:2799-2813 | a box given up moves the cursor and leaves the table |
| ReceiveDatabase.Stream.AdvancePastTombstone | src/katzenqt/network.py:2069-2079 | a tombstone moves the cursor only if its row is there and the cursor is at it |
| ReceiveDatabase.Stream.Discard | src/katzenqt/network.py:2121-2150 | exactly the announcements of that read cap leave the table |
| KeyOrder.SortedIsCanonical | src/katzenqt/groupchat/numbering.py:42-46 | founders sort to one numbering however they are listed |
| Numbering.NamedIs | src/katzenqt/groupchat/numbering.py:52-55 | a prefix names a key exactly if it begins that key and no other known |
| Numbering.KnownExactly | src/katzenqt/groupchat/numbering.py:74-99 | an index is known exactly when the chain of starts, cyclic or not, meets an entry for it, and resolves only then |
| Numbering.PlaceIsFirst | src/katzenqt/groupchat/numbering.py:105-109 | the place found for a member resolves to it and no earlier one does; none is found only if it has none |
| Numbering.IndexOf | src/katzenqt/groupchat/numbering.py:105-109 | the loop over the known indexes finds that place |
| Numbering.Size | src/katzenqt/groupchat/numbering.py:101-103 | bounds every index the chain of starts meets an entry for, and is attained |
| NumberingAgreement.HolesShiftNothing | src/katzenqt/groupchat/numbering.py:42-83 | whichever true announcements were heard, in whatever order, a place resolves to nobody or to whom its owner numbered there |
| NumberingAgreement.MembersAgree | src/katzenqt/groupchat/numbering.py:57-83 | two members that both resolve a place agree on it |
| NumberingAgreement.NothingMissedAllResolved | src/katzenqt/groupchat/numbering.py:74-83 | a member that missed nothing resolves every place of every roster, if introductions are acyclic |
| NumberingAgreement.LearningMovesNothing | src/katzenqt/groupchat/numbering.py:48-55 | learning a key leaves a place as it was, makes it ambiguous, or gives an unresolved one to that key |
| NumberingAgreement.FirstEntryStands | src/katzenqt/groupchat/numbering.py:42-112 | the first entry announced for a place stands, with what it said, whatever is announced later short of founding its owner again; a founder's entries are the sorted founders |
| NumberingAgreement.EntryWasAnnounced | src/katzenqt/groupchat/numbering.py:42-112 | every entry was announced for its place, or comes of a founding |
| NumberingRetired.RetiringKeepsPlaces | src/katzenqt/groupchat/numbering.py:114-137 | every place that resolved resolves to the same member under its new name; an unresolved one resolves after exactly if its prefix began the retired key and one other |
| NumberingRetired.RetiringKeepsIndexes | src/katzenqt/groupchat/numbering.py:114-137 | each owner keeps its known indexes and its size |
| NumberingRetired.RetiringForgets | src/katzenqt/groupchat/numbering.py:114-137 | the retired key is no key, owner, introducer, introduced or entry any more, and no place resolves to it |
| NumberingRetired.RetiringRenames | src/katzenqt/groupchat/numbering.py:114-137 | nothing but the name changes: every introduction, start and entry is there after, under the new name and with it inside, the member's own entries naming the token |
| NumberingRetired.ToldWellKept | src/katzenqt/groupchat/numbering.py:42-50 | announcements keep what retiring relies on |
| NumberingOverTime.PlacesStandOverTime | src/katzenqt/groupchat/numbering.py:42-137 | whatever was announced and whoever was retired, in whatever order, a place resolves to nobody or to a name for the member its owner numbered there |
| NumberingOverTime.MembersAgreeOverTime | src/katzenqt/groupchat/numbering.py:57-137 | two members that both resolve a place mean one member by it, whomever each of them retired |
| RosterObjects.Rosters.Found | src/katzenqt/groupchat/numbering.py:42-46 | founders share one set of new entries, and the rosters read as the sorted founders |
| RosterObjects.Rosters.Learn | src/katzenqt/groupchat/numbering.py:48-50 | a key is known once |
| RosterObjects.Rosters.Number | src/katzenqt/groupchat/numbering.py:111-112 | the first entry for a place stands |
| RosterObjects.Rosters.Begin | src/katzenqt/groupchat/group.py:376-379 | a start is recorded at the introducer's place for the newcomer, if that is known |
| RosterObjects.Rosters.Retire | src/katzenqt/groupchat/numbering.py:114-137 | replacing shared entries in place, one or several times each, amounts to retiring every roster apart |
| StreamReader.ScanTries | src/katzenqt/groupchat/reader.py:51-70 | after a scan what was tried is exactly what is heard of ahead, each once, so no more than is heard |
| StreamReader.ScanAsks | src/katzenqt/groupchat/reader.py:51-70 | a scan asks for each kept box again and then walks to exactly the boxes heard of ahead that were not looked for, or reads the next box if there are none |
| ReaderObject.Reader.Read | src/katzenqt/groupchat/reader.py:45-49 | an idle reader asks for the next box, one at work for nothing |
| ReaderObject.Reader.Scan | src/katzenqt/groupchat/reader.py:57-70 | rechecks of the kept boxes in order, then a walk to what was not tried or a probe |
| ReaderObject.Reader.Walked | src/katzenqt/groupchat/reader.py:83-97 | the boxes reported are kept with the box before each, and those not reported are lost |
| ReaderObject.Reader.Forget | src/katzenqt/groupchat/reader.py:103-107 | what leaves the window is lost, the first of it recorded |
| ReaderObject.Reader.Found | src/katzenqt/groupchat/reader.py:109-129 | a kept box is dropped once found and handed out if it has data; the next box is passed only if it was read and has a successor, and otherwise leaves the reader idle where it is; any other changes nothing |
| ReaderRuns.NeverPastUnread | src/katzenqt/groupchat/reader.py:72-81 | in every reachable state every box at or before the end of the run was read, and so was every box at or before what was published |
| ReaderRuns.Conserved | src/katzenqt/groupchat/reader.py:83-129 | boxes passed are partitioned into read, kept and lost; lost records the first; kept ascends within the window; no box is handed out twice |
| ReaderRuns.LostForGood | src/katzenqt/groupchat/reader.py:36-38 | a lost box is never read, and acknowledgements stop before it for good |
| ReaderRuns.ForgettingKeepsRun | src/katzenqt/groupchat/reader.py:103-107 | forgetting leaves the end of the run where it was |
| ReaderRuns.RunExact | src/katzenqt/groupchat/reader.py:72-81 | if walks start right after a box read in order, the run ends exactly before the first box not read if and only if a gap is left or the last box passed was read in order |
| ReaderRuns.HoldingPublishesNothing | src/katzenqt/groupchat/ledger.py:39-51 | over any run, while an induction holds, what is published changes only when a message pending since before is abandoned, and is always something published by the time it began |
| ReaderRuns.HoldsExactly | src/katzenqt/groupchat/ledger.py:39-41 | publishing is held back exactly while an induction holds it |
| ReaderRuns.ComposePublishes | src/katzenqt/groupchat/group.py:462-476 | over any run, a message composed while nothing is held leaves exactly the end of the run published, if there is one, and is pending with what was published before exactly if that changed; under a hold nothing changes |
| ReaderRuns.AbandonedGivesBack | src/katzenqt/groupchat/group.py:256-268 | abandoning a message gives back what it published, unless something else was published meanwhile |
| ReaderRuns.EndedStandsStill | src/katzenqt/groupchat/group.py:256-268 | abandoning a message already written or abandoned changes nothing |
| ReaderAsks.WorkingIsAsking | src/katzenqt/groupchat/reader.py:45-129 | over any run with walks reported where they began, a reader that is not idle has its next box or a walk to wait for, and so has one just asked to read |
| ReaderAsks.StallsExactly | src/katzenqt/groupchat/reader.py:83-129 | exactly which step leaves a reader at work with nothing to wait for: the answer for its next box, taken for that of a kept one, with nothing else it waits for on its way |
| ReaderAsks.LateWalkStalls | src/katzenqt/groupchat/reader.py:57-129 | a reachable reader left scanning with nothing on its way, which asks for nothing when it is asked to read |
| ReaderAsks.EndAskedAgain | src/katzenqt/groupchat/reader.py:45-129 | over any run, the answer that the next box is not there, or has no successor, leaves the reader idle at that box and changes nothing else, and the next read asks for exactly that box again |
| RunRegress.StepTakesRunBack | src/katzenqt/groupchat/reader.py:72-129 | exactly when an event takes the end of the run back, whatever walk ended before: the first gap is read again and the box before the next gap is behind, or no gap is left and the box read in order is behind the last one |
| RunRegress.RunGoesBackExactly | src/katzenqt/groupchat/reader.py:72-129 | over any run, walks found late included, the end of the reader's run goes back between two moments exactly if such an event is between them |
| RunRegress.OnlyGapTakesRunBack | src/katzenqt/groupchat/reader.py:72-129 | where every walk starts right after a box read in order and is found from there, such an event is exactly one that reads the only gap again, with the last box read in order behind it |
| RunRegress.RunGoesBack | src/katzenqt/groupchat/reader.py:72-129 | a reachable run that goes back when its only gap is read again: it was at box 1 and is at box 0 |
| RunRegress.LateWalkTakesRunBack | src/katzenqt/groupchat/reader.py:83-129 | a run that goes back with no gap left, after a late walk: it was at box 2 and is at box 1 |
| LateWalks.NeverPastUnread | src/katzenqt/groupchat/reader.py:72-129 | over any run, with walks found from any box the reader was at or before, every box through the end of the run was read, and so was every one through what was published |
| StaleWalks.StaleWalkExactly | src/katzenqt/groupchat/reader.py:83-129 | from any reader that can hand nothing out twice, a walk found, wherever it started, makes it possible exactly if it retakes a box handed out or still kept |
| StaleWalks.StaleWalkOnRun | src/katzenqt/groupchat/reader.py:83-129 | the same at any moment of any run; where all it could retake was handed out, exactly if the first box it makes the reader keep is before the one the reader is at |
| StaleWalks.StaleWalkHandsOutTwice | src/katzenqt/groupchat/reader.py:83-129 | a reachable reader that a late walk makes hand out box 0 a second time |
| LedgerObject.Ledger.Owed | src/katzenqt/groupchat/ledger.py:43-48 | the end of the run is owed exactly if nothing is held back, there is one, and it is not what is published |
| LedgerObject.Ledger.Publish | src/katzenqt/groupchat/ledger.py:50-51 | the stream's runs see the index as published, and no other stream's see anything |
| LedgerObject.Ledger.Acknowledge | src/katzenqt/groupchat/group.py:468-472 | while nothing is held back what is published becomes the end of the run, if there is one; what was published before is returned exactly if that changed, as the runs take composing to be |
| LedgerObject.Ledger.Acked | src/katzenqt/groupchat/ledger.py:56-57 | what a member acknowledged never goes back |
| LedgerObject.Ledger.Hear | src/katzenqt/groupchat/ledger.py:53-54 | what that member last acknowledged of that stream is known, and all else heard stands |
| LedgerObject.Ledger.Forget | src/katzenqt/groupchat/ledger.py:59-63 | a member removed is heard of no more, as a stream or as who acknowledged, and nobody else is forgotten |
| HoldBack.StreamsIndependent | src/katzenqt/acks.py:632-676 | each stream is told and held as if it were alone, so none delays or reorders another |
| HoldBack.ToldThenHeld | src/katzenqt/acks.py:642-749 | of the boxes read, in reading order, those ready before the first that waits were told, each once and with its own message, and the rest are held |
| HoldBack.StreamTold | src/katzenqt/acks.py:632-749 | the same of any stream among others, whatever comes between on those |
| HoldBack.HeadsWait | src/katzenqt/acks.py:642-649 | after every entry point the first box held of every stream waits |
| HoldBack.BoxFates | src/katzenqt/acks.py:652-749 | each box is what its own events make of it: a message reaches its own box or the boxes that announced its substream, and no other |
| HoldBack.BoxesAreRead | src/katzenqt/acks.py:702-725 | the boxes told or held with a successor are exactly those read |
| HoldBackTold.ToldExactly | src/katzenqt/acks.py:632-749 | of any stream among others, a box was told exactly if it and every box named before it was read and awaits no substream: one arriving when it was read, without a message of its own, and neither arrived nor settled since; it was told once, in order, with the last message that came for it |
| HoldBackObject.Stored.Release | src/katzenqt/acks.py:642-649 | one pass over a copy of the list tells what is ready and removes only that |
| HoldBackObject.Stored.OnMessage | src/katzenqt/acks.py:652-676 | a message reaches its box, or the boxes waiting on its substream, before anything is told |
| HoldBackObject.Stored.BoxRead | src/katzenqt/acks.py:702-725 | a box waits on the substream it announced only if no message came and one is arriving |
| HoldBackObject.Stored.Settle | src/katzenqt/acks.py:728-749 | only boxes of the stream whose substream is done stop waiting |
| Acknowledging.AcknowledgedAreTold | src/katzenqt/groupchat/group.py:215-227 | over any run of the receive cursor, the boxes held back, the observing reader and the ledger: the run ends exactly at the last box before the first that waits, and what is published is a box the cursor consumed, before every box held |
| Acknowledging.OnlyForward | src/katzenqt/groupchat/group.py:215-271 | of a reader that only observes, the run never goes back, and what is published only when a message is abandoned |
| Acknowledging.ComposeAcknowledges | src/katzenqt/groupchat/group.py:462-476 | a message composed while nothing is held publishes exactly the last box before the first that waits |
| SentBox.Box.Retain | src/katzenqt/groupchat/sentbox.py:62-76 | a record stays exactly if it is within the window; its content goes exactly if everyone acknowledged it and that is discarded, or it is no control message and of the age; nothing else of it changes |
| SentBox.Box.Backfill | src/katzenqt/groupchat/sentbox.py:78-96 | a second backfill of an epoch does nothing; the first settles what it writes as a tombstone |
| SentBox.Box.Check | src/katzenqt/groupchat/sentbox.py:51-55 | a box is found exactly if its whole index was recorded |
| SentBoxRuns.BackfillWrites | src/katzenqt/groupchat/sentbox.py:78-96 | in ascending order, exactly the boxes someone has yet to acknowledge and the unsettled tombstones |
| SentBoxRuns.RewritesBounded | src/katzenqt/groupchat/sentbox.py:78-96 | over any run a box is rewritten at most once an epoch, in ascending order, and at most once after everyone acknowledged it, as a tombstone |
| SentBoxRuns.DroppedStaysDropped | src/katzenqt/groupchat/sentbox.py:62-96 | a plaintext once dropped is never written again |
| SentBoxRuns.RecordsExactly | src/katzenqt/groupchat/sentbox.py:62-96 | over any run with any policies, a record goes exactly when a policy is applied whose window it is past, its content exactly when one is applied that keeps it no longer, it is settled exactly by a backfill that finds it acknowledged without content, and nothing else of it changes |
| SentBoxRuns.PolicyIs | src/katzenqt/acks.py:210-226 | the policy for so many days, in whole epochs |
| SentBoxRuns.KeptAsLongAsAsked | src/katzenqt/acks.py:210-226 | over any run under a policy of d days, a message sent keeps its record for those days, and its content until everyone acknowledged it; and content the policy meets two epochs after that is gone for good |
| Receipts.DroppedWasConsumed | src/katzenqt/groupchat/group.py:334-340 | over any run of the others' clients, their messages, our rosters and our Sent box: content that retention drops before its age is due was in a box that every member read had consumed, or began after |
| Receipts.AckedIsDropped | src/katzenqt/groupchat/group.py:604-621 | content not due for its age goes exactly if what everyone acknowledged is discarded and every member read has acknowledged it |
| Receipts.ReadingCredits | src/katzenqt/groupchat/group.py:334-340 | reading a message takes its sender to have acknowledged exactly the greatest of what it had before and of the entries that resolve to us and name a box recorded; nobody else's changes |
| Receipts.WrittenIsCredited | src/katzenqt/groupchat/group.py:334-340 | over any run, what a message acknowledges can be read from when it was written, and counts once it is |
| AckCodec.NameMembers | src/katzenqt/ack_codec.py:38-60 | setting bits one by one gives the bitmap of the members, used only when it is shorter than the list |
| AckCodec.BitmapNames | src/katzenqt/ack_codec.py:38-60 | a bitmap names exactly the members it was made of |
| AckCodec.NamingRoundTrip | src/katzenqt/ack_codec.py:63-94 | the names read back are the names written |
| AckCodec.Encode | src/katzenqt/ack_codec.py:97-122 | exactly the maps in range are encoded |
| AckCodec.FieldRoundTrip | src/katzenqt/ack_codec.py:97-152 | decoding an encoded map gives the map |
| AckCodec.AcceptedFields | src/katzenqt/ack_codec.py:125-152 | an accepted field decodes to a map in range whose own field is no longer, and the same exactly if no list was used where a bitmap is shorter |
| StateCodec.RoundTrip | src/katzenqt/groupchat/state.py:125-169 | every value of a kind is read back by its kind, dictionaries keyed by tuples included |
| StateCodec.RecordRead | src/katzenqt/groupchat/state.py:149-157 | of a record each field is read as what is stored under its name, or as its default if nothing is, and reading fails exactly if one has neither |
| StateCodec.DictionaryRead | src/katzenqt/groupchat/state.py:160-162 | a dictionary is read as the last pair stored for each of its keys |
| StateCodec.TupleRead | src/katzenqt/groupchat/state.py:165-168 | of a tuple as many items are read as there are of both its types and the data |
| StateCodec.OptionalEnum | src/katzenqt/groupchat/state.py:141-148 | an optional enum is read back exactly if it has no null member |

## Left out

- The user interface, the launcher, packaging, CI tools and audio.
- The thin client, BACAP, encryption and the courier, beyond the contracts named above; the 64-bit width of a box counter.
- asyncio, SQLAlchemy and sqlite: a session commit is one step, and a commit that fails on a busy database is one that did not happen.
- Retry pacing, reconnects, packet statistics and PKI summaries.
- CBOR and pydantic: a message is bytes that some blobs decode to.
- Rewrites of boxes already written (`_send_rewrite`), and the removal of a conversation.
- OutboundDatabase.Database.FinalizeStaleAck: the `ConversationLog` row it marks as sent and the `GroupWritten` row it adds, which no transaction modelled here reads.
- OutboundDatabase.Database.MarkSentTxn: the same two rows.
- OutboundDatabase.Database.Cancel: the lookup and the deletes are one transaction; the in-flight write it stops first is a task the state machine never stops, which allows more; the message's place in the conversation log, and what it acknowledged being owed again, which `ReaderRuns` has as `Abandoned`.
- OutboundDatabase.Database.FindResendable: the row picked of a stream is any eligible one, since the query leaves it open; so messages on a main stream have no order of their own.
- OutboundRun: a task that was cancelled goes on for all the model knows, and a failure to pack a chunk count stops only that row.
- NumberingAgreement.NothingMissedAllResolved: no place is announced blank, and a start counts when the introducer's place for the newcomer was known, which is when the code records it.
- NumberingRetired.RetiringKeepsPlaces: an entry names its member by a key or a prefix, as every caller makes it.
- ReaderRuns: a walk that finds nothing within its limit changes nothing; `observe`, which sets the reader to a box before reading it, is in `Acknowledging`.
- Receipts: a member's readers of streams other than ours, whose acknowledgements a message carries too, and the backfill, which drops nothing.
- NumberingRetired.RetiringRenames: the same.
- NumberingOverTime: a token is new to the group and to whoever gives it out.
- Acknowledging: the scan a user asks for, which moves the reader and the cursor itself while reads are paused; `ReaderRuns` has what it does to the reader.
- ReceiveCursor: the scan a user asks for, which sets the cursor itself; retiring and pausing a peer only stop further steps; a reply for a box the cursor has passed is taken to name no box past the cursor.
- SentBoxRuns.RewritesBounded: epochs never go back, a box is recorded once, and who has acknowledged a box only grows.
- SentBoxRuns.KeptAsLongAsAsked: the quotient of days and epochs is exact, not a float.
- StateCodec.RoundTrip: fields a dataclass does not compare, the version migrations of saved state, and a key type that cannot be hashed.
- HoldBack.ToldThenHeld: a stream's boxes are read in ascending order, and a box's own message comes in the transaction that reads it; `Acknowledging` derives the order from the receive cursor.
- HoldBackTold.ToldExactly: the same.
- ReaderAsks: a request is answered at most once, in any order; one that is never answered is only waited for. That the answers to a walk are reported where it began is a condition of `WorkingIsAsking`, and `StallsExactly` does without it.
- OutboundProgress: that the steps still possible are taken some day is up to the scheduler, the network and the user.
- OutboundProgress.UploadCanFinish: a chunk count that does not fit four bytes is never announced, as `EndToEnd.FilledInRoundTrip` says.
- The rest of `group.py`, `wire.py`, the voucher and the tally packages.
