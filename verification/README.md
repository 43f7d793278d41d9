# A verified model of a remote terminal

The repository is a remote terminal: a daemon runs shells and keeps what they print, a relay
carries encrypted connections, and a client shows the terminals. This project models four
parts of it in Dafny and proves what they promise.

* **The output pipeline.** What a shell prints is filtered (`OutputFilter`), tracked
  (`Tracker`) and kept in a bounded ring that is only ever cut at anchors (`Ring`, `Paging`).
  A client that opens a terminal gets a state rendered as control sequences
  (`SnapshotPrefix`, `Ecma48`), a window of output and then live frames (`Frames`, `Attach`).
  `FilterLaws`, `TrackerLaws` and `AttachProgress` say what each kind of input, callback and
  open does. Everything is measured against one ghost value: all the output ever pushed. `Replay` puts
  the pieces together, from the first byte to the client's screen, and `ClientStream` holds
  the client's own checks against them.
* **The client session.** Request table, reply slots and streams of one connection
  (`Session`, `SessionSafety`), of all connections together (`Reconnects`), and what gets
  answered (`SessionAnswers`); input batching and the queues that survive reconnects
  (`InputBatching`, `CommandQueues`).
* **The relay.** The worker's wire format (`Uuid`, `PlatformText`, `RelayCodec`), its state
  machine and what it promises (`RelayWorker`, `RelaySafety`, `RelayLaws`, `RelayIdle`), its rate
  window over one pair and over whole runs (`RateWindow`, `RelayRate`), and the lock-free token
  bucket and counters of the native relay (`TokenBucket`, `TicketCounter`).
* **The client database.** Two indexes, their files, and the task that reloads them
  (`ClientDb`).

Code that works in place is a class or a loop, proved equal to a specification function; the
protocols are state machines over atomic steps, and their theorems hold for every
interleaving. The escape-sequence parser of the tracker is a foreign library and appears as
an arbitrary deterministic step function; where bytes matter, a concrete lexer for the
control functions of ECMA-48 (sections 5.4, 8.3.21 and 8.3.117) stands in.

`dafny verify dfyconfig.toml` checks the project.

## What does not hold, and exactly when it does

| what one might expect | what the code does | lemma |
|---|---|---|
| the prefix restores any anchor | up to the title, if and only if both cursor coordinates are below 65535 and the mouse mode is Off or AnyEvent | `SnapshotPrefix.PrefixRoundTrip`, `SnapshotPrefix.NormalMouseIsLost` |
| a safe split is a good place to cut | if and only if the parser is at ground there and the prefix carries the state; control characters inside a sequence also set the flag | `Replay.CutIsFaithfulExactlyAtGround`, `Replay.SafeSplitInsideSequence` |
| a client shows each byte once | if and only if no frame came or nothing of the snapshot was broadcast after the subscription; the client does not skip frames at or before the acknowledged end | `ClientStream.OpenedClientSeesOutputOnce`, `ClientStream.OverlapHappens` |
| `has_more_history` says whether older output is kept | unless the ring has capacity 1, nothing is pushed during the open and the two kept anchors are the last two places of the output | `Paging.OlderBytesProbe`, `Paging.OpenAtCapacityOne` |
| batching keeps the order of commands | if and only if no byte for the batched terminal arrives behind another command | `InputBatching.BatchingKeepsInterleavingIff`, `InputBatching.KeyOvertakesResize` |
| request ids are distinct | if and only if there are at most 2^32 - 1 of them on a connection; the counter then stays | `SessionSafety.IdsDistinctIff` |
| data for a terminal just left is ignored | it ends the connection, however late it comes, until an open of the same stream is acknowledged | `SessionSafety.LateDataEndsConnection`, `SessionSafety.DataSurvivedIff`, `SessionSafety.LateDataHappens` |
| the relay's decoder inverts its encoder | if and only if the text of the message is well-formed and does not begin with U+FEFF, which the platform's decoder takes for a byte order mark and drops | `RelayCodec.PlatformRoundTrip`, `RelayCodec.MarkIsDropped` |
| a page ends where it was asked to | if and only if that point is still in the window | `Paging.PageEndsWhereAsked` |
| filtering twice is filtering once | if and only if nothing left standing before a cut joins up with the first seven bytes passed on after it | `OutputFilter.FilteringTwiceIff`, `OutputFilter.FilterIsNotIdempotent`, `OutputFilter.HoldingJoins` |
| an accepted database update stays, when nobody edits the files | if and only if it does not come after a running poll has read the file it goes to (a revocation: both files) | `ClientDb.PollsAreInvisibleIff`, `ClientDb.UpdateInsidePollIsLost` |

## Model

| member | source | states |
|---|---|---|
| `OutputFilter.FindOscTerminator` | crates/server/pty/src/terminal.rs:482-501 | finds the first BEL or ST of a title and its length, or reports none exactly when there is none |
| `OutputFilter.DecideStable` | crates/server/pty/src/terminal.rs:325-401 | a decision of the filter other than holding back is not changed by any bytes that arrive later |
| `OutputFilter.DecideRecognised` | crates/server/pty/src/terminal.rs:325-480 | each sequence of the grammar (mode switches, titles, the query) is consumed whole and never emitted; the bare query at the very end of the input is the one exception: it is held |
| `OutputFilter.ConsumedIsRecognised` | crates/server/pty/src/terminal.rs:325-480 | whatever is swallowed is exactly one sequence of that grammar |
| `OutputFilter.HeldIsCompletable` | crates/server/pty/src/terminal.rs:325-480 | a held-back tail can be completed to a sequence of the grammar; the completing bytes are given, and are empty only for the bare query |
| `OutputFilter.DecideMatchesGrammar` | crates/server/pty/src/terminal.rs:325-480 | holding back happens if and only if the tail can still become a sequence of the grammar, and a sequence at the front is always consumed to its exact length |
| `OutputFilter.ServerOutputProcessor.constructor` | crates/server/pty/src/terminal.rs:315-323 | a new processor holds nothing back, owes no reply and no title, and skips the first reply when asked to |
| `OutputFilter.ServerOutputProcessor.Process` | crates/server/pty/src/terminal.rs:325-401 | one read leaves exactly the pending bytes, replies, title and skip flag that one pass over held-back bytes plus read gives |
| `OutputFilter.ServerOutputProcessor.TakePendingResponse` | crates/server/pty/src/terminal.rs:403-405 | hands out the replies owed, once |
| `OutputFilter.ServerOutputProcessor.TakePendingTitle` | crates/server/pty/src/terminal.rs:407-409 | hands out the last title, once |
| `OutputFilter.ScanAppend` | crates/server/pty/src/terminal.rs:325-401 | filtering a + b is filtering a and then what it held back followed by b |
| `OutputFilter.ReadBoundariesDoNotMatter` | crates/server/pty/src/terminal.rs:325-401 | for every way of cutting the stream into reads: same filtered bytes, same held-back bytes, same number of replies, same last title, same skip flag as one read of everything |
| `OutputFilter.PlainOutputIsTransparent` | crates/server/pty/src/terminal.rs:325-401 | input without ESC passes through unchanged and at once |
| `OutputFilter.FixpointsAreClean` | crates/server/pty/src/terminal.rs:325-401 | the filter changes nothing if and only if no recognised sequence starts anywhere in the input and none is left unfinished at its end |
| `OutputFilter.FilteringTwiceIff` | crates/server/pty/src/terminal.rs:325-401 | for every input: filtering twice is filtering once if and only if, at every place where something was cut out or held back, no unfinished sequence left standing before the cut goes on or is completed in the first seven bytes passed on after it |
| `OutputFilter.SevenBytesDecide` | crates/server/pty/src/terminal.rs:325-480 | whether two stretches joined together start a recognised sequence is decided by the first seven bytes of the second |
| `OutputFilter.OnlyShortRemainders` | crates/server/pty/src/terminal.rs:325-480 | what can be left standing before a cut is at most seven bytes of a fixed sequence, never the text of a title |
| `OutputFilter.FilterIsNotIdempotent` | crates/server/pty/src/terminal.rs:325-401 | stripping can join: a query cut out between ESC and `[6n` leaves a query |
| `OutputFilter.HoldingJoins` | crates/server/pty/src/terminal.rs:325-401 | holding back can join too: of two ESC the second is held, and the first alone is held the next time |
| `OutputFilter.LoneQueryIsHeld` | crates/server/pty/src/terminal.rs:335-338 | a complete cursor query at the very end of a read is held, unanswered, because the prefix test comes first |
| `FilterLaws.ReplyIsAReport` | crates/server/pty/src/terminal.rs:412-414 | a reply, read as ECMA-48, is one report with final R, the row and then the column, both counted from one and saturating at 65535 |
| `FilterLaws.RepliesAddUp` | crates/server/pty/src/terminal.rs:340-346 | replies to several queries are so many reports, one after the other |
| `FilterLaws.AnswerOneQuery` | crates/server/pty/src/terminal.rs:325-410 | the read ESC [ 6 n x with nothing held: one such report with the cursor of the call is owed, and x is passed on |
| `FilterLaws.PlainByteIsPassedOn` | crates/server/pty/src/terminal.rs:325-401 | a byte other than ESC, in front of anything, is passed on and changes nothing else |
| `FilterLaws.OtherEscapeIsPassedOn` | crates/server/pty/src/terminal.rs:325-401 | so is an ESC that begins no sequence of the grammar, whole or unfinished |
| `FilterLaws.QueryIsAnswered` | crates/server/pty/src/terminal.rs:339-347 | a query in front of anything is cut out and answered once, unless its answer was to be skipped; only one is skipped |
| `FilterLaws.ModeSwitchIsStripped` | crates/server/pty/src/terminal.rs:349-376 | a mode switch in front of anything is cut out and leaves no trace |
| `FilterLaws.TitleIsCaptured` | crates/server/pty/src/terminal.rs:378-394 | a title in front of anything is cut out; its text becomes the title if it is UTF-8 and no later one follows |
| `FilterLaws.UnfinishedIsHeld` | crates/server/pty/src/terminal.rs:335-338 | an unfinished sequence at the end is held back, and nothing else happens |
| `Tracker.ExtendedColorSpelled` | crates/server/pty/src/parser.rs:324-380 | an extended colour is selected if and only if its numbers follow 38 or 48, as its own subparameters (then one item is taken) or, if it has none, as the next parameters (then those are taken too); never a named colour |
| `Tracker.AnchorTracker.AdvanceBytes` | crates/server/pty/src/parser.rs:31-42 | the tracker after a chunk is the byte-by-byte fold of the parser and its callbacks, with the safe-split flag of the last byte |
| `Tracker.AnchorTracker.AdvanceOne` | crates/server/pty/src/parser.rs:31-42 | the flag is cleared before a byte and then decided by the callbacks the byte makes |
| `Tracker.AnchorTracker.Dispatch` | crates/server/pty/src/parser.rs:71-183 | each callback changes the state as the action-level semantics says and marks or clears the safe split |
| `Tracker.AnchorTracker.SelectGraphicRendition` | crates/server/pty/src/parser.rs:186-235 | the in-place loop over SGR parameters equals the fold over the items, extended colours skipping what they take; nothing but the rendition changes |
| `Tracker.AnchorTracker.SetPrivateModes` | crates/server/pty/src/parser.rs:242-283 | the loop over mode parameters equals the fold over them, and only modes change |
| `Tracker.AdvanceConcat` | crates/server/pty/src/parser.rs:31-42 | tracking does not depend on how the output is chunked |
| `Tracker.AdvanceIsParse` | crates/server/pty/src/parser.rs:31-42 | a tracker is its parser with the callbacks folded into the state |
| `Tracker.SgrKeepsPalette` | crates/server/pty/src/parser.rs:186-235 | no SGR sequence ever stores a named colour outside 0..15 |
| `Tracker.PerformKeepsReachable` | crates/server/pty/src/parser.rs:71-283 | every callback keeps named colours below 16 and both locking shifts at 0 |
| `Tracker.AdvanceKeepsReachable` | crates/server/pty/src/parser.rs:31-42 | so does every byte string, whatever the parser makes of it |
| `TrackerLaws.AbsoluteAddressing` | crates/server/pty/src/parser.rs:237-240 | CUP and HVP put the cursor where they say, counting from one |
| `TrackerLaws.MovesAreAbsolute` | crates/server/pty/src/parser.rs:122-155 | each of the eight cursor movements leads to its target in plain arithmetic, clamped to 0 and 65535, and equals CUP to that place below the limit |
| `TrackerLaws.OneByDefault` | crates/server/pty/src/parser.rs:285-301 | a missing or a zero parameter counts as one, in movements and addresses |
| `TrackerLaws.ControlsMove` | crates/server/pty/src/parser.rs:72-96 | LF, CR and BS move by plain arithmetic, clamped; a printable character advances one column, any other none |
| `TrackerLaws.TabStops` | crates/server/pty/src/parser.rs:88-90 | HT goes to the next multiple of eight, or to the last column there is |
| `TrackerLaws.OthersDoNothing` | crates/server/pty/src/parser.rs:77-160 | every other control code and final byte leaves the state alone |
| `TrackerLaws.MovesOnBytes` | crates/server/pty/src/parser.rs:118-160 | the bytes of a movement, on any terminal at ground, lead to its target |
| `TrackerLaws.CursorUpTwo` | crates/server/pty/src/parser.rs:122-125 | ESC [ 2 A in row 5 leads to row 3 |
| `TrackerLaws.SwitchingOn` | crates/server/pty/src/parser.rs:194-203 | each rendition is switched on by its own code and by that alone |
| `TrackerLaws.SwitchingOff` | crates/server/pty/src/parser.rs:204-217 | 21 and 22 switch off bold and faint, 23 to 29 each its own, 39 and 49 the colours |
| `TrackerLaws.Resetting` | crates/server/pty/src/parser.rs:186-194 | SGR without a parameter or with 0 resets everything |
| `TrackerLaws.NamedColours` | crates/server/pty/src/parser.rs:211-219 | the sixteen named colours are set by their codes, in both ranges, foreground and background |
| `TrackerLaws.OtherCodesDoNothing` | crates/server/pty/src/parser.rs:193-233 | every other code leaves the rendition alone |
| `TrackerLaws.ModeSwitches` | crates/server/pty/src/parser.rs:242-283 | each private mode switches one thing on and off; a mouse mode that is reset leaves the mouse off |
| `TrackerLaws.OtherModesDoNothing` | crates/server/pty/src/parser.rs:242-283 | other modes, and modes that are not private, change nothing |
| `TrackerLaws.ModesInOrder` | crates/server/pty/src/parser.rs:242-283 | several modes in one sequence are set one after the other, on for h and off for l |
| `TrackerLaws.TitleIsTheRest` | crates/server/pty/src/parser.rs:307-322 | OSC 0 and 2 set the title to all that follows the first semicolon, semicolons included, if it is UTF-8 |
| `TrackerLaws.SafeExactlyAtEffects` | crates/server/pty/src/parser.rs:31-42 | after a byte of ECMA-48 a split counts as safe exactly when the byte had an effect |
| `TrackerLaws.DeviceControlsAreUnsafe` | crates/server/pty/src/parser.rs:98-109 | the start and the bytes of a device control string are unsafe splits, its end is safe |
| `Ecma48.ParseDigits` | crates/shared/proto/src/snapshot.rs:163-192 | reading a printed decimal parameter gives the number back, for every 16-bit number |
| `Ecma48.ParseControl` | crates/shared/proto/src/snapshot.rs:110-242 | each control function the prefix prints is parsed to exactly the one action it stands for, ending at ground |
| `Ecma48.ParseTextAll` | crates/shared/proto/src/snapshot.rs:110-242 | any sequence of them is parsed to their meanings in order |
| `SnapshotPrefix.ApplySgr` | crates/shared/proto/src/snapshot.rs:126-161 | appends the text of one SGR sequence with the rendition, or nothing for the default rendition |
| `SnapshotPrefix.ApplyControls` | crates/shared/proto/src/snapshot.rs:194-219 | appends the text of the mode switches in order |
| `SnapshotPrefix.ApplyCharset` | crates/shared/proto/src/snapshot.rs:221-242 | appends the designations of G0 to G3 and the shift |
| `SnapshotPrefix.RenderPrefixFromAnchor` | crates/shared/proto/src/snapshot.rs:110-124 | the in-place rendering equals the text of the reset, rendition, mode, character-set and cursor controls, in this order |
| `SnapshotPrefix.CodesFlags` | crates/shared/proto/src/snapshot.rs:126-148 | performing the printed rendition flags on a reset rendition gives exactly these flags |
| `SnapshotPrefix.CodesColor` | crates/shared/proto/src/snapshot.rs:163-192 | performing a printed colour sets that colour, named (in both ranges), indexed or RGB, for foreground and background |
| `SnapshotPrefix.SgrRestored` | crates/shared/proto/src/snapshot.rs:126-192 | printing a rendition and performing it restores it |
| `SnapshotPrefix.ModesRestored` | crates/shared/proto/src/snapshot.rs:194-219 | performing the printed modes restores every mode from any modes, except that a mouse mode other than AnyEvent comes back as Off |
| `SnapshotPrefix.CharsetRestored` | crates/shared/proto/src/snapshot.rs:221-242 | performing the designations restores G0 to G3 |
| `SnapshotPrefix.CursorEffect` | crates/shared/proto/src/snapshot.rs:110-124 | the printed position puts the cursor back where it was, or one before the 16-bit limit |
| `SnapshotPrefix.PrefixEffect` | crates/shared/proto/src/snapshot.rs:110-242 | the state after performing the prefix of a reachable anchor, field by field, whatever the terminal showed before |
| `SnapshotPrefix.PrefixParses` | crates/shared/proto/src/snapshot.rs:110-242 | the bytes of the prefix are parsed to exactly its control functions, ending at ground |
| `SnapshotPrefix.PrefixRoundTrip` | crates/shared/proto/src/snapshot.rs:110-242 | print, parse, perform, on any terminal at ground: a reachable anchor is shown again up to the title if and only if both cursor coordinates are below 65535 and the mouse mode is Off or AnyEvent |
| `SnapshotPrefix.NormalMouseIsLost` | crates/shared/proto/src/snapshot.rs:194-219 | after the bytes ESC [ ? 1000 h the mouse mode is Normal, and a client given the prefix of that state has it off |
| `Ring.PlacedIncreasing` | crates/server/pty/src/ring.rs:176-190 | anchors are placed at strictly increasing offsets |
| `Ring.PlacedApart` | crates/server/pty/src/ring.rs:176-190 | any two anchors are at least the interval apart |
| `Ring.PlacedGrows` | crates/server/pty/src/ring.rs:176-190 | more output only adds anchors, all of them past the output so far |
| `Ring.PlacedAreSafe` | crates/server/pty/src/ring.rs:176-190 | every anchor is at a safe split |
| `Ring.NoSafeSplitPastLast` | crates/server/pty/src/ring.rs:176-190 | placement is greedy: no safe split lies an interval or more past the last anchor |
| `Ring.KeptThenKept` | crates/server/pty/src/ring.rs:192-224 | evicting after every byte keeps the same anchors as evicting once at the end |
| `Ring.KeptIsEarliestFit` | crates/server/pty/src/ring.rs:192-224 | the window starts at the earliest anchor whose suffix fits the capacity, or at the newest when none fits |
| `Ring.KeptIsSuffix` | crates/server/pty/src/ring.rs:192-224 | what is kept is a suffix of the anchors ever placed, and is over capacity only when one is left |
| `Ring.OverCapacityMeansNoSafeSplit` | crates/server/pty/src/ring.rs:176-224 | a window over capacity has a single anchor and no safe split an interval or more after it |
| `Ring.NewRing` | crates/server/pty/src/ring.rs:44-65 | an explicit capacity above 64 MiB is refused; otherwise an empty ring of the given or default capacity |
| `Ring.ScrollbackRing.constructor` | crates/server/pty/src/ring.rs:44-65 | the interval between anchors is the smaller of the default and the capacity, at least 1; the first anchor is the initial state at 0 |
| `Ring.ScrollbackRing.SetDims` | crates/server/pty/src/ring.rs:86-89 | only the dimensions change |
| `Ring.ScrollbackRing.Push` | crates/server/pty/src/ring.rs:91-101 | the chunk is appended to the history and the ring still refines it: bytes are history[tail..head], anchors are exactly those placement and eviction determine, each with the tracked state at its offset; the tail never moves back |
| `Ring.ScrollbackRing.MaybePlaceAnchor` | crates/server/pty/src/ring.rs:176-190 | adds an anchor at the head exactly at a safe split an interval after the last |
| `Ring.ScrollbackRing.MaybeEvict` | crates/server/pty/src/ring.rs:192-207 | the loop ends, with exactly the anchors that eviction should keep, and the bytes and states still right |
| `Ring.ScrollbackRing.EvictionTarget` | crates/server/pty/src/ring.rs:209-214 | there is a target exactly when a second anchor exists; it is the nearest anchor after the first and lies past the tail and not past the head, so evicting to it frees bytes and stays in the window |
| `Ring.ScrollbackRing.DropStaleAnchors` | crates/server/pty/src/ring.rs:216-224 | drops the one anchor that fell off |
| `Ring.ScrollbackRing.TakeSnapshot` | crates/server/pty/src/ring.rs:103-109 | the whole window with the tracked state at its start |
| `Ring.ScrollbackRing.SnapshotFromAnchor` | crates/server/pty/src/ring.rs:226-237 | the bytes since an anchor, with its state |
| `Ring.ScrollbackRing.SnapshotWithMaxBytes` | crates/server/pty/src/ring.rs:111-130 | at most the given number of bytes, always the last ones of the whole output, with the tracked state just before them; the newest anchor's suffix whenever that fits |
| `Ring.ScrollbackRing.Since` | crates/server/pty/src/ring.rs:133-149 | the output since a sequence number, exactly when that number is in the window |
| `Ring.ScrollbackRing.HistoryPage` | crates/server/pty/src/ring.rs:151-174 | a page is an exact slice of the output, clamped to the window |
| `Paging.PageEndsWhereAsked` | crates/server/pty/src/ring.rs:151-174 | a page ends where it was asked to if and only if that point is inside the window |
| `Paging.PageSize` | crates/server/pty/src/ring.rs:151-174 | a page holds as many bytes as asked for, or all there are before its end |
| `Paging.PagesAreContiguous` | crates/server/pty/src/ring.rs:151-174 | with any pushes between the pages, the pages read backwards are one contiguous slice of the output while the tail has not passed the next request |
| `Paging.PagingRebuildsWindow` | crates/server/pty/src/ring.rs:151-174 | pages of any positive sizes reach the tail within as many pages as there are bytes, hasMore is false on the last page and on none before, and together they are the window |
| `Paging.SnapshotThenSince` | crates/server/pty/src/ring.rs:91-149 | after a snapshot and any pushes, the delta from the snapshot's head succeeds if and only if the tail has not passed that head, and then snapshot and delta together are the output from the snapshot's start on, without gap or repeat |
| `Paging.ProbeMissesOne` | crates/server/pty/src/ring.rs:151-174 | a one-byte page says that more is left if and only if at least two older bytes are retained |
| `Paging.OlderBytesProbe` | crates/server/daemon-core/src/connection.rs:380-417 | whatever is pushed between the snapshot of an open and its one-byte page, the flag is right if and only if it is not the case that the capacity is 1, nothing was pushed and the two kept anchors are the last two places of the output |
| `Paging.ProbeOlderBytes` | crates/server/daemon-core/src/connection.rs:380-417 | the same of every valid ring: snapshot, any pushes, page |
| `Paging.FlagWrongAtCapacityOne` | crates/server/daemon-core/src/connection.rs:407-417 | one byte at a safe split in a ring of capacity 1: one older byte is retained and the flag denies it |
| `Paging.OpenAtCapacityOne` | crates/server/daemon-core/src/connection.rs:380-417 | the run that gets there: a new ring of capacity 1, the letter a, an open |
| `Frames.LiveOutputFrames` | crates/server/daemon-core/src/connection.rs:492-533 | the loop over a broadcast chunk yields the chunk cut into pieces of at most 16 KiB; a chunk longer than its own sequence number is refused |
| `Frames.CutIsExact` | crates/server/daemon-core/src/connection.rs:492-533 | every piece of a chunk is an exact slice of the output at its sequence number, the pieces leave no gap and end with the chunk |
| `Frames.PiecesAreFull` | crates/server/daemon-core/src/connection.rs:492-533 | no frame is empty or larger than 16 KiB, and only the last is smaller |
| `Frames.BytesAfterCut` | crates/server/daemon-core/src/connection.rs:492-574 | gapless frames of which none straddles a cut: those past the cut are exactly the output past the cut |
| `Attach.LagKeeps` | crates/server/daemon-core/src/connection.rs:535-574 | a receiver that overflows loses its oldest chunk: what is left is still exact, in order and on one side of the acknowledged end |
| `Attach.StepKeepsInv` | crates/server/daemon-core/src/connection.rs:124-171 | every step of reader, dispatch loop and forwarders keeps the invariant of all streams, in whatever order the steps come |
| `Attach.RunKeepsInv` | crates/server/daemon-core/src/connection.rs:124-171 | so does every run |
| `Attach.OpenIsExact` | crates/server/daemon-core/src/connection.rs:362-443 | for every interleaving with the reader and every acknowledgement: it is the rendered state of the output at start followed by output[start..end], where start is the newest anchor ever placed if any suffix from an anchor fits 48 KiB, and end if none does; every frame of the stream is an exact slice, in order and wholly on one side of end; without lag, acknowledged bytes and frames past end are together output[start..last], no gap and no repeat |
| `Attach.EmptyOpen` | crates/server/daemon-core/src/connection.rs:380-396 | an acknowledgement carries no output only when there is none since the newest anchor, or more than 48 KiB |
| `Attach.TakeShot` | crates/server/daemon-core/src/connection.rs:380-396 | on any valid ring, bounded snapshot and rendered prefix are the snapshot an open takes of that ring's history |
| `AttachProgress.OpenIsAcknowledged` | crates/server/daemon-core/src/connection.rs:362-443 | an open of a terminal that is there is acknowledged on a stream of its own, up to all that was pushed, and that stream alone is attached |
| `AttachProgress.OpenIsRefused` | crates/server/daemon-core/src/connection.rs:362-401 | an open of a terminal that is not there, or no longer listed, is answered with an error and attaches nothing |
| `AttachProgress.OutputArrives` | crates/server/daemon-core/src/connection.rs:535-574 | from any state within the invariant, forwarding alone brings to the wire all an unlagged stream's terminal has broadcast since the subscription, without a gap |
| `AttachProgress.EveryRunCanDeliver` | crates/server/daemon-core/src/connection.rs:535-574 | so in every run the output of an open terminal can reach the wire |
| `Attach.ReplacedStreamIsSilent` | crates/server/daemon-core/src/connection.rs:362-383 | a step writes no frame of a stream that is not attached, and does not attach it again |
| `Attach.ReplacedStreamStaysSilent` | crates/server/daemon-core/src/connection.rs:362-383 | in every run, once a stream is dropped by the next open, no frame of it is ever written again |
| `Attach.RunOrdersData` | crates/server/daemon-core/src/connection.rs:419-439 | in every run the data of a stream follows its acknowledgement |
| `Replay.ReplayFollows` | crates/shared/proto/src/snapshot.rs:110-124 | any parser that understands the prefix: a terminal given the prefix of a state cut at the parser's start, then the output from there, stays equal to the daemon's tracker up to the title |
| `Replay.CutIsFaithfulExactlyAtGround` | crates/server/pty/src/parser.rs:77-96 | a cut is faithful for every continuation if and only if the parser is at ground there and the prefix carries the state |
| `Replay.SafeSplitInsideSequence` | crates/server/pty/src/parser.rs:77-96 | a line feed inside a control sequence is marked as a safe split though the parser is not at ground |
| `Replay.LexerKeepsFinals` | crates/server/pty/src/parser.rs:162-183 | every designation a byte string can produce is one the prefix can print |
| `Replay.OpenedClientFollowsDaemon` | crates/server/daemon-core/src/connection.rs:362-443 | the whole pipeline, for every interleaving: without lag, and when the snapshot was cut at ground in a restorable state, a fresh client fed the acknowledgement and the frames past its end shows what the daemon tracks, up to the title |
| `ClientStream.AcceptsGapless` | crates/client/client-core/src/session.rs:996-1047 | from where it starts, the client shows exactly the bytes of gapless frames |
| `ClientStream.ClientIsExactWhenNothingOverlaps` | crates/client/client-core/src/session.rs:996-1047 | the client shows exactly the output past the acknowledged end if and only if there is no frame or the frames start there; otherwise it breaks off or repeats bytes |
| `ClientStream.OpenedClientSeesOutputOnce` | crates/server/daemon-core/src/connection.rs:380-439 | of any unlagged stream in any run: the client shows the output past the snapshot exactly once if and only if no frame arrived or all output up to the snapshot had been broadcast when the stream subscribed |
| `ClientStream.OverlapHappens` | crates/server/daemon-core/src/connection.rs:380-439 | a run is given in which a frame at the acknowledged end follows the acknowledgement |
| `ClientStream.ShownIsAccepted` | crates/client/client-core/src/session.rs:996-1047 | the session's handler, given the frames of the active stream one after the other, shows exactly what the check on the frames alone accepts, and ends the connection exactly when that breaks off |
| `ClientStream.SessionSeesOutputOnce` | crates/client/client-core/src/session.rs:830-864 | a session that accepts an acknowledgement of any run and is sent the frames of its stream shows the output past the snapshot exactly once if and only if no frame arrived or all of it had been broadcast at the subscription |
| `Uuid.BytesRoundTrip` | workers/relay-cloudflare/src/index.ts:221-237 | sixteen bytes printed as text are read back, and the text is canonical (RFC 9562, section 4) |
| `Uuid.TextRoundTrip` | workers/relay-cloudflare/src/index.ts:221-237 | canonical text read as bytes is printed back |
| `Uuid.DigitsOfByte` | workers/relay-cloudflare/src/index.ts:221-224 | in the text, byte k is two digits at its place between the hyphens, sixteen times the first plus the second |
| `Uuid.HexDigits` | workers/relay-cloudflare/src/index.ts:221-224 | the digits are 0 to 9 and a to f, in order |
| `RelayCodec.EncodeVarint` | workers/relay-cloudflare/src/index.ts:239-256 | the loop prints the base-128 digits, least significant first, and fails exactly above 2^53 - 1 |
| `RelayCodec.Cursor.ReadVarint` | workers/relay-cloudflare/src/index.ts:300-314 | the loop reads digits as the format says, failing at the end of input or past the shift limit; the cursor moves only by what was read |
| `RelayCodec.Cursor.ReadByteArray` | workers/relay-cloudflare/src/index.ts:316-319 | a length, then that many bytes, or an error |
| `RelayCodec.Cursor.ReadUuid` | workers/relay-cloudflare/src/index.ts:321-327 | an array of exactly sixteen bytes, or an error |
| `RelayCodec.DecodeReason` | workers/relay-cloudflare/src/index.ts:366-383 | tags 0 to 4 are the five fixed reasons; every other tag is a rejection whose text is read |
| `RelayCodec.DecodeControl` | workers/relay-cloudflare/src/index.ts:338-390 | a control frame by its kind; any other kind is an error |
| `RelayCodec.DecodeRelay` | workers/relay-cloudflare/src/index.ts:334-403 | a whole frame; an unknown discriminator is an error |
| `RelayCodec.VarintReadBack` | workers/relay-cloudflare/src/index.ts:239-314 | a printed number is read back at any offset, shift and partial sum, never hitting the shift limit below 2^56 |
| `RelayCodec.VarintRoundTrip` | workers/relay-cloudflare/src/index.ts:239-314 | every safe integer survives the varint form, wherever it stands in a frame |
| `RelayCodec.VarintForm` | workers/relay-cloudflare/src/index.ts:239-256 | numbers below 128 take one byte, others their last seven bits first, marked; 300 is AC 02 |
| `RelayCodec.SentFrames` | workers/relay-cloudflare/src/index.ts:405-466 | the form of each frame the relay sends, discriminator and kind as numbers |
| `RelayCodec.ReasonForms` | workers/relay-cloudflare/src/index.ts:405-421 | the numbers of the close reasons |
| `RelayCodec.ReceivedFrames` | workers/relay-cloudflare/src/index.ts:334-390 | the form of the frames the relay only receives: registration, heartbeat and client request |
| `RelayCodec.ByteArrayRoundTrip` | workers/relay-cloudflare/src/index.ts:258-319 | every byte array survives its form |
| `RelayCodec.UuidRoundTrip` | workers/relay-cloudflare/src/index.ts:235-327 | every canonical identifier survives its form |
| `RelayCodec.ReasonRoundTrip` | workers/relay-cloudflare/src/index.ts:334-421 | every close reason survives its form |
| `RelayCodec.RelayRoundTrip` | workers/relay-cloudflare/src/index.ts:334-466 | with any text codec: decoding any encodable message uses up its whole frame and gives the message back with its text decoded from its encoding |
| `PlatformText.ScalarsRoundTrip` | workers/relay-cloudflare/src/index.ts:262-264 | decoding the UTF-8 form of any scalar values gives them back |
| `PlatformText.TextRoundTrip` | workers/relay-cloudflare/src/index.ts:262-331 | a JavaScript string survives TextEncoder and TextDecoder if and only if it is well-formed and does not begin with U+FEFF |
| `PlatformText.DecodedIsWellFormed` | workers/relay-cloudflare/src/index.ts:329-331 | whatever bytes arrive, the decoded string has no lone surrogate |
| `RelayCodec.PlatformRoundTrip` | workers/relay-cloudflare/src/index.ts:334-466 | on the platform, decoding any encodable message gives it back if and only if the text it carries is well-formed and does not begin with U+FEFF |
| `RelayCodec.RelayedRoundTrip` | workers/relay-cloudflare/src/index.ts:334-466 | a message that came out of a frame survives the next frame if and only if its text does not begin with U+FEFF |
| `RelayCodec.MarkIsDropped` | workers/relay-cloudflare/src/index.ts:405-466 | a rejection with the text U+FEFF `no` is read as `no` |
| `RelayCodec.MarkCanArrive` | workers/relay-cloudflare/src/index.ts:329-390 | such a rejection can reach the worker: a frame is given that decodes to it |
| `RateWindow.RateIsBounded` | workers/relay-cloudflare/src/index.ts:570-582 | on any clock that does not run backwards, a pair passes at most (floor((L - 1) / 1000) + 2) times the limit in any L milliseconds, hence at most twice the limit in any second |
| `RateWindow.TwoBurstsPass` | workers/relay-cloudflare/src/index.ts:570-582 | the bound is met: twice the limit passes within two milliseconds |
| `RateWindow.WindowCountsAccepted` | workers/relay-cloudflare/src/index.ts:570-582 | the counter holds exactly what was let through since the window began, less than a second before |
| `RateWindow.AcceptedIff` | workers/relay-cloudflare/src/index.ts:570-582 | an attempt is let through if and only if it fits what its window has left, counted from the attempts themselves |
| `RelayWorker.RelaySession.RegisteredServerCount` | workers/relay-cloudflare/src/index.ts:521-526 | the number of registered server sockets |
| `RelayWorker.RelaySession.FindRegisteredServer` | workers/relay-cloudflare/src/index.ts:528-540 | the first registered socket of a server id, if any |
| `RelayWorker.RelaySession.ClientsForPair` | workers/relay-cloudflare/src/index.ts:542-547 | the client sockets of a pair, in order |
| `RelayWorker.RelaySession.ClosePair` | workers/relay-cloudflare/src/index.ts:584-607 | the pair leaves the map before anyone is told; then its clients, then its server |
| `RelayWorker.RelaySession.BumpRate` | workers/relay-cloudflare/src/index.ts:570-582 | counts in the window, restarting one a second old, and refuses without counting back |
| `RelayWorker.RelaySession.RegisterServer` | workers/relay-cloudflare/src/index.ts:686-725 | registration with its four refusals in order |
| `RelayWorker.RelaySession.HandleServer` | workers/relay-cloudflare/src/index.ts:727-774 | heartbeats, closes and forwards of a registered server, with their refusals |
| `RelayWorker.RelaySession.PairClient` | workers/relay-cloudflare/src/index.ts:775-828 | a client's first frame: a fresh pair, or a refusal that leaves no pair behind |
| `RelayWorker.RelaySession.HandleClient` | workers/relay-cloudflare/src/index.ts:830-850 | a paired client's bytes: closes are obeyed, everything else is passed on while the server is there |
| `RelayWorker.RelaySession.ForwardToServer` | workers/relay-cloudflare/src/index.ts:852-879 | the payload is counted, queued within the limit, sent and taken off the queue; either refusal closes the pair |
| `RelayWorker.RelaySession.WebSocketMessage` | workers/relay-cloudflare/src/index.ts:684-879 | the handler takes the state machine's step for a binary message |
| `RelayWorker.RelaySession.WebSocketText` | workers/relay-cloudflare/src/index.ts:668-676 | a registered server's ping is answered, any other text closes the socket |
| `RelayWorker.RelaySession.WebSocketClose` | workers/relay-cloudflare/src/index.ts:881-921 | the handler takes the state machine's step for a closed socket |
| `RelayWorker.RelaySession.SweepIdlePairs` | workers/relay-cloudflare/src/index.ts:622-630 | exactly the pairs without recent progress are gone, each closed as `closePair` does with its messages, in whatever order the map is walked; the others are as they were |
| `RelaySafety.StepKeepsInv` | workers/relay-cloudflare/src/index.ts:661-921 | every event keeps: one registered socket per server id, both limits, one client per pair, nothing queued on a live pair, windows that are the fold of their attempts |
| `RelaySafety.RunKeepsInv` | workers/relay-cloudflare/src/index.ts:661-921 | so does every run with fresh pair ids and a clock that does not run backwards |
| `RelaySafety.PairRateIsBounded` | workers/relay-cloudflare/src/index.ts:570-582 | in every such run, the attempts of a pair that are let through obey the rate bound over any interval, both directions together |
| `RelayRate.StepIsMetered` | workers/relay-cloudflare/src/index.ts:661-921 | in every step the payload bytes sent on a pair are at most those of one attempt counted and let through at that time |
| `RelayRate.ForwardedBytesAreBounded` | workers/relay-cloudflare/src/index.ts:570-582 | in every run the payload bytes sent on a pair within any L milliseconds are at most (floor((L - 1) / 1000) + 2) times the limit, and at most twice the limit in a second |
| `RelaySafety.ClosedPairStaysSilent` | workers/relay-cloudflare/src/index.ts:584-607 | once a pair has left the map, no event brings it back or forwards a payload on its id |
| `RelaySafety.ClosedPairStaysSilentForever` | workers/relay-cloudflare/src/index.ts:584-607 | nor does any run of events |
| `RelaySafety.ServerForwards` | workers/relay-cloudflare/src/index.ts:738-774 | a step on a server's message that sends a payload of a pair is that server's DataForward for this pair, counted against its window and within the limit |
| `RelaySafety.ClientForwards` | workers/relay-cloudflare/src/index.ts:830-879 | a step on a client's message that sends a payload sends it on that client's own pair, counted and within the limit |
| `RelaySafety.OneClientPerPair` | workers/relay-cloudflare/src/index.ts:542-547 | a payload from a server reaches at most one client |
| `RelayLaws.ClientPayloadArrives` | workers/relay-cloudflare/src/index.ts:830-879 | a paired client's bytes, if they are no PairClose, the pair is live, its server registered and window and queue have room: exactly one message goes out, to that server, on that pair, with exactly these bytes |
| `RelayLaws.ServerPayloadArrives` | workers/relay-cloudflare/src/index.ts:738-774 | a server's payload for a live pair with room goes, with exactly its bytes, to the pair's client, and nothing else goes out |
| `RelayLaws.UnknownPairIsAnswered` | workers/relay-cloudflare/src/index.ts:743-751 | a payload for a pair that is not live is answered with ClientGone and passed on to nobody |
| `RelayLaws.NoRoomClosesPair` | workers/relay-cloudflare/src/index.ts:852-864 | without room in the window or the queue the pair is closed, and client and server are told which |
| `RelayLaws.RegistrationSucceedsIff` | workers/relay-cloudflare/src/index.ts:686-725 | a first message registers its server if and only if it is a registration for the id of its address, nobody holds that id and there is room; otherwise its socket is shut |
| `RelayLaws.PairingSucceeds` | workers/relay-cloudflare/src/index.ts:784-828 | a client that asks for its registered server while there is room is paired; server and client are told the fresh id |
| `RelayLaws.PairingFails` | workers/relay-cloudflare/src/index.ts:775-803 | otherwise no pair comes about and the socket is shut |
| `RelayLaws.ServerCloses` | workers/relay-cloudflare/src/index.ts:733-736 | a server that closes a live pair: its client is told and shut, and the pair's server is told |
| `RelayLaws.ClientCloses` | workers/relay-cloudflare/src/index.ts:836-841 | a paired client that closes a live pair does the same, for whichever pair it names |
| `RelayLaws.ClientGoneTellsServer` | workers/relay-cloudflare/src/index.ts:909-920 | a paired client that disconnects: its server is told, and the pair is gone |
| `RelayLaws.ServerGoneTellsClients` | workers/relay-cloudflare/src/index.ts:887-907 | a registered server that disconnects: exactly its clients are shut, the paired ones told |
| `RelayLaws.PingsAndHeartbeats` | workers/relay-cloudflare/src/index.ts:668-731 | a registered server's ping is answered and its heartbeat changes nothing; other text shuts the socket |
| `RelayIdle.RunKeepsProgress` | workers/relay-cloudflare/src/index.ts:570-582 | in every run a pair's progress time is when it last let bytes through, or when it began |
| `RelayIdle.SweepClosesStuckPairs` | workers/relay-cloudflare/src/index.ts:622-630 | in every run a sweep closes a pair if and only if it has let nothing through for longer than the idle limit; its clients and server are told, and no other pair is touched |
| `TokenBucket.StepKeepsInv` | crates/relay/relay-core/src/caps.rs:112-211 | every atomic step of every thread keeps: tokens in the bucket, on the way or spent never exceed the budget of the ticks so far |
| `TokenBucket.RunKeepsInv` | crates/relay/relay-core/src/caps.rs:112-211 | so does every interleaving of any number of threads |
| `TokenBucket.RateIsBounded` | crates/relay/relay-core/src/caps.rs:112-211 | after n ticks at most max + floor(n * max / 10) bytes were consumed, the bucket holds at most max, the carry is below 10 and the queue within its limit |
| `TokenBucket.FirstSecondIsGranted` | crates/relay/relay-core/src/caps.rs:112-129 | a full bucket grants its whole second at once |
| `TokenBucket.ConsumeTakesItsBytes` | crates/relay/relay-core/src/caps.rs:112-129 | undisturbed, consuming takes exactly its bytes when the bucket holds them and nothing otherwise |
| `TokenBucket.QueueGoesUpAndDown` | crates/relay/relay-core/src/caps.rs:174-211 | undisturbed, queueing counts exactly the bytes that fit, and taking off lowers the queue by them |
| `TokenBucket.RefillAddsATenth` | crates/relay/relay-core/src/caps.rs:131-172 | undisturbed, a tick adds a tenth of a second's worth, the tenths left over carried on, up to a full bucket |
| `TicketCounter.StepKeepsInv` | crates/relay/relay-core/src/caps.rs:93-102 | every atomic step of adding and dropping tickets keeps the counter equal to the live tickets |
| `TicketCounter.CounterIsLiveTickets` | crates/relay/relay-core/src/caps.rs:221-249 | in every interleaving the counter equals the live tickets and never exceeds the limit, and a refusal was read off a full counter |
| `TicketCounter.TicketsComeAndGo` | crates/relay/relay-core/src/caps.rs:51-102 | undisturbed, a ticket is handed out if and only if one is left, and giving one back frees it |
| `InputBatching.PendingCommands.CoalesceFront` | crates/client/client-core/src/session.rs:1189-1203 | the in-place loop merges the leading run of inputs to one terminal and changes no atom of the interleaving |
| `InputBatching.CoalescingKeepsInterleaving` | crates/client/client-core/src/session.rs:1189-1203 | front coalescing keeps the full interleaving of bytes and commands |
| `InputBatching.CoalescingIsMaximal` | crates/client/client-core/src/session.rs:1189-1203 | coalescing goes on until the first two commands cannot be merged, and leaves all behind them alone |
| `InputBatching.CoalescingKeepsStreams` | crates/client/client-core/src/session.rs:1189-1203 | and so each terminal's bytes and the order of other commands |
| `InputBatching.BatchInputCommand` | crates/client/client-core/src/session.rs:1205-1245 | the loop over arrivals merges what belongs to the first command and defers the rest, until the window closes |
| `InputBatching.BatchingKeepsStreams` | crates/client/client-core/src/session.rs:1205-1245 | for every terminal the bytes typed stay the same in order, and so do all other commands |
| `InputBatching.BatchingMovesKeysUp` | crates/client/client-core/src/session.rs:1234-1238 | exactly what batching does to the interleaving: the bytes of the batched terminal go first, the rest keeps its order |
| `InputBatching.BatchingKeepsInterleavingIff` | crates/client/client-core/src/session.rs:1234-1238 | batching keeps the full interleaving if and only if no byte for the batched terminal arrives behind anything else |
| `InputBatching.KeyOvertakesResize` | crates/client/client-core/src/session.rs:1234-1238 | `a`, a resize, `b`: the daemon gets `ab` before the resize |
| `CommandQueues.SessionStep` | crates/client/client-core/src/session.rs:624-672 | one pass of the connection loop loses, repeats and reorders no session command, whether or not the send works |
| `CommandQueues.KeysStep` | crates/client/client-core/src/session.rs:673-737 | nor any terminal's bytes, nor other terminal commands |
| `CommandQueues.RunKeepsCommands` | crates/client/client-core/src/session.rs:606-737 | over all reconnects: sent, then pending, then queued session commands are the submitted ones in order; bytes done, pending and queued are the bytes typed, per terminal |
| `CommandQueues.EachRequestIsSentOnce` | crates/client/client-core/src/session.rs:624-672 | over all reconnects no request is put on the wire successfully twice |
| `CommandQueues.NextRequestIsSent` | crates/client/client-core/src/session.rs:624-672 | a pass that can send puts the oldest session command not yet sent on the wire |
| `CommandQueues.NextKeysAreSent` | crates/client/client-core/src/session.rs:635-720 | otherwise the next terminal command, with the keys that can join it, is sent if its terminal is open and dropped if not |
| `CommandQueues.WireIsOpenCommands` | crates/client/client-core/src/session.rs:673-737 | over all reconnects the terminal commands on the wire are, in order and each once, those done with whose terminal was open then |
| `CommandQueues.OpenTerminalGetsAll` | crates/client/client-core/src/session.rs:673-737 | while a terminal is open whenever its commands are taken, its bytes sent, pending and queued are the bytes typed |
| `Session.RuntimeState.ClearActive` | crates/client/client-core/src/session.rs:1502-1512 | the active terminal, its handle and its stream go together |
| `Session.RuntimeState.FrameFor` | crates/client/client-core/src/session.rs:1248-1338 | a command gets the next id and its transaction; a terminal command without its handle gets none |
| `Session.ReplySlots.Take` | crates/client/client-core/src/session.rs:75-79 | a slot gives its sender away once, and is empty from then on |
| `Session.RuntimeState.AnswerSlot` | crates/client/client-core/src/session.rs:788-829 | a slot is answered and emptied; an empty one is not answered again |
| `Session.RuntimeState.HandleResponse` | crates/client/client-core/src/session.rs:788-970 | a response settles the request with its id or is a protocol error; an open starts its stream |
| `Session.RuntimeState.HandleStreamData` | crates/client/client-core/src/session.rs:996-1047 | data on an unknown stream, with an offset, or behind the last sequence number is a protocol error; other data is passed on |
| `Session.RuntimeState.FailAllPendingRequests` | crates/client/client-core/src/session.rs:972-994 | every pending request is settled with a failure, each once, in whatever order the table is walked, and nothing stays open |
| `SessionSafety.RunKeepsInv` | crates/client/client-core/src/session.rs:788-1047 | in every run with fewer than 2^32 - 1 requests: each answer goes to the slot of the request it names, once, and fits it in kind and terminal; active terminal, handle and stream agree; what is told of a stream follows its opening and never goes back |
| `SessionSafety.RunIds` | crates/client/client-core/src/session.rs:1248-1338 | the k-th request goes out under id k, or 2^32 - 1 once that is reached |
| `SessionSafety.IdsDistinctIff` | crates/client/client-core/src/session.rs:1248-1338 | the ids of a connection are distinct if and only if it makes at most 2^32 - 1 requests |
| `SessionSafety.SettledStaysSettled` | crates/client/client-core/src/session.rs:788-829 | a settled id stays settled whatever happens |
| `SessionSafety.SecondResponseIsAnError` | crates/client/client-core/src/session.rs:788-970 | once a request has settled, after any further run a response to its id is an error |
| `SessionSafety.AcceptedResponseIsTheLast` | crates/client/client-core/src/session.rs:788-970 | once a response was accepted, after any further run another one for its id ends the connection |
| `SessionSafety.RunKeepsActive` | crates/client/client-core/src/session.rs:1493-1512 | while a connection lives, active terminal, handle and stream agree, however many requests it makes |
| `SessionSafety.UnknownStaysUnknown` | crates/client/client-core/src/session.rs:996-1047 | in every run a stream that is not known stays unknown until an open of it is acknowledged |
| `SessionSafety.DataSurvivedIff` | crates/client/client-core/src/session.rs:996-1047 | in every run, exactly which stream frames a live connection survives |
| `SessionSafety.LateDataEndsConnection` | crates/client/client-core/src/session.rs:1035-1047 | in every run: after the client lets go of the active terminal, a frame of its stream ends the connection, however much later it comes, unless an open of that stream was acknowledged in between |
| `SessionSafety.LateDataHappens` | crates/client/client-core/src/session.rs:1035-1047 | a run that gets there: terminal 0 open on stream 7, terminal 1 asked for, a frame of stream 7 |
| `SessionAnswers.CommandIsPending` | crates/client/client-core/src/session.rs:1113-1338 | in every run a command that is framed is pending under the next id, as what it is |
| `SessionAnswers.OthersAreNotFramed` | crates/client/client-core/src/session.rs:1113-1167 | a terminal command whose terminal is not open is not framed |
| `SessionAnswers.KindsFit` | crates/client/client-core/src/session.rs:788-940 | which response fits which command |
| `SessionAnswers.ResponseAcceptedIff` | crates/client/client-core/src/session.rs:788-970 | in every run a response is accepted if and only if its request is pending and it fits the command that made it |
| `SessionAnswers.AcceptedResponseAnswers` | crates/client/client-core/src/session.rs:788-970 | in every run an accepted response to a request with a slot empties that slot, which was full, with exactly this answer, and settles the request; one without a slot answers nothing |
| `SessionAnswers.ListIsAnswered` | crates/client/client-core/src/session.rs:799-816 | a list of terminals, asked for and received, is answered |
| `SessionAnswers.OtherCommandsKeepTheStream` | crates/client/client-core/src/session.rs:1248-1338 | only opening, and killing the active terminal, lets go of it |
| `SessionAnswers.OnlyOpensOpen` | crates/client/client-core/src/session.rs:788-970 | only the acknowledgement of an open changes what is open, to exactly what it says |
| `Reconnects.StepKeepsInv` | crates/client/client-core/src/session.rs:555-747 | every step, on or between connections, keeps: slots emptied once each, answers that fit commands sent, commands sent in order |
| `Reconnects.SlotsAreAnsweredOnce` | crates/client/client-core/src/session.rs:555-747 | over all connections, whatever ends them, no slot is answered twice, every answer fits a command sent with that slot, and commands go on the wire in the order submitted, the one kept for a retry first |
| `Reconnects.RetryIsUnanswered` | crates/client/client-core/src/session.rs:606-672 | a command kept after a failed send, and one not yet taken, has a slot that is still unanswered |
| `SessionAnswers.AnswersReachTheirSlots` | crates/client/client-core/src/session.rs:788-970 | on whatever connection, an accepted response empties the full slot of its request with exactly this answer |
| `SessionAnswers.NextCommandIsSent` | crates/client/client-core/src/session.rs:624-672 | on whatever connection, a pass that can send puts the oldest command not yet sent on the wire and has it pending |
| `Reconnects.GivingUpFailsAll` | crates/client/client-core/src/session.rs:739-745 | a connection that ends by giving up answers every pending slot |
| `Reconnects.AbandonedStaysUnanswered` | crates/client/client-core/src/session.rs:555-747 | a request that was sent and is pending on no live connection keeps its slot as it is for ever: nothing later answers it |
| `Reconnects.EveryConnectionIsSafe` | crates/client/client-core/src/session.rs:555-747 | each connection of the client, with fewer than 2^32 - 1 requests, keeps everything `SessionSafety.RunKeepsInv` says |
| `ClientDb.LoadFiles` | crates/server/daemon-core/src/client_db.rs:187-201 | the loop refuses a repeated id or key and otherwise builds both indexes |
| `ClientDb.ClientsFile` | crates/server/daemon-core/src/client_db.rs:237-241 | the file lists every record once, sorted by pairing time and id, whatever order the map gives |
| `ClientDb.RevokedFile` | crates/server/daemon-core/src/client_db.rs:243-247 | the file lists every revoked id once, in order |
| `ClientDb.ListingIsUnique` | crates/server/daemon-core/src/client_db.rs:237-241 | there is only one such file: the order is total |
| `ClientDb.LoadedIsConsistent` | crates/server/daemon-core/src/client_db.rs:187-201 | whatever files load, the two indexes are inverse to each other |
| `ClientDb.LoadListing` | crates/server/daemon-core/src/client_db.rs:187-201 | any listing of a consistent state, in whatever order, loads as that state |
| `ClientDb.LoadedIsListed` | crates/server/daemon-core/src/client_db.rs:187-201 | and files that load list exactly what they load as |
| `ClientDb.SaveThenLoad` | crates/server/daemon-core/src/client_db.rs:187-247 | loading what was saved is the identity on consistent states |
| `ClientDb.KeysHaveOneId` | crates/server/daemon-core/src/client_db.rs:219-235 | no public key has two client ids |
| `ClientDb.OpenDatabase` | crates/server/daemon-core/src/client_db.rs:53-84 | opening succeeds exactly when the files load |
| `ClientDb.Database.Add` | crates/server/daemon-core/src/client_db.rs:86-92 | an add succeeds exactly when id and key are new and the write works, and then rewrites the file; otherwise nothing changes |
| `ClientDb.Database.AddOrLookupByPublic` | crates/server/daemon-core/src/client_db.rs:94-112 | a known key keeps the record it was first given; a new one is added; what is returned is what both indexes hold |
| `ClientDb.Database.Revoke` | crates/server/daemon-core/src/client_db.rs:141-151 | an id is revoked in memory and file, or nothing changes; revoking twice is a success without a write |
| `ClientDb.Database.Reload` | crates/server/daemon-core/src/client_db.rs:250-297 | one turn of the reload loop is a whole poll of the step machine |
| `ClientDb.WholePollSaves` | crates/server/daemon-core/src/client_db.rs:250-297 | after an uninterrupted poll memory and files agree if and only if the files load and were changed or already agreed with |
| `ClientDb.RunKeepsConsistent` | crates/server/daemon-core/src/client_db.rs:86-297 | in every interleaving of updates, outside edits and the steps of the reload task, the two indexes stay inverse |
| `ClientDb.UpdateKeepsSaved` | crates/server/daemon-core/src/client_db.rs:86-152 | an update leaves memory and files in agreement |
| `ClientDb.PollsAreInvisibleIff` | crates/server/daemon-core/src/client_db.rs:250-297 | when nobody else edits the files, the reload task never undoes an accepted update if and only if none comes too late: no client is added after a running poll has read the clients, no id revoked after it has read both files |
| `ClientDb.PollsAreInvisible` | crates/server/daemon-core/src/client_db.rs:250-297 | under that condition state and files are those of the updates alone, and stay so when the running poll finishes |
| `ClientDb.TooLateIsLost` | crates/server/daemon-core/src/client_db.rs:250-297 | an update that comes too late is gone from memory as soon as the running poll finishes |
| `ClientDb.KeysKeepTheirIds` | crates/server/daemon-core/src/client_db.rs:86-297 | in every run where none comes too late, keys keep their ids, records stay as added and revoked ids stay revoked |
| `ClientDb.UpdateInsidePollIsLost` | crates/server/daemon-core/src/client_db.rs:250-297 | a run is given in which a successful revocation falls inside a poll and is gone from memory and file for good |

## Left out

- The internals of the escape-sequence library and UTF-8 decoding: `Tracker`, `Ring`, `Attach` and `Replay.ReplayFollows` hold for every deterministic step function; UTF-8 validation is a parameter.
- Replay.OpenedClientFollowsDaemon: is stated for the lexer of `Ecma48`, which covers C0, ESC, CSI and OSC; it swallows DCS, SOS, PM and APC strings, does not decode UTF-8 and has no limit on the number of parameters.
- Attach.OpenIsExact: needs fewer than 2^32 - 1 opens on a connection, because stream ids then stop growing; the claim that nothing is missing is made for receivers that never lagged, the other claims for all.
- SessionSafety.RunKeepsInv: needs fewer than 2^32 - 1 requests and a reply slot of its own for each, as the channel constructors give it; past that, ids repeat and a pending request can be overwritten.
- SessionSafety.SecondResponseIsAnError: has the same bound, for the same reason.
- Reconnects.SlotsAreAnsweredOnce: takes terminal commands as they come, in any order; their own queue is in `CommandQueues`, with the shutdown command. A slot whose connection broke off without failing it is just dropped; what the waiting caller then sees is left to the channel.
- RelayCodec.VarintRoundTrip: does not model the rounding of JavaScript numbers above 2^53; only lengths that no frame can have are affected.
- RelayCodec.UuidRoundTrip: needs a canonical identifier, which every caller passes (a random one, or one just decoded).
- TokenBucket.RateIsBounded: counts a tick from the swap that takes its tenths; a thread may deliver the bytes later.
- RelaySafety.RunKeepsInv: assumes that pair ids are fresh, as random ones are, and a clock that does not run backwards.
- ClientDb.PollsAreInvisibleIff: is about runs in which nobody else edits the files; an edit is meant to replace what memory holds.
- Attach, TokenBucket, TicketCounter, CommandQueues, Reconnects and the polls of ClientDb are state machines on values, one atomic step at a time, rather than classes: tasks, channels, atomics and locks appear as the order of the steps.
- Sequence numbers are unbounded; 2^64 bytes of output are out of reach.
- In the session model the two acknowledgements of input and resize are interchangeable, as in the source.
- The terminal list and information cache of the client, which is only ever written in the code modelled, is left out.
- Notifications of revocations to their watchers, the creation of missing database files and the JSON text of the files are left out; a file is its entries, or nothing when it cannot be read.
- PTY spawning, resizing, killing and waiting, and lock poisoning: operating-system work.
- The handshake, its keys, encryption and resumption: the channel is taken as ordered and reliable until it closes.
- Heartbeats, back-off and endpoint choice of the client, beyond the fact that connections end and start again.
- WebSocket, HTTP, wasm and desktop adapters, authentication headers, configuration, metrics and storage writes of the worker, which are never read back.
- The relay's own pairing and forwarding tasks in Rust, the derived binary codec, and the user interface.
