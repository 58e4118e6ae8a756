# WebLinked: verified core

WebLinked renders a page once and sends it to many outputs at the frame rate.
This project models the parts of it where a mistake corrupts memory, loses a
frame or a sample, or stops a device twice, and proves what they promise.

| files | what they model |
|---|---|
| `SourceTable.dfy`, `SourceSchedule.dfy` | the table of running sources, its two levels of locks, removal and shutdown; the schedules that race |
| `FormatChange.dfy`, `FormatChangeRuns.dfy` | the engine's clock thread, control requests, parking handshake and format change; the runs that break its promise |
| `TickRecord.dfy`, `TickCache.dfy` | the conversions one tick shares between its outputs, and whose frame is in them |
| `AudioRing.dfy`, `AudioRingThreads.dfy` | the lock-free audio ring, by whole calls and by interleaved steps |
| `AudioFifo.dfy` | the overwriting audio buffer |
| `AudioRouter.dfy` | per-output channel maps, gain and delay lines |
| `PlayoutSchedule.dfy`, `RecycleRing.dfy`, `Playout.dfy`, `PlayoutRuns.dfy` | scheduled playback against the card |
| `FrameClock.dfy` | exact rational pacing, and audio per tick |
| `BlitGeometry.dfy`, `BlitBuffers.dfy`, `RotatedBlit.dfy` | the turned, fitted blit |
| `PixelArithmetic.dfy`, `PixelConvert.dfy` | un-premultiply, composite, BGRA to UYVY |
| `Json.dfy`, `JsonParser.dfy`, `JsonPrinter.dfy`, `JsonRoundTrip.dfy` | the JSON parser and printer |
| `Osc.dfy`, `OscCodec.dfy` | the OSC decoder |
| `Basics.dfy`, `Quotients.dfy` | shared arithmetic: ring cells, rows, floor division |

Concurrent code is a step system: one step for each region held under a lock,
each atomic load or store, or each call inside a gate. `Next` says what a step
does, `Run` chains steps in any order, `Inv` is what every step keeps, and the
theorems quantify over every run. Code that changes an object is a class with
the same fields, each method proved against the functions the theorems are
about. `dafny verify dfyconfig.toml` checks everything.

Where the code and its comments or the obvious expectation differ, the code is
kept as it is and the difference is a theorem:

- A value can be handed out twice when `takeAll` falls between a removal's
  retired check and its erase; the window is a little wider, because the swap
  of `takeAll` comes before it retires anything (`HandedOutTwiceIff`,
  `RaceHandsOutTwice`).
- A format change can reopen outputs at a raster the engine no longer has
  (`FormatRightIff`, `StalePreviousBreaksIt`), and enabling an output that a
  change could not stop can feed it while it is open at the old one
  (`EnableRightIff`, `LeftOpenIsFedWrong`). `RasterRightIff` says exactly when a
  run is safe.
- The tick number a format change interrupts is drawn again later, and a
  composite from that turn can then be served for another frame (`StaleIff`,
  `RestartServesStale`).
- A ring can be left full and priming for ever (`TrapIff`, `TrapIsReached`).
- The clock's product leaves 64 bits after 42.7 hours at 59.94, not 292 years
  (`FractionalRatesFit`), and a jump lands in the future only when the
  rounding of the rate puts it there (`JumpLandsByNowIff`,
  `JumpCanLandInThePast`).
- A frame the schedule has checked can still be late if a boundary comes before
  it is handed over (`OnTimeIffAhead`, `SlowHandOverIsLate`).
- A channel map shorter than the source can be taken for the identity
  (`IdentityIff`, `ShortMapIsTakenForIdentity`).
- OSC blobs whose size is a multiple of four are skipped four bytes too far
  (`MessageRoundTripsIff`, `BadBlobLosesMessage`, `LaterBlobCanHideIt`).

## Model

| member | source | states |
|---|---|---|
| `SourceTable.HandedBackIsIdle` | src/core/source_table.h:66-158 | over every interleaving of lock-sized steps, an entry handed back to be stopped, by remove() or as one of takeAll()'s idle ones, has no call inside it, and none ever enters it again |
| `SourceTable.IdsUniqueAndOneRemover` | src/core/source_table.h:52-158 | in every reachable state ids are unique and the table keeps insertion order; two owners of one closing entry exist only when takeAll() has retired it, and never two erasers |
| `SourceSchedule.HandedOutTwiceIff` | src/core/source_table.h:97-158 | over every run, once no takeAll() is running: an entry has been handed out twice, by remove() and by takeAll(), exactly when a takeAll() swapped it away before the erase of a removal whose check had found it not yet retired; otherwise at most once |
| `SourceTable.HandedOutOnceUnlessRaced` | src/core/source_table.h:97-158 | at any moment of any run, an entry is handed out more than once only if an erase found it already taken |
| `SourceTable.NoTakeAllNoRace` | src/core/source_table.h:97-130 | without takeAll() in the run no erase is ever raced |
| `SourceTable.RaceHandsOutTwice` | src/core/source_table.h:107-150 | a run in which takeAll() swaps the list before the retired check and retires the entry after the erase: remove() and takeAll() both hand out the one entry |
| `SourceTable.BusyChangesNothing` | src/core/source_table.h:110-112 | a removal that reports busy leaves an entry no takeAll() has taken in the table, open again, with no owner |
| `SourceTable.StepKeeps` | src/core/source_table.h:52-158 | every locked region of every operation keeps the table invariant |
| `SourceTable.RunKeeps` | src/core/source_table.h:52-158 | so does every run |
| `SourceTable.WithKeeps` | src/core/source_table.h:66-81 | each step of with() keeps it: the count of callers inside an entry is exactly the threads inside it |
| `SourceTable.ForEachKeeps` | src/core/source_table.h:85-93 | each step of forEach() keeps it, over a snapshot other threads may have emptied |
| `SourceTable.TakeStepKeeps` | src/core/source_table.h:142-158 | each retire, close and expiry of takeAll() keeps it |
| `SourceTable.EraseKeeps` | src/core/source_table.h:121-129 | the erase keeps it, raced or not |
| `SourceTable.InsertKeeps` | src/core/source_table.h:52-62 | insert() keeps it, present id or not |
| `SourceTable.TableEntry.Enter` | src/core/source_table.h:199-206 | enters exactly when not closing, and is counted |
| `SourceTable.TableEntry.Leave` | src/core/source_table.h:207-213 | one caller fewer, nothing else |
| `SourceTable.TableEntry.Close` | src/core/source_table.h:217-226 | closes, or refuses an entry another removal is closing; says whether it has to wait |
| `SourceTable.TableEntry.Reopen` | src/core/source_table.h:227-232 | reopens unless retired |
| `SourceTable.TableEntry.MarkRetired` | src/core/source_table.h:239-242 | retired for good |
| `SourceTable.EntryList.FindLocked` | src/core/source_table.h:254-261 | the first entry with the id, or none |
| `SourceTable.EntryList.Insert` | src/core/source_table.h:52-62 | appends a fresh entry exactly when the id is absent; ids stay unique |
| `SourceTable.EntryList.Erase` | src/core/source_table.h:121-125 | the list without the entry, in order |
| `SourceTable.EntryList.Swap` | src/core/source_table.h:143-147 | hands the whole list over and leaves it empty |
| `FormatChange.LayoutNeverWrong` | src/engine/engine.cpp:498-607 | in every run, no output is handed pixels of another layout than its own, nor a frame converted in a buffer of another raster |
| `FormatChange.RasterRightIff` | src/engine/engine.cpp:388-1397 | over every run, each output that is fed or about to be called is open at the engine's format throughout exactly when no step enables one that start() left open elsewhere, feeds ones reopened elsewhere, or reopens elsewhere one the tick under way still has to call |
| `FormatChange.RasterNeverWrong` | src/engine/engine.cpp:498-607 | in every such run no output is submitted a frame of another raster than it was opened at, and every enabled output is open at the engine's format |
| `FormatChange.EnableRightIff` | src/engine/engine.cpp:834-919 | a request to enable an output that succeeds, whatever the clock does meanwhile, leaves it fed and open at the engine's format exactly unless, when it was taken off the queue, the output was running at another and was enabled already or is one that start() does not reopen |
| `FormatChange.FormatRightIff` | src/engine/engine.cpp:1233-1397 | a whole format change, from the queue to its feed, whatever happens meanwhile: every output it feeds is open, and at the engine's format exactly when the clock parked for it or its `previous` was the engine's format when it was taken off the queue |
| `FormatChangeRuns.StalePreviousBreaksIt` | src/engine/engine.cpp:1240-1330 | a run of two format changes asked for together, the second falling back to the `previous` it read before the first ran: a frame of the new raster reaches an output opened at the old one |
| `FormatChangeRuns.LeftOpenIsFedWrong` | src/engine/engine.cpp:868-919 | a run in which the clock does park: an output that start() does not reopen while it runs (src/outputs/screen_output.cpp:22-25, shared_output.cpp:20-23, kms_output.cpp:251-254) is busy when a change wants to stop it, is passed over, is enabled again, and gets a frame of the new raster while open at the old one |
| `FormatChange.StepKeeps` | src/engine/engine.cpp:388-607 | every planned tick, parking step, control step and gated call keeps the protocol invariant |
| `FormatChange.RunKeeps` | src/engine/engine.cpp:388-1397 | so does every run |
| `FormatChange.ClockStepKeeps` | src/engine/engine.cpp:406-607 | the clock's steps: park, read the paint, plan under the lock, call each slot by generation |
| `FormatChange.WorkKeeps` | src/engine/engine.cpp:865-882 | what a control request does inside a slot's gate keeps it: start, which leaves a running output of some kinds as it is, stop, replace |
| `FormatChange.HandshakeKeeps` | src/engine/engine.cpp:388-404 | parking, giving up after the wait, the swap of format and pools, and resuming keep it |
| `FormatChange.FeedEntry` | src/engine/engine.cpp:1351-1386 | which entries step 4 enables: those stopped, wanted and started, and no other |
| `TickRecord.StaleIff` | src/engine/engine.cpp:339-364 | over every run of the clock, what is served for a composite is of another turn's frame exactly when one computed in the turn of the last format change, this or the one it is converted from, is still held with the number drawn again: the colour kept by every turn since and the composite computed by none |
| `TickRecord.CarriedIff` | src/engine/engine.cpp:366-386 | the same for one composite: the number it is stamped with is drawn again only if it was computed in the turn the format changed in |
| `TickCache.FreshIsDirect` | src/engine/engine.cpp:575-593 | otherwise every target is sent what converting this turn's frame for it alone would give, with a matrix loaded this turn |
| `TickRecord.OnceAChange` | src/engine/engine.cpp:406-427 | a format change lets at most one later turn serve what it left behind |
| `TickCache.RestartServesStale` | src/engine/engine.cpp:413-427 | a cache driven through a change in the turn that drew 2 and a restarted clock that draws 2 again: the second turn sends the first one's frame |
| `TickCache.Cache.FormatChanged` | src/engine/engine.cpp:1303-1323 | every composite is forgotten; the number already drawn stays |
| `TickCache.Cache.SkipTurn` | src/engine/engine.cpp:498-524 | a frame of another raster ends the turn before it touches a composite |
| `TickCache.Cache.BeginTurn` | src/engine/engine.cpp:549-555 | only the variants of colours still wanted are kept, whatever number was drawn |
| `TickCache.Cache.BackgroundVariant` | src/engine/engine.cpp:325-337 | one variant a colour, found or added |
| `TickCache.Cache.CompositedBgra` | src/engine/engine.cpp:339-364 | the composite held if it carries this number, else this frame's, computed now; nothing for a frame of another raster |
| `TickCache.Cache.CompositedUyvy` | src/engine/engine.cpp:366-386 | the conversion held if it carries this number, else of that composite, with a matrix loaded by the turn that made it |
| `TickCache.Cache.Converted` | src/engine/engine.cpp:372-385 | the conversion of the composite just answered, held or made now |
| `TickCache.Cache.Wants` | src/engine/engine.cpp:532-547 | which shared conversions and colours the targets need |
| `TickCache.Cache.Payload` | src/engine/engine.cpp:575-593 | one target is sent the direct conversion of the frame the record names |
| `TickCache.Cache.Serve` | src/engine/engine.cpp:526-607 | a whole turn at any number: every target is sent the direct conversion of the frame the record names or, exactly when the raster is stale, nothing; no (colour, layout) is computed twice, nor when what is held carries the number |
| `TickRecord.AskedStays` | src/engine/engine.cpp:339-386 | what a turn has answered for a composite it answers the same for the rest of the turn |
| `AudioRing.Ring.Configure` | src/core/audio_ring.cpp:8-25 | sizes the ring, with the target at most half of it, empty and priming |
| `AudioRing.Ring.Reset` | src/core/audio_ring.cpp:27-32 | empty, silent and priming |
| `AudioRing.Ring.Write` | src/core/audio_ring.cpp:40-78 | accepts what fits, in order, after what was there; counts an overrun; ends priming at the target |
| `AudioRing.Ring.CopyAll` | src/core/audio_ring.cpp:58-68 | two copies put the accepted frames in their cells and disturb none unread |
| `AudioRing.Ring.Read` | src/core/audio_ring.cpp:80-137 | delivers the oldest frames after any resync, then silence, writing exactly the frames asked for |
| `AudioRing.Ring.Play` | src/core/audio_ring.cpp:94-136 | the level, cursor and counters after a read that is not priming |
| `AudioRing.Ring.PlayOut` | src/core/audio_ring.cpp:111-121 | two copies deliver the stream from the cursor |
| `AudioRing.PrimingHasRoom` | src/core/audio_ring.cpp:40-137 | with whole calls as steps, priming means fewer than the target buffered, or none: a write always has room |
| `AudioRing.SilenceEnds` | src/core/audio_ring.cpp:73-76 | unless the ring is full, writes alone end the priming exactly when they reach the target |
| `AudioRing.StaysAwake` | src/core/audio_ring.cpp:73-76 | writes alone never start it again |
| `AudioRing.FullAndPrimingIsForever` | src/core/audio_ring.cpp:54-56 | a ring full and still priming never plays again |
| `AudioRingThreads.NeverOverlap` | src/core/audio_ring.cpp:46-135 | with the two threads interleaved at every load, cell and store, read <= write <= read + capacity and the cell being written is none still to be read |
| `AudioRingThreads.HeardIsTheStream` | src/core/audio_ring.cpp:40-137 | what is delivered is the accepted stream in order, with gaps only at counted resyncs; at rest accepted = delivered + skipped + buffered |
| `AudioRingThreads.TrapIff` | src/core/audio_ring.cpp:40-137 | over every interleaving, with both threads at rest, the ring is full and priming exactly when the last read to run out had loaded an empty ring and a whole ring was published, its checks of the priming done, before that read stored the priming |
| `AudioRingThreads.SilenceEndsIff` | src/core/audio_ring.cpp:73-76 | in every other case whole writes end the silence exactly when they have brought the ring to its target |
| `AudioRingThreads.SilenceStep` | src/core/audio_ring.cpp:40-137 | every step of either thread keeps what the two theorems rest on: while priming, the reader stands where the last read to run out left it and the frames checked since are below the target |
| `AudioRingThreads.TrapIsReached` | src/core/audio_ring.cpp:132 | a run in which a whole ring written inside one read of an empty one leaves it full and priming |
| `AudioRingThreads.StepKeeps` | src/core/audio_ring.cpp:40-137 | every step of either thread keeps the invariant |
| `AudioRingThreads.RunKeeps` | src/core/audio_ring.cpp:40-137 | so does every run |
| `AudioFifo.Fifo.Configure` | src/core/audio_fifo.cpp:10-21 | silent planes of the capacity, empty |
| `AudioFifo.Fifo.Write` | src/core/audio_fifo.cpp:33-86 | each channel holds the newest `capacity` frames of what it held and the packet, whatever the packet's size; overruns counted; written = read + discarded + buffered |
| `AudioFifo.Fifo.CopyPlanes` | src/core/audio_fifo.cpp:55-68 | the chunked copies put every channel's newest frames in place |
| `AudioFifo.Fifo.MoveCursors` | src/core/audio_fifo.cpp:70-81 | the cursors after a write, the read cursor moved to the oldest surviving frame |
| `AudioFifo.Fifo.ReadInterleaved` | src/core/audio_fifo.cpp:95-124 | the oldest frames, frame-major, then silence; consumed from every channel |
| `AudioFifo.Fifo.ReadPlanar` | src/core/audio_fifo.cpp:126-161 | the same frames channel by channel |
| `AudioFifo.Fifo.Reset` | src/core/audio_fifo.cpp:168-176 | empty and silent |
| `AudioFifo.NewestOfNewest` | src/core/audio_fifo.cpp:42-81 | keeping the newest of each packet in turn is keeping the newest of them all |
| `AudioFifo.NewestOfTail` | src/core/audio_fifo.cpp:42-49 | an oversize packet's head never matters |
| `AudioFifo.HeardSplit` | src/core/audio_fifo.cpp:104-123 | two reads give what one read of both would: silence only after the last real frame |
| `FrameClock.Clock.constructor` | src/core/frame_clock.cpp:40 | anchored at tick 0 |
| `FrameClock.Clock.Start` | src/core/frame_clock.cpp:49-54 | tick 0 again, counters cleared |
| `FrameClock.Clock.SetRate` | src/core/frame_clock.cpp:42-47 | a new rate starts again at tick 0 |
| `FrameClock.Clock.WaitForNextTick` | src/core/frame_clock.cpp:69-93 | over every run ticks strictly increase and the next tick is the calls made plus the ticks dropped; how long is slept and how late is reported |
| `FrameClock.JumpLands` | src/core/frame_clock.cpp:76-83 | a call more than a period late skips at least one tick and lands less than a period behind now; any other skips none |
| `FrameClock.JumpLandsByNowIff` | src/core/frame_clock.cpp:76-83 | a call that jumps lands at or before now exactly when what the fractions of the skipped ticks gather fits in the part of a period it is late beyond them |
| `FrameClock.WholePeriodsLandByNow` | src/core/frame_clock.cpp:76-83 | always so when the numerator divides a second times the denominator |
| `FrameClock.SkipLandsByNowIff` | src/core/frame_clock.cpp:76-83 | at any rate, a skip does so whatever the lateness exactly when it is of one tick or its fractions gather nothing |
| `FrameClock.JumpCanLandInThePast` | src/core/frame_clock.cpp:76-83 | at 25 frames a second a call 100 ms late lands on the deadline at 80 ms |
| `FrameClock.RestartRepeats` | src/core/frame_clock.cpp:42-54 | a clock just started again can draw any number from 2 on for its first tick |
| `FrameClock.AbandonedHadPassedIff` | src/core/frame_clock.cpp:76-83 | every abandoned deadline had passed exactly when what the fractions of all but the last gather fits in the lateness beyond them |
| `FrameClock.AbandonedHadPassed` | src/core/frame_clock.cpp:76-83 | so while at most a period's worth of ticks and one more is skipped, every one had |
| `FrameClock.LongSkipsOvershoot` | src/core/frame_clock.cpp:76-83 | past that one need not have: a concrete rate and lateness |
| `FrameClock.NoDrift` | src/core/frame_clock.cpp:56-62 | `numerator` ticks take exactly `denominator` seconds, from any tick, for ever |
| `FrameClock.RoundedPeriodDrifts` | src/core/frame_clock.cpp:56-62 | adding the rounded period instead is early by less than a nanosecond a tick |
| `FrameClock.ProductFits` | src/core/frame_clock.cpp:60-61 | the product stays within 64 bits exactly up to a given tick |
| `FrameClock.FractionalRatesFit` | src/core/frame_clock.cpp:60-61 | at the 1001 rates that is tick 9,214,157 |
| `FrameClock.AudioTelescopes` | src/engine/engine.cpp:262-277 | over any consecutive ticks the audio is the difference of two floors |
| `FrameClock.AudioShare` | src/engine/engine.cpp:262-277 | each tick carries the floor or the ceiling of the exact share |
| `PlayoutSchedule.Schedule.constructor` | src/core/playout_schedule.cpp:7-11 | every constant at least 1 |
| `PlayoutSchedule.Schedule.Reanchor` | src/core/playout_schedule.cpp:13-36 | the new index, the slots skipped and the counters |
| `PlayoutSchedule.Schedule.SamplePosition` | src/core/playout_schedule.cpp:38-47 | exactly floor(index * duration * rate / scale) |
| `PlayoutSchedule.SplitMultiply` | src/core/playout_schedule.cpp:39-46 | the split multiply is the exact floor and its remainder product stays below scale * rate |
| `PlayoutSchedule.ActsForward` | src/core/playout_schedule.cpp:29-31 | a check that finds the schedule behind always skips a slot: this early return is unreachable |
| `PlayoutSchedule.CheckEstablishes` | src/core/playout_schedule.cpp:13-36 | the next frame is ahead by the margin, never earlier than it was; idempotent; a move lands the preroll after the first whole frame at or after the playhead |
| `PlayoutSchedule.CheckOnFrame` | src/core/playout_schedule.cpp:18-21 | with the playhead on a frame, a check moves exactly when that frame has been reached |
| `RecycleRing.Recycler.Add` | src/core/recycle_ring.h:35-38 | one more free object |
| `RecycleRing.Recycler.Acquire` | src/core/recycle_ring.h:42-55 | the first free object, now out; a counted miss; or nothing when closed |
| `RecycleRing.Recycler.Release` | src/core/recycle_ring.h:64-81 | the object back, or refused and counted: closed, a stranger, or already free |
| `RecycleRing.Recycler.Close` | src/core/recycle_ring.h:86-103 | every object once, how many were out, and nothing handed out again |
| `RecycleRing.Recycler.FreeCount` | src/core/recycle_ring.h:110-119 | the objects not out |
| `RecycleRing.AcquireRelease` | src/core/recycle_ring.h:42-81 | a hand-out and its return leave the ring as it was; until then nobody else is given the object, and a second return is refused |
| `Playout.FakeCard.ScheduleVideoFrame` | tools/dl_fake_card.cpp:436-457 | queued in slot order |
| `Playout.FakeCard.FrameBoundary` | tools/dl_fake_card.cpp:545-574 | the least late due frame goes on air, those it overtook are dropped, the one before completes |
| `Playout.FakeCard.DisableVideoOutput` | tools/dl_fake_card.cpp:356-376 | everything queued is flushed and the frame on air completes |
| `Playout.OnTimeIffAhead` | src/outputs/decklink_output.cpp:1157-1172 | over every interleaving of output, card and completions, a frame is shown at exactly its own boundary if and only if its slot was still ahead of the card when handed over; any other is late or dropped |
| `Playout.PromptIsNeverLate` | src/core/playout_schedule.cpp:13-36 | when no boundary comes between an answered check and its hand-over, no frame is ever late or dropped or reported so, and every queued frame is ahead of the playhead |
| `Playout.SlowHandOverIsLate` | src/outputs/decklink_output.cpp:1157-1172 | one boundary between the check and the hand-over can make the frame late: it is shown a boundary after its slot |
| `PlayoutRuns.SecondFrameIsLate` | src/outputs/decklink_output.cpp:1157-1172 | a run from the beginning, with a preroll of one, in which that happens to the second frame |
| `Playout.SlotsAreNew` | tools/dl_fake_card.cpp:444-446 | no slot is ever scheduled twice |
| `Playout.FramesAreNeverShared` | src/core/recycle_ring.h:42-81 | no frame is with the writer and the card, or twice with the card; the ring never hands one out that is, and never refuses one that comes back |
| `Playout.StopReturnsEverything` | src/outputs/decklink_output.cpp:533-562 | once stopped and delivered, nothing is outstanding when the ring closes |
| `Playout.MovesIffDebt` | src/core/playout_schedule.cpp:13-36 | a check moves the schedule exactly when boundaries since the last re-anchor outnumber frames accepted since by the preroll or more |
| `Playout.OneStallOneReanchor` | src/core/playout_schedule.cpp:13-36 | over any run the schedule moves again if and only if some check finds that debt |
| `Playout.StepKeeps` | src/outputs/decklink_output.cpp:564-622 | every step keeps where frames are and what slots are for |
| `Playout.RunKeeps` | src/outputs/decklink_output.cpp:564-622 | so does every run |
| `Playout.BoundaryKeepsFrames` | tools/dl_fake_card.cpp:545-574 | a boundary neither loses nor makes a frame |
| `BlitGeometry.PlacementFits` | src/core/rotated_blit.cpp:82-99 | a fitted picture lies inside the display, a filling one covers it, both touch an edge pair and keep their proportions to half a pixel |
| `BlitGeometry.PlacementCentred` | src/core/rotated_blit.cpp:100-108 | opposite bars differ by at most a pixel under truncating division; what is visible |
| `BlitGeometry.SampleInRange` | src/core/rotated_blit.cpp:113-120 | a sample is in range on its own: the minimum never acts |
| `BlitGeometry.TablesMonotone` | src/core/rotated_blit.cpp:113-120 | both tables are in range and never go back |
| `BlitGeometry.SampleExact` | src/core/rotated_blit.cpp:113-116 | at 1:1 every place shows its own pixel |
| `BlitGeometry.SourceInRange` | src/core/rotated_blit.cpp:151-161 | for all four rotations a turned position is a pixel of the source |
| `BlitGeometry.OneToOneShowsAll` | src/core/rotated_blit.cpp:82-121 | with equal rasters every fit covers the display exactly |
| `BlitBuffers.BarsAndPicture` | src/core/rotated_blit.cpp:121-132 | clearBars and blit partition the display: every pixel is its source pixel or black, and no byte between or after the rows changes |
| `BlitBuffers.TurnAndBack` | src/core/rotated_blit.cpp:151-161 | at 1:1 a turn and the turn back, through a buffer of any stride, give the original picture (90 then 270 among them) |
| `BlitBuffers.Separable` | src/core/rotated_blit.cpp:151-190 | a source address is a part of the column plus a part of the row, for every rotation |
| `BlitBuffers.UprightIsOneRun` | src/core/rotated_blit.cpp:140-149 | upright at its own size, a row of the picture is one run of the source |
| `BlitBuffers.DrawnBoth` | src/core/rotated_blit.cpp:192-206 | drawing one rectangle and then its neighbour draws both and nothing else |
| `RotatedBlit.Blit.Configure` | src/core/rotated_blit.cpp:59-118 | every field and both tables are those of the geometry |
| `RotatedBlit.Blit.ClearBars` | src/core/rotated_blit.cpp:121-132 | black in every display pixel outside the picture, nothing else touched |
| `RotatedBlit.Blit.DrawFrame` | src/core/rotated_blit.cpp:134-207 | every visible pixel equals its directly specified source pixel and no other byte changes, any strides, by either path |
| `RotatedBlit.CopyRows` | src/core/rotated_blit.cpp:140-149 | the straight copy draws the same picture |
| `RotatedBlit.DrawTiles` | src/core/rotated_blit.cpp:192-206 | the tiles, with any remainders, draw the same picture |
| `RotatedBlit.Blit.Offsets` | src/core/rotated_blit.cpp:166-190 | the two offset tables add up to every source address |
| `PixelArithmetic.StraightRoundTrip` | src/core/pixel_convert.cpp:116-158 | un-premultiplying and multiplying back with rounding returns every p <= alpha exactly, and the minimum never acts |
| `PixelArithmetic.ProductFits` | src/core/pixel_convert.cpp:122-150 | the reciprocal product never exceeds 32 bits |
| `PixelArithmetic.RecoveredClose` | src/core/pixel_convert.cpp:148-150 | the recovered colour is within half a step once multiplied back |
| `PixelArithmetic.OverIsGeneral` | src/core/pixel_convert.cpp:166-192 | for p <= alpha the composite needs no clamp and both fast paths are the general formula |
| `PixelArithmetic.OverNeedsPremultiplied` | src/core/pixel_convert.cpp:170-192 | without that, pixels for which the clamp acts or a fast path differs |
| `PixelArithmetic.StudioRange` | src/core/pixel_convert.cpp:80-98 | luma and chroma are in studio range: no clamp of the UYVY conversion ever acts |
| `PixelArithmetic.GreyIsNeutral` | src/core/pixel_convert.cpp:28-43 | grey is never tinted; black and white are the ends of the range |
| `PixelArithmetic.LumaMonotone` | src/core/pixel_convert.cpp:80-84 | brighter is never darker in luma |
| `PixelConvert.UnpremultiplyBgra` | src/core/pixel_convert.cpp:116-158 | every pixel of a strided buffer is its own pixel made straight, and nothing else changes |
| `PixelConvert.CompositeOverBgra` | src/core/pixel_convert.cpp:160-197 | likewise over a background |
| `PixelConvert.BgraToUyvy` | src/core/pixel_convert.cpp:63-102 | likewise in pairs; an odd last column is left alone |
| `PixelConvert.BufferRoundTrip` | src/core/pixel_convert.cpp:116-158 | a whole buffer of premultiplied pixels survives, whatever the strides |
| `PixelConvert.BufferOver` | src/core/pixel_convert.cpp:160-197 | over a whole buffer the composite is the unclamped `over`, opaque |
| `PixelConvert.BufferUyvy` | src/core/pixel_convert.cpp:63-102 | over a whole buffer the bytes are the matrix's own values; grey pairs are neutral |
| `AudioRouter.Router.constructor` | src/core/audio_route.cpp:166-173 | nothing prepared |
| `AudioRouter.Router.Configure` | src/core/audio_route.cpp:166-173 | the new route, to be prepared again |
| `AudioRouter.Router.Reset` | src/core/audio_route.cpp:175-180 | every line silent at its length |
| `AudioRouter.Router.Prepare` | src/core/audio_route.cpp:182-197 | the lines as they were for the same shape, silent ones of the exact delay for another |
| `AudioRouter.Router.DelayBlock` | src/core/audio_route.cpp:242-260 | every channel's block goes through its line: out comes what was held, then the block |
| `AudioRouter.Router.Apply` | src/core/audio_route.cpp:199-275 | the block itself when invalid or identity; else each channel routed and delayed, with the interleaved copy agreeing |
| `AudioRouter.SplitIsWhole` | src/core/audio_route.cpp:242-260 | however a stream is cut into blocks, each channel comes out as the whole stream routed at once |
| `AudioRouter.ShiftedByTheDelay` | src/core/audio_route.cpp:188-196 | from silence that is the routed stream behind exactly the delay of silence |
| `AudioRouter.IdentityIff` | src/core/audio_route.cpp:151-164 | the identity shortcut is right for every block exactly when the map is empty or names every channel |
| `AudioRouter.ShortMapIsTakenForIdentity` | src/core/audio_route.cpp:220-231 | a shorter map the shortcut gets wrong |
| `Osc.ReadStringAt` | src/control/osc_server.cpp:43-63 | the text to its NUL, its padding skipped, refused when unterminated or cut short |
| `Osc.ReadInt32At` | src/control/osc_server.cpp:65-74 | four bytes, big-endian and signed |
| `Osc.ReadArgAt` | src/control/osc_server.cpp:135-183 | one argument of every tag, its value and where the next starts, every read in bounds |
| `Osc.DecodePacket` | src/control/osc_server.cpp:91-189 | for arbitrary bytes terminates and calls the handler with exactly what the specification reads |
| `Osc.DecodeBundle` | src/control/osc_server.cpp:98-115 | the elements in order, until one has a size that cannot be right |
| `OscCodec.PacketRoundTrip` | src/control/osc_server.cpp:91-189 | any tree of messages and nested bundles without a blob whose size is a multiple of four decodes to its messages in order, arguments grouped by type |
| `OscCodec.BundlesFlatten` | src/control/osc_server.cpp:97-115 | any tree decodes to what each message decodes to alone, in order, whatever becomes of its neighbours |
| `OscCodec.MessageRoundTripsIff` | src/control/osc_server.cpp:164-173 | any message survives exactly when no blob's size is a multiple of four, or what follows the first such blob reads the same from four bytes further on |
| `OscCodec.BadBlobLosesMessage` | src/control/osc_server.cpp:164-173 | with no blob after a bad one, exactly when there is no bad one |
| `OscCodec.LaterBlobCanHideIt` | src/control/osc_server.cpp:164-173 | with a later blob a bad message can decode as it was meant all the same |
| `OscCodec.OvershootLosesMessage` | src/control/osc_server.cpp:170-171 | arguments without a blob never read the same from four bytes further on: four are missing at the end |
| `OscCodec.ReadStringBack` | src/control/osc_server.cpp:38-63 | every string without a NUL reads back, its padding exactly consumed |
| `OscCodec.ReadBlobBack` | src/control/osc_server.cpp:164-173 | a blob is skipped exactly, or four bytes too far when its size is a multiple of four |
| `Json.SetThenGet` | src/core/json.cpp:435-464 | set() changes only its own key, in place, and keeps keys unique |
| `JsonParser.SetMember` | src/core/json.cpp:435-447 | replaces in place or appends |
| `JsonParser.Parser.SkipWhitespace` | src/core/json.cpp:92-101 | the cursor moves past exactly the white space |
| `JsonParser.Parser.TakeChars` | src/core/json.cpp:230-283 | a string's bytes to its closing quote, escapes decoded |
| `JsonParser.Parser.TakeEscape` | src/core/json.cpp:241-280 | one escape decoded, and its length |
| `JsonParser.Parser.TakeUnicode` | src/core/json.cpp:257-277 | one code unit or the surrogate pair it starts, with the cursor put back when there is none |
| `JsonParser.Parser.TakeHex4` | src/core/json.cpp:285-304 | four hex digits, or refused |
| `JsonParser.Parser.TakeNumber` | src/core/json.cpp:324-356 | the longest number, refused without a digit before its exponent |
| `JsonParser.Parser.TakeValue` | src/core/json.cpp:120-128 | one value, or refused when too deep; the depth restored |
| `JsonParser.Parser.TakeObject` | src/core/json.cpp:164-200 | members in order, later duplicates replacing |
| `JsonParser.Parser.TakeArray` | src/core/json.cpp:202-228 | elements in order |
| `JsonParser.Parser.ParseAll` | src/core/json.cpp:64-83 | for every input terminates with exactly the specified value, or refuses trailing text |
| `JsonPrinter.Printer.AppendEscaped` | src/core/json.cpp:17-44 | the escaped string after what was there |
| `JsonPrinter.Printer.AppendNumber` | src/core/json.cpp:46-58 | whole numbers below 10^15 as integers, any other as the fractional printer gives it |
| `JsonPrinter.Printer.SerializeInto` | src/core/json.cpp:472-525 | the value printed after what was there, compact or indented |
| `JsonRoundTrip.RoundTrip` | src/core/json.cpp:472-532 | parse(serialize(v, pretty)) == v in both layouts for unique keys, any bytes and whole numbers below 10^15, exactly up to 64 deep; deeper is refused |
| `JsonRoundTrip.ValueBack` | src/core/json.cpp:120-162 | wherever a value stands, it is read back whole with what follows it left alone |
| `JsonRoundTrip.StringBack` | src/core/json.cpp:17-44 | any bytes at all survive a string |
| `JsonRoundTrip.NumberBack` | src/core/json.cpp:46-54 | any integer survives |
| `JsonRoundTrip.PairBack` | src/core/json.cpp:262-277 | a surrogate pair is read as the UTF-8 of its code point (section 7 of RFC 8259) |
| `JsonRoundTrip.Utf8Back` | src/core/json.cpp:306-322 | every code point has its own UTF-8 |

## Left out

Everywhere:

- 64-bit counters, cursors and indices are unbounded, and casts to `int` never lose anything, except where a row says otherwise; the bounds are far beyond a show, save for the one `ProductFits` states.
- Atomics are sequentially consistent: memory-order weakness is not modelled.
- Real time: waits, deadlines and timed locks are steps that may or may not happen, or parameters.
- Null pointers passed to `write`, `read` and `apply`, and the text of error messages.

By member:

- FormatChange.RasterRightIff: takes the engine to be running throughout, so `pauseClock` reporting success during shutdown (line 395 of engine.cpp) is not modelled; nor are `setOutputBackground` and the refusal of a clock that has stopped ticking (lines 1252-1259), which change nothing.
- FormatChange.LayoutNeverWrong: the slot is a gate and a generation; `OutputSlot` itself is not modelled.
- FormatChange.WorkKeeps: a failed start leaves the output stopped and open nowhere new; output names are map keys, so their order is not kept.
- TickRecord.StaleIff: that the clock draws rising numbers between format changes is a hypothesis here, which `FrameClock.Clock.WaitForNextTick` proves.
- TickCache.Cache.Serve: frames are values, so the reuse of one scratch buffer by later ticks is not modelled; the three conversions are any functions of a frame.
- AudioRing.Ring.Read: a frame of all channels is one value.
- AudioRouter.Router.Apply: samples and gain are reals, so float rounding is not modelled; parsing a route from options is not either. The scratch planes are local, since every byte of them is rewritten by each call.
- JsonRoundTrip.RoundTrip: numbers are reals, so NaN and infinities do not exist, `strtod` is exact, and how a fractional number prints is a parameter of the model; only whole numbers below 10^15 are proved to come back.
- JsonParser.Parser.TakeNumber: the value is the exact decimal, where `strtod` rounds it to a double.
- JsonPrinter.Printer.AppendNumber: NaN and infinities, printed as null, do not exist among reals, and the `%.10g` form of a fraction is a parameter.
- JsonPrinter.Printer.SerializeInto: a comma is appended after a value rather than before the next, which is the same text.
- Playout.OnTimeIffAhead: the queue is keyed by frame index instead of display time, the same order; audio scheduling and the frame-holding fault of the fake card are not modelled.
- FrameClock.Clock.WaitForNextTick: the sleep is whatever it is; the three readings of the clock are parameters.
- RotatedBlit.Blit.DrawFrame: source and display are different buffers, and strides are not negative.
- RotatedBlit.Blit.Configure: a placement wider than an `int` is not modelled.
- PixelConvert.UnpremultiplyBgra: the three conversions share one row-and-cell loop here and write it out each in the source.

Not modelled at all, because it would only add easy members: `downscaleBgra`, `copyBgra` and the black fills; spellings of rotations and fits; `ids`, `has`, `size` and `firstId` of the table; JSON accessors other than members; `FrameRate` parsing; show files, settings and stream arguments.

Not modelled because it is input and output or foreign code: the browser, vendor SDKs, sockets, mDNS, HTTP, windows, logging and diagnostics.
