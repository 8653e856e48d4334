# Broadwave server: a verified model of its algorithms

Broadwave records and plays over-the-air television. This project models the algorithmic parts of its server in Dafny
and proves what they promise. `dafny verify dfyconfig.toml` checks all of it.

What is modelled, and where:

- **Recording planner** (`TunerSweep`, `TunerPlan`, `TunerConflict`, `PlannerPromises`): giving overlapping airings to a
  number of tuners by priority, checking a list of airings for conflicts, and suggesting a later showing.
- **Service information sections** (`Crc`, `CrcPolynomial`, `Sections`, `SectionStream`, `SectionSender`): reassembly of
  sections from transport stream packets, against a sender that packetises, interleaves, repeats and loses packets, and
  the CRC as polynomial division.
- **Captions** (`CaptionBytes`, `Reorder`, `Captions608`, `CaptionCues`, `CaptionSender`, `CaptionDelivery`): caption
  bytes in H.264 units, the reorder buffer on the 33-bit clock, the CEA-608 screen machine, the cues made from the
  screen, and a sender written from the code tables whose captions come out as cues.
- **Sound prints** (`Ring`, `Fft`, `ComplexNumbers`): the in-place Fourier transform, over any commutative ring.
- **Commercial breaks** (`SpotChains`, `BreakMerge`, `SoundRuns`): chains of spot-length gaps by dynamic programming,
  joining the spans found into breaks, and choosing among overlapping stretches of shared sound.
- **Library channels** (`LibraryLineup`, `LibraryClock`): a lineup on a loop anchored at midnight, read as a guide and
  as the place where a viewer joins.
- **Listings** (`GuideCombine`, `ChannelMatch`): putting feeds together without overlaps, and pairing guide channels
  with lineup channels.
- **Storage** (`StorageRules`, `Storage`, `StorageCleanUp`, `CleanUpPromises`, `KeepRule`): the clean-up, its dry run, and
  the keep rule.
- **Sign-in** (`SignIn`, `SignInRuns`): the Cloudflare sign-in as atomic steps, interleaved freely.
- **Budgets** (`Windows`, `LibraryBudget`, `BreakQueue`, `CodeTries`): sliding windows over histories pruned in place.

`Sorting` holds stable sorting and filtering, `Collections` what else several modules use.

Conventions. Times are integers, in nanoseconds or 90 kHz ticks, except in the library clock and the break finder, where
they are exact real seconds. A source method that changes fields is a class method tied to a function on values, and the
theorems are about runs of that function. Map iteration order is any order. Where the source sorts stably, or by keys
that leave no ties, the sort is the stable sort of `Sorting`. In `BreakMerge` and `SoundRuns` the sort is unstable and any
sorted arrangement is allowed. Text rules (title, category and call-sign matching), channel ranks and guide keys are
parameters.

What the proofs found in the code, besides what it promises:

- The random order of a library channel does not change from day to day (`LibraryLineup.RandomIsIdOrder`), though it
  sorts by a mix of the id and the day (server/internal/dvr/virtual.go:131-134, 179-181).
- A guide that runs past midnight and a viewer who joins after it can be at different places
  (`LibraryClock.MidnightCanDisagree`); when they agree all through the next day is `LibraryClock.AcrossMidnight`.
- A zero-length airing can be marked a conflict that the conflict check does not see
  (`TunerConflict.ZeroLengthConflict`); when the two agree is `TunerConflict.ConflictExactlyWhenTooMany`.
- A removal that began before a setup can end that setup (`SignInRuns.RemovalCanEndSetup`), and nothing else that runs
  in the background can end work that is not its own (`SignInRuns.RemovalForgets`).
- The spot search relies on grid times in order, though cuts are sorted by another time (`SpotChains.GridOrderMatters`,
  `SpotChains.AllSeenExactlyWhen`).
- Breaks can depend on how an unstable sort orders spans that start together (`BreakMerge.TiesCanMatter`,
  `BreakMerge.OrderMattersExactlyWhen`).
- A channel 2 command between the two copies of a channel 1 command makes that command run twice
  (`Captions608.TornCopyRunsTwice`).
- An extended character in the last column lands one cell early, after its stand-in (`CaptionSender.LastColumnMisplaces`).
- A preamble that moves the roll-up window can leave the cue on screen saying more than the screen does
  (`CaptionCues.PreambleCanLeaveStaleCue`), and backspace in the last column empties the cell before it
  (`Captions608.BackspaceUndoesTyping`).

## Model

| member | source | states |
|---|---|---|
| TunerPlan.ResolvePriority | server/internal/dvr/plan.go:232-270 | For any airings, paddings and earlier skips the sweep, in place, changes nothing but the skipped and conflict marks of airings not skipped before; afterwards no instant needs more distinct channels than max(1, tunerCount); every airing it drops had an instant at which it and airings that do not lose to it needed too many; and with distinct airing ids the plan is the one plan computed from the input alone, whatever order the active map is visited in |
| TunerPlan.LowestPriority | server/internal/dvr/plan.go:272-290 | Among the active airings it names one that every other comes before by higher priority, then earlier start, then lower id, whatever order the map is visited in |
| TunerPlan.LowestUnique | server/internal/dvr/plan.go:282-290 | With distinct airing ids only one airing of a set can be lowest: map order cannot matter |
| TunerPlan.DropLowest | server/internal/dvr/plan.go:253-268 | At one start event, drops lowest airings until the active ones fit the tuners; each dropped one is justified by an instant and rivals, and with distinct ids the ones dropped are determined |
| TunerPlan.TunerEvents | server/internal/dvr/plan.go:36-43 | Each airing holds its tuner from padBefore before it to padAfter and the tail after it, or until a running recording ends if that is later; the events come in time order, ends before starts |
| TunerSweep.UniqueChannels | server/internal/dvr/plan.go:292-298 | Counts the distinct channels of the active map in any visiting order |
| TunerSweep.AllHeldActive | server/internal/dvr/plan.go:232-270 | Between two events the channels of every live airing the sweep holds, on the air or of no positive length and begun, are in the active map |
| TunerSweep.OnAirIsHeld | server/internal/dvr/plan.go:232-270 | What is on the air is held, and with positive spans nothing else is |
| TunerConflict.Overflows | server/internal/dvr/conflict.go:156-192 | True exactly when at some instant the spans use more distinct channels than there are tuners |
| TunerConflict.TooManyIsUnsafe | server/internal/dvr/conflict.go:156-192 | The conflict check finds too many channels among the unskipped airings exactly when the planner would call them unsafe |
| TunerConflict.ConflictExactlyWhenHeld | server/internal/dvr/plan.go:253-270 | For any airings, spans and ids, the planner marks a new conflict exactly when at some instant the unskipped airings begun by then, less those of positive length that have ended, have more distinct channels than there are tuners |
| TunerConflict.ConflictExactlyWhenTooMany | server/internal/dvr/conflict.go:156-192 | For any spans and ids the planner marks a new conflict whenever the conflict check on its input finds too many channels, and the two agree exactly when the planner holds too many only if the check finds too many; with positive spans they always agree |
| TunerConflict.ZeroLengthConflict | server/internal/dvr/conflict.go:167-170 | With a zero-length span the two sweeps can differ: every resolution drops an airing though no instant has too many channels |
| TunerConflict.TopRankedKept | server/internal/dvr/plan.go:282-290 | The airing that all others lose to keeps its tuner |
| TunerConflict.RivalsBeatTheDropped | server/internal/dvr/plan.go:253-268 | With distinct ids each dropped airing has an instant and rivals on the air, needing with it more channels than tuners, all of which strictly beat it |
| TunerConflict.FitsBeside | server/internal/dvr/conflict.go:131-149 | A candidate passes exactly when that showing is kept already or the plan with it added is still within the tuners at every instant |
| TunerConflict.LaterAiring | server/internal/dvr/conflict.go:82-113 | The suggestion is an offerable airing: in the window, of the title and rules, another and later showing, not skipped as in the library, and fitting beside the plan. It is the earliest such, and there is one whenever one exists |
| PlannerPromises.PlanFitsTuners | server/internal/dvr/plan.go:232-270 | In the plan, at every instant, the airings kept, each from its padding before the start to its padding and tail after the end or while a recording of it runs, use no more distinct channels than max(1, tunerCount) |
| PlannerPromises.DropsHaveReasons | server/internal/dvr/plan.go:253-290 | For every airing dropped there is an instant at which it and other wanted airings, each of higher priority, or of equal priority and an earlier start, or of equal both and no higher id, need too many channels |
| PlannerPromises.HighestPriorityKept | server/internal/dvr/plan.go:282-290 | An airing of higher priority than all others is kept unchanged |
| PlannerPromises.LowerPriorityGoes | server/internal/dvr/plan.go:253-290 | Of two airings on two channels at once and one tuner, exactly the one of lower priority is dropped |
| PlannerPromises.OnePlan | server/internal/dvr/plan.go:232-290 | With distinct ids two resolutions of the same airings are the same plan |
| PlannerPromises.TakenIsCovered | server/internal/dvr/plan.go:36-43 | The tuner span covers exactly the instants from the padding before to the padding and tail after, or to the end of a running recording |
| PlannerPromises.OfferableExactlyWhen | server/internal/dvr/conflict.go:82-149 | A showing may be offered exactly when it is in the window, later, another showing of the title that the rules want, not skipped as in the library, and kept already or, recorded beside the plan, leaves every instant within the tuners |
| Fft.Transform | server/internal/breaks/sound.go:227-251 | In place and for every power-of-two length, over any commutative ring in which root(2) is -1 and each later root squares to the one before, x[k] ends as the sum over j of x0[j] times root(n) to the power j k |
| Fft.Shuffle | server/internal/breaks/sound.go:228-240 | The swaps leave every element at the bit reverse of its index |
| Fft.NextReversed | server/internal/breaks/sound.go:230-236 | The bit-reversed counter goes from the reverse of i - 1 to the reverse of i |
| Fft.RevRev | server/internal/breaks/sound.go:228-240 | Bit reversal is its own inverse |
| Fft.Butterfly | server/internal/breaks/sound.go:242-250 | One block is combined in place from its two halves, and nothing outside it changes |
| Fft.Stage | server/internal/breaks/sound.go:241-251 | One pass turns all blocks of half the size into blocks of the size |
| Fft.ButterfliesEval | server/internal/breaks/sound.go:241-251 | The butterflies of the shuffled input evaluate the input polynomial at every power of the root |
| Fft.EvalSplit | server/internal/breaks/sound.go:241-251 | A polynomial at z is its even part at z squared plus z times its odd part there |
| Fft.HalfTurn | server/internal/breaks/sound.go:245-249 | The root to half the size is -1, so one product serves both outputs of a butterfly |
| ComplexNumbers.ComplexIsRing | server/internal/breaks/sound.go:227-251 | Complex numbers with exact real parts are such a ring |
| ComplexNumbers.SmallRootsWork | server/internal/breaks/sound.go:242-243 | 1, -1 and -i are roots of sizes one, two and four of the kind the transform asks for |
| ComplexNumbers.ExactRootsWork | server/internal/breaks/sound.go:242-243 | Given square roots of reals, halving the angle from -i on gives a root of every power of two |
| Crc.CRC | server/internal/dvbsi/section.go:134-147 | The shift loops leave the register that taking the bytes in one at a time defines |
| Crc.CrcOk | server/internal/dvbsi/section.go:125-130 | A body passes when its last four bytes are the register its earlier bytes leave; shorter bodies fail |
| Crc.GoodIsZeroRemainder | server/internal/dvbsi/section.go:125-147 | A body passes exactly when it has four bytes and the CRC over the whole of it is zero (Annex A of ISO/IEC 13818-1) |
| Crc.BurstIsCaught | server/internal/dvbsi/section.go:125-147 | No change confined to four consecutive bytes, so none confined to one, leaves a good body good |
| Crc.RunLinear | server/internal/dvbsi/section.go:134-147 | The register over the sum of two inputs is the sum of the registers |
| Crc.ShiftInjective | server/internal/dvbsi/section.go:138-145 | A register step takes only zero to zero |
| CrcPolynomial.CrcIsRemainder | server/internal/dvbsi/section.go:132-147 | The CRC of any bytes, as a polynomial, is below x^32 and a remainder of the message times x^32, its first 32 bits inverted, by x^32 + x^26 + x^23 + x^22 + x^16 + x^12 + x^11 + x^10 + x^8 + x^7 + x^5 + x^4 + x^2 + x + 1 (Annex A of ISO/IEC 13818-1) |
| CrcPolynomial.RemainderUnique | server/internal/dvbsi/section.go:132-147 | A polynomial has one such remainder |
| CrcPolynomial.ShiftTimes | server/internal/dvbsi/section.go:138-145 | A register step is a multiplication by x, up to a multiple of the polynomial |
| Sections.Reassemble | server/internal/dvbsi/section.go:30-91 | The packet loop outputs what receiving the packets one by one defines |
| Sections.Accept | server/internal/dvbsi/section.go:54-89 | One packet with payload does to its id's buffer and counter exactly what Take says: repeated packets ignored, gaps emptying the buffer, the pointer dividing old bytes from new |
| Sections.AcceptStart | server/internal/dvbsi/section.go:66-82 | A starting packet completes the waiting section with the bytes up to the pointer and begins with the rest |
| Sections.AppendDone | server/internal/dvbsi/section.go:95-123 | Takes every complete section off the front of the buffer, outputs the ones whose CRC is good, and leaves what still waits |
| Sections.HeldIsBounded | server/internal/dvbsi/section.go:95-123 | Whatever packets came, every buffer holds less than 4096 bytes |
| SectionStream.ReassemblyUndoesPacketising | server/internal/dvbsi/section.go:30-123 | Valid sections cut into packets by the pointer_field and stuffing rules of section 2.4.4 of ISO/IEC 13818-1, ids interleaved, packets repeated and other packets mixed in, come back per id exactly and in order, but for the one still being sent |
| SectionStream.LossOnlyDrops | server/internal/dvbsi/section.go:55-88 | When packets are also lost, what comes out per id is what was sent with some sections left out: nothing is corrupted, repeated or reordered |
| SectionStream.WholeSectionsArrive | server/internal/dvbsi/section.go:30-123 | At every moment the receiver holds the bytes in flight and has put out the sections whose packets all arrived |
| SectionSender.FrameRead | server/internal/dvbsi/section.go:33-62 | Of any packet written with a header of section 2.4.3 of ISO/IEC 13818-1, with or without an adaptation field, the receiver reads the id, counter, start flag and payload written, and takes the payload exactly for ids 0x00, 0x11 and 0x12 |
| SectionSender.MadeIsValid | server/internal/dvbsi/section.go:95-130 | A section written with its length and CRC in place is one that reassembly takes |
| SectionSender.EmptyFrameUnread | server/internal/dvbsi/section.go:33-53 | A packet with the error flag or without a payload is not taken |
| CaptionBytes.CaptionsSurviveCarriage | server/internal/captions/cc.go:25-93 | Caption entries packed as cc_data in ATSC SEI messages, among other messages, in escaped units between start codes, among other units, are read back from the stream complete and in order, only the valid field-1 pairs, parity stripped |
| CaptionBytes.FromH264 | server/internal/captions/cc.go:25-42 | The start-code loop reads what the recursive reading of the stream defines |
| CaptionBytes.Unescape | server/internal/captions/cc.go:96-115 | The fast path and the loop give the same bytes |
| CaptionBytes.NothingToUnescape | server/internal/captions/cc.go:97-99 | Bytes without 00 00 03 are unescaped to themselves |
| CaptionBytes.UnescapeUndoesEscape | server/internal/captions/cc.go:95-115 | Unescaping gives back whatever was escaped by section 7.4.1.1 of ITU-T H.264 |
| CaptionBytes.EscapedIsClean | server/internal/captions/cc.go:36-40 | Escaped bytes hold no start code, so the next start code ends the unit |
| CaptionBytes.NextCode | server/internal/captions/cc.go:28-39 | The first start code after a unit without one is the next unit's |
| CaptionBytes.SeiCaptions | server/internal/captions/cc.go:44-75 | The message loop reads what the recursive reading defines, and stops where it stops |
| CaptionBytes.MessagesRead | server/internal/captions/cc.go:44-75 | A packed list of messages followed by up to two trailing bytes is read back message by message |
| CaptionBytes.NumberRead | server/internal/captions/cc.go:47-63 | A type or size written with ff bytes is read back with its rest |
| CaptionBytes.CcData | server/internal/captions/cc.go:78-93 | Keeps, after what it is given, the valid field-1 pairs of at most the counted entries |
| CaptionBytes.TripletsRead | server/internal/captions/cc.go:84-91 | Packed entries are read back to exactly their valid field-1 pairs |
| CaptionBytes.EntriesRead | server/internal/captions/cc.go:78-94 | Entries written with marker bits, cc_valid, cc_type and parity are read back to the characters of field 1 |
| Captions608.RedundancyWorks | server/internal/captions/decoder.go:104-122 | Commands sent twice, with at most one copy lost from each run of one command, leave the same memories, cursor and mode as executing each once (47 CFR section 15.119) |
| Captions608.MixedRedundancyWorks | server/internal/captions/decoder.go:104-126 | Doubled commands of both channels with at most one copy lost of each leave what executing the commands of channel 1 once leaves |
| Captions608.CopiesRun | server/internal/captions/decoder.go:108-113 | A control pair that comes n times in a row is executed (n + 1) / 2 times |
| Captions608.TwoLostLosesOne | server/internal/captions/decoder.go:108-113 | With both copies of one of several equal commands lost, exactly one execution is lost |
| Captions608.PaddingIsIgnored | server/internal/captions/decoder.go:101-103 | Null pairs anywhere, also between two copies, change nothing |
| Captions608.OtherChannelIsIgnored | server/internal/captions/decoder.go:124-126 | Were each pair obeyed as it comes, channel 1 would end with the screens, cursor and mode its own pairs leave; the remembered pair is the subject of the next three rows |
| Captions608.SameCommandsExactlyWhenUntorn | server/internal/captions/decoder.go:108-126 | With channel 2 mixed in, the decoder obeys at every moment the channel 1 pairs it would obey of channel 1 alone, exactly when no second copy is parted from its first by channel 2 |
| Captions608.UntornMixing | server/internal/captions/decoder.go:108-126 | Untorn, any channel 2 pairs mixed in leave the decoder the screens, cursor and mode of channel 1 alone |
| Captions608.TornCopyRunsTwice | server/internal/captions/decoder.go:108-113 | A backspace, a channel 2 command and the backspace again: the decoder moves two columns back where channel 1 alone moves one |
| Captions608.LoadingIsInvisible | server/internal/captions/decoder.go:162-219 | While a pop-on caption loads, no run without RU, RDC, EDM or EOC changes the displayed memory; EOC then shows all that was loaded and hides what was shown |
| Captions608.RollUpStaysInWindow | server/internal/captions/decoder.go:177-210 | No run of pairs puts roll-up text outside the four rows that end at the cursor's |
| Captions608.RollUpFromStart | server/internal/captions/decoder.go:56-58 | So in every state a new decoder reaches, roll-up text is only in those four rows |
| Captions608.WindowStep | server/internal/captions/decoder.go:196-252 | No pair puts roll-up text outside a window at least as deep as the roll-up depth before and after it |
| Captions608.CarriageReturnRolls | server/internal/captions/decoder.go:196-212 | A carriage return moves the window's rows up one, empties the base row, and leaves nothing outside the roll-up depth |
| Captions608.TypedTextLands | server/internal/captions/decoder.go:124-132 | Characters typed where the row has room land in order from the cursor, and neither memory changes elsewhere |
| Captions608.BackspaceUndoesTyping | server/internal/captions/decoder.go:167-171 | Backspace takes the last character back exactly when it was not typed in the last column |
| CaptionSender.PreambleGoesThere | server/internal/captions/decoder.go:222-252 | The preamble that 47 CFR section 15.119 has for a row and an indent or a style puts the cursor on that row, at four times the indent or at the left edge, and out of roll-up changes nothing else |
| CaptionSender.LandsExactlyWhen | server/internal/captions/decoder.go:143-159 | Text written with the basic, special and extended character codes, no longer than its row, lands character for character exactly when it does not end with an extended character in the last column |
| CaptionSender.BasicAgrees | server/internal/captions/decoder.go:334-360 | The codes 0x20 to 0x7f are the characters of the standard set |
| CaptionSender.CaptionShows | server/internal/captions/decoder.go:162-219 | Whatever the decoder held, a caption loaded line by line and ended shows exactly its lines, each character in its cell, and keeps what was shown in the hidden memory |
| CaptionSender.SentCaptionShows | server/internal/captions/decoder.go:100-132 | So does the decoder itself when commands are doubled and at most one copy of each is lost |
| CaptionSender.RollUpShowsLastLines | server/internal/captions/decoder.go:178-209 | From any other mode, lines rolled up at a base row with a depth show the last of them, as many as depth and screen allow, and nothing else |
| CaptionSender.EditingCommands | server/internal/captions/decoder.go:166-177 | Backspace empties the cell before the cursor; delete to end of row empties the cells from it on |
| CaptionSender.ModeCommands | server/internal/captions/decoder.go:164-219 | What the painting, text and erasing commands change, and which codes change nothing |
| CaptionSender.TabsMove | server/internal/captions/decoder.go:138-139 | Tabs move the cursor one to three columns, to the last at most |
| CaptionCues.CuesComeInOrder | server/internal/captions/decoder.go:61-66 | Over any pictures with rising times the finished cues have positive length, come in order and do not overlap, and the open one starts after them |
| CaptionCues.CaptionFollowsScreen | server/internal/captions/decoder.go:61-132 | After every picture of any run in which no preamble moves text off the roll-up window, the cue on screen says what the screen says, or some text was typed within shownEvery of the last showing |
| CaptionCues.FromTheStart | server/internal/captions/decoder.go:56-66 | For every run of a new decoder the cues come in order when the times rise, and the cue on screen follows the screen when no text moves off the window |
| CaptionCues.Decoder.constructor | server/internal/captions/decoder.go:56-58 | A new decoder is blank, in pop-on mode on channel 1, at the last row, with nothing on screen |
| CaptionCues.PreambleKeepsText | server/internal/captions/decoder.go:227-252 | A preamble leaves the screen's text as it was exactly unless it moves the roll-up window and a row with text is outside what stays |
| CaptionCues.PreambleTells | server/internal/captions/decoder.go:236-246 | The cue on screen still says what the screen says after a preamble exactly when the preamble moves no text off the window |
| CaptionCues.PreambleCanLeaveStaleCue | server/internal/captions/decoder.go:236-246 | A new decoder given two rolled-up rows and a preamble to the top row shows one row while the open cue still says both |
| CaptionCues.WaitsBriefly | server/internal/captions/decoder.go:269-282 | Typed text held back waits only while the last showing is less than 18000 ticks ago |
| CaptionCues.TypedTextHeldBack | server/internal/captions/decoder.go:86-98 | Within 18000 ticks of the last showing of typed text more of it changes no cue |
| CaptionCues.TakeInOrder | server/internal/captions/decoder.go:284-309 | Any pair keeps the cues in order |
| CaptionCues.Render | server/internal/captions/decoder.go:311-332 | The row loop gives the non-empty trimmed rows from the top, and whether the first is in the upper half |
| CaptionCues.Decoder.Feed | server/internal/captions/decoder.go:60-66 | Shows what is due and then takes the picture's pairs in order; an odd last byte is ignored |
| CaptionCues.Decoder.TakePair | server/internal/captions/decoder.go:100-132 | The fields end as the value model's step says, memories and cues both |
| CaptionCues.Decoder.Control | server/internal/captions/decoder.go:134-160 | The command dispatch ends in the modelled memory and display |
| CaptionCues.Decoder.Misc | server/internal/captions/decoder.go:162-220 | Each miscellaneous command ends in the modelled memory and display |
| CaptionCues.Decoder.Scroll | server/internal/captions/decoder.go:201-208 | The row copies of a carriage return, done in place, give the scrolled screen |
| CaptionCues.Decoder.Preamble | server/internal/captions/decoder.go:227-252 | The loop over the window gives the moved screen, and the cursor goes to the named row and indent |
| CaptionCues.Decoder.ClearToEnd | server/internal/captions/decoder.go:172-176 | The cell loop empties the row from the cursor on |
| CaptionCues.Decoder.Touch | server/internal/captions/decoder.go:272-282 | Typed text shows at once or waits as modelled |
| CaptionCues.Decoder.Show | server/internal/captions/decoder.go:285-297 | Ends the open cue when the text differs and opens one for the new text |
| CaptionCues.Decoder.End | server/internal/captions/decoder.go:299-309 | An open cue is finished unless no time passed |
| CaptionCues.Decoder.Take | server/internal/captions/decoder.go:69-73 | Hands over the finished cues once |
| CaptionDelivery.CaptionBecomesCue | server/internal/captions/decoder.go:56-74 | A caption sent to a new decoder, commands doubled and at most one copy of each lost, then erased, is one finished cue: its lines as sent, from the picture that showed it to the one that erased it, at the top exactly when its first line is above row 8 |
| CaptionDelivery.PictureText | server/internal/captions/decoder.go:311-332 | The text read off a screen is the lines on it from the top down |
| CaptionDelivery.LoadingAll | server/internal/captions/decoder.go:100-132 | Loading a caption changes no cue |
| Reorder.EveryPictureOnce | server/internal/captions/ts.go:181-205 | Every picture taken in comes out exactly once by the flush |
| Reorder.ShownInDisplayOrder | server/internal/captions/ts.go:181-205 | On one timeline spanning less than half the 33-bit clock, without a break, when each picture follows at most 8 earlier arrivals that show after it, pictures come out in non-decreasing time, equal times in order of arrival |
| Reorder.BreakSeparates | server/internal/captions/ts.go:178-187 | At a break all pictures of the old clock come out before any of the new, as two separate streams would |
| Reorder.DeltaIsDifference | server/internal/captions/ts.go:207-214 | Across a wrap of the clock the difference is the true one when it is under half the range |
| Reorder.BreaksExactlyWhen | server/internal/captions/ts.go:161-194 | A picture is on a new timeline exactly when it is over a second before the last one held or over ten seconds after it, across a wrap of the clock |
| Reorder.EightHeldBack | server/internal/captions/ts.go:161-206 | On one timeline the buffer holds the last eight pictures, or all when there are fewer |
| Reorder.ArrivalIsLater | server/internal/captions/ts.go:188-191 | With at most 8 earlier arrivals still to show after it, an arrival shows after everything already out |
| Reorder.Reader.TakeIn | server/internal/captions/ts.go:181-191 | One picture is held, after a flush at a break, and the earliest goes out when more than 8 are held |
| Reorder.Reader.Emit | server/internal/captions/ts.go:194-205 | Hands over the held picture that shows first |
| Reorder.Reader.EmitAll | server/internal/captions/ts.go:72-78 | Hands over every held picture |
| LibraryLineup.Arrange | server/internal/dvr/virtual.go:127-152 | Every order plays each listed recording exactly as often as it is listed; release order is by start of recording and season order by title and subtitle, ties staying as listed |
| Sorting.StableSortIsUnique | server/internal/dvr/virtual.go:130-130 | A list has one stably sorted arrangement, so one stable sort stands for another |
| LibraryLineup.RandomIsIdOrder | server/internal/dvr/virtual.go:131-134 | The random order is the same every day: it is the order of the ids, because the mixing key adds the day to every id alike |
| LibraryLineup.RoundsPermute | server/internal/dvr/virtual.go:154-177 | Marathon turns play every recording of every group once |
| LibraryLineup.GroupsFlatten | server/internal/dvr/virtual.go:154-161 | Grouping neighbours of one title loses and reorders nothing |
| LibraryLineup.MarathonOrder | server/internal/dvr/virtual.go:154-177 | The shrinking-group loops give up to three of each title in turn until none is left |
| LibraryLineup.PlaceInMarathon | server/internal/dvr/virtual.go:154-177 | Recording k of a title plays in turn k / 3, after what all titles had for the turns before and what the titles before have for this one: its place in the marathon in closed form |
| LibraryLineup.ListedExactly | server/internal/dvr/virtual.go:106-118 | The lineup is the listed ids whose recording is there and has not failed, as often and in the order listed |
| LibraryLineup.LastCounts | server/internal/dvr/virtual.go:106-118 | Of recordings with one id the last counts |
| LibraryClock.ScheduleFrom | server/internal/dvr/virtual.go:61-72 | The guide is a run of consecutive slots of the loop from midnight, beginning with the one on at the window's start and reaching its end unless the cap of 4096 is reached |
| LibraryClock.Join | server/internal/dvr/virtual.go:51-57 | Names the recording on at now on the loop from midnight and how far into it now is |
| LibraryClock.Cycle | server/internal/dvr/virtual.go:76-104 | Turns the lineup to the slot that covers the instant; its fall-through is never reached |
| LibraryClock.FindSlot | server/internal/dvr/virtual.go:93-102 | A spot inside one cycle is always in some slot of it |
| LibraryClock.Slots | server/internal/dvr/virtual.go:22-46 | Slots follow one another from the start until one reaches the end of the window or there are 4096 |
| LibraryClock.GuideAgreesWithJoin | server/internal/dvr/virtual.go:51-104 | For any window and any instant of the same local day, the slot covering it is the recording joining names, as far in as the instant is past the slot's start |
| LibraryClock.GuideTiles | server/internal/dvr/virtual.go:22-72 | The slots have no gap or overlap, the first covers the start, and a window of up to 4095 minutes is reached to its end |
| LibraryClock.SlotsFollowLineup | server/internal/dvr/virtual.go:61-125 | The guide lists the lineup over and over from some turn on, from its first recording when it starts at midnight; each slot lasts the recording, or half an hour when that is under a minute; there are at most 4096 |
| LibraryClock.EveryInstantScheduled | server/internal/dvr/virtual.go:22-72 | Every instant of such a window is in some slot |
| LibraryClock.AcrossMidnight | server/internal/dvr/virtual.go:76-89 | A guide laid past midnight and joining after it agree at every instant of the next local day exactly when some slot starts at that midnight and the slots that start within the day from there are those the lineup starts with |
| LibraryClock.MidnightCanDisagree | server/internal/dvr/virtual.go:76-89 | One 50000 s recording: the guide has it 36400 s in at the next midnight, joining starts it anew |
| LibraryClock.RepeatsCanAgree | server/internal/dvr/virtual.go:76-89 | Two recordings a day long, the first listed twice: guide and joining agree all through the next day though the day is not whole lineups |
| LibraryClock.CoversUnique | server/internal/dvr/virtual.go:93-102 | At most one slot of the loop is on at any instant |
| LibraryClock.CoverExists | server/internal/dvr/virtual.go:89-102 | At every instant some slot of a non-empty lineup is on |
| LibraryClock.Relisted | server/internal/dvr/virtual.go:61-72 | Looking the turned lineup up again by its own ids gives it back, so laying it out does not reorder it |
| StorageCleanUp.PreviewTellsTheTruth | server/internal/dvr/preview.go:123-207 | From one catalog the ids the preview lists for now are exactly the recordings the clean-up removes, the rows left are the others, and each listed one may be deleted |
| StorageCleanUp.BuildPreview | server/internal/dvr/preview.go:123-207 | Lists, in order, the days rule's victims watched longest ago first, then the run of victims that making room takes after them; the shortfall and whether it can be covered are the real ones |
| StorageCleanUp.SameRoom | server/internal/dvr/preview.go:182-190 | Leaving out of the preview's pool what the days rule took gives the victims, with the same file sizes, that making room finds after the days rule ran |
| StorageCleanUp.RoomIsAllOrNothing | server/internal/dvr/storage.go:88-133 | Making room takes something exactly when it is on, space is short and removing all victims would suffice; then it takes the shortest run of the oldest watched after which space suffices |
| CleanUpPromises.OnlyExpendableGoes | server/internal/dvr/storage.go:183-198 | A recording that is kept forever, incomplete, outside the folder, without its file, on a favorite channel, played in the last six hours, or neither marked watched nor played to its last fifteen seconds keeps its row and its file through a clean-up |
| CleanUpPromises.DaysRuleTakes | server/internal/dvr/storage.go:53-80 | The days rule takes exactly the other recordings last seen, by mark or playing, over that many days ago |
| CleanUpPromises.RoomTakesLongestUnseen | server/internal/dvr/storage.go:137-151 | What making room takes was last seen no later than anything it could have taken and leaves, lower ids first at one time |
| CleanUpPromises.ListedIsExpendable | server/internal/dvr/preview.go:123-208 | The dry run lists only recordings that a clean-up may remove, by the same conditions on their fields |
| CleanUpPromises.DeletableIsExpendable | server/internal/dvr/storage.go:155-194 | What may be removed, condition by condition |
| CleanUpPromises.BytesAreFreed | server/internal/dvr/storage.go:200-226 | Free bytes and the bytes of all files together stay the same whatever is removed |
| StorageCleanUp.Library.Tidy | server/internal/dvr/storage.go:53-82 | Leaves the catalog without what the days rule and then making room take, files and free bytes included |
| StorageCleanUp.Library.RemoveAged | server/internal/dvr/storage.go:66-77 | The days rule's loop removes exactly the deletable recordings watched before the cutoff |
| StorageCleanUp.Library.MakeRoom | server/internal/dvr/storage.go:88-133 | Removes the needed run of victims or none, and reports the bytes freed |
| StorageCleanUp.Library.RemoveUntil | server/internal/dvr/storage.go:125-132 | The loop stops at the first victim after which enough is freed |
| StorageCleanUp.Library.Remove | server/internal/dvr/storage.go:200-216 | A recording goes, with its file, only if its row read again may still be deleted; otherwise nothing changes |
| StorageCleanUp.ListAged | server/internal/dvr/preview.go:152-172 | Lists the aged recordings in order with the bytes they free |
| StorageCleanUp.ListRoom | server/internal/dvr/preview.go:194-204 | Lists victims until enough would be freed |
| StorageRules.NeededIsMinimal | server/internal/dvr/storage.go:125-132 | The run taken is enough when all victims together are, and no shorter run is |
| KeepRule.KeepVictims | server/internal/dvr/rules.go:119-159 | Keep-last removes all but the newest n of the recordings it counts, or none when there are no more; keep-unwatched removes the played ones; other modes none |
| KeepRule.SortNewestFirst | server/internal/dvr/rules.go:147-153 | The exchange sort, in place, leaves the same recordings newest first |
| KeepRule.VictimsAreOldest | server/internal/dvr/rules.go:147-156 | No victim is newer than a recording left, all are counted ones, and as many are left as there are or are to be kept |
| KeepRule.CountedMayGo | server/internal/dvr/rules.go:119-135 | The rule counts exactly the recordings of the pass that are neither kept forever, nor recording, nor incomplete |
| KeepRule.KeepingTwiceIsOnce | server/internal/dvr/rules.go:138-156 | With the victims gone the rule counts exactly those it kept, so applied again it removes nothing |
| GuideCombine.CombineGuide | server/internal/httpapi/guiderefresh.go:80-112 | Per channel the rows are in order and pairwise apart, come from the feeds no more often than listed, include the greedy pass of the richest feed, and every row with a length is on the schedule or overlaps it; channels ascend |
| GuideCombine.CombineChannel | server/internal/httpapi/guiderefresh.go:95-111 | One channel's lists are combined with those promises: the base feed, then what each other feed in turn has for the gaps |
| GuideCombine.RichestFeed | server/internal/httpapi/guiderefresh.go:118-156 | The base is the listing feed with the most detail in the stretch all share, the first on a tie or without such a stretch |
| GuideCombine.NoOverlaps | server/internal/httpapi/guiderefresh.go:173-191 | The pass with a binary search keeps exactly what the greedy pass with a linear overlap test keeps |
| GuideCombine.FirstEndingAfter | server/internal/httpapi/guiderefresh.go:181-184 | The binary search finds where the airings ending after a time begin |
| GuideCombine.GreedyIsDisjoint | server/internal/httpapi/guiderefresh.go:173-191 | What is kept is in order, apart, apart from the taken rows, and part of the list |
| GuideCombine.GreedyIsMaximal | server/internal/httpapi/guiderefresh.go:173-191 | Every row of a sorted list with a length is kept or overlaps something kept or taken |
| GuideCombine.MergeByStart | server/internal/httpapi/guiderefresh.go:193-211 | Two apart lists merge into one in order, apart, with the rows of both |
| GuideCombine.EarlierFeedsWin | server/internal/httpapi/guiderefresh.go:102-109 | An airing with a length that is not listed overlaps a listed one of the base feed or of no later feed than its own |
| GuideCombine.OverlapMeans | server/internal/httpapi/guiderefresh.go:173-191 | Two airings overlap exactly when both are on at some instant |
| GuideCombine.ScoreMeans | server/internal/httpapi/guiderefresh.go:145-150 | A feed scores the detail of its airings that start in the shared stretch |
| GuideCombine.SharedIs | server/internal/httpapi/guiderefresh.go:119-136 | The shared stretch goes from the latest first start to the earliest last end |
| ChannelMatch.Assign | server/internal/guide/match.go:16-71 | One-to-one both ways; pairs named by guide keys are fixed first; every other pair has a rank; and of the free channels and lines every pair with a rank is chosen or has an end matched by key or at an equal or higher rank |
| ChannelMatch.MatchKeys | server/internal/guide/match.go:21-37 | Line by line each key takes the first free channel it names; a line left without one found all of them taken |
| ChannelMatch.FirstKeyed | server/internal/guide/match.go:26-36 | Finds the first free channel the key names, if any |
| ChannelMatch.Candidates | server/internal/guide/match.go:43-56 | Exactly the free pairs that have a rank |
| ChannelMatch.PassedOver | server/internal/guide/match.go:66-69 | A pair passed over has an end taken before it, at a higher rank, or at its rank with lower ids |
| ChannelMatch.OneMatching | server/internal/guide/match.go:16-71 | The keys and ranks leave one matching with those promises, ties by the ids |
| SignInRuns.RunKeepsInv | server/internal/cloudflare/manager.go:178-262 | Over every interleaving of callers and background work, state, certificate, context and the work under way agree, at most one wait or provisioning is current, and someone attends each state that must end |
| SignInRuns.StepSound | server/internal/cloudflare/manager.go:178-262 | After each step a certificate is held exactly while authorized, for the zone shown, and the context held is one not yet cancelled |
| SignInRuns.StepAgrees | server/internal/cloudflare/manager.go:252-375 | After each step all work of the present generation is in the state it was started for, with its context or certificate |
| SignInRuns.StepOneOwner | server/internal/cloudflare/manager.go:416-449 | After each step at most one wait or provisioning is of the present generation |
| SignInRuns.StepAttended | server/internal/cloudflare/manager.go:295-375 | After each step some work of the present generation attends a waiting, authorized or provisioning state |
| SignInRuns.StepKeepsInv | server/internal/cloudflare/manager.go:178-262 | Each atomic step keeps the whole invariant |
| SignInRuns.CertificateExactlyWhenAuthorized | server/internal/cloudflare/manager.go:178-262 | In every reachable state a certificate is held exactly when the state is authorized, and it is for the zone shown |
| SignInRuns.NeverStranded | server/internal/cloudflare/manager.go:295-375 | In every reachable waiting, authorized or provisioning state some work of the present generation has a step it can take |
| SignInRuns.CancelEndsSignIn | server/internal/cloudflare/manager.go:227-241 | Cancelling any sign-in ends it: idle, no certificate, its context cancelled and no work that counts; setup is left alone |
| SignInRuns.ForgetEndsEverything | server/internal/cloudflare/manager.go:243-250 | Forgetting does so from every state |
| SignInRuns.LoginSignsIn | server/internal/cloudflare/manager.go:189-225 | Unless setup runs, a sign-in waits alone with what was there cancelled, and ends signed in with the certificate and domain that come |
| SignInRuns.FailedSetupComesBack | server/internal/cloudflare/manager.go:416-479 | Setup that fails gives back the same certificate and domain, with the problem |
| SignInRuns.SetupGoesThrough | server/internal/cloudflare/manager.go:481-551 | Setup shows the tunnel, name and connection steps in order and ends idle without the certificate |
| SignInRuns.FewStepsToTheEnd | server/internal/cloudflare/manager.go:295-375 | That work, however others are interleaved, takes fewer than four steps before the state is left |
| SignInRuns.StaleWorkIsHarmless | server/internal/cloudflare/manager.go:252-375 | A step of work from an earlier generation leaves the manager as it was exactly when it is not a removal that forgets |
| SignInRuns.OnlyItsEndLeavesProvisioning | server/internal/cloudflare/manager.go:189-250 | Provisioning is left only by its own end or by forgetting |
| SignInRuns.ProvisioningIsExclusive | server/internal/cloudflare/manager.go:416-449 | While provisioning lasts its generation stays and no certificate is held |
| SignInRuns.HoldEndsItsOwn | server/internal/cloudflare/manager.go:365-375 | A hold that fires ends the authorized sign-in it was started for with a timeout, and otherwise changes nothing |
| SignInRuns.RemovalForgets | server/internal/cloudflare/manager.go:620-661 | Background work ends a live sign-in or setup other than its own exactly when it is a removal that forgets, something is live, and another generation has begun since; a removal that forgets in its own generation ends the signed-in state whose certificate it holds |
| SignInRuns.RemovalCanEndSetup | server/internal/cloudflare/manager.go:620-661 | A concrete run in which a removal begun earlier ends a later provisioning: forgetting is not checked against the generation |
| SpotChains.FillLengths | server/internal/breaks/find.go:299-314 | At each cut the table holds the most spots of any chain the search can see from it, and with grid times in order the most of any chain |
| SpotChains.SolveCut | server/internal/breaks/find.go:302-313 | One cut is solved from those after it, its link being the first step of such a chain |
| SpotChains.InOrderAllSeen | server/internal/breaks/find.go:304-304 | With grid times in order the early exit hides no spot |
| SpotChains.AllSeenExactlyWhen | server/internal/breaks/find.go:304-305 | The search gets to every chain exactly when no pair of cuts a spot length apart has, between them, a cut farther from the first than any spot is long |
| SpotChains.GridOrderMatters | server/internal/breaks/find.go:304-304 | For cuts as the finder makes them, one in the middle of a black stretch that began long before, the table says 0 where there is a spot |
| SpotChains.FindChains | server/internal/breaks/find.go:296-331 | Each chain returned has at least three spots, spans at most the longest break, and shares at most an endpoint with the next; every cut that starts no chain has too few spots, breaks off too soon, or was passed over inside a chain; the skipping loop ends |
| SpotChains.SpotLengthMeans | server/internal/breaks/find.go:354-362 | A gap is a spot exactly when it is within half a second of 2 to 25 times five seconds |
| SpotChains.InsideMeans | server/internal/breaks/find.go:421-426 | The cuts counted in a span are those within half a second of some moment of it |
| SpotChains.Follow | server/internal/breaks/find.go:319-324 | Follows the links exactly as far as they stay within the longest break |
| SpotChains.SpotsWithin | server/internal/breaks/find.go:420-438 | The most spots of any chain of the cuts inside the span that the search gets to, and with grid times in order of any chain of them |
| SpotChains.WiderNeverFewer | server/internal/breaks/find.go:420-438 | For any grid times, the count returned for a wider span is never lower |
| BreakMerge.Merge | server/internal/breaks/find.go:367-378 | The loop over the sorted spans gives the breaks that adding them one by one defines |
| BreakMerge.HullsOfGroups | server/internal/breaks/find.go:367-378 | The breaks are the hulls of the spans cut into groups of neighbours |
| BreakMerge.MergedApart | server/internal/breaks/find.go:367-378 | The breaks are in order and do not overlap |
| BreakMerge.OverlapsAreJoined | server/internal/breaks/find.go:371-374 | Every span lies in a break, and spans that overlap lie in the same one |
| BreakMerge.ApartForAReason | server/internal/breaks/find.go:371-374 | No two neighbouring breaks would still be joined: too far apart, too long together, or the logo back between |
| BreakMerge.JoinsExactlyWhen | server/internal/breaks/find.go:367-378 | A span joins the break before it exactly when at most 40 s lie between, the two stay within 240 s unless they overlap, and, unless under a second lies between or no logo is known, half or more of the seconds known between have the logo off, and some are known |
| BreakMerge.MoreMerged | server/internal/breaks/find.go:367-378 | One more span grows the last break exactly then, and else starts a break |
| BreakMerge.TwoMerged | server/internal/breaks/find.go:367-378 | Two spans are merged exactly then |
| BreakMerge.MergingTwiceIsOnce | server/internal/breaks/find.go:367-378 | Merging the breaks again with the same logo changes nothing |
| BreakMerge.OrderOfTiesCannotMatter | server/internal/breaks/find.go:368-368 | When different spans start at different times the unstable sort cannot change the breaks |
| BreakMerge.TiesCanMatter | server/internal/breaks/find.go:368-368 | Two spans with one start after a short one, sorted either way, give different breaks |
| BreakMerge.TieMattersExactlyWhen | server/internal/breaks/find.go:367-378 | For two neighbouring spans with one start, after any spans and before any others, the two orders give different breaks exactly when the tie splits: only the shorter joins the break before, or neither does and an empty one meets one too long for it |
| BreakMerge.OrderMattersExactlyWhen | server/internal/breaks/find.go:367-378 | All orders the unstable sort may leave give the same breaks exactly when no tie splits in any of them |
| BreakMerge.OffShare | server/internal/breaks/find.go:279-291 | The share times the number of known seconds between the times is the number of them with the logo off; with none known it is 0 |
| SoundRuns.LongestFirst | server/internal/breaks/intro.go:291-308 | Of any runs, whatever order the sort by length leaves: those kept come by start, do not overlap, are among the runs, and every other run clashes with a kept one at least as long |
| SoundRuns.ClashSharesHop | server/internal/breaks/intro.go:297-297 | Runs of positive length clash exactly when they cover a hop of the first recording together |
| SoundRuns.KeptOrOutdone | server/internal/breaks/intro.go:293-305 | A run is kept or clashes with a kept one at least as long |
| SoundRuns.OrderMattersExactlyWhen | server/internal/breaks/intro.go:292-292 | The unstable sort cannot change which runs are kept exactly when no two different runs of one length clash with no longer kept run in the way of either |
| SoundRuns.OneOrderByStart | server/internal/breaks/intro.go:306-306 | Kept runs of positive length start apart, so the sort by start has one result |
| LibraryBudget.HoursStayWithinBudget | server/internal/dvr/breakqueue.go:276-326 | Over any run with a clock that does not go back, any hour holds at most six library reads within the byte budget, or a single read of any size, and the pruned history decides every read as the whole history would |
| LibraryBudget.ReadExactlyWhenRoom | server/internal/dvr/breakqueue.go:276-316 | In any run a library file is read exactly when fewer than six were read in the last hour and none, or bytes to spare for it, of the budget |
| LibraryBudget.NoHourOverBudget | server/internal/dvr/breakqueue.go:276-326 | From an empty history no hour holds more than six reads, or more bytes than the budget unless it is one read |
| LibraryBudget.SameVerdict | server/internal/dvr/breakqueue.go:299-326 | Pruning in place changes no verdict now or later |
| LibraryBudget.ReadKeepsHours | server/internal/dvr/breakqueue.go:285-316 | A read that was let through leaves every hour within the limits |
| LibraryBudget.Spending.TryRead | server/internal/dvr/breakqueue.go:172-189 | Room, bytes and the note, each at its own reading of the clock, keep the history as modelled |
| LibraryBudget.Spending.Prune | server/internal/dvr/breakqueue.go:318-326 | Keeps, in place and in order, the reads less than an hour old |
| LibraryBudget.Spending.BytesFit | server/internal/dvr/breakqueue.go:301-311 | The first read of an hour fits; a later one fits when the sum stays within the budget |
| LibraryBudget.Spending.Note | server/internal/dvr/breakqueue.go:313-316 | Adds the read to the pruned history |
| BreakQueue.Queue.Push | server/internal/dvr/breakqueue.go:114-119 | A recording is queued once, at the end; queued stays the set of what waits |
| BreakQueue.Queue.EnqueueLibrary | server/internal/dvr/breakqueue.go:366-382 | With nothing waiting, the next library file goes in alone or is held |
| BreakQueue.Queue.SetAside | server/internal/dvr/breakqueue.go:146-153 | A blocked library file at the head leaves the queue and is held; nothing else moves |
| BreakQueue.Queue.TakeHead | server/internal/dvr/breakqueue.go:154-162 | Takes the head, what arrived during the wait queued behind it |
| BreakQueue.QueuedOnce | server/internal/dvr/breakqueue.go:114-119 | Queueing any ids keeps what waits in place, adds each recording once and loses none |
| CodeTries.TriesStayWithinCaps | server/internal/httpapi/auth.go:378-469 | Over any run of attempts, code tries and tries given back, with a clock that does not go back, no ten minutes hold more tries not given back than the cap of their list, and the pruned lists decide every call as the whole history would |
| CodeTries.AllowedExactlyWhenLeft | server/internal/httpapi/auth.go:378-417 | In any run a code is taken exactly when in the last ten minutes fewer than ten failures of its address and thirty of its side count, and a pairing when its address also has fewer than ten attempts |
| CodeTries.NoWindowOverCap | server/internal/httpapi/auth.go:378-469 | From empty lists no ten minutes hold more than ten tries of an address or thirty of a side |
| CodeTries.GivenBackIsUntaken | server/internal/httpapi/auth.go:398-433 | A code that was not wrong, given back, leaves every list as it was |
| CodeTries.SameVerdict | server/internal/httpapi/auth.go:455-469 | Pruning in place changes no verdict now or later |
| CodeTries.SinceWithoutLast | server/internal/httpapi/auth.go:419-433 | Giving a try back and pruning may come in either order |
| CodeTries.WindowWithoutLast | server/internal/httpapi/auth.go:419-433 | Giving a try back adds to no window |
| CodeTries.Pairing.TakeCodeTry | server/internal/httpapi/auth.go:401-417 | A try is recorded in both lists or in neither, and the two answers left unread are always yes |
| CodeTries.Pairing.PairAllowed | server/internal/httpapi/auth.go:380-396 | An attempt is refused when either failure cap is full, and otherwise counted against its address |
| CodeTries.Pairing.GiveBackCodeTry | server/internal/httpapi/auth.go:419-433 | Removes the last hit of that time from each list that has one |
| CodeTries.Pairing.HitAllowed | server/internal/httpapi/auth.go:455-469 | Prunes the list and adds the hit exactly when the pruned list is below its limit |
| CodeTries.Pairing.CountRecent | server/internal/httpapi/auth.go:444-453 | Counts the hits inside the window |

## Left out

- SectionStream.ReassemblyUndoesPacketising: a section still being sent at the end of the run is in flight, not put out; sections are at most 4096 bytes and at least 8, header and CRC included.
- SectionStream.LossOnlyDrops: at most 14 packets in a row are lost per id, because the 4-bit counter cannot tell more.
- Fft.Transform: exact in the ring; floating-point rounding, the Hann window and the band energies are not modelled.
- ComplexNumbers.SmallRootsWork: sizes up to four; the roots beyond need square roots, which Dafny's reals do not provide, so `ComplexNumbers.ExactRootsWork` takes them as given.
- LibraryClock.ScheduleFrom: exact real seconds; the truncation of a float to nanoseconds is not modelled. Day lengths, time zones and daylight saving enter as the given midnight.
- StorageCleanUp.PreviewTellsTheTruth: one instant, one process, distinct rows and successful deletes; two clean-ups at once, a failing unlink and rows changing in between are not modelled, though a row is read again before it goes.
- CaptionCues.CaptionFollowsScreen: runs that move text off the roll-up window are excluded, and `CaptionCues.PreambleTells` says exactly when that happens.
- CaptionDelivery.CaptionBecomesCue: pop-on captions whose lines have text and no space at either end; for typed text `CaptionCues.CaptionFollowsScreen` says what the cues tell.
- CodeTries.TriesStayWithinCaps: the clock is read outside the lock in the source; the statement is for calls that take the lock with a clock that does not go back, and for addresses that do not spell the name of a server-wide list.
- LibraryBudget.HoursStayWithinBudget: sums are unbounded integers, and the clock does not go back.
- Reorder.ShownInDisplayOrder: the timeline spans less than half the 33-bit clock.
- CaptionBytes.CaptionsSurviveCarriage: at most two trailing bytes after the messages of a unit, and no unit ending in an escape for trailing zero bytes.
- Transport-stream parsing in the caption reader (PAT, PMT, PES headers) and MPEG-2 user data: parsing of fixed layouts.
- Resynchronisation of packets to 188 bytes, which is not part of this model: packets come aligned.
- The preview's rows for later, such as holds, recordings made again and keep rules per pass (server/internal/dvr/preview.go:209-243 and the functions they call): listings with no order or sums to get wrong.
- Matching airings to passes, marking running and library recordings (server/internal/dvr/plan.go:49-230, server/internal/dvr/rules.go:1-96): text rules and flags set before the sweep.
- Applying a suggestion as a one-off pass and the live-TV warning (server/internal/dvr/conflict.go:204-330): single decisions without state.
- The other cues of the break finder: black frames, silences, logo gaps, snapping and confidence (server/internal/breaks/find.go:35-290, 402-417), which are thresholds on measurements.
- Finding the runs of shared sound and matching known spots (server/internal/breaks/intro.go:158-288, server/internal/breaks/spots.go): votes and bit-count thresholds; the choice among the runs found is `SoundRuns`.
- Validity of a host name, the calls to Cloudflare and the decryption of the certificate in the sign-in: each answers with an arbitrary outcome.
- Retries and giving up in the break queue (server/internal/dvr/breakqueue.go:194-251): a counter per recording.
- Access scopes, pairing codes and cookies (server/internal/httpapi/auth.go:1-376), HTTP handlers, discovery, ffmpeg and all other I/O.
