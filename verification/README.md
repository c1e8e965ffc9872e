# Verified models of the V1 Simple firmware and its tools

This project models, in Dafny 4.11, the parts of the repository where a mistake
would not show in one function: the audio job protocol of the firmware, the
display flush, and several tools and helpers that promise something about whole
runs, whole streams or whole files. `dafny verify dfyconfig.toml` checks
everything; there is nothing to run.

How the modules follow the program:

- **Audio job protocol.** `AudioReceipt` and `AudioI2c` are the objects the
  protocol uses. `AudioProtocol` is the step machine: a main-loop task, one worker
  task and callers that cancel or free receipts, each step making at most one
  access to shared state, in every interleaving; storage, I2C and I2S outcomes are
  arbitrary, and a bus write that reports failure may have landed or not.
  `AudioInvariants` shows what each step keeps, `AudioTheorems` what follows for
  every reachable state and every run, and `AudioConversation` what each job asks of
  the outside, in which order, and what it has done when it is finished.
- **Codec volume.** `VolumeProtocol` interleaves two tasks that apply a volume
  request which can change at any moment, and the codec initialisation.
- **PCM of a job.** `ClipStream` is the clip loop with its chunk buffers.
- **Display flush.** `QspiFlush` holds `writePixels` as upstream ships it and as the
  build patches it, over an SPI engine that may read the buffer in flight at any time.
- **Web server helpers.** `RateLimiter` (ring buffer on a wrapping 32-bit clock),
  `ClientWriter` (retrying writer under a buffered printer).
- **Logo.** `LogoRow` is the run-length row decoder over arbitrary tables.
- **USB profiles.** `Utf8`, `ProfileNames`, `ProfileMigration` (version 1 to 5) and
  `LineSplitter`.
- **Release publication.** `ReleasePublication` runs any number of competing
  publishers over one remote.
- **Camera cleanup.** `CameraCleanup` is the marker and unlink loop with a stop
  possible after every effect.
- **Web bundle digest.** `BundleDigest` is the length framing fed to the hash.
- `Wrappers`, `Bytes` and `Sequences` hold what several models share.

Four results are about where the code does *not* meet the plain statement, each with
the exact condition:

- The unlocked comparison in `audio_apply_pending_volume` can answer Ok over a register
  that holds another level, in two ways: the other task applies a level between its two
  reads (`UnlockedOkCanBeStale`), or has written one before the first read and not yet
  stored it, even with the two reads back to back (`BackToBackOkCanBeStale`).
  `UnlockedOkExactly` says for every interference when the answer is right: the last
  write that landed in between, or else the one not yet stored at the first read, must
  encode like the level seen.
- Profile names that are canonical but start with a Unicode blank followed by a dot
  or underscore cannot be used as a migration stem: `SomeCanonicalStemRefused`, with
  the exact condition in `CandidateAccepted` and, for whole bundles, in `Migrate`.
- The rate limiter forgets that a request has expired when its age wraps.
  `ExactDecisionGaps` says after which gaps the next call is decided as the limit is
  meant, whatever run of calls came before: gaps of at most 2^32 - 60000 ms, and longer
  ones whose remainder modulo 2^32 lies between 60000 and 2^32 - 60000. For every other
  gap `UnsafeGapRefusesWrongly` gives a run of 120 calls after which a call is refused
  that the limit admits. `ExactGaps` says the same of eviction, and `Serve` shows that
  along safe gaps every decision and every retry time is that of the limit on real
  time. The bound of 120 holds for all gaps.
- After a failed push, publication fetches main, fetches tags and looks the tag up
  remotely as three observations, and reads the marker from the local tag.
  `MisreportExactly` says which runs can be made to report a rival's tag as their own:
  those whose tag is not there at the start while main is still at or below their base.
  If others never put the release commit on main without its tag, the commit must be on
  main at the start as well (`ConsiderateMisreportExactly`). With a single observation
  no run misreports.

## Model

| member | source | states |
|---|---|---|
| `AudioI2c.Expander.SetPin` | src/audio_i2c_utils.cpp:60-99 | Whatever read or write fails, no other pin is disturbed and this pin ends in one of the listed states; it gives up exactly at the first of the four transactions that fails, and reports that failure |
| `AudioI2c.Expander.SetSpeakerAmp` | src/audio_beep.cpp:68-80 | Busy exactly if the lock was not got, and then no transaction took place; Ok means the pin is driven as asked; a failed write may have left it either way |
| `AudioInvariants.StepSafe` | src/audio_voice.cpp:114-378 | Every enabled step of the main loop, the worker or a canceller keeps the claim, job, parameter, receipt and history invariants |
| `AudioInvariants.StepAmp` | src/audio_voice.cpp:91-106 | Every step keeps: an output that may be asserted is accounted for by amp_is_warm or by where the worker stands |
| `AudioInvariants.SettleOutcome` | src/audio_voice.cpp:167-187 | Settling the pending job decides between cancellation and start once, and leaves every other job's outcome alone |
| `AudioInvariants.AppendAccess` | src/audio_voice.cpp:118-126 | The log of receipt accesses stays free of accesses after the settling one |
| `AudioTheorems.RunKeepsInvariants` | src/audio_voice.cpp:251-378 | The invariants hold at the end of every run, of any length and interleaving |
| `AudioTheorems.ReachableIsSafe` | src/audio_voice.cpp:251-378 | Every reachable state satisfies them |
| `AudioTheorems.ReceiptLifetime` | src/audio_voice.cpp:114-187 | The worker touches only its own job's live, still owned receipt; the store that ends ownership is the job's last access; every finished job with a receipt has one |
| `AudioTheorems.SettledReceiptIsFree` | include/audio_playback_receipt.h:32-35 | Once isOwned is false no worker step touches the receipt, so the caller may reuse or free it |
| `AudioTheorems.CancellationOrPcm` | src/audio_voice.cpp:120-126 | A granted cancellation means no PCM of that job ever and a final CancelledBeforeStart; for a finished job with a receipt, Started if and only if PCM was submitted, cancelled if and only if a cancellation was granted |
| `AudioTheorems.HistoryOnlyGrows` | src/audio_voice.cpp:167-187 | Granted cancellations, submitted PCM and final states are never taken back by any later step |
| `AudioTheorems.IdleServiceOwnsAmplifier` | src/audio_voice.cpp:192-249 | Whenever no job plays, an asserted amplifier output implies amp_is_warm, over all retry, failure and cancellation paths |
| `AudioTheorems.OneJobAtATime` | src/audio_voice.cpp:130-165 | Slot, parameters and buffers belong to one job at a time; accepted jobs are run exactly once, in order, on their own paths cut to 47 characters; a finishing worker clears only its own handle |
| `AudioTheorems.WorkerProgress` | src/audio_voice.cpp:192-378 | Every worker step of a job strictly lowers an explicit step budget, so retries and clips cannot go on for ever |
| `AudioTheorems.JobFinishesWithinBudget` | src/audio_voice.cpp:192-378 | On every interleaving a job is done once the worker has taken as many steps as the budget says |
| `AudioTheorems.DoneNeverShrinks` | include/audio_task_utils.h:34-40 | A released claim is never un-released along a run |
| `AudioTheorems.StartIsDecided` | src/audio_voice.cpp:130-165 | A start changes nothing while a job has the claim, and otherwise can be brought by main steps alone to acceptance with the worker notified |
| `AudioTheorems.IdleServiceSwitchesOff` | src/audio_voice.cpp:613-640 | Idle service that finds a warm amplifier, no job and a working bus switches it off and gives up its ownership |
| `AudioConversation.WorkerTells` | src/audio_voice.cpp:192-378 | Every worker step asks what may come next and leaves the job where its answers and clips say it is |
| `AudioConversation.StepTalks` | src/audio_voice.cpp:114-378 | Every step of anyone keeps that for all jobs |
| `AudioConversation.QuestionsInOrder` | src/audio_voice.cpp:192-358 | In every run the questions of a job come in one order, each after a good answer: receipt, I2S, codec, receipt, volume, receipt, amplifier, receipt, up to three times; then assets; then per clip and chunk of 1024 bytes receipt, read, volume, claim and write until nothing is left |
| `AudioConversation.ClipsOpenInOrder` | src/audio_voice.cpp:276-302 | At any time a job has opened its first clips, in order, and was heard only if one of them held anything |
| `AudioConversation.FinishedJobsPlayInFull` | src/audio_voice.cpp:276-358 | A finished job that was not cancelled, did not fail to start three times, had its assets and got no bad answer has opened all its clips in order and was heard exactly if one of them held anything |
| `AudioConversation.UntroubledJobsPlayInFull` | src/audio_voice.cpp:276-376 | With only good answers and no cancellation, moreover, the receipt ends Started exactly then |
| `AudioConversation.TroubledJobsSwitchOff` | src/audio_voice.cpp:167-249 | A finished job whose attempt to switch the amplifier on may have reached it, and that was cancelled, failed to start or broke off, asked for it to be switched off |
| `AudioReceipt.AudioPlaybackReceipt.RequestCancellation` | include/audio_playback_receipt.h:22-25 | Succeeds exactly from Pending, and then the state is CancelRequested; otherwise nothing changes |
| `AudioReceipt.AudioPlaybackReceipt.TryStart` | include/audio_playback_receipt.h:27-30 | Succeeds exactly from Pending, and then the state is Started; so it and a cancellation cannot both win |
| `AudioReceipt.AudioPlaybackReceipt.IsOwned` | include/audio_playback_receipt.h:32-35 | True exactly in the two states in which the caller must keep the receipt |
| `VolumeProtocol.StepKeeps` | src/audio_beep.cpp:291-325 | Every step of setter, worker or initialisation keeps the lock, sample and register invariants |
| `VolumeProtocol.ReachableInv` | src/audio_beep.cpp:291-325 | They hold in every reachable state |
| `VolumeProtocol.WritesNeverGoBack` | src/audio_beep.cpp:299-309 | On every interleaving the register receives requests in the order they were made |
| `VolumeProtocol.RegisterChangesAreWrites` | src/audio_beep.cpp:302-309 | With the codec up, every change of register 0x32 is one of those writes and encodes its request |
| `VolumeProtocol.RegisterEncodesApplied` | src/audio_beep.cpp:246-251 | With the codec initialised and the bus lock free, applied_volume_percent is set and the register encodes it |
| `VolumeProtocol.LockedOkIsCurrent` | src/audio_beep.cpp:310-312 | A call that took the lock answers Ok only while the register holds the current request |
| `VolumeProtocol.CallWrites` | src/audio_beep.cpp:291-313 | An undisturbed call that finds the lock free and a request not yet applied writes it, stores it and answers Ok |
| `VolumeProtocol.RequestIsCurrent` | src/audio_beep.cpp:315-318 | A request is current at once, cut to 100, and nothing else changes |
| `VolumeProtocol.UnlockedOkExactly` | src/audio_beep.cpp:292-294 | For every interference between the two unlocked reads: the Ok is right if and only if the last write that landed in between, or with none in between the write not yet stored at the first read, encodes like the level seen |
| `VolumeProtocol.UndisturbedOkIsCurrent` | src/audio_beep.cpp:292-294 | It is right whenever no write lands between the reads and none was unstored at the first, whatever else happens |
| `VolumeProtocol.UnlockedOkCanBeStale` | src/audio_beep.cpp:292-294 | A reachable state in which the unlocked comparison matches although another level was applied between its reads |
| `VolumeProtocol.BackToBackOkCanBeStale` | src/audio_beep.cpp:302-309 | A run in which two reads back to back match and answer Ok while a level already written is not yet stored |
| `VolumeProtocol.Interference` | src/audio_beep.cpp:291-325 | Between the reads of one task the other side only adds requests and writes, and the register changes only with a write |
| `VolumeProtocol.EncodeMonotone` | src/audio_beep.cpp:287-303 | 0 mutes, 1 to 100 span 0x90 to 0xBF, and louder requests never encode lower |
| `ClipStream.StereoConcat` | src/audio_voice.cpp:321-326 | Decoding two pieces and joining them is decoding the joined piece |
| `ClipStream.StereoAt` | src/audio_voice.cpp:321-326 | Both channels of sample k are the table entry of byte k, wherever chunk borders fall |
| `ClipStream.AnnouncementPrefix` | src/audio_voice.cpp:276-291 | The clips up to and including one are a prefix of the whole announcement |
| `ClipStream.PartialIsPrefix` | src/audio_voice.cpp:304-326 | Any number of decoded bytes of the clip in play still is a prefix of the announcement |
| `ClipStream.DecodeChunk` | src/audio_voice.cpp:321-326 | The stereo buffer ends up holding the expansion of the bytes read |
| `ClipStream.ChunksCarryClip` | src/audio_voice.cpp:304-352 | The writes of a clip, cut into chunks of at most 1024 bytes, together carry its expansion |
| `ClipStream.ScriptCarriesAnnouncement` | src/audio_voice.cpp:276-358 | The writes of a run that meets no bad answer together carry the announcement, skipped clips adding nothing |
| `ClipStream.PlayChunk` | src/audio_voice.cpp:305-352 | One chunk: cancellation, read, volume, claim and write are asked in this order, up to the first bad answer |
| `ClipStream.PlayClip` | src/audio_voice.cpp:297-352 | One clip asks chunk after chunk and submits the samples of the writes asked for |
| `ClipStream.PlayNext` | src/audio_voice.cpp:276-358 | One pass asks for cancellation and metadata, and for a clip that is there its file and chunks |
| `ClipStream.PlayClips` | src/audio_voice.cpp:276-358 | The questions asked begin the script and stop exactly at the first bad answer, the samples submitted being those of its writes; so they are a prefix of the expansion of the present clips in list order, and all of it when no answer went wrong |
| `QspiFlush.WordPathMatches` | scripts/patch_arduino_gfx_qspi.py:157-166 | For all pixel pairs, the byte-swapped word store is the two-pixel store |
| `QspiFlush.StreamConcat` | scripts/patch_arduino_gfx_qspi.py:74-119 | The byte stream of joined pixel runs is the joined byte streams |
| `QspiFlush.TrafficCarriesStream` | scripts/patch_arduino_gfx_qspi.py:81-116 | The payloads of all chunks together are the pixel stream: nothing lost, repeated or reordered |
| `QspiFlush.TrafficShape` | scripts/patch_arduino_gfx_qspi.py:81-116 | Each start is followed by its end before the next start; the first carries command 0x32 and address 0x003C00 and the others neither; all chunks but the last are full |
| `QspiFlush.FlushWellFramed` | scripts/patch_arduino_gfx_qspi.py:74-119 | A call is chip select, then such starts and ends, then chip release, and its payloads are the pixels |
| `QspiFlush.StreamAt` | scripts/patch_arduino_gfx_qspi.py:98-108 | Each pixel goes out high byte first |
| `QspiFlush.Spi.PollingEnd` | scripts/patch_arduino_gfx_qspi.py:182-186 | Whatever bytes were fetched early or late, the transfer carries what the buffer held when it started |
| `QspiFlush.PackPairs` | scripts/patch_arduino_gfx_qspi.py:167-175 | Packs the even part of a chunk into a buffer other than the one in flight |
| `QspiFlush.PackWords` | scripts/patch_arduino_gfx_qspi.py:157-166 | The word loop leaves the same bytes as the pair loop, also beside the one in flight |
| `QspiFlush.PackTail` | scripts/patch_arduino_gfx_qspi.py:176-180 | Completes an odd chunk; the buffer holds the chunk's whole stream |
| `QspiFlush.WritePixelsUpstream` | scripts/patch_arduino_gfx_qspi.py:74-119 | For every pixel sequence the wire sees chip select, full chunks but for the last, each ended before the next, command and address with the first only, and chip release |
| `QspiFlush.WritePixelsPatched` | scripts/patch_arduino_gfx_qspi.py:121-215 | For every pixel sequence and source address, the wire sees exactly what it sees from upstream, so framed, although packing overlaps transfers; nothing is in flight at the end |
| `RateLimiter.ElapsedIsWrappedAge` | include/wifi_rate_limiter.h:46 | Unsigned 32-bit subtraction gives the real age modulo 2^32 |
| `RateLimiter.EvictedAreOld` | include/wifi_rate_limiter.h:48-53 | Whatever the gap, no request less than a window old is forgotten |
| `RateLimiter.EvictIsExact` | include/wifi_rate_limiter.h:48-53 | After a safe gap, and from an empty ring after any, eviction leaves only requests of the last window |
| `RateLimiter.UnsafeGapKeepsExpired` | include/wifi_rate_limiter.h:48-53 | For every other gap there is a run of calls whose first request, expired by then, stays listed in the ring that run leaves |
| `RateLimiter.UnsafeGapRefusesWrongly` | include/wifi_rate_limiter.h:27-43 | For every other gap there is a run of 120 calls after which the code refuses a call that the limit on real time admits |
| `RateLimiter.SafeRunIsExact` | include/wifi_rate_limiter.h:27-53 | After every run of safe gaps the ring lists exactly the recent ones of what the limit as meant admitted |
| `RateLimiter.ExactGaps` | include/wifi_rate_limiter.h:48-53 | Eviction after a gap is exact for the ring of every safe run before it if and only if the gap is at most 2^32 - 60000 or its remainder modulo 2^32 is between 60000 and 2^32 - 60000 |
| `RateLimiter.ExactDecisionGaps` | include/wifi_rate_limiter.h:27-43 | The call after a gap is decided as the limit on real time for every safe run before it if and only if the gap is such |
| `RateLimiter.RetryIsLeastWait` | include/wifi_rate_limiter.h:32-36 | With a full exact ring, a call after the returned retryAfterMs is admitted by the ring and any earlier one is not |
| `RateLimiter.WindowNeverOverfull` | include/wifi_rate_limiter.h:27-43 | Admissions a full ring apart being a window apart means no 60000 ms window holds more than 120 |
| `RateLimiter.SlidingWindowRateLimiter.EvictExpired` | include/wifi_rate_limiter.h:48-53 | The ring loop refines eviction on the list of real times |
| `RateLimiter.SlidingWindowRateLimiter.Evaluate` | include/wifi_rate_limiter.h:27-43 | The ring refines the list decision on real times for every non-decreasing clock, and an exact ring stays exact over a safe gap |
| `RateLimiter.RingListsLastWindow` | include/wifi_rate_limiter.h:27-53 | An exact ring lists precisely the admissions of the last window |
| `RateLimiter.ExactDecision` | include/wifi_rate_limiter.h:27-43 | After a safe gap the ring admits exactly if fewer than 120 admissions are less than a window old in real time |
| `RateLimiter.LeastWait` | include/wifi_rate_limiter.h:32-36 | When refused, the limit on real time first admits again when the oldest listed request reaches a window |
| `RateLimiter.Serve` | include/wifi_rate_limiter.h:27-53 | For every run of calls the ring decides as its list does and no window lets more than 120 through; as long as the gaps are safe each decision is that of the limit on real time and each retryAfterMs is the least wait that gets admitted |
| `RateLimiter.LimitHolds` | include/wifi_rate_limiter.h:27-43 | In every state of the limiter, no window of its history is overfull, whatever the clock did |
| `ClientWriter.WriteAll` | include/client_write_retry.h:49-106 | For any client and clock it terminates, delivers a prefix, and returns true exactly for all of it; it gives up exactly at the first answer that leaves bytes over with the retries or the window used up, and pauses after each zero-length write before that by the backoff for its place, bounded by the window |
| `ClientWriter.BackoffDoubles` | include/client_write_retry.h:85-88 | The backoff doubles up to its maximum exactly while the double fits 16 bits |
| `ClientWriter.PausesBounded` | include/client_write_retry.h:70-83 | No pause exceeds the configured backoff nor the window |
| `ClientWriter.BufferedClientPrint.FlushBuffer` | include/json_stream_response.h:61-73 | Success means all accepted bytes are delivered by one writer call; failure only if that call used up its retries or window; after a failure nothing more is ever delivered |
| `ClientWriter.BufferedClientPrint.Write` | include/json_stream_response.h:37-59 | Until failure, delivered plus buffered bytes are all accepted bytes, and what fits the buffer is not sent yet; after it, delivered is a prefix and does not grow |
| `ClientWriter.SendJsonStream` | include/json_stream_response.h:85-100 | The client gets the whole document, one of up to 512 bytes in one writer call, or is stopped with a prefix of it after a call that used up its retries or window |
| `LogoRow.ExpandAt` | include/v1simple_logo.h:1066-1089 | A run covers as many pixels as its upper half says, from its prefix sum on, in the colour of its lower half |
| `LogoRow.ExpandLength` | include/v1simple_logo.h:1066-1089 | The image has as many pixels as the counts sum to |
| `LogoRow.RunPixels` | include/v1simple_logo.h:1075-1088 | Skipping into a run stays inside its pixels, so the 16-bit difference does not wrap |
| `LogoRow.DecodeRow` | include/v1simple_logo.h:1066-1089 | With an index that agrees with the prefix sums, row r is pixels 640r to 640(r+1) of the expansion and nothing else is written; bad arguments change nothing |
| `Utf8.FrontRoundTrip` | scripts/usb_profiles.py:78-85 | An encoded code point is read back from the front of any byte string |
| `Utf8.FrontIsEncoding` | scripts/usb_profiles.py:78-85 | What is read as a code point is its encoding: no over-long forms and no surrogates |
| `Utf8.RoundTrip` | scripts/usb_profiles.py:78-85 | Decoding an encoded text gives the text |
| `Utf8.EncodeInjective` | scripts/generate_web_bundle.py:32 | Different texts have different encodings |
| `Utf8.TruncatedDecodesToNothing` | scripts/usb_profiles.py:85 | A code point cut short leaves nothing behind |
| `Utf8.PrefixIsLongest` | scripts/usb_profiles.py:78-85 | utf8_prefix is the longest whole-code-point prefix within the byte budget |
| `ProfileNames.StripTrims` | scripts/usb_profiles.py:93 | strip removes blanks from both ends and nothing else |
| `ProfileNames.BlankExactly` | scripts/usb_profiles.py:74-93 | The characters that strip removes, with and without an argument, one by one |
| `ProfileNames.CanonicalNameExactly` | scripts/usb_profiles.py:72-75 | A name is canonical exactly if it has at most 64 bytes, no blank at its ends, no leading dot or underscore, no two dots in a row and no refused character |
| `ProfileNames.FoldExactly` | scripts/usb_profiles.py:34-35 | Folding identifies names that differ in the case of ASCII letters and no others |
| `ProfileNames.DecimalIsNumber` | scripts/usb_profiles.py:94 | The ordinal is written as a decimal number without leading zeros |
| `ProfileNames.CandidateAccepted` | scripts/usb_profiles.py:88-99 | A made-up name is accepted, for every ordinal, exactly when stripping the stem uncovers no leading dot or underscore; it is then the suffix after the longest whole-code-point prefix of the stem that fits 64 bytes |
| `ProfileNames.StrippedStemAccepted` | scripts/usb_profiles.py:88-99 | Every canonical stem that strip leaves alone gives a canonical name of at most 64 bytes |
| `ProfileNames.SomeCanonicalStemRefused` | scripts/usb_profiles.py:93-98 | A canonical name with a no-break space before a dot is refused |
| `ProfileNames.DecimalAfterSign` | scripts/usb_profiles.py:94 | Numbers after a number sign can be told apart from the end of the name |
| `ProfileNames.CandidatesNeverCollide` | scripts/usb_profiles.py:88-99 | Names for different ordinals differ even ignoring ASCII case |
| `ProfileNames.SearchEnds` | scripts/usb_profiles.py:327-332 | A search over a clean stem ends within one ordinal more than there are names: thirteen for the twelve a migration can meet |
| `ProfileNames.SomeCandidateFree` | scripts/usb_profiles.py:323-332 | Among one more candidate than there are names, one is free |
| `ProfileNames.Unique` | scripts/usb_profiles.py:327-332 | The first free candidate, with every earlier one in use; for a clean stem it fails exactly if stripping uncovers a leading dot or underscore, and needs at most one try more than there are names |
| `ProfileMigration.ForcedBit` | scripts/usb_profiles.py:339-342 | Forcing bit 0x10 fixes it, leaves the other bits, and overrides an earlier forcing |
| `ProfileMigration.OldRanges` | scripts/usb_profiles.py:237-269 | The ranges that a version-1 slot and profile are held to, value by value |
| `ProfileMigration.SlotSuffixText` | scripts/usb_profiles.py:368-369 | The slot number follows " - Slot " after a profile name and " Slot " otherwise |
| `ProfileMigration.MigratedDescriptionText` | scripts/usb_profiles.py:371-372 | The fixed description of an entry made without a profile |
| `ProfileMigration.EffectiveApplies` | scripts/usb_profiles.py:336-355 | Whether or not the source entry was rewritten by an earlier slot, the effective profile applies what the version-1 slot did |
| `ProfileMigration.LookupFinds` | scripts/usb_profiles.py:222-231 | With names distinct ignoring case, each profile is found by its name |
| `ProfileMigration.ReuseKeeps` | scripts/usb_profiles.py:357-361 | Sharing a variant keeps the loop's invariant, the shared entry being what this slot needs |
| `ProfileMigration.RewriteKeeps` | scripts/usb_profiles.py:362-366 | Rewriting an entry in place disturbs no earlier slot's profile and no unused one |
| `ProfileMigration.AppendKeeps` | scripts/usb_profiles.py:367-376 | Appending a variant under a free name keeps the catalog valid and every placement |
| `ProfileMigration.NameEntry` | scripts/usb_profiles.py:368-370 | The name for an added entry is canonical and free, and refused exactly for an unnameable stem |
| `ProfileMigration.PlaceSlot` | scripts/usb_profiles.py:335-376 | One pass of the loop: succeeds exactly if the slot's entry can be named, and keeps the invariant |
| `ProfileMigration.PlaceSlots` | scripts/usb_profiles.py:308-376 | The loop succeeds exactly if every added entry can be named |
| `ProfileMigration.FinishedValid` | scripts/usb_profiles.py:378-387 | The result passes version-5 validation exactly when the catalog fits and every slot has a colour |
| `ProfileMigration.FinishedPreserves` | scripts/usb_profiles.py:378-387 | The finished bundle selects, for each slot, what the old slot applied under the name made for it, and keeps the slot settings and the unused profiles field by field |
| `ProfileMigration.Migrate` | scripts/usb_profiles.py:290-387 | Success exactly on valid bundles that fit ten entries, have colours and nameable extras; then the result is valid, each slot keeps its own settings and applies the same bytes, mode, display and volume, added entries have the name and description made for their slot, and unreferenced profiles are as they were |
| `LineSplitter.SegmentsRejoin` | scripts/usb_profiles.py:496-508 | Segments and tail put back together are the stream |
| `LineSplitter.SegmentsHoldNoLf` | scripts/usb_profiles.py:496-508 | No segment and no tail holds a line feed |
| `LineSplitter.CutIsUnique` | scripts/usb_profiles.py:496-508 | There is no other way to cut a stream at its line feeds |
| `LineSplitter.LineReader.Lines` | scripts/usb_profiles.py:496-508 | The lines of a chunk are those its bytes add to the stream's, and the kept state depends on the stream alone |
| `LineSplitter.ReadAll` | scripts/usb_profiles.py:496-508 | Any cutting into fully consumed chunks yields the segments of at most 255 bytes, carriage returns stripped, longer ones dropped whole |
| `ReleasePublication.AncestorTransitive` | scripts/release_publication.py:196-207 | Ancestry composes |
| `ReleasePublication.DecidePublishedExactly` | scripts/release_publication.py:73-148 | Each of the six actions exactly: published reports on clean checkouts whose facts show the release out under this run's marker, an attempt when nothing stands in its way, a skip when main has moved on before the push or during it, a failure otherwise |
| `ReleasePublication.EarlyStep` | scripts/release_publication.py:274-331 | Every step before the push keeps what the run knows of the remote |
| `ReleasePublication.LateStep` | scripts/release_publication.py:363-390 | So does every step after it; the one that needs the commit to be with its tag is the refetch of main |
| `ReleasePublication.LandingStep` | scripts/release_publication.py:340-349 | A landing push leaves this run owning the tag with main at its commit |
| `ReleasePublication.Undisturbed` | scripts/release_publication.py:289-416 | What others do to the remote never invalidates what a run knows |
| `ReleasePublication.PushKeepsTogether` | scripts/release_publication.py:340-349 | An atomic push of a well-stacked rival does not put the release commit on main without its tag |
| `ReleasePublication.StackedRivalsAreConsiderate` | scripts/release_publication.py:289-416 | So along every execution of well-stacked runs only outsiders could |
| `ReleasePublication.StepKeepsInv` | scripts/release_publication.py:289-416 | Every event of the run, a rival or an outsider keeps what the run knows |
| `ReleasePublication.TraceKeepsInv` | scripts/release_publication.py:289-416 | So does every execution, in its full form when the lookup can be trusted |
| `ReleasePublication.PublishedExactly` | scripts/release_publication.py:289-416 | On every execution, across lost replies and competing runs, a run from a clean checkout pushes at most once; one that does not publish has no tag of its own there, skips only having seen main away from its base, and is refused only over a tag or with main still at its base after a push; unless it is exposed as below, it reports published only when the remote tag is at its commit with its own run ID |
| `ReleasePublication.RemoteOnlyGrows` | scripts/release_publication.py:340-349 | On every execution main only moves forward and no tag is moved or deleted |
| `ReleasePublication.MovedMainSkips` | scripts/release_publication.py:289-315 | A clean run that finds no tag and main away from its base reports a skip and touches nothing |
| `ReleasePublication.RetryReuses` | scripts/release_publication.py:289-318 | A retry of a run that has published reuses its tag without a push |
| `ReleasePublication.PublishesUndisturbed` | scripts/release_publication.py:320-398 | Undisturbed, with main at its base and its tag free, a run publishes its tag and commit with one push, whether the reply arrives or is lost |
| `ReleasePublication.SplitObservationMisreports` | scripts/release_publication.py:363-390 | Every exposed run, whatever its release, base, rivals and other tags, can be made to report a tag that is not its own |
| `ReleasePublication.NoMisreport` | scripts/release_publication.py:289-416 | A run that is not exposed misreports on no execution |
| `ReleasePublication.MisreportExactly` | scripts/release_publication.py:289-416 | Some execution misreports if and only if the observations are separate, the tag is absent at the start, and main is an ancestor of the base |
| `ReleasePublication.ConsiderateMisreportExactly` | scripts/release_publication.py:289-416 | If nobody puts the release commit on main without its tag: if and only if, besides, the commit is on main at the start |
| `CameraCleanup.DedupedKeepsNames` | scripts/cleanup_camera_videos.py:145-147 | The pending list names each file once and exactly the files given |
| `CameraCleanup.RemoveFirstWithout` | scripts/cleanup_camera_videos.py:158 | Taking a video off the pending list never raises and takes off nothing else |
| `CameraCleanup.FinishedPending` | scripts/cleanup_camera_videos.py:142-147 | What an interrupted run left pending stays pending unless this run removes it |
| `CameraCleanup.StartAccounted` | scripts/cleanup_camera_videos.py:137-152 | Writing the first marker keeps the account of earlier runs |
| `CameraCleanup.UnlinkAccounted` | scripts/cleanup_camera_videos.py:156 | A stop right after an unlink leaves it named as pending |
| `CameraCleanup.RecordAccounted` | scripts/cleanup_camera_videos.py:157-161 | Recording moves it to removed and adds its size |
| `CameraCleanup.RunDirectory.WriteMarker` | scripts/cleanup_camera_videos.py:56-67 | The record on disk is the old or the new one, never a part of one |
| `CameraCleanup.RunDirectory.RemoveVideo` | scripts/cleanup_camera_videos.py:154-161 | At each point where it can stop, the marker on disk accounts for every unlink; it refuses exactly a changed video and stops exactly on a failed effect |
| `CameraCleanup.RunDirectory.RemoveVideos` | scripts/cleanup_camera_videos.py:123-163 | The same for the loop; a finished run has removed and recorded exactly the videos; an unsafe or malformed marker stops it with nothing changed |
| `CameraCleanup.RunDirectory.Select` | scripts/cleanup_camera_videos.py:90-92 | Exactly the regular video files older than the cutoff |
| `CameraCleanup.RunDirectory.Cleanup` | scripts/cleanup_camera_videos.py:90-163 | One pass selects exactly the eligible videos and unlinks only them, only when applying to a finished run with all closed; with nobody else at work it previews, skips, raises or removes them exactly as its inputs say, stopping only on a failed effect |
| `CameraCleanup.RunDirectory.Passes` | scripts/cleanup_camera_videos.py:70-164 | Over any number of passes, with stops and outside changes, every unlinked video is named as removed or pending, every added removed name was unlinked, and the bytes are the sum of the recorded sizes |
| `BundleDigest.ListingUnique` | scripts/generate_web_bundle.py:31 | A file map has one sorted listing |
| `BundleDigest.LessExactly` | scripts/generate_web_bundle.py:31 | Names are ordered by the first code point that differs, a prefix first |
| `BundleDigest.BigEndianInjective` | scripts/generate_web_bundle.py:33-35 | Different lengths have different 8-byte forms |
| `BundleDigest.BigEndianAt` | scripts/generate_web_bundle.py:33-35 | Lengths are written most significant byte first |
| `BundleDigest.FrameSplits` | scripts/generate_web_bundle.py:33-36 | A framed string can be told apart from whatever follows it |
| `BundleDigest.FeedInjective` | scripts/generate_web_bundle.py:28-37 | The framed bytes determine the list of names and contents |
| `BundleDigest.FeedDeterminesFiles` | scripts/generate_web_bundle.py:28-37 | Two file maps feed the hash the same bytes if and only if they are equal |
| `BundleDigest.SortedItems` | scripts/generate_web_bundle.py:31 | The items in code-point order of their names, each entry once |
| `BundleDigest.Digest` | scripts/generate_web_bundle.py:28-37 | Feeds exactly the framed sorted entries; refuses exactly when a length does not fit 8 bytes |

## Left out

- Font, logo and mu-law table contents: the models take arbitrary tables.
- ES8311 register programming beyond the volume step, I2S channel setup, delays and warm-up times: fixed hardware sequences; in the protocol they are steps that succeed or fail.
- When the idle service is due (amp_last_used_ms, retry spacing): the model lets it act or not at any time, which covers every schedule.
- Memory order weaker than sequential consistency: the source uses the default order of std::atomic.
- AudioPlaybackResult values returned to callers of start_sd_audio_task, and the voice announcement builders above it: each follows from one branch.
- SlidingWindowRateLimiter.reset: clears the ring; the window bound is for the history between resets.
- sendJsonStream's HTTP header and content length: only the body passes through the modelled writer.
- Migration of version 2 to 4 bundles, default In-the-Box settings and custom frequencies: field-by-field copies that would only add easy members. JSON parsing and type checks are expressed by the datatypes.
- Text holding lone surrogates: such strings fail validation before anything else looks at them, and the Text type has none.
- Serial transport, command framing and retries of the USB client: I/O around the modelled splitter.
- Several run directories in one cleanup pass, the preview summary and finding run directories: each run has its own marker and the model follows one; lsof is an arbitrary answer.
- The size recorded by cleanup is that of the checked identity: it is the real size as long as nobody writes between a check and its unlink, which the `quiet` case states.
- A push that lands only after the failed push command has returned and the refetch is over, lightweight tags, tag deletion and forced pushes by others: excluded from `ReleasePublication`. Pages deployment eligibility and prepare_release are not modelled.
- SHA-256, gzip, git, CRC32 and JSON internals: taken as given.
- Display layout and caches, settings and battery managers, small policy headers, patch scripts for other libraries, release packaging checks: user interface, wrappers or single branches.
