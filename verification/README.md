# Node agent: protocols and text forms, modelled and proved

A Dafny 4.11 model of the parts of the Quasar node agent whose correctness rests on the order of steps, on
crashes and kills at any point, or on exact text. `dafny verify dfyconfig.toml` checks all of it. Nothing here
executes the agent.

| component | modules |
|---|---|
| Retirement ledger (`home_cleanup.rs`) | `HomeCleanup` (disk and run model), `CleanupLedger` (the object), `KeyOrder` |
| Provisioning lock, backoff, download (`artifact.rs`) | `LockMarker`, `ProvisionLock`, `Backoff`, `Download` |
| Claimed-display reads, idle clock, axis filter (`capacity.rs`, `console_idle.rs`) | `ClaimedDisplay`, `AxisFilter` |
| Fatal-signal reporter (`crash_report.rs`) | `CrashReport` (protocol), `CrashText` (lines and numbers), `CrashMaps` (scanner) |
| Canonical JSON, path containment (`policy_catalog.rs`) | `CanonicalJson`, `JsonString`, `Decimal`, `FieldOrder`, `KeyOrder`, `PathWithin` |
| Enrollment string (`enrollment.rs`) | `Enrollment`, `Base64Url` |
| Owner-marked entries (`owned_entry.rs`) | `OwnedEntry` (runs), `BootPass` (the object) |
| Seal before restart (`restart.rs`) | `Restart` |
| Diagnostic mode (`diagnostic.rs`) | `Diagnostic`, `ResumeWatch` |

`Text` holds what several of them need: Unicode whitespace, UTF-8, splitting.

How to read it. A protocol is a state machine: a `State`, an `Action` for every step that can interleave, fail or be
killed, a function `Step`, an invariant `Inv`, and theorems over every sequence of actions. An object the source
updates in place is a class whose methods are proved against functions on values; system calls that may fail are
nondeterministic choices or parameters. A parser has a printer as its partner, and the other way round.

## What turned out false, and exactly when it holds

- **Ledger size.** `write` has no size limit but `open` refuses a record over 4096 bytes. One over-long session ID, or
  one that only outgrows the bound when it is retired, makes every later open fail for good
  (`OversizeRefusesEveryOpen`). Opens never fail on the ledger's own writes while every record fits
  (`LoadableIffFitting`, `OpenNeverRefused`).
- **Starved monitor reads.** The input watch and the decider each read the clock, the watch first. After a quiet read at
  `at`, a poll with last input L, watch time d and decision time n misses that input exactly when L <= at and
  n - d <= at - L (`MissedInput`); a poll that does not read is served within ten seconds exactly when it did not miss
  (`ServedUnlessMissed`). Polls that do not overlap are always served once the clock moves between their two readings
  (`NoStarvationInRun`). Overlapping polls of the two callers are not: `StarvedRun` is such a run.
- **Magic longer than 64 bytes.** The header check looks at the first reads only; it agrees with the body for every split
  exactly when the magic has at most 64 bytes (`VerdictOfBody`, `LongMagicIsRefused`).
- **Killed while writing the lock marker.** A marker is recognised at once exactly when all of it but the final newline
  was written (`KernelFieldOfPrefix`); otherwise its successor waits for the marker to go stale.
- **Boot-pass counts.** They add up for every listing order and every outcome of the system calls if and only if no
  well-formed ID `x` meets a removable entry directory of this owner with the ID `x.owner` (`CountsAddUpUnlessClash`).
  The callers' ID checks allow that, and `ShortCount` is a listing of two IDs whose counts add up to one. A directory
  that cannot be listed, and an owned marker that cannot be read, both give a summary without errors.
- **Settle time.** A seal means idle in every run if and only if every admission takes less than the settle time
  (`SettleMustOutlast`).
- **Own nested fault.** A second fault on the reporting thread is told apart if and only if it lands between the two
  stores of the thread's ID (`NestedIsRecognised`). One that lands before the first is taken for another thread's, holds
  up the very report it waits for, and waits its two seconds out (`NestedWaitsItOut`); `NestedFaultWaits` is such a run.
- **Lost attempt records.** `note_attempt` and `note_failure` drop the result of their write: the record may stay the old
  one, or no longer parse. A read that fails answers no record. The next attempt is held to this one's wait if and only
  if the record read back is this attempt's, which is to say that the read works and neither write lost it; otherwise
  another may go at the same instant (`HeldIffReadBack`).
- **Backoff exponent.** It is documented as attempts - 1 but stops at 19. The two waits differ if and only if there were
  more than 20 attempts, the base is not zero and base * 2^19 is below the cap (`ExponentStops`).
- **Retained check.** After an observation it explains the present fault if and only if the observation is not older than
  the one held, or both tell the same fault; over a run, if and only if the newest observation told the present fault
  (`ExplainsAfterRetry`, `ExplainsIffNewestAgrees`).
- **Overlapping create and retire.** An entry directory has the marker its create opened if and only if no retire of
  its ID unlinked a marker since that create opened it (`MarkedUnlessUnlinked`). `OverlapLosesMarker` gives two runs that
  leave a directory without one: a retire between the create's open and its mkdir, and a retire that began before the
  create and ends after it. Where no two tasks of one entry overlap it never happens (`EntriesStayMarked`).
- **Order of object fields.** The source calls its text RFC 8785, but its maps are sorted by UTF-8 bytes and section
  3.2.3 asks for UTF-16 units. The two orders agree on a pair of keys if and only if it is not so that, at their first
  difference, one character is at or above U+10000 and the other in U+E000..U+FFFF (`OrdersAgree`). A text has its fields
  in the order of RFC 8785 if and only if no two keys of one object are such a pair (`OrderedUnlessDiverging`);
  `PairOutOfOrder` is one with the keys U+E000 and U+10000.
- **Numbers by their digits.** A float prints its shortest digits, so an integer and a float print alike exactly when the
  integer is those digits padded with zeros (`IntegerPrintsLikeFloat`). The double 2^63 and the integer
  9223372036854776000 are 192 apart and have one text (`PaddedDigitsCollide`).

Where code and documentation disagree the model follows the code; `path_within` also cleans a relative candidate as if
it were absolute.

## Model

| member | source | states |
|---|---|---|
| HomeCleanup.VerdictNeverChanges | node-agent/src/home_cleanup.rs:164-186 | over every run with failed writes, process crashes and machine crashes at any sub-step, once `retire` or `state` answers k for an ID every later answer in every later process is k |
| HomeCleanup.AcceptedOnce | node-agent/src/home_cleanup.rs:152-162 | over the same runs `record_active` answers true at most once per ID, across all process lifetimes |
| HomeCleanup.RetiredNeverAccepted | node-agent/src/home_cleanup.rs:152-179 | an ID with a verdict is never accepted afterwards |
| HomeCleanup.StepInv | node-agent/src/home_cleanup.rs:67-221 | every step of open, write, crash and reboot keeps the ledger invariant: files are complete once renamed, and what memory holds is durable |
| HomeCleanup.StepPromised | node-agent/src/home_cleanup.rs:202-221 | a verdict once given stays on disk and in memory through every step |
| HomeCleanup.AnswerPromises | node-agent/src/home_cleanup.rs:164-186 | giving a verdict makes it permanent, because open syncs the directory before it reads |
| HomeCleanup.CrashKeepsFixed | node-agent/src/home_cleanup.rs:84-87 | a name with one possible content keeps it whatever subset of pending renames a machine crash leaves |
| HomeCleanup.LoadableIffFitting | node-agent/src/home_cleanup.rs:93-129 | a directory the ledger wrote loads if and only if every record is within 4096 bytes |
| HomeCleanup.OpenNeverRefused | node-agent/src/home_cleanup.rs:93-129 | while records fit, no crash of the ledger's own writes makes a later open fail to parse |
| HomeCleanup.OversizeRefusesEveryOpen | node-agent/src/home_cleanup.rs:105-114 | after any successful write of a record over the bound, active or retired, every later open is refused |
| HomeCleanup.LongIdsDoNotFit | node-agent/src/home_cleanup.rs:105-114 | an ID of 4063 characters is already over the bound |
| HomeCleanup.RetiredIsLonger | node-agent/src/home_cleanup.rs:35-44 | retiring lengthens a record, so an accepted ID may outgrow the bound when retired |
| CleanupLedger.LoadRecords | node-agent/src/home_cleanup.rs:93-129 | the scan answers the map of all records if the directory is loadable and refuses it otherwise, skipping unfinished temps |
| CleanupLedger.Open | node-agent/src/home_cleanup.rs:67-131 | an opened ledger is a point of a run: what it holds is synced before it is read; a failed open is one too, and ended in a failed step or at an entry that is no record |
| CleanupLedger.HomeCleanupLedger.Write | node-agent/src/home_cleanup.rs:202-221 | temp, fill, sync, rename, directory sync; success means the record is durable, failure at any step keeps the invariant |
| CleanupLedger.HomeCleanupLedger.Install | node-agent/src/home_cleanup.rs:218-220 | from the synced temp on: rename over the record and sync the directory |
| CleanupLedger.HomeCleanupLedger.RecordActive | node-agent/src/home_cleanup.rs:152-162 | true exactly for an ID not known before, then on disk; false leaves everything alone; an error leaves memory alone |
| CleanupLedger.HomeCleanupLedger.Retire | node-agent/src/home_cleanup.rs:164-179 | the verdict already recorded if there is one, else the one asked for once it is durable |
| CleanupLedger.HomeCleanupLedger.StateOf | node-agent/src/home_cleanup.rs:181-186 | the verdict of a retired ID, nothing for an active or unknown one |
| CleanupLedger.HomeCleanupLedger.ActiveIds | node-agent/src/home_cleanup.rs:137-143 | the active IDs, each once, in key order |
| CleanupLedger.HomeCleanupLedger.RetireAbsent | node-agent/src/home_cleanup.rs:144-148 | retires as failed exactly a prefix of the IDs, each proved absent first; stops short only at an ID whose absence was not proved or whose write failed |
| CleanupLedger.HomeCleanupLedger.RecoverActive | node-agent/src/home_cleanup.rs:133-150 | retires as failed exactly a prefix, in key order, of the active IDs, each proved absent; stops short only at an unproved absence or a failed write; Ok leaves none active |
| CleanupLedger.HistoryIsRun | node-agent/src/home_cleanup.rs:60-222 | whatever the methods did is a run of the state machine, so its theorems hold of the object |
| CleanupLedger.AnyIdAccepted | node-agent/src/home_cleanup.rs:152-162 | a fresh ledger accepts any ID, however long |
| LockMarker.KernelFieldOfPrefix | node-agent/src/artifact.rs:430-437 | a prefix of the marker text names the kernel lock if and only if it lacks at most the final newline |
| LockMarker.OwnWindow | node-agent/src/artifact.rs:463-476 | an agent's own marker has the five-minute takeover window |
| LockMarker.AcquireMarker | node-agent/src/artifact.rs:369-425 | the two-attempt loop takes over a marker if and only if it names the kernel lock or is older, to the nanosecond, than its window |
| LockMarker.CompleteMarkerIsReplaced | node-agent/src/artifact.rs:369-425 | a killed holder's complete marker is replaced whatever its age |
| ProvisionLock.LockSafety | node-agent/src/artifact.rs:349-456 | from any leftover markers, for any number of agents killed at any step: one holder per path, each live Lock's marker is its own, and each process's counter is the number of its live Locks |
| ProvisionLock.NobodyElseTouchesTheMarker | node-agent/src/artifact.rs:369-425 | no other agent, heartbeat or death unlinks or rewrites a live holder's marker |
| ProvisionLock.LateBeatMissesSuccessor | node-agent/src/artifact.rs:441-456 | a heartbeat that outlives its Lock writes an inode no later holder's marker names |
| ProvisionLock.BeatWritesNothingNew | node-agent/src/artifact.rs:441-456 | a heartbeat writes back what its inode already holds |
| ProvisionLock.CountDown | node-agent/src/artifact.rs:478-485 | the in-flight counter is never decremented below zero |
| ProvisionLock.OnTrackNeverRefused | node-agent/src/artifact.rs:350-425 | in every run in which nothing of the acquirer's own fails and nobody else asks for the path, it is not refused before it holds the lock |
| ProvisionLock.ReachesHeld | node-agent/src/artifact.rs:350-425 | and its own steps suffice to get there |
| ProvisionLock.FreeLockIsTakenOver | node-agent/src/artifact.rs:350-425 | both of these for a free kernel lock and no marker, or one that no running task made and that is old enough or names the kernel lock |
| ProvisionLock.KilledHolderIsReplaced | node-agent/src/artifact.rs:350-425 | both of these after a holder was killed once its marker was written, at any age of the marker |
| ProvisionLock.StepInv | node-agent/src/artifact.rs:303-485 | every step of acquire, heartbeat, drop, spawn and kill keeps guard, marker, heartbeat and counter invariants |
| Backoff.NeverOverflows | node-agent/src/artifact.rs:517-532 | the shift and the multiplication lose nothing: the wait is min(max, base * 2^(min(k,20)-1)) |
| Backoff.RemainingIsExact | node-agent/src/artifact.rs:517-532 | the next attempt may go if and only if that wait has passed, a clock behind the record counting as none; otherwise exactly the rest is reported |
| Backoff.ExponentStops | node-agent/src/artifact.rs:515-529 | the wait is not the documented base * 2^(k-1) capped at max if and only if k > 20, base > 0 and base * 2^19 < max |
| Backoff.WaitMonotone | node-agent/src/artifact.rs:527-529 | more attempts never mean a shorter wait, and never more than max |
| Backoff.AttemptsAreSpaced | node-agent/src/cuda_runtime.rs:497-523 | whatever passes, failures and restarts come between, as long as no attempt's read fails and no record is lost attempt k+1 starts at least its wait after attempt k |
| Backoff.RunTakesSumOfWaits | node-agent/src/cuda_runtime.rs:497-523 | then n attempts take at least the sum of the first n-1 waits |
| Backoff.HeldIffReadBack | node-agent/src/artifact.rs:508-561 | over every course of failed reads and of kept, failed and torn writes, the next attempt is held to this one's wait if and only if the record read back is this attempt's, and that if and only if that read works and no write lost it; else another may go at the same instant |
| Backoff.RecordSince | node-agent/src/artifact.rs:534-561 | between two attempts the file holds the first one's record or one that allows another at once |
| Backoff.AttemptsFile.NoteAttempt | node-agent/src/artifact.rs:534-550 | the new record, the old one, or an unreadable file; a failed read counts from one |
| Backoff.AttemptsFile.NoteFailure | node-agent/src/artifact.rs:552-561 | nothing without a record or if the read fails; else the same three outcomes |
| Download.ValidIsPinned | node-agent/src/artifact.rs:54-68 | an accepted URL is https, exactly the pinned host, an optional port, no credentials |
| Download.PinnedIsValid | node-agent/src/artifact.rs:54-68 | and every such URL is accepted |
| Download.RedirectAccepted | node-agent/src/artifact.rs:73-88 | from an accepted URL a redirect leads to an accepted one if and only if it is a path on the same origin or itself accepted |
| Download.Follow | node-agent/src/artifact.rs:154-192 | the redirect loop makes the requests and ends as the recursive definition says, for any server |
| Download.RequestsWellSent | node-agent/src/artifact.rs:154-192 | at most four requests, each https to the pinned host, each later one where the redirect before it pointed |
| Download.BodyOfLastRequest | node-agent/src/artifact.rs:154-192 | a body comes from the last request sent |
| Download.Receive | node-agent/src/artifact.rs:217-281 | file and digest input are the delivered bytes; completeness, magic and size are checked in that order; a failed or late read is its error |
| Download.HeadIsPrefix | node-agent/src/artifact.rs:228-230 | for any split, `head` is a prefix of the body and all of it while shorter than 64 bytes |
| Download.VerdictOfBody | node-agent/src/artifact.rs:261-281 | the verdict depends on the body alone for a magic of at most 64 bytes |
| Download.LongMagicIsRefused | node-agent/src/artifact.rs:228-230 | the 64-byte bound is exact |
| Download.SplitDoesNotMatter | node-agent/src/artifact.rs:217-234 | reads that cut a body anywhere deliver that body |
| Download.Fetch | node-agent/src/artifact.rs:146-290 | requests, outcome and verdict of a whole fetch, for any server, any split and any magic |
| ClaimedDisplay.ReadsAreSpaced | node-agent/src/capacity.rs:307-345 | for any idle readings and any changes of `off`, any two reads are 10 s apart, and 300 s when `off` is empty at the later |
| ClaimedDisplay.DueKeepsInv | node-agent/src/capacity.rs:311-345 | `woke_at` is never before `last_read` nor after the present |
| ClaimedDisplay.WakeIsAfterRead | node-agent/src/capacity.rs:327-329 | `now - idle` lies after the last read when it is taken |
| ClaimedDisplay.NoStarvationInRun | node-agent/src/capacity.rs:307-345 | polls that do not overlap: of two 10 s apart, both 300 s after the last read and with a connector known off, one at or between them reads, once the clock moves between a poll's two readings |
| ClaimedDisplay.ServedUnlessMissed | node-agent/src/capacity.rs:307-345 | at a poll that does not read, every course of polls, overlapping or not, is served within 10 s if and only if input was noticed already or this poll did not miss it |
| ClaimedDisplay.MissedInput | node-agent/src/capacity.rs:327-329 | after a quiet read at `at` a poll (d, n) with last input L fails to notice it if and only if L <= at and n - d <= at - L |
| ClaimedDisplay.InputSinceRead | node-agent/src/console_idle.rs:104-109 | between reads of non-overlapping polls the last input is the one the read knew or no earlier than the read |
| ClaimedDisplay.OverlapIsOrdered | node-agent/src/capacity.rs:430-437 | however the polls of several callers overlap, the decider sees ordered decisions whose watch time is not after their own |
| ClaimedDisplay.RecheckWhileInput | node-agent/src/capacity.rs:287-290 | while input goes on and the monitor reads off, it is read again 10 s after each read |
| ClaimedDisplay.QuietReads | node-agent/src/capacity.rs:279-284 | with nothing known off, a read happens if and only if there was no input for ten minutes and the last read is five minutes old |
| ClaimedDisplay.StarvedRun | node-agent/src/capacity.rs:430-437 | a concrete run of two overlapping callers that starves, the clock moving between every two readings |
| ClaimedDisplay.ClaimedDdc.Due | node-agent/src/capacity.rs:311-345 | the answer and the new fields are those of the decision functions the theorems are about |
| ClaimedDisplay.ClaimedDdc.Show | node-agent/src/capacity.rs:347-350 | the connectors not known off, in order |
| ClaimedDisplay.ShownIsPowered | node-agent/src/capacity.rs:444-453 | after a read exactly the powered connectors are shown |
| ClaimedDisplay.ClaimedDdc.Finish | node-agent/src/capacity.rs:446-452 | a finished read decides what is known off and shows exactly the powered connectors, whatever polls ran meanwhile |
| ClaimedDisplay.ClaimedDdc.Claimed | node-agent/src/capacity.rs:430-453 | only a due read asks the monitors; without one what is known off stays, unless the input watch failed |
| ClaimedDisplay.Watch.Poll | node-agent/src/console_idle.rs:228-273 | the last input jumps to the poll's time exactly when some live device had input, even if the poll fails |
| AxisFilter.NoiseCountsOnce | node-agent/src/console_idle.rs:60-74 | values within twice the dead zone of rest count at most once, from any earlier state |
| AxisFilter.MovesTakeTravel | node-agent/src/console_idle.rs:60-74 | from rest, k counted moves mean more than k dead zones of travel |
| AxisFilter.PushCounts | node-agent/src/console_idle.rs:56-59 | a push past twice the zone and away from the last count always counts |
| AxisFilter.Axis.Moved | node-agent/src/console_idle.rs:60-74 | the answer and the new last count; no i64 overflow for any i32 |
| AxisFilter.DeadZone | node-agent/src/console_idle.rs:211-216 | never negative, at least flat, fuzz and a 32nd of the range, and no larger than one of these makes it |
| CrashReport.OneReport | node-agent/src/crash_report.rs:579-614 | over all interleavings of threads and nested signals the report is entered at most once and the scratch area has one user |
| CrashReport.ReentryReadsTheReport | node-agent/src/crash_report.rs:594-610 | the re-entry path reads the signal of the report in progress below it on the same stack |
| CrashReport.OthersWait | node-agent/src/crash_report.rs:331-345 | another thread goes on to die or return only after the report is done or after its 2000 ms |
| CrashReport.ReportIsNotCutShort | node-agent/src/crash_report.rs:579-614 | within two seconds a report is ended only by its own thread, dying of the reported signal, by another process, or by the kernel: a fault whose number the thread has blocked, or no room for a frame, which is SIGSEGV |
| CrashReport.ReporterDiesOfItsSignal | node-agent/src/crash_report.rs:67-79 | a fault of the report dies of the reported signal, blocked or through its own handler; only missing room, or a number an outer handler blocks, makes it another |
| CrashReport.NestedIsRecognised | node-agent/src/crash_report.rs:594-609 | a nested signal is recognised if and only if it lands between the two stores of the reporter's ID |
| CrashReport.NestedHoldsReport | node-agent/src/crash_report.rs:594-612 | while a handler stands above the reporting one, the report makes no step, whatever all threads do |
| CrashReport.NestedWaitsItOut | node-agent/src/crash_report.rs:594-612 | so one that waits above it leaves its wait only after two seconds |
| CrashReport.NestedFaultWaits | node-agent/src/crash_report.rs:594-607 | a run of two faults that brings a nested handler to its comparison with no ID stored; after `ms` more it still waits if and only if they are less than two seconds |
| CrashReport.IgnoredOnce | node-agent/src/crash_report.rs:471-508 | a SIGSEGV or SIGBUS from another process is ignored at most once, whatever happens between |
| CrashReport.StepKeepsInv | node-agent/src/crash_report.rs:301-345 | every step of every handler keeps the protocol invariant |
| CrashText.PrintDigits | node-agent/src/crash_report.rs:203-215 | the index stays inside the 20-byte buffer, and the bytes written are the number's digits |
| CrashText.DigitsFit | node-agent/src/crash_report.rs:203-215 | every u64 has at most 20 digits in radix 10 and 16 in radix 16 |
| CrashText.DigitsDenote | node-agent/src/crash_report.rs:203-215 | the printed text denotes the value |
| CrashText.Line.Text | node-agent/src/crash_report.rs:193-201 | the line gains as much of the text as there is room for |
| CrashText.CutGrows | node-agent/src/crash_report.rs:193-201 | cutting at each append is cutting once at the end |
| CrashText.Line.Number | node-agent/src/crash_report.rs:203-215 | the line gains the number's text |
| CrashText.Line.Dec | node-agent/src/crash_report.rs:217-222 | signed decimal, for every i64 |
| CrashText.Line.Hex | node-agent/src/crash_report.rs:224-226 | `0x` and hex digits |
| CrashMaps.MapLineReads | node-agent/src/crash_report.rs:397-418 | every maps line the kernel writes is read back: range, readable code, whether printed |
| CrashMaps.Maps | node-agent/src/crash_report.rs:437-469 | for every split of the file into reads, answer and printed lines are a fold over its newline-ended lines cut to 512 bytes; no answer when the file cannot be read to its end |
| CrashMaps.ScanChunk | node-agent/src/crash_report.rs:449-465 | the loop over one chunk continues the scan of the bytes before it |
| CrashMaps.RawLinesJoin | node-agent/src/crash_report.rs:449-457 | the lines hold no newline and make up the file |
| CrashMaps.PrintedWhole | node-agent/src/crash_report.rs:229-243 | a printed mapping is never cut by the 640-byte output buffer |
| CanonicalJson.CanonicalDecides | node-agent/src/policy_catalog.rs:299-334 | canonical texts are equal if and only if the values are, a float being the number its shortest digits spell |
| CanonicalJson.ValueReads | node-agent/src/policy_catalog.rs:301-334 | a reader undoes the printer, whatever follows the text |
| CanonicalJson.LayoutValue | node-agent/src/policy_catalog.rs:336-376 | all four number layouts denote 0.digits * 10^n |
| CanonicalJson.NumberReads | node-agent/src/policy_catalog.rs:336-376 | a printed number reads back as its exact value |
| CanonicalJson.NumbersPrintAlike | node-agent/src/policy_catalog.rs:336-376 | two numbers print alike if and only if they are the same number, a float being the number its shortest digits spell |
| CanonicalJson.IntegerPrintsLikeFloat | node-agent/src/policy_catalog.rs:336-376 | an integer and a float print alike if and only if the integer is the float's digits padded with zeros |
| CanonicalJson.PaddedDigitsCollide | node-agent/src/policy_catalog.rs:336-376 | every padded digit string that fits 64 bits is such a pair |
| CanonicalJson.NumberText | node-agent/src/policy_catalog.rs:336-376 | the text of a number depends on its exact value alone |
| CanonicalJson.WriteCanonical | node-agent/src/policy_catalog.rs:307-334 | the buffer gains exactly the canonical text |
| KeyOrder.Utf8Order | node-agent/src/policy_catalog.rs:299-300 | keys sorted by code points are sorted by their UTF-8 bytes, and the other way round |
| KeyOrder.OrdersAgree | node-agent/src/policy_catalog.rs:299-300 | byte order and UTF-16 order agree on two keys if and only if at their first difference no character at or above U+10000 meets one in U+E000..U+FFFF |
| KeyOrder.KeysInOrder | node-agent/src/policy_catalog.rs:299-300 | a sorted map's keys are in the order of RFC 8785 if and only if no two of them are such a pair |
| FieldOrder.OrderedUnlessDiverging | node-agent/src/policy_catalog.rs:299-334 | the printed text has the fields of every object, however deep, in that order if and only if no object holds such a pair |
| FieldOrder.PairOutOfOrder | node-agent/src/policy_catalog.rs:299-334 | a map of two keys whose text is out of order |
| JsonString.ReadEscape | node-agent/src/policy_catalog.rs:326-326 | reading an escaped string gives the string back |
| PathWithin.WithinIsComponentPrefix | node-agent/src/policy_catalog.rs:256-276 | true if and only if the mount is absolute and its cleaned components are a prefix of the candidate's |
| PathWithin.CleanIdempotent | node-agent/src/policy_catalog.rs:257-269 | cleaning a cleaned path changes nothing |
| PathWithin.DotDotTakesBack | node-agent/src/policy_catalog.rs:262-264 | `..` anywhere in a path takes back the last component so far, if there is one |
| PathWithin.NeverAboveRoot | node-agent/src/policy_catalog.rs:262-264 | a `..` where nothing is left to take back changes nothing, wherever it stands |
| PathWithin.Clean | node-agent/src/policy_catalog.rs:257-269 | the component stack ends as the resolved components, joined |
| Base64Url.DecodeEncode | node-agent/src/enrollment.rs:134-192 | decoding undoes encoding (section 5 of RFC 4648, no padding) |
| Base64Url.EncodeDecode | node-agent/src/enrollment.rs:134-192 | only the encoder's own output decodes |
| Enrollment.FingerprintRoundTrip | node-agent/src/enrollment.rs:37-75 | a printed fingerprint parses back to the same 32 bytes |
| Enrollment.FillBytes | node-agent/src/enrollment.rs:37-58 | the loop fills the array with the bytes the digits spell |
| Enrollment.BlobRoundTrip | node-agent/src/enrollment.rs:134-192 | composing then parsing gives back url, fingerprint and token if and only if the url is wss:// and the token is not blank and does not end in whitespace |
| Enrollment.ParsedIsTransportable | node-agent/src/enrollment.rs:134-181 | every accepted blob has such a url and token |
| Enrollment.AcceptedRecomposes | node-agent/src/enrollment.rs:134-192 | composing an accepted blob again keeps its meaning |
| OwnedEntry.MarkedUnlessUnlinked | node-agent/src/owned_entry.rs:107-182 | after any run of creates and retires, overlapping and killed anywhere, an entry has the complete marker its create opened if and only if no retire of its ID unlinked a marker since; else any marker naming its maker is of a later create |
| OwnedEntry.EntriesStayMarked | node-agent/src/owned_entry.rs:107-182 | if no two tasks of one entry overlap, every existing entry directory has its maker's complete marker |
| OwnedEntry.StepKeepsInv | node-agent/src/owned_entry.rs:120-182 | at every step of any interleaving each marker is its opener's, and no file but a later create's stands where a create's marker stood |
| OwnedEntry.StandsUntilUnlinked | node-agent/src/owned_entry.rs:167-173 | the marker file a create opened keeps its name exactly until a retire unlinks it |
| OwnedEntry.OverlapLosesMarker | node-agent/src/owned_entry.rs:179-182 | two runs from any directory where the names are free that leave an entry directory without a marker |
| BootPass.RuntimeDir.TryWriteMarker | node-agent/src/owned_entry.rs:120-132 | true made a complete marker, false found the name taken, an error may leave a broken one |
| BootPass.RuntimeDir.RemoveEntryDir | node-agent/src/owned_entry.rs:137-165 | success means the directory is gone; anything but a directory is refused untouched |
| BootPass.RuntimeDir.RemoveMarker | node-agent/src/owned_entry.rs:167-173 | success means the marker is gone; a failure changes nothing |
| BootPass.RuntimeDir.RetireEntry | node-agent/src/owned_entry.rs:179-182 | success removes both; whatever happens the marker goes only after the directory and nothing else changes |
| BootPass.SortListing | node-agent/src/owned_entry.rs:199-213 | the listed marker IDs in order, and the listed directories not spelled like markers |
| BootPass.RuntimeDir.Attend | node-agent/src/owned_entry.rs:214-231 | one turn: retired, failed, left alone, or gone before it was read, with exactly the effects possible |
| BootPass.RuntimeDir.RetireMarked | node-agent/src/owned_entry.rs:214-231 | one such turn for every marker listed, in listing order, tallied; directories without a marker remain |
| BootPass.RuntimeDir.RetireAllOwned | node-agent/src/owned_entry.rs:188-235 | a whole pass is such a run over the listing; an unlistable directory changes nothing and counts nothing |
| BootPass.PassLeaves | node-agent/src/owned_entry.rs:188-235 | only this owner's entries change, and without errors none of them is left |
| BootPass.CountsAndVanished | node-agent/src/owned_entry.rs:188-235 | the three counts and the markers gone before they were read add up to the distinct IDs listed |
| BootPass.CountsAddUpUnlessClash | node-agent/src/owned_entry.rs:214-235 | the three counts add up to the distinct IDs for every listing order and every outcome of the system calls if and only if no ID clashes |
| BootPass.ForeignUntouched | node-agent/src/owned_entry.rs:214-231 | foreign, malformed, unmarked and broken-marked entries are as they were |
| BootPass.NextPassFinishes | node-agent/src/owned_entry.rs:175-235 | after any run, interrupted anywhere, a pass without errors leaves no marker of this owner and no entry it made, unless a retire had unlinked that entry's marker |
| BootPass.ShortCount | node-agent/src/host_probe/media_probe_dir.rs:35-37 | a listing the callers' ID check allows: two distinct IDs, counts that add up to one |
| Restart.Agent.WaitUntilIdleThenSeal | node-agent/src/restart.rs:79-105 | amid anything others do, the loop is a run of the machine; true right after two idle looks with the flag set; false only after max, and leaves a flag that was clear clear; at most ceil(max/poll)+1 rounds |
| Restart.SealedMeansIdle | node-agent/src/restart.rs:63-105 | with admissions quicker than the settle time, a true answer means no session is live or being admitted, then and while nobody else clears the flag |
| Restart.GivingUpLeavesClear | node-agent/src/restart.rs:79-105 | a false answer leaves a flag that was clear clear unless someone else set it |
| Restart.SettleDrains | node-agent/src/restart.rs:57-61 | a settle delay longer than any admission outlasts every one that checked before the flag was set |
| Restart.SettleMustOutlast | node-agent/src/restart.rs:57-61 | a seal means idle in every run if and only if every admission takes less than the settle time |
| Diagnostic.FaultOf | node-agent/src/diagnostic.rs:101-110 | no fault if and only if both halves succeeded; the engine's fault first; never a journal fault |
| Diagnostic.ViewsAgree | node-agent/src/diagnostic.rs:465-493 | over every sequence of retries phase Normal, one resume, watch true and no retained check coincide; at most one resume |
| Diagnostic.SettledPhases | node-agent/src/diagnostic.rs:219-235 | Normal is absorbing and a journal fault never resumes |
| Diagnostic.ResumesIffClean | node-agent/src/diagnostic.rs:219-235 | a station resumes if and only if it has no journal fault and some retry was clean |
| Diagnostic.ExplainsAfterRetry | node-agent/src/readiness/report.rs:105-115 | after one observation the retained check explains the fault if and only if it is not older than the one held, or tells the same fault |
| Diagnostic.ExplainsIffNewestAgrees | node-agent/src/readiness/report.rs:105-115 | over every sequence of failing retries, if and only if the newest observation told the present fault |
| Diagnostic.CheckExplains | node-agent/src/readiness/report.rs:105-115 | always, for every fault, while the clock does not step back |
| Diagnostic.Startup.Observe | node-agent/src/diagnostic.rs:219-235 | the new phase and the transition |
| Diagnostic.Station.constructor | node-agent/src/diagnostic.rs:449-459 | a new station's four views agree |
| Diagnostic.Station.Observe | node-agent/src/diagnostic.rs:466-493 | the new state and the transition, and the views still agree |
| Diagnostic.Enter | node-agent/src/diagnostic.rs:428-431 | a station exists if and only if the first pass failed |
| Diagnostic.WithheldIsNotAllowed | node-agent/src/diagnostic.rs:244-264 | host probes are withheld if and only if they may not start |
| Diagnostic.AllowedStaysAllowed | node-agent/src/diagnostic.rs:118-127 | retries never take back work a station allowed |
| Diagnostic.WorkAllowed | node-agent/src/diagnostic.rs:118-127 | over every sequence of retries a station allows everything once resumed, and before that nothing, or image work alone under a journal fault |
| Diagnostic.Process.Install | node-agent/src/diagnostic.rs:530-541 | a station is installed once and none is dropped |
| Diagnostic.Process.MayStart | node-agent/src/diagnostic.rs:244-252 | work may start if and only if every installed station allows it |
| Diagnostic.Process.HostProbesWithheld | node-agent/src/diagnostic.rs:256-264 | exactly when host probes may not start |
| ResumeWatch.NoWaiterIsLost | node-agent/src/diagnostic.rs:513-526 | a waiter wakes only to a resume, and within two polls of one, subscribed before or after it |
| ResumeWatch.SendLosesTheResume | node-agent/src/diagnostic.rs:481-488 | publishing with `send` between two waiters would lose the resume for good |

## Left out

- Container-engine lifecycles, GPU, DRM, sysfs and DDC probing, the HTTP client, TLS and logging: external facts or library wrappers.
- `compose_groups`, `check_cross_keys`, encode-slot and codec rules, PCI parsing: table lookups and single branches.
- Agents that predate the kernel lock: their code is not part of this model; `ProvisionLock` has agents of this version only.
- SHA-256, fsync and flock: record naming is taken as injective, a successful fsync as durable, flock as exclusive per open file description.
- JSON parsing of ledger records, attempt files and markers: a complete file parses to what was written, anything else is refused.
- Shortest-digit generation of floats: digits and exponent are given, as the formatter guarantees them.
- Two ledgers open at once on one directory: the model has one process at a time, as the agent's owner lease provides.
- LockMarker.KernelFieldOfPrefix: takes the build stamp to hold no whitespace.
- LockMarker.OwnWindow: takes the build stamp to hold no whitespace.
- LockMarker.CompleteMarkerIsReplaced: takes the build stamp to hold no whitespace.
- Machine crashes for owner-marked entries: only kills are modelled; `retire_entry` does not sync between its two removals.
- OwnedEntry.EntriesStayMarked: takes a create and a retire of the same ID never to overlap, as retirement runs at boot or by the entry's own maker; MarkedUnlessUnlinked is the law without that.
- BootPass.RuntimeDir.RetireAllOwned: the listing is complete and nothing else changes the directory during the pass; names that are not UTF-8 are not modelled.
- ClaimedDisplay.ReadsAreSpaced: speaks of one claim; the end of a claim resets the decider, so the next claim starts without a last read.
- ClaimedDisplay.ClaimedDdc.Claimed: runs its locked sections in one go; each is a method of its own, and what other callers do between them is covered by the runs of ClaimedDisplay.
- CrashReport.StepKeepsInv: `die_of` and the six dispositions `retire` gives back are one step each; SENT_ONCE is modelled, its printed line is not.
- Stack words, backtrace frames and the write loop of `Line::end`: output only.
- CrashMaps.Maps: the line printed when the maps file does not open is not modelled.
- Progress logging, the 404 wording and hex form of the digest in `fetch`: Download.Fetch answers the bytes that are hashed.
- Backoff.RunTakesSumOfWaits: one version; a pass for another version or a success starts over with no record.
- Restart.SealedMeansIdle: the session count is exact at every step, as the session manager stores it on every change.
- Safety-check and refusal texts, the readiness merge and retry pacing of diagnostic mode: wording and plumbing around the state machine.
