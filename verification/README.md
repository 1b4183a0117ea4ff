# Wirerust: a verified model of the analyzers that keep state

Wirerust reads packet captures and reports suspicious traffic. This project models its four most stateful components
in Dafny and proves what holds over whole runs of them:

- **the DNP3 analyzer** (`src/analyzer/dnp3.rs`): an incremental frame decoder over one bounded carry buffer per
  direction, with resynchronisation, a one-way latch, request/response correlation and two time windows;
- **the ARP analyzer** (`src/analyzer/arp.rs`): a bounded IP-to-MAC table, a flap-window escalation and a rate detector;
- **the pcapng reader** (`src/reader.rs`): the block walk, the option walk, packet decoding and tick conversion
  (sections 4.1 to 4.4 of draft-ietf-opsawg-pcapng);
- **the stream dispatcher** (`src/dispatcher.rs`): the route cache with its retry budget, and the coverage-gap counts.

## How the model is laid out

| files | content |
|---|---|
| `Octets`, `Tables`, `Windows`, `Findings`, `Flows` | octets and 16/32-bit fields, tables that evict their oldest entry, time windows, shared types |
| `Dnp3Wire`, `Dnp3Framing` | the frame format (IEEE Std 1815-2012) with a sender's side; the carry walk cut into segments |
| `Dnp3Detection`, `Dnp3Flow`, `Dnp3Analyzer` | one frame, one delivery, whole runs over many flows; the invariants |
| `Dnp3Program` | the same in the program's form: loops, sequential updates, a class; proved equal to the model |
| `Dnp3Chunking`, `Dnp3RoundTrip` | well-formed streams: chunking is invisible, frames come back |
| `Dnp3Reading` | a frame octet by octet: the terms in which runs are described |
| `Dnp3Windows`, `Dnp3Senders`, `Dnp3Requests`, `Dnp3Reports`, `Dnp3Ledger` | windows, guards, requests and findings against plain counts over deliveries |
| `Dnp3Tallies`, `Dnp3Totals`, `Dnp3Overview` | totals of a run as sums over all flows; what the summary says about a run |
| `Dnp3Latch` | exactly when a flow is given up as not DNP3, and what follows |
| `Dnp3Thresholds` | runs in which a guard and its count differ; the burst threshold |
| `Dnp3Summary` | the summary does not change when flows are closed |
| `ArpTable`, `ArpAnalyzer`, `ArpRuns` | the table and its array surrogate, the analyzer class, captures against unlimited memory |
| `PcapngTime`, `PcapngOptions`, `PcapngWalk`, `PcapngCapture` | ticks, options, blocks, whole captures |
| `Dispatcher`, `CoverageGaps` | routing against a per-flow specification, gap accounting against the protocol catalog |

Stateful code appears twice: as a value-level step function over which runs are defined, and as a class or a method
with loops whose postcondition is equality with that function. The theorems are about runs of the step functions.

Choices that matter for reading the statements:

- The hash-map iteration order, which decides between equally old eviction victims, is a parameter (`Order`) with a
  separate listing for every eviction, so results hold for every tie-break.
- Three histories are not in the program: `Tally` (what became of pending requests), `Stream` (accepted octets and the
  segments cut from them) and `refused` (the findings that the cap dropped). No step reads them.
- Timestamps, ports and addresses are natural numbers; subtraction of times stops at zero as in the program. 64-bit
  counters are unbounded; the 32-bit `direct_operate_count` and `rebind_count` stop at their top as in the program.
- A finding is a tag, a confidence and a time.

## Where the code and its comments differ

The model follows the code.

- `with_max_classification_attempts(0)` is documented as disabling classification (`src/dispatcher.rs:152-157`), but a cap
  of 0 behaves like a cap of 1: `Dispatcher.CapZeroIsCapOne`.
- A flow on a supported port that is closed without having delivered anything is counted as a gap of a supported
  protocol: `CoverageGaps.SupportedGapIffUnheard` says exactly when.
- The reset branch of the burst detector returns before the threshold is compared (`src/analyzer/dnp3.rs:1001-1009`), so
  with threshold 0, which the command line accepts, a command can be counted and not reported:
  `Dnp3Thresholds.BurstExactIffPositiveThreshold`.
- Malformed frames are reported while less than 300 s of the window have passed, but the window expires after more than
  300 s (`src/analyzer/dnp3.rs:1307` and `1747-1748`). `Dnp3Thresholds.LastSecondRun` is a run in which three rejects in
  a window are not reported, and `Dnp3Windows.MalformedMissedIff` says exactly when that happens.
- The test `frame_len >= 13` admits LENGTH 6 and 7, where octet 12 is a CRC octet and not a function code:
  `Dnp3Wire.FunctionCodeOctet`.
- Base-10 resolution exponents from 20 and base-2 exponents from 64 are cut down to what 64 bits hold, so the resulting
  time is right only for few ticks: `PcapngTime.ExactIff`.
- Seconds saturate while the fraction goes on, so at every rate from 2 to 2^32 - 1 ticks a second the order of times is
  lost from the first saturated tick on. At one tick a second there is no fraction, and at higher rates no 64-bit tick
  saturates: `PcapngTime.OrderKept64Iff`.
- A chunk that does not fit beside the unfinished frame loses its tail (`src/analyzer/dnp3.rs:484-488`), even if it holds
  nothing but whole frames; on well-formed streams this, and nothing else, is counted as an error:
  `Dnp3RoundTrip.NoErrorIffFits`.

## Model

| member | source | states |
|---|---|---|
| `Dnp3Wire.EncodedFrame` | `src/analyzer/dnp3.rs:1947-1961` | for every message and every checksum, the frame as the standard lays it out is recognised as one frame of exactly the computed length and its header fields are read back |
| `Dnp3Wire.DataBlocksLength` | `src/analyzer/dnp3.rs:2033-2040` | the closed length formula is the length of the user octets laid out in CRC-protected blocks of sixteen |
| `Dnp3Wire.FunctionCodeOctet` | `src/analyzer/dnp3.rs:781-791` | octets 10 to 12 are the first three user octets when LENGTH is at least 8; for LENGTH 6 and 7 octet 12 is a CRC octet although the length test passes |
| `Dnp3Wire.ClassOf` | `src/analyzer/dnp3.rs:1993-2018` | the class of every function code, by literal codes |
| `Dnp3Reading.FrameReads` | `src/analyzer/dnp3.rs:1993-2102` | addresses, direction, link function, first-fragment bit, function code and sequence number that the analyzer takes from a frame are those of its octets, by literal positions and bits |
| `Dnp3Framing.WalkTiles` | `src/analyzer/dnp3.rs:538-962` | on any carry the walk ends, its segments and the remaining carry tile the octets, each frame segment is a valid frame, each drained run hides no later sync word, and the remaining carry is at most 291 octets and at most one octet or a sync word at its head |
| `Dnp3Framing.AccumulateTiles` | `src/analyzer/dnp3.rs:483-519` | the cap: what fits is tiled by the overflow drain and the carry, what does not fit is exactly what is lost |
| `Dnp3Framing.DeliverTiles` | `src/analyzer/dnp3.rs:483-731` | one delivery of any octets: accepted octets are tiled, lost octets are counted, the carry keeps its shape |
| `Dnp3Framing.Accounting` | `src/analyzer/dnp3.rs:553-611` | octets are framed or drained, segments are frames or errors, and errors never exceed discarded octets |
| `Dnp3Framing.SegmentSlices` | `src/analyzer/dnp3.rs:961` | the segments are successive contiguous slices of the accepted octets |
| `Dnp3Detection.ScanRemovesExactlyOverdue` | `src/analyzer/dnp3.rs:1193-1216` | a timeout scan keeps exactly the requests at most ten seconds old, unchanged, and raises the blocked count by the number it removed |
| `Dnp3Detection.EvictionTakesAnOldest` | `src/analyzer/dnp3.rs:1907-1926` | an eviction happens only for a new key on a full table of 256 and takes one entry that no other predates |
| `Dnp3Detection.Insert` | `src/analyzer/dnp3.rs:1907-1926` | the table never exceeds 256 and size plus evictions equals old size plus insertions |
| `Dnp3Detection.ApplicationKeeps` | `src/analyzer/dnp3.rs:786-957` | every application fragment keeps the guards, bounds and balances of a flow |
| `Dnp3Detection.SegmentsKeep` | `src/analyzer/dnp3.rs:538-962` | so does any list of frames and rejects, and frame and error counts grow by exactly their numbers |
| `Dnp3Flow.ReceiveKeeps` | `src/analyzer/dnp3.rs:397-962` | the whole flow invariant survives any delivery in either direction at any time |
| `Dnp3Analyzer.StepKeeps` | `src/analyzer/dnp3.rs:369-962` | the analyzer invariant over all flows survives any delivery or close |
| `Dnp3Analyzer.Run` | `src/analyzer/dnp3.rs:369-962` | every reachable state, after any sequence of deliveries and closes, satisfies the invariant |
| `Dnp3Analyzer.GuardsOverRuns` | `src/analyzer/dnp3.rs:1193-1386` | in every reachable state: loss of control reported iff restarts + blocks >= 3, blocking reported iff blocks >= 3, malformed reported only from 3 on, malformed at most the lifetime errors, burst reported iff over the threshold (>= 1), at most 10,000 findings and drops only when full |
| `Dnp3Analyzer.LatchIsForever` | `src/analyzer/dnp3.rs:406-437` | a latched flow has no frames and empty carries and no operation but its close changes it |
| `Dnp3Latch.LatchedIff` | `src/analyzer/dnp3.rs:428-437` | in any run a flow is latched iff, since it was opened, some chunk of two or more octets did not begin with 05 64 and came when no frame had been counted and nothing was left over in either direction |
| `Dnp3Latch.ChunksIgnored` | `src/analyzer/dnp3.rs:406-408` | once a flow is given up, its chunks make no difference to any run until it is closed |
| `Dnp3Latch.ForeignFlowIgnored` | `src/analyzer/dnp3.rs:406-437` | if the first octets of a flow are two or more that do not begin with 05 64, that chunk changes no finding, counter or carry, and all later ones change nothing at all |
| `Dnp3Analyzer.CarriesOverRuns` | `src/analyzer/dnp3.rs:483-617` | between calls every carry has at most 291 octets and is at most one octet long or starts with 05 64 |
| `Dnp3Analyzer.PendingConserved` | `src/analyzer/dnp3.rs:864-950` | over any run, requests entered = timed out + answered + evicted + still pending, and at most 256 are pending |
| `Dnp3Analyzer.OctetsOverRuns` | `src/analyzer/dnp3.rs:483-731` | over any run, each carry is the tail of what its direction accepted, counted frames are disjoint slices of it in order, delivered = framed + drained + lost + carried, and errors never exceed discarded octets |
| `Dnp3Program.FindSync` | `src/analyzer/dnp3.rs:664-677` | the search loop finds the first sync word, or the end |
| `Dnp3Program.RemoveAll` | `src/analyzer/dnp3.rs:1205-1216` | removing collected keys one by one in any order removes exactly them and counts them |
| `Dnp3Program.ConsiderBlocked` | `src/analyzer/dnp3.rs:1218-1276` | both one-shot checks after a scan, in the program's order, against the guards' definition |
| `Dnp3Program.ScanBlockTimeouts` | `src/analyzer/dnp3.rs:1185-1277` | the scan in steps equals the timeout scan of the model |
| `Dnp3Program.InsertPendingRequest` | `src/analyzer/dnp3.rs:1907-1926` | the scan for the oldest entry and the insertion equal the model's insertion |
| `Dnp3Program.DetectControlBurst` | `src/analyzer/dnp3.rs:986-1061` | reset, increment, seed and one-shot check in sequence equal one step of the burst window |
| `Dnp3Program.AlertOnControl` | `src/analyzer/dnp3.rs:819-857` | the broadcast and unexpected-source findings in order, the second one-shot |
| `Dnp3Program.TrackRequest` | `src/analyzer/dnp3.rs:860-870` | a control request is inserted unless it is DIRECT_OPERATE_NR |
| `Dnp3Program.ControlFrame` | `src/analyzer/dnp3.rs:816-884` | the control branch in sequence equals the model's |
| `Dnp3Program.RestartFrame` | `src/analyzer/dnp3.rs:885-910` | the restart finding precedes the loss-of-control check, which sees the raised count |
| `Dnp3Program.ResponseFrame` | `src/analyzer/dnp3.rs:922-951` | the response branch in sequence equals the model's |
| `Dnp3Program.ProcessFrame` | `src/analyzer/dnp3.rs:756-955` | a whole frame, with the snapshot of known masters taken before the new one is recorded, equals the model's frame step |
| `Dnp3Program.WalkCarry` | `src/analyzer/dnp3.rs:538-962` | the frame-walk loop ends, each pass drains an octet or leaves, its header-reject arm is dead, and it equals handling the segments one by one |
| `Dnp3Program.Handle` | `src/analyzer/dnp3.rs:400-962` | one call on one flow: latch, desynchronisation, window expiry, scan, cap and walk equal the model's delivery |
| `Dnp3Program.Analyzer.constructor` | `src/analyzer/dnp3.rs:335-349` | a new analyzer is the empty run |
| `Dnp3Program.Analyzer.OnData` | `src/analyzer/dnp3.rs:397-962` | the object stays valid and moves by exactly one model step |
| `Dnp3Program.Analyzer.OnFlowClose` | `src/analyzer/dnp3.rs:369-377` | totals of the closed flow are folded into the aggregates, an unknown key changes nothing |
| `Dnp3Chunking.CleanConcat` | `src/analyzer/dnp3.rs:538-962` | frames and an unfinished tail are parsed back from their concatenation |
| `Dnp3Chunking.PartialIff` | `src/analyzer/dnp3.rs:544-731` | the unfinished tails are exactly the proper prefixes of frames |
| `Dnp3Chunking.CleanIff` | `src/analyzer/dnp3.rs:538-962` | the well-formed streams are exactly those that some more octets would turn into whole frames |
| `Dnp3Chunking.CleanSplit` | `src/analyzer/dnp3.rs:538-962` | a well-formed stream may be cut anywhere: the second part continues from the tail of the first |
| `Dnp3Chunking.WalkClean` | `src/analyzer/dnp3.rs:538-731` | on a well-formed carry the walk yields exactly its frames and keeps its tail |
| `Dnp3Chunking.PlayClean` | `src/analyzer/dnp3.rs:428-962` | any interleaving of fitting chunks of well-formed streams keeps framing in step with what was sent, and the latch never fires |
| `Dnp3Chunking.ChunkingInvisible` | `src/analyzer/dnp3.rs:443-962` | at one time in one direction, every fitting chunking leaves the same flow, findings and counters: those of handling the frames one by one |
| `Dnp3RoundTrip.RunInStep` | `src/analyzer/dnp3.rs:428-962` | the same inside any run over many flows with closes and reused keys |
| `Dnp3RoundTrip.FramingRoundTrip` | `src/analyzer/dnp3.rs:428-962` | if each direction of a flow carries frames and perhaps a partial one, exactly these frames are recovered in order, with no error and no latch, and each carry is the unfinished tail |
| `Dnp3RoundTrip.AnyMomentOfATransmission` | `src/analyzer/dnp3.rs:428-962` | at any moment of a transmission of whole frames in both directions, in any run, the recovered frames are the first of those being sent, recovered frames and carry make up what was sent, and there is no error and no latch |
| `Dnp3RoundTrip.NoErrorIffFits` | `src/analyzer/dnp3.rs:483-519` | for a flow whose directions both carry well-formed streams, in any run, no error is counted if and only if every chunk fits beside the unfinished frame of its direction |
| `Dnp3Thresholds.ZeroThresholdRun` | `src/analyzer/dnp3.rs:1001-1009` | a concrete two-frame run with threshold 0 where the guard does not match the count |
| `Dnp3Thresholds.BurstExactIffPositiveThreshold` | `src/analyzer/dnp3.rs:1001-1060` | the burst guard matches the count in all runs of all flows if and only if the threshold is at least 1 |
| `Dnp3Thresholds.LastSecondRun` | `src/analyzer/dnp3.rs:1747-1752` | a concrete run in which three rejects come exactly 300 s into a window, are counted in it and not reported |
| `Dnp3Windows.WindowsTrack` | `src/analyzer/dnp3.rs:1292-1318` | in any run the correlation window starts at the first delivery of the running 300 s window and counts exactly its restarts, overdue requests and rejects, and burst counter and guard are those of the running 60 s window of control commands |
| `Dnp3Windows.GuardsByCounting` | `src/analyzer/dnp3.rs:1001-1060` | the burst, blocking, loss-of-control and malformed guards of an open flow, each exactly by counting commands, overdue requests, restarts and rejects in windows, for every threshold |
| `Dnp3Windows.MalformedMissedIff` | `src/analyzer/dnp3.rs:1747-1752` | three rejects of a window go unreported if and only if every delivery with a third or later one came exactly 300 s into it; without a delivery at that second the guard is the count |
| `Windows.PartitionCorrect` | `src/analyzer/dnp3.rs:1292-1318` | the windows of a list of events join up to the list, stay within their length of their first event, and start later than that after every earlier one |
| `Windows.PartitionUnique` | `src/analyzer/dnp3.rs:1292-1318` | there is only one way to cut a list of events into such windows |
| `Dnp3Senders.GuardsBySenders` | `src/analyzer/dnp3.rs:756-780` | in any run a flow's known masters are the first 64 addresses of its master frames, its unexpected-source guard is set iff a control command came from a stranger to those known before it, and its unsolicited guard iff an unsolicited response came with neither ENABLE_UNSOLICITED nor a response before it |
| `Dnp3Requests.PendingByFrames` | `src/analyzer/dnp3.rs:860-950` | in any run a flow never had an eviction if and only if no more than 256 requests ever wait by its frames, and then its table is exactly the requests that wait |
| `Dnp3Requests.WaitingIff` | `src/analyzer/dnp3.rs:1193-1216` | a request waits exactly if no later event repeats it, answers it or finds it more than ten seconds old |
| `Dnp3Requests.BlockedByFrames` | `src/analyzer/dnp3.rs:1193-1216` | as long as there is room, the overdue requests that each delivery found are those that its predecessors' times and frames say |
| `Dnp3Requests.GuardsByFrames` | `src/analyzer/dnp3.rs:1193-1276` | the four guards of an open flow by times and frames alone, if no more than 256 requests ever wait on it |
| `Dnp3Reports.ParsedReports` | `src/analyzer/dnp3.rs:756-957` | a frame adds one finding for each thing its code always reports and one for each guard it raises, and no other |
| `Dnp3Reports.MalformedReports` | `src/analyzer/dnp3.rs:1735-1794` | a reject adds a finding exactly when it raises its guard |
| `Dnp3Reports.ScanReports` | `src/analyzer/dnp3.rs:1185-1277` | a timeout scan adds findings exactly for the guards it raises |
| `Dnp3Reports.FlagsExplained` | `src/analyzer/dnp3.rs:1480-1600` | which frames raise the unexpected-source and unsolicited-response guards, and that no frame lowers them |
| `Dnp3Reports.FindingsAccounted` | `src/analyzer/dnp3.rs:789-957` | over any run, stored or refused: restart, write and unsolicited-control findings equal the counted function codes, and unexpected-source and unsolicited-response findings equal the flows, open or closed, whose guard is set; without drops these are the findings stored |
| `Dnp3Totals.FindingsByCounting` | `src/analyzer/dnp3.rs:397-962` | over any run, for all eleven kinds of finding: stored and refused together are as many as the deliveries of all flows, open or closed, call for, namely one per burst window over the threshold, one per correlation window in which it was due, one per flow for the two per-flow alarms, one per fragment that is always reported; without drops these are the findings stored |
| `Dnp3Totals.StoredAndDropped` | `src/analyzer/dnp3.rs:1083-1119` | in every run stored findings + dropped findings = what all flows call for, over all eleven kinds, and the dropped ones are what exceeds 10,000 |
| `Dnp3Totals.StepStamps` | `src/analyzer/dnp3.rs:1039-1052` | no finding is ever taken back, a close reports nothing, and the findings of a delivery carry its time and the confidence of their kind |
| `Dnp3Totals.LevelIsTotal` | `src/analyzer/dnp3.rs:771-791` | in every run the function-code distribution, the masters without room, the evictions and the findings are sums over the deliveries of all flows, open or closed |
| `Dnp3Totals.FlowCounts` | `src/analyzer/dnp3.rs:756-791` | in any run a flow's frame, error and function-code counts are those of its deliveries |
| `Dnp3Tallies.SegmentsLost` | `src/analyzer/dnp3.rs:771-778` | a master frame is counted as dropped exactly when its address is unknown because 64 others are known |
| `Dnp3Ledger.DeliveryDue` | `src/analyzer/dnp3.rs:443-962` | one delivery adds exactly as many findings of each kind as it adds to what its flow calls for |
| `Dnp3Ledger.BurstsCommand` | `src/analyzer/dnp3.rs:1001-1060` | one more command makes one more window a burst exactly when the guard goes up |
| `Dnp3Reports.RequestIsPending` | `src/analyzer/dnp3.rs:864-870` | an encoded control request becomes pending under its destination and sequence number |
| `Dnp3Reports.NoResponseRequestNotPending` | `src/analyzer/dnp3.rs:860-864` | DIRECT_OPERATE_NR never becomes pending |
| `Dnp3Reports.ResponseAnswers` | `src/analyzer/dnp3.rs:943-950` | an encoded response removes the request with its source and sequence number and nothing else |
| `Dnp3Reports.AnsweredRequestLeavesNoTrace` | `src/analyzer/dnp3.rs:864-950` | request then response restores the pending table |
| `Dnp3Summary.StableSortCorrect` | `src/analyzer/dnp3.rs:1843-1847` | the list of operations is sorted by key and keeps the entries of every key in their order |
| `Dnp3Summary.SortedUnique` | `src/analyzer/dnp3.rs:1843-1847` | there is only one such list |
| `Dnp3Summary.CloseIsInvisible` | `src/analyzer/dnp3.rs:1806-1849` | closing any flow at any time leaves the summary unchanged, whatever the iteration orders before and after |
| `Dnp3Overview.SummaryOfRun` | `src/analyzer/dnp3.rs:1806-1895` | the summary of any run, for any iteration order: flows = how often one was opened, frames and errors = those cut from all deliveries of all flows, operations = the last burst of each flow ever opened in key order capped at 2^32 - 1, each function code = how often it was delivered, dropped = findings beyond 10,000, and the two other drop counts |
| `Flows.LessIff` | `src/analyzer/dnp3.rs:1843-1847` | keys are ordered by the first of lower address, lower port, upper address, upper port in which they differ |
| `Tables.Oldest` | `src/analyzer/arp.rs:180-217` | the chosen victim is in the table and no entry is older |
| `Tables.ScanOldest` | `src/analyzer/arp.rs:180-217` | the minimum scan finds that victim |
| `ArpTable.InsertBinding` | `src/analyzer/arp.rs:180-217` | the address is bound to the MAC, the cap is kept, and a new address balances size and eviction |
| `ArpTable.InsertBindingArray` | `src/analyzer/arp.rs:299-333` | lookup, minimum scan, swap-remove and append on the array keep addresses distinct and do what the map version may do for some oldest victim |
| `ArpTable.SwapRemove` | `src/analyzer/arp.rs:299-333` | swap-remove takes away exactly one address |
| `ArpTable.OldestRow` | `src/analyzer/arp.rs:299-333` | a row found by the minimum scan is an oldest entry |
| `ArpTable.MapVersionAllowed` | `src/analyzer/arp.rs:180-217` | under every iteration order the map version does something allowed |
| `ArpTable.AllowedIsReachable` | `src/analyzer/arp.rs:180-217` | everything allowed is what the map version does under some iteration order |
| `ArpAnalyzer.InsertBindingLru` | `src/analyzer/arp.rs:180-217` | the insertion with its scan equals the model's, for every cap including 0 |
| `ArpAnalyzer.PutCounter` | `src/analyzer/arp.rs:970-993` | the counter is written, other counters stay or one is displaced, only a new sender on a full table displaces, and at most 4,096 remain |
| `ArpAnalyzer.DisplacedIsEarliest` | `src/analyzer/arp.rs:970-993` | a displaced counter is one whose window started no later than any other |
| `ArpAnalyzer.Analyzer.InsertStormCounterLru` | `src/analyzer/arp.rs:970-993` | the method is that insertion of a fresh counter |
| `ArpAnalyzer.Analyzer.DetectStorm` | `src/analyzer/arp.rs:1016-1078` | the method counts or restarts, then reports once, as the model's step |
| `ArpAnalyzer.Analyzer.EmitSpoof` | `src/analyzer/arp.rs:835-877` | the sequential update of the escalation fields is one rebind of the model, with its confidence |
| `ArpAnalyzer.Analyzer.Learn` | `src/analyzer/arp.rs:674-676` | a new sender is inserted with eviction counted |
| `ArpAnalyzer.Analyzer.ObserveSender` | `src/analyzer/arp.rs:537-680` | the gratuitous and the ordinary branch do the same to the table |
| `ArpAnalyzer.Analyzer.TallyFrame` | `src/analyzer/arp.rs:467-472` | every frame counts once, under its operation |
| `ArpAnalyzer.Analyzer.CheckSender` | `src/analyzer/arp.rs:483-534` | the mismatch and storm findings in order |
| `ArpAnalyzer.Analyzer.ProcessArp` | `src/analyzer/arp.rs:461-683` | the method is one step of the model, findings in order |
| `ArpRuns.CacheAgrees` | `src/analyzer/arp.rs:474-680` | over any capture every entry is what an unbounded last-writer map says about its address |
| `ArpRuns.EvictionIsLru` | `src/analyzer/arp.rs:180-217` | with non-decreasing times, every forgotten address was last seen no later than every kept one |
| `ArpRuns.BindingsConserved` | `src/analyzer/arp.rs:622-680` | at most 65,536 entries; insertions = evictions + size |
| `ArpRuns.NothingForgotten` | `src/analyzer/arp.rs:622-680` | with at most 65,536 senders the table knows all of them |
| `ArpRuns.SpoofsAreMacChanges` | `src/analyzer/arp.rs:537-671` | spoof findings never exceed the MAC changes between successive accepted frames of an address, and equal them with at most 65,536 senders |
| `ArpRuns.ChangesReportedOrMissed` | `src/analyzer/arp.rs:537-671` | for any number of senders, MAC changes = spoof findings + changes of addresses that had been evicted |
| `ArpRuns.RebindsAreChanges` | `src/analyzer/arp.rs:647-671` | with at most 65,536 senders the rebinds of an address are exactly the MAC changes between its accepted frames |
| `ArpRuns.ReboundEscalates` | `src/analyzer/arp.rs:848-877` | one rebind moves the flap window on, and HIGH is reported exactly when the window reaches the threshold |
| `ArpRuns.EntriesEscalate` | `src/analyzer/arp.rs:848-877` | over any capture the escalation fields are those of the running flap window of the address's rebinds |
| `ArpRuns.SpoofGuards` | `src/analyzer/arp.rs:848-877` | HIGH-emitted iff rebinds >= threshold, first rebind time set iff rebinds > 0, in any order of time |
| `ArpRuns.HighIsThresholdth` | `src/analyzer/arp.rs:868-877` | a frame is reported as spoofing iff it changes a known MAC, and as HIGH iff that is the threshold-th rebind of its window |
| `ArpRuns.HighByFrames` | `src/analyzer/arp.rs:868-877` | with at most 65,536 senders, by the frames alone: HIGH iff the frame is the threshold-th MAC change of its address's flap window |
| `ArpRuns.RateReachedIff` | `src/analyzer/arp.rs:1039-1044` | the integer division means count >= rate * max(1, seconds) |
| `ArpRuns.CountersSummarize` | `src/analyzer/arp.rs:1016-1046` | every counter holds the number and start of its sender's running window, and its flag says whether the rate was ever reached in it |
| `ArpRuns.StormIsFirstReached` | `src/analyzer/arp.rs:1039-1078` | the storm finding comes with the first frame of a window that reaches the rate and with no other |
| `ArpRuns.StormsStay` | `src/analyzer/arp.rs:970-993` | at most 4,096 counters over any capture |
| `ArpRuns.CountShape` | `src/analyzer/arp.rs:1016-1036` | a sender that has a counter never displaces another, expired or not |
| `ArpRuns.NoCounterLost` | `src/analyzer/arp.rs:970-1036` | with at most 4,096 senders a counter's frames are all its sender's frames |
| `ArpRuns.StormByFrames` | `src/analyzer/arp.rs:1039-1078` | with at most 4,096 senders, by the frames alone: a storm is reported iff the frame is the first of its sender's window to reach the rate |
| `ArpRuns.ReportByFrames` | `src/analyzer/arp.rs:461-683` | with at most 65,536 addresses and 4,096 senders: the exact list of findings of any frame by the frames before it, in order: mismatch, storm, gratuitous (MEDIUM iff it changes a MAC, else LOW), spoof (HIGH iff it is the threshold-th change of its window, else MEDIUM), and none for the zero and broadcast addresses |
| `ArpRuns.TotalsByFrames` | `src/analyzer/arp.rs:467-472` | over any capture, frame, request, reply, other, gratuitous, mismatch and storm totals are plain counts of frames and reports |
| `PcapngTime.PowersOfTen` | `src/reader.rs:129-150` | the table holds the powers of ten |
| `PcapngTime.TicksOfHalves` | `src/reader.rs:369-373` | the two 32-bit halves of a tick make up the tick, the upper half first |
| `PcapngTime.RateUsed` | `src/reader.rs:369-411` | the rate used is the announced one when the exponent fits, and otherwise at most half of it |
| `PcapngTime.FastPathAgrees` | `src/reader.rs:369-411` | the microsecond shortcut is the general formula |
| `PcapngTime.AlwaysInRange` | `src/reader.rs:369-411` | for all ticks and all 256 bytes: microseconds below a million, seconds the saturated quotient |
| `PcapngTime.ExactForRateUsed` | `src/reader.rs:369-411` | unsaturated, seconds and microseconds together are the exact floor |
| `PcapngTime.ExactIff` | `src/reader.rs:369-411` | the time is the announced one if and only if the seconds fit and either the exponent fits or the ticks are too few to matter |
| `PcapngTime.MonotoneBelowSaturation` | `src/reader.rs:369-411` | later ticks are never earlier times, for every resolution byte, until the seconds saturate |
| `PcapngTime.SaturationLosesOrder` | `src/reader.rs:369-411` | at every rate of two or more ticks, the first saturated tick comes out earlier than the tick before it; it fits 64 bits, and so can be received, iff the rate is at most 2^32 - 1 |
| `PcapngTime.OrderKeptIff` | `src/reader.rs:369-411` | for all 256 resolution bytes, times of ticks up to a limit keep their order if and only if the seconds of the limit fit 32 bits or the clock has one tick a second |
| `PcapngTime.OrderKept64Iff` | `src/reader.rs:369-411` | over all 64-bit ticks order is kept if and only if the clock has one tick a second or more than 2^32 - 1 |
| `PcapngOptions.ParseIdbOptions` | `src/reader.rs:745-832` | the cursor loop ends on any octets, reads in range, and equals the recursive walk |
| `PcapngOptions.ItemFields` | `src/reader.rs:745-832` | an encoded option is found where the walk looks for it, whatever its padding |
| `PcapngOptions.ScanEncoded` | `src/reader.rs:745-832` | from any position, the walk over encoded options gives the list's meaning, or goes on with what follows if none of them decides |
| `PcapngOptions.OptionsRoundTrip` | `src/reader.rs:745-832` | for every option list in either byte order the reader finds the first resolution option before an end marker, the default 6 without one, and an error exactly when that option is not one octet |
| `PcapngOptions.TruncatedIsOverrun` | `src/reader.rs:745-832` | a last option that announces more octets than there are is an overrun error |
| `PcapngOptions.UnpaddedIsRead` | `src/reader.rs:745-832` | a last option without its padding is read like any other |
| `PcapngOptions.LeftoverIsNothing` | `src/reader.rs:745-832` | fewer than four octets behind options that do not decide leave the default |
| `PcapngWalk.ReadBlocks` | `src/reader.rs:1061-1387` | the loop with its ordered checks equals the recursive walk |
| `PcapngWalk.Sticky` | `src/reader.rs:1140-1371` | the first error is the error of the whole walk |
| `PcapngWalk.OnePassIsTwoPass` | `src/reader.rs:1140-1387` | the single pass accepts exactly the captures that collecting all interfaces first and decoding packets second accepts, with the same packets, interfaces and counts |
| `PcapngWalk.AcceptedShape` | `src/reader.rs:1152-1387` | accepted captures have at most 65,535 interfaces of one supported link type, every block is an interface, a packet or skipped, and obsolete packets are among the skipped |
| `PcapngWalk.PrefixAccepted` | `src/reader.rs:1071-1387` | every prefix of an accepted capture is accepted with a prefix of its packets |
| `PcapngWalk.SkippedBlocksDoNotMatter` | `src/reader.rs:1326-1369` | deleting skipped blocks changes neither the outcome, its error, the packets nor the interfaces |
| `PcapngWalk.EpbAcceptedIff` | `src/reader.rs:449-544` | exactly which Enhanced Packet Blocks are accepted and with which packet, its tick being the first half times 2^32 plus the second, and when the two interface errors occur |
| `PcapngWalk.RejectedIff` | `src/reader.rs:1140-1371` | each of the eight errors is returned iff, after an accepted prefix, the next block is what that error stands for, by literal block types, lengths and link types |
| `PcapngWalk.EpbRoundTrip` | `src/reader.rs:449-544` | an encoded packet comes back with its data and time in either byte order, whatever follows the data |
| `PcapngWalk.SpbRoundTrip` | `src/reader.rs:1264-1324` | a Simple Packet Block yields the announced octets, or all it holds, at time zero |
| `PcapngCapture.CaptureRoundTrip` | `src/reader.rs:1061-1387` | any interfaces of one supported link type with any options and any packets naming them, written in either byte order with any skipped blocks anywhere, are read back: exactly those interfaces and packets with their converted times |
| `PcapngCapture.SourceRead` | `src/reader.rs:1185-1251` | an encoded interface is read back with its link type and the resolution its options mean |
| `Dispatcher.DecideIsFirst` | `src/dispatcher.rs:405-426` | the specification picks the first recognised chunk within the budget, and nothing iff there is none |
| `Dispatcher.ClassifyIff` | `src/dispatcher.rs:300-373` | for each of the seven outcomes, exactly which content and which ports lead to it, by literal ports and spelled-out words |
| `Dispatcher.ChunkTracks` | `src/dispatcher.rs:405-426` | one chunk keeps cache and counter equal to the specification |
| `Dispatcher.RunTracks` | `src/dispatcher.rs:376-480` | over any interleaving of flows and closes, cache entry and counter of a flow are functions of its chunks since the last close |
| `Dispatcher.RoutingIsSpecified` | `src/dispatcher.rs:405-522` | a chunk goes to the first recognised class of its flow once that chunk is reached and nowhere before; a close goes to the same analyzer |
| `Dispatcher.CacheAndCountersApart` | `src/dispatcher.rs:405-426` | cached and counted keys are disjoint and counters lie between 1 and the cap less one |
| `Dispatcher.CapZeroIsCapOne` | `src/dispatcher.rs:405-426` | a cap of 0 gives the same runs as a cap of 1 |
| `Dispatcher.StreamDispatcher.OnChunk` | `src/dispatcher.rs:376-426` | the method is one step of the model |
| `Dispatcher.StreamDispatcher.OnFlowClose` | `src/dispatcher.rs:475-558` | the method is one close of the model |
| `CoverageGaps.SupportedPorts` | `src/main.rs:1076-1105` | for every port, over TCP and UDP, whether the catalog lookup reports known-supported, known-unsupported or unknown, by literal ports |
| `CoverageGaps.GapsAddUp` | `src/dispatcher.rs:536-554` | the per-port counts always add up to the unclassified flows |
| `CoverageGaps.GapKeys` | `src/dispatcher.rs:522-556` | a TCP gap is recorded for a port iff a flow of that service was closed with all its chunks passed over |
| `CoverageGaps.GapCounts` | `src/dispatcher.rs:522-556` | the unclassified flows are the closes of passed-over flows, the count of a port is how many of them had it as their lower port, and without an analyzer nothing is counted or remembered |
| `CoverageGaps.SupportedGapIffUnheard` | `src/dispatcher.rs:319-372` | a TCP gap names a supported protocol iff a flow on one of its ports was closed without any chunk |
| `CoverageGaps.UdpGapIsNeverSupported` | `src/dispatcher.rs:585-603` | every UDP datagram without port 53 has a gap key, under the lower of its ports, the same in both directions and never of a supported protocol |

## Left out

- Finding text, evidence, technique lists, categories and IP attribution: formatting of a finding.
- JSON output of the summaries, and `summarize` and `record_malformed` of the ARP analyzer: formatting and plain counters.
- Saturation of 64-bit counters, and of the 32-bit packet and skip counters of the pcapng walk: they are unbounded here.
- In-place update of a flow inside the DNP3 analyzer's map: a flow is a value that is taken out, handled and put back, as the program borrows one flow at a time.
- Parse-error counting and window expiry inside the DNP3 loop are the model's step functions; they have no loop or branch order of their own.
- `insert_binding_lru_btree` and the storage order of the hash maps: only the order in which keys are listed matters here.
- `decode_epb_body_discriminant`, `parse_shb_body` and its typed twin: the first repeats the packet decoder, the others only look at the first block of a file.
- The framing of pcapng blocks by the pcap-file crate, its error messages, file I/O, size limits, magic probing and classic pcap: the walk starts from blocks that are already split.
- `src/decoder.rs`: ARP frames and UDP ports are inputs.
- `src/analyzer/http.rs` and the TLS, Modbus, EtherNet/IP and IEC 60870-5-104 analyzers: the dispatcher is modelled up to the analyzer it chooses.
- TCP reassembly: deliveries in order are inputs.
- Changing the set of analyzers during a run (`set_` and `take_` methods): the set is fixed.
- Dnp3Summary.CloseIsInvisible: the summary is modelled as counts and the sorted list, without the decimal keys of its JSON form, because those only number the list.
- Dnp3Chunking.ChunkingInvisible: needs at least one chunk, because without any delivery the correlation window is not seeded.
- Dnp3Windows.GuardsByCounting: how many requests a delivery finds overdue is read off the pending table; `Dnp3Requests.GuardsByFrames` does without it, for flows on which nothing is evicted, because which request an eviction takes depends on the hash order.
