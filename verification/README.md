# KernelGuard verification

A Dafny model of the parts of KernelGuard that are protocols, state machines and byte-level transformations, with
proofs of what they promise.  `dafny verify dfyconfig.toml` checks everything.

| files | component |
|---|---|
| AlertRing, RingReader, MacExamples, RingTorn, RingMonitor, RingOvertaken, Comms, RateLimit, AlertFeed | the 16-slot authenticated alert ring: single stores of the writer against single loads of a lock-free reader, the drain loop and its account of every sequence number, the publishing side with its token bucket, and what the escalation engine is given |
| TextSites, TextIntegrity | the kernel-text verifier: patch-site classification, overlapping chunks, runs, the baseline |
| StableSort, Authenticode, AuthenticodeDriver, AuthenticodeTool, AuthenticodeTheorems, PeImage | the Authenticode digest walk of the driver and its twin in the command-line tool, and PE images written for them |
| Guard, Response, ResponseSafety, ResponseHistory, ResponseRuns, ResponseRoute, ResponseGate, ResponseStuck, Posture, PostureSolo | the graduated response: the guarded strategy table, the machine of interleaved threads with the posture lock, and the sequential calls |
| Incidents, IncidentRuns, IncidentTable, RuleRuns, Engine, PolicyText, PolicyParse, PolicyPrint, PolicyRoundTrip, EngineText | the escalation engine of the monitor, from policy text to incidents and back |
| Sha256Words, Sha256, Sha256Roots, Hmac | streaming SHA-256 and HMAC |
| ModuleId, ModuleImage, ModGate | the module-identity reader and printer, and the gate that parses what it prints |
| Pmu, PmuRuns, Vote | the cache-miss sampler and its majority vote |
| LoadQueue, LoadGuard | the Windows load-guard queue, semaphore and unloading |
| Bytes, FileParts, Options | bytes and little-endian loads, files as lists of parts, values that may be missing |

How the model is made.  Code that updates fields or buffers is a class or an array method proved against a function
on values; protocols are machines whose steps are single stores, loads or critical sections, and theorems about them
hold for every interleaving (`Trace`, `Behavior`).  Times, hash failures, CPU topology, file checks and the answers of
`Update` are inputs.  Bit masks of actions are sets of action numbers.  Integer widths are written out where they
matter: 32-bit sequence numbers and counts, 64-bit times and lengths.

Findings, each with its input and its exact condition:

- The sampler's thresholds are meant to satisfy crit > warn "whatever was typed".  They do exactly when pmu_warn is
  below 2^32 - 1 (`Pmu.ThresholdsOrdered`); at that value the sum wraps to 0, and with pmu_crit = 0 a silent window
  is critical (`Pmu.SilentIsCritical`).
- The majority vote survives the sampler taking the candidate at any moment.  Zeroing the counter keeps the guarantee
  exactly when the handler is not about to decrement the counter, nor to count for a candidate that has been taken
  (`Vote.ZeroExactly`); counted from the beginning of an overflow, exactly between two overflows
  (`Vote.ZeroBegunExactly`).
- When unloading the load guard gives up waiting for a callback it clears the queue pointer.  Nothing goes wrong
  afterwards exactly when nobody is left who will use the queue (`LoadGuard.GivingUp`); `LoadGuard.GivingUpCanFault`
  is a run where somebody is.
- ELEVATED is on its way down unless it was forgotten: a release at ELEVATED with no decay period and nothing under
  way, or the last handler reading no decay period, and no release with a period set since
  (`ResponseStuck.StuckExactly`).  Switching posture_decay_s on does not start the timer (`ResponseStuck.StuckRun`).
- A denied load that is let through raises the posture only when its report is delivered.  Until then the gate lets
  every other denied load through too: a later load is let through exactly while that report is on its way and the
  posture below HIGH (`ResponseGate.RefusedExactly`; `ResponseGate.LetThroughTwice` is a run).
- A repetition is missed exactly when one of the first N - 1 arrivals after the 32-bit count has wrapped closes it
  (`Incidents.SeenExactly`, `IncidentRuns.MissedAtWrap`).
- With an honest writer TAMPER is raised exactly when an unreadable slot meets a writer a whole lap of the 32-bit
  numbers ahead (`RingMonitor.Monitor.Look`, `RingOvertaken.FalseTamper`).

## Model

| member | source | states |
|---|---|---|
| AlertRing.ApplyInv | linux/module/kg_comms.c:181-233 | every single store of the writer (reserve, hash failure, invalidate, ten fields, validate, count) keeps the invariant: slots not being rewritten hold their last notification whole, the one being rewritten is old from the next store on and new before it, write_index and driver_nonce agree modulo 2^32 |
| AlertRing.RunsInv | linux/module/kg_comms.c:181-233 | over any number of writer steps between two observations the invariant holds at both and the history only grows |
| AlertRing.CellSource | linux/module/kg_comms.c:218-231 | every cell of a published slot comes from that notification or a later one of the same slot, or is the zero magic |
| AlertRing.InvalidMeansLapped | linux/module/kg_comms.c:208-231 | an invalid magic on a published slot means a rewrite is under way, so write_index is at least cursor + 16 |
| AlertRing.ValidMeansWhole | linux/module/kg_comms.c:208-231 | a valid magic means the slot holds one notification cell for cell: the last one whose rewrite was completed |
| AlertRing.NoRewriteBetween | linux/module/kg_comms.c:208-231 | if the slot is valid now and no rewrite was completed since an earlier moment, it was valid at that moment |
| RingReader.CopyCells | linux/monitor/kgmon.c:719-720 | eleven loads in any order, with any writer stores between them: each copied cell is one the slot held meanwhile |
| RingReader.AuthenticIsWhole | linux/monitor/kgmon.c:756-757 | a copy assembled from different notifications cannot carry a matching tag: a verified copy equals one published notification |
| MacExamples.FourfoldIsIdeal | linux/monitor/kgmon.c:756-757 | the assumption on the MAC can be met |
| MacExamples.InjectiveIsNotEnough | linux/monitor/kgmon.c:756-757 | an explicit tag that is injective and still verifies a torn copy, so the assumption is about splices of tags |
| RingReader.Untorn | linux/monitor/kgmon.c:710-725 | with no complete rewrite between the two magic loads the copy is untorn |
| RingReader.CopyMeaning | linux/monitor/kgmon.c:710-725 | what the two magic loads, the sequence check and the MAC each contribute to the meaning of a copy |
| RingReader.ReadSlot | linux/monitor/kgmon.c:710-725 | in every interleaving: retry or bad only if the slot was already being reused; ok and authentic only for a notification published under that sequence number; untorn if no complete rewrite fell between the magic loads |
| RingTorn.TornCopy | linux/monitor/kgmon.c:710-725 | a reachable run in which both magic loads and the sequence number are right and the copy is no notification, so the MAC is needed |
| RingMonitor.Monitor.constructor | linux/monitor/kgmon.c:865-869 | the first cursor is the write index or the oldest slot still there |
| RingMonitor.Monitor.CatchUp | linux/monitor/kgmon.c:730-739 | after the first load of write_index at most sixteen notifications are ahead; what was lapped is counted exactly |
| RingMonitor.Monitor.SkipLost | linux/monitor/kgmon.c:732-739 | the lost count is exactly the notifications skipped |
| RingMonitor.Monitor.Attempt | linux/monitor/kgmon.c:746-751 | up to fifty attempts, all of them used only if every one failed, and what the last of them means |
| RingMonitor.Monitor.Look | linux/monitor/kgmon.c:741-773 | the verdict: TAMPER exactly when the slot was unreadable and the writer is, modulo 2^32, fewer than sixteen ahead; true of the writer while it is less than 2^32 ahead |
| RingMonitor.Monitor.Blame | linux/monitor/kgmon.c:759-772 | overwritten or tampered with, decided in 32-bit arithmetic |
| RingOvertaken.OvertakenExists | linux/monitor/kgmon.c:759-772 | an honest writer can be exactly 2^32 notifications out between two loads |
| RingOvertaken.FalseTamper | linux/monitor/kgmon.c:741-773 | and then the reader raises TAMPER |
| RingMonitor.Monitor.TakeOne | linux/monitor/kgmon.c:741-774 | one number is accounted for by exactly one event, and the event is true |
| RingMonitor.Monitor.Drain | linux/monitor/kgmon.c:727-778 | in every interleaving with an honest writer the log stays a true account: an event with a good tag for number n carries kind, level, time and parameters of the alert submitted as number n, never TAMPER, lost and overrun only for lapped numbers |
| RingMonitor.ExactlyOnce | linux/monitor/kgmon.c:727-778 | each sequence number passed is accounted for by exactly one event of the log, no other number by any |
| AlertFeed.FedTruly | linux/monitor/kgmon.c:532-582 | the whole way: for an event with a good tag the engine is given code, level, parameters and time of the alert the kernel submitted; otherwise only FORGED or OVERRUN, never TAMPER, and no parameters |
| AlertFeed.ConcernsSubmitted | linux/monitor/kgmon.c:561-582 | a rule acts on it exactly if it lists the kind submitted and the level submitted reaches its level |
| RateLimit.PaidFor | linux/module/kg_comms.c:81-94 | what is published below critical is paid for by the tokens there were and the intervals credited since |
| RateLimit.Bounded | linux/module/kg_comms.c:81-94 | any interval [t1, t2] publishes at most 33 + (t2 - t1) / 100 ms notifications below critical, from any bucket state |
| RateLimit.Served | linux/module/kg_comms.c:81-94 | n tokens there or earned by whole 100 ms intervals, n up to 32, serve the next n submissions below critical |
| RateLimit.CriticalNeverDropped | linux/module/kg_comms.c:183-187 | critical notifications are never rate limited |
| RateLimit.CreditNotAhead | linux/module/kg_comms.c:81-94 | tokens never exceed 32 and the credit time never runs ahead of the clock |
| Comms.Channel.RlAllow | linux/module/kg_comms.c:81-94 | the in-place token bucket is the bucket of the bounds |
| Comms.Channel.Notify | linux/module/kg_comms.c:162-240 | a published alert is the next notification, its number, kind, level, time and two parameters each in its own cell, tagged, and the page is that of fifteen machine steps; rate limiting and HMAC failure leave the page as it was, so driver_nonce == write_index and no gap arises; sent + dropped + failed == submitted |
| Comms.Channel.Send | linux/module/kg_comms.c:189-235 | number, authenticate and store with every field in its cell, or undo the reservation |
| Comms.Channel.Publish | linux/module/kg_comms.c:218-231 | the stores in their order leave the notification whole in its slot and count it |
| Comms.Channel.UeventTake | linux/module/kg_comms.c:100-141 | the second consumer, under the lock, always snapshots a valid notification with the expected number and the fields of the alert of that number, and skips only what was lapped |
| Comms.StoresRun | linux/module/kg_comms.c:218-231 | from any point of a publication the remaining stores lead to the finished page |
| Comms.PublishRuns | linux/module/kg_comms.c:189-231 | an undisturbed publication is a run of the machine and keeps its invariant |
| TextSites.MatchSite | linux/module/kg_integrity.c:351-442 | the search finds the short form first, then the nearest five-byte window that is or was a patch site, or reports that there is none; a window is answered with the verdict and flag its bytes deserve |
| TextSites.ScanNext | linux/module/kg_integrity.c:444-479 | each window begins where the one before ended, so windows are disjoint and the scan strictly advances |
| TextSites.JudgedRight | linux/module/kg_integrity.c:289-442 | a five-byte window is recognised exactly when both sides are known forms or ordinary code becomes a JMP, and then gets the verdict and flag its old and new bytes and its target deserve |
| TextSites.BranchReadBack | linux/module/kg_integrity.c:309-315 | the target of an assembled CALL or JMP is read back for every target within 32 signed bits |
| TextSites.EachRight | linux/module/kg_integrity.c:444-479 | every window of a scan has the verdict it deserves and none is worse than the answer |
| TextSites.AimedScan | linux/module/kg_integrity.c:351-479 | a run inside the five bytes the search comes to first gets exactly what they deserve |
| TextSites.UnrecognisedScan | linux/module/kg_integrity.c:455-467 | where nothing is recognised at the first byte the scan stops there |
| TextSites.BenignExplained | linux/module/kg_integrity.c:444-479 | if all windows are benign, every modified byte lies in disjoint patch-site windows |
| TextSites.OpcodeFlipAccepted | linux/module/kg_integrity.c:351-479 | a run inside one five-byte site whose opcode byte changes between the forms of the kernel is accepted |
| TextSites.Classify | linux/module/kg_integrity.c:444-479 | the verdict is the worst over the windows, raised by an unexplained byte, and every window is answered as it deserves; for a run inside one site, byte by byte: a JMP over ordinary code, a CALL or JMP to known code or elsewhere, a silenced static call; for a run that is no site: CRITICAL, or WATCH for a lone int3; BENIGN implies every modified byte is covered by disjoint NOP2/JMP8 flips or NOP5/CALL/JMP transitions with allowed targets |
| TextIntegrity.Region.HandleRun | linux/module/kg_integrity.c:484-510 | the run is classified once, with the verdict and flags its change deserves; anything but BENIGN is reported as TEXT_PATCH with its level, address, flags and length, and the bytes of the run, no others, are taken into the baseline |
| TextIntegrity.Region.Sample | linux/module/kg_integrity.c:519-527 | a byte on which two samples disagree counts as unchanged |
| TextIntegrity.Region.NextRun | linux/module/kg_integrity.c:530-547 | the next maximal run of differences, merged over gaps of fewer than four equal bytes |
| TextIntegrity.Region.ChunkCheck | linux/module/kg_integrity.c:512-553 | the runs that begin in the chunk are handled in order, each difference in one of them, each with the verdict it deserves at that moment, and the baseline takes the settled bytes |
| TextIntegrity.Region.Verify | linux/module/kg_integrity.c:555-574 | if the text stood still during the pass, every difference lies in exactly one handled run with the verdict it deserves, the baseline equals the text, and a pass over matching text handles nothing; however it moved, a baseline byte only takes a value the two samples of one chunk check agreed on |
| TextIntegrity.AtMostOne | linux/module/kg_integrity.c:512-574 | handled runs share no byte, despite chunk overlap |
| TextIntegrity.SecondPassSilent | linux/module/kg_integrity.c:555-574 | a pass over text that matches the baseline has no runs |
| TextIntegrity.PassChunk | linux/module/kg_integrity.c:555-574 | a chunk check carries the pass invariant across the overlap, also when a run was cut at the chunk boundary |
| TextIntegrity.JudgedChunk | linux/module/kg_integrity.c:512-574 | verdicts found in a chunk are those against the text already current before the run and not yet from it on |
| AuthenticodeDriver.HashRange | windows/src/pe_authenticode.c:28-39 | the range is fed completely, in order, in pieces of 1 byte to 1 MiB, or the first refusal of Update is reported |
| AuthenticodeDriver.ParseHeaders | windows/src/pe_authenticode.c:54-105 | the header checks of the driver accept exactly the files the layout function accepts, with the same layout |
| AuthenticodeDriver.InsertInto | windows/src/pe_authenticode.c:112-115 | one round of the in-place insertion keeps a stable sort |
| AuthenticodeDriver.ReadSections | windows/src/pe_authenticode.c:106-116 | the array ends up a stable sort of the section table as the coverage reads it |
| AuthenticodeDriver.HashSections | windows/src/pe_authenticode.c:133-145 | non-empty sections are fed in sorted order while they fit the file and its length |
| AuthenticodeDriver.PeaAuthenticodeHash | windows/src/pe_authenticode.c:46-160 | the walk accepts exactly the files with a coverage and feeds exactly its bytes |
| StableSort.StableUnique | windows/src/pe_authenticode.c:112-115 | a stable sort has only one result |
| StableSort.SortThenSkip | tools/pe_authentihash.py:98-136 | sorting and then skipping empty sections is dropping them and then sorting |
| AuthenticodeTool.AuthenticodePieces | tools/pe_authentihash.py:98-136 | the tool accepts exactly the files with a coverage and returns its non-empty spans |
| AuthenticodeTheorems.Twins | windows/src/pe_authenticode.c:46-160 | for every byte string, when Update never fails, the two walks both reject or feed the hash the same bytes |
| AuthenticodeTheorems.Conservation | windows/src/pe_authenticode.c:83-159 | exactly Length - 4 - (8 with an entry) - (certSize if bytes follow the sections) bytes are fed |
| AuthenticodeTheorems.SigningInvariant | windows/src/pe_authenticode.c:83-159 | two accepted files that differ only in CheckSum, certificate entry and trailing blob, section data and section table before the blob, feed identical bytes |
| PeImage.LayoutFound | windows/src/pe_authenticode.c:54-105 | for every PE32 and PE32+ image written field by field, the layout is the one written |
| PeImage.EntryFound | windows/src/pe_authenticode.c:106-111 | size and pointer of every entry of the section table are read where the format has them |
| PeImage.SectionsFound | windows/src/pe_authenticode.c:106-116 | the sections that are hashed are the data written behind the headers, in that order, however the table lists them |
| PeImage.ImageCovered | windows/src/pe_authenticode.c:117-159 | the coverage of an image is the image without CheckSum, certificate entry and blob |
| PeImage.HashImage | windows/src/pe_authenticode.c:46-160 | on every such image driver and tool both feed exactly that |
| Guard.SectionsKeepSound | linux/module/kg_mitigate.c:161-254 | every critical section keeps: failsafe iff FAILSAFE, FULL on every CPU from HIGH on, each strategy its base or FULL |
| Guard.UpAndBack | linux/module/kg_mitigate.c:203-218 | going to HIGH or above and back restores every baseline strategy |
| Guard.State.Store | linux/module/kg_mitigate.c:161-178 | the probe result is stored, at full-spectrum while the posture is HIGH or above; the other CPUs stay; the digest follows |
| Guard.State.SetPosture | linux/module/kg_mitigate.c:203-218 | every CPU at full-spectrum from HIGH on, back at its base when leaving HIGH, as it was otherwise; header and digest follow |
| Guard.State.EnterFailsafe | linux/module/kg_mitigate.c:220-235 | true only for the caller that made the transition |
| Guard.State.EscalateCpu | linux/module/kg_mitigate.c:237-244 | one CPU to full-spectrum, the others as before; an index outside the table changes nothing |
| Guard.State.RelaxCpu | linux/module/kg_mitigate.c:246-254 | below HIGH the CPU is at its base afterwards, from HIGH on nothing changes: the posture is checked again under the lock |
| Guard.State.Release | linux/module/kg_state.c:69-74 | a digest that could not be computed leaves the old one |
| Guard.State.Verify | linux/module/kg_state.c:83-96 | true exactly when the digest could be computed and is that of the table |
| ResponseSafety.TableKept | linux/module/kg_mitigate.c:161-254 | under every interleaving of raises, operator steps, decay, CPU online, escalation, sampling, gate and parameter writes, the table stays sound, and its digest is current whenever the last section could be hashed |
| ResponseSafety.SectionKept | linux/module/kg_posture.c:102-252 | what the holder of the posture lock relies on stays true while others run |
| ResponseSafety.DueExact | linux/module/kg_posture.c:131-135 | the 64-bit due time never wraps |
| ResponseHistory.EntriesKept | linux/module/kg_state.c:324-355 | entries into FAILSAFE are counted once and each is announced once or about to be |
| ResponseHistory.GateKept | linux/module/kg_modgate.c:335-369 | the refused counter is the number of refusals, and hits are refused, let through or still open |
| ResponseRuns.Always | linux/module/kg_posture.c:87-252 | the whole invariant holds in every reachable state of every interleaving |
| ResponseRuns.AllTold | linux/module/kg_posture.c:154-214 | with all calls returned: entries into FAILSAFE == entered counter == FAIL_SAFE_ENTERED alerts, and refused == refusals <= deny hits + lock hits |
| ResponseRuns.RaiseOverRun | linux/module/kg_posture.c:183-214 | over every run: from the reading of the cap through the taking of the lock to its release, an automatic raise yields max(old, min(target, max_posture)), whatever others do meanwhile |
| ResponseRuns.OutcomeKept | linux/module/kg_posture.c:183-214 | while the lock is held nobody changes the outcome |
| ResponseRuns.FreeKeepsPosture | linux/module/kg_posture.c:183-252 | while the lock is free the posture does not change |
| ResponseRuns.UntrustedNeverDown | linux/module/kg_posture.c:219-252 | once the state is untrusted and the posture at least HIGH, the posture never decreases |
| ResponseRuns.OnlyQuietLowers | linux/module/kg_posture.c:124-148 | the only automatic lowering is ELEVATED to NORMAL, a full quiet period after every counted trigger and operator step |
| ResponseGate.RefusedExactly | linux/module/kg_modgate.c:335-369 | over every run, after a denied module was let through and with max_posture at least HIGH and no operator stepping below it: a load decided at any later moment with auto_enforce set is refused exactly when enforce is set, or the posture is at least HIGH, or the report of the first load is no longer on its way |
| ResponseGate.DenyHitLatches | linux/module/kg_modgate.c:335-369 | in particular, once that report is done every load decided while auto_enforce is set is refused |
| ResponseGate.LetThroughTwice | linux/module/kg_modgate.c:349-367 | a run from the start in which two denied loads, decided one after the other, are both let through |
| ResponseRuns.CallsReturn | linux/module/kg_state.c:251-355 | every step of a call leaves it less to do |
| ResponseRuns.OthersKeepWork | linux/module/kg_state.c:251-355 | the steps of others leave it as much to do |
| ResponseRuns.CallBounded | linux/module/kg_state.c:251-355 | over every run a call takes at most its weight in steps of its own, so the recursion of report, dispatch, raise and report ends |
| ResponseRuns.NoDeadlock | linux/module/kg_posture.c:31-36 | while a thread has something to do, some thread can step |
| ResponseStuck.StuckExactly | linux/module/kg_posture.c:92-148 | over every run ELEVATED has neither timer nor handler exactly when a release with no decay period found nothing under way, or the last handler read no decay period, and no release at ELEVATED with a period set has come since |
| ResponseStuck.ElevatedNotStuck | linux/module/kg_posture.c:92-148 | in particular never while a decay period is set throughout |
| ResponseStuck.StuckRun | linux/module/kg_posture.c:92-100 | a run from the start that gets there: no decay period, a trigger, and then a period switched on |
| Posture.Ladder.Raise | linux/module/kg_posture.c:183-214 | the posture becomes the higher of the old one and the target as far as max_posture allows; counted, applied, announced |
| Posture.Ladder.Set | linux/module/kg_posture.c:219-252 | the operator request: the three refusals exactly, otherwise the posture asked for with its announcement of old and new posture, reason and trigger |
| Posture.Ladder.DecayFn | linux/module/kg_posture.c:124-148 | lowers ELEVATED to NORMAL exactly when the quiet period is over and announces it, otherwise re-arms |
| Posture.Ladder.ApplyLocked | linux/module/kg_posture.c:102-110 | the posture is applied and counted, the fail-safe mark cleared below FAILSAFE |
| Posture.Ladder.AfterUp | linux/module/kg_posture.c:154-181 | FAILSAFE sets its mark and reports FAIL_SAFE_ENTERED |
| Posture.Ladder.Dispatch | linux/module/kg_state.c:251-317 | which code and level ask for which posture, written out; which CPUs are escalated; nothing for any other alert |
| Posture.Ladder.EscalateCore | linux/module/kg_mitigate.c:295-307 | the CPU and the online CPUs that share its core are at full-spectrum, the others as before |
| Posture.Ladder.Report | linux/module/kg_state.c:324-355 | delivers first, then acts: TEXT_PATCH and DISPATCH_HOOK at CRITICAL and STATE_CORRUPT at any level end at FAILSAFE as far as the cap allows, IDT_HOOK, CTRL_REG and VULN_DRIVER at CRITICAL at HIGH or above, the listed others at ELEVATED or above, every other code and level leaves the posture; terminates |
| Posture.ReportTold | linux/module/kg_state.c:324-355 | a report announces FAILSAFE exactly when it leads there |
| ResponseRoute.WantedIs | linux/module/kg_state.c:251-317 | the answer to every code and level, with the numbers of the interface |
| ResponseRoute.EscalationsAre | linux/module/kg_state.c:254-266 | a cache anomaly at CRITICAL escalates the CPU in its second parameter and the online CPUs of that core, nothing else does |
| ResponseRoute.AlertRaises | linux/module/kg_state.c:251-355 | over every run: once a thread is through with the report of an alert, the posture the alert asks for has been reached in between, unless max_posture or the shutdown stood in the way |
| ResponseRoute.RaisesAreAsked | linux/module/kg_state.c:251-355 | over every run: every automatic raise was asked for by an alert sent before |
| ResponseGate.DecisionReports | linux/module/kg_modgate.c:349-368 | what each decision reports, with code and level, before the load goes on or is refused |
| PostureSolo.SoloRaise | linux/module/kg_posture.c:183-214 | undisturbed, the interleaved steps of a raise add up to the sequential call |
| PostureSolo.SoloOperate | linux/module/kg_posture.c:219-252 | likewise for the operator request, granted or not |
| PostureSolo.SoloDecay | linux/module/kg_posture.c:124-148 | likewise for the quiet-period handler, from the expiry of the timer on |
| Incidents.WindowSeen | linux/monitor/kg_policy.c:637-645 | the 16-entry circular buffer answers the repetition question about the full arrival history, for every N up to 16, but for the first N - 1 arrivals after the 32-bit count has wrapped |
| Incidents.SeenExactly | linux/monitor/kg_policy.c:637-645 | a repetition that closes is noticed exactly when there are fewer than 2^32 arrivals or the wrapped count is at least N |
| Incidents.ExactBelowWrap | linux/monitor/kg_policy.c:637-645 | below 2^32 arrivals repetition escalates exactly at the first arrival that closes N within the inclusive window |
| IncidentRuns.MissedAtWrap | linux/monitor/kg_policy.c:628-645 | 2^32 arrivals in order of time whose last closes a repetition for which then= is not run |
| Incidents.AlertRefines | linux/monitor/kg_policy.c:601-647 | an alert does to the incident what it does to the episode with its whole history, and what is run, and when, is what the episode gained |
| Incidents.TickRefines | linux/monitor/kg_policy.c:649-668 | a tick likewise |
| Incidents.AckRefines | linux/monitor/kg_policy.c:670-679 | an acknowledgement likewise |
| Incidents.WrapSafe | linux/monitor/kg_policy.c:675-676 | for sequence numbers less than 2^31 apart the comparison is the true one, wrapped or not |
| Incidents.ArrivedSane | linux/monitor/kg_policy.c:601-647 | an arrival keeps the episode sane: base runs a throttle apart, then= at most once, repetition exactly at the first arrival noticed to close one |
| Incidents.TickedSane | linux/monitor/kg_policy.c:649-668 | a tick keeps the episode sane |
| Incidents.AckedIsDone | linux/monitor/kg_policy.c:612-623 | an acknowledged incident runs nothing, and the next alert starts a new episode |
| IncidentRuns.LivesAreSane | linux/monitor/kg_policy.c:601-679 | over every sequence of alerts, ticks, acknowledgements and evictions of a key: every episode is sane, and do= and then= are run exactly at the times of its base runs and escalation, with their masks |
| IncidentTable.HitOn | linux/monitor/kg_policy.c:581-647 | an alert is an arrival for its key, an eviction for the key that loses its slot, and nothing for the others |
| IncidentTable.TickOn | linux/monitor/kg_policy.c:649-668 | a tick is a tick for every key |
| IncidentTable.AckOn | linux/monitor/kg_policy.c:670-679 | an acknowledgement is one for every key |
| IncidentTable.KeysLive | linux/monitor/kg_policy.c:581-679 | every key of every run of the 64-slot table lives exactly the life of its own events |
| IncidentTable.Unbounded | linux/monitor/kg_policy.c:581-679 | while every new key finds a free slot the table is an unbounded map |
| IncidentTable.EvictsOnlyWhenFull | linux/monitor/kg_policy.c:581-599 | a slot is given away only when all are taken, and then the least recently used |
| IncidentTable.EngineIsSane | linux/monitor/kg_policy.c:601-679 | keys are distinct and every key is sane over every run in time order |
| Engine.Monitor.IncidentSlot | linux/monitor/kg_policy.c:581-599 | one scan finds the key, the first free slot or the least recently used one |
| Engine.Monitor.TakeIn | linux/monitor/kg_policy.c:612-645 | the in-place update of one incident is the per-key step |
| Engine.Monitor.ApplyRule | linux/monitor/kg_policy.c:603-646 | one rule of an alert: anything is run only if the level reaches the level of the rule and its code is listed, and then do= for every key without an open incident |
| Engine.Monitor.Alert | linux/monitor/kg_policy.c:601-647 | for every rule the alert concerns by level and code and that has no open incident for it do= is run now, no other rule runs anything, and exactly the actions of the lists are started |
| RuleRuns.HitActs | linux/monitor/kg_policy.c:560-647 | what one rule adds for an alert, and that it opens no incident but its own |
| Engine.CallsExactly | linux/monitor/kg_policy.c:572-578 | an action is started for a decision exactly if it is in its mask |
| Engine.Monitor.Tick | linux/monitor/kg_policy.c:649-668 | the sweep over the slots is the tick of the table |
| Engine.Monitor.Ack | linux/monitor/kg_policy.c:670-679 | the sweep over the slots is the acknowledgement of the table |
| Engine.Monitor.RunMask | linux/monitor/kg_policy.c:572-578 | the actions of the mask run once each, in order |
| Engine.Monitor.OpenIncidents | linux/monitor/kg_policy.c:681-688 | counts the used and unacknowledged |
| Engine.AcceptedTextIsSane | linux/monitor/kg_policy.c:430-647 | for every accepted policy text every run of the engine is sane for every key |
| EngineText.RuleSays | linux/monitor/kg_policy.c:337-410 | codes, level and do= list of an accepted rule are what the last word for each says, or the defaults |
| EngineText.LineConcerns | linux/monitor/kg_policy.c:306-428 | an accepted line that names one alert and one level makes a rule for exactly the alerts of that code at or above that level |
| EngineText.FirstAlert | linux/monitor/kg_policy.c:601-647 | from the text of any policy: an alert starts the actions in do= of every rule for its code and level, and nothing for the other rules |
| PolicyPrint.CodeRead | linux/monitor/kg_policy.c:22-76 | every alert code is read back from its name, or from hexadecimal |
| PolicyPrint.LevelRead | linux/monitor/kg_policy.c:79-97 | every level from its name |
| PolicyPrint.RuleRead | linux/monitor/kg_policy.c:306-428 | every rule is read back from its options, those at their defaults left out |
| PolicyRoundTrip.ActionRead | linux/monitor/kg_policy.c:235-304 | every action likewise |
| PolicyRoundTrip.RoundTrip | linux/monitor/kg_policy.c:430-478 | every policy is read back whole from its text |
| PolicyText.Tokenize | linux/monitor/kg_policy.c:115-150 | in place, with the writer never passing the reader: the words in the buffer are the words of the line; negative exactly for an open quote or too many words |
| PolicyText.ReadWord | linux/monitor/kg_policy.c:129-147 | one word, quotes removed, moved together in place |
| PolicyText.ReadQuoted | linux/monitor/kg_policy.c:131-140 | the inside of quotes with escaped quotes |
| PolicyText.LineRoundTrip | linux/monitor/kg_policy.c:110-150 | quoting undoes it: every list of words not ending in a backslash comes back |
| PolicyParse.ParseActionList | linux/monitor/kg_policy.c:186-206 | the mask of exactly the named actions, an error for an unknown name or an empty list |
| PolicyParse.MaskExactly | linux/monitor/kg_policy.c:186-206 | an action number is in the mask exactly when its name is listed and it is the first action of that name |
| PolicyParse.MaskOfDistinct | linux/monitor/kg_policy.c:186-206 | with distinct names, exactly the actions named |
| PolicyParse.ParseCodes | linux/monitor/kg_policy.c:346-364 | the codes listed, every alert for a star, an error for an unknown name or too many |
| PolicyParse.ParseOption | linux/monitor/kg_policy.c:337-410 | one key=value option with all its error cases |
| PolicyParse.ParseRule | linux/monitor/kg_policy.c:306-428 | the options in order, later ones replacing earlier ones, then the do=, then=, repeat= and unacked= conditions |
| PolicyParse.ParseAction | linux/monitor/kg_policy.c:235-304 | name, timeouts, absolute program and arguments |
| PolicyParse.ParseLine | linux/monitor/kg_policy.c:447-472 | one line through the in-place tokenizer |
| PolicyParse.Parse | linux/monitor/kg_policy.c:430-478 | the number of the first line in error with nothing left behind, or the policy |
| PolicyParse.ParsedIsOk | linux/monitor/kg_policy.c:430-478 | every accepted text: masks within the actions, do= non-empty, then= present iff repeat or unacked, 2 <= N <= 16, all ranges and limits, distinct names |
| Sha256.FillSchedule | linux/monitor/kg_hmac.c:26-34 | the schedule of section 6.2.2 of FIPS 180-4, filled in place |
| Sha256.RunRounds | linux/monitor/kg_hmac.c:36-44 | the 64 rounds of section 6.2.2 of FIPS 180-4 |
| Sha256.Block | linux/monitor/kg_hmac.c:21-48 | one block is the compression function |
| Sha256Roots.Constants | linux/monitor/kg_hmac.c:8-17 | each of the 64 constants is the first 32 bits of the fraction of the cube root of its prime |
| Sha256Roots.InitialWords | linux/monitor/kg_hmac.c:52-55 | each initial word likewise of the square root |
| Sha256Roots.PrimesInOrder | linux/monitor/kg_hmac.c:8-17 | those primes are the first 64, none left out |
| Hmac.Hasher.Absorb | linux/monitor/kg_hmac.c:68-79 | a chunk fills the buffer and empties it when full |
| Hmac.Hasher.Update | linux/monitor/kg_hmac.c:62-81 | for any length, the state is that of everything fed in so far |
| Hmac.Hasher.Feed | linux/monitor/kg_hmac.c:67-80 | the loop over pieces that fit the buffer |
| Hmac.Hasher.Pad | linux/monitor/kg_hmac.c:91-93 | the pad loop ends, with the zeros of section 5.1.1 of FIPS 180-4 |
| Hmac.Hasher.Final | linux/monitor/kg_hmac.c:83-104 | the result is SHA-256 of everything fed in |
| Hmac.HashPieces | linux/monitor/kg_hmac.c:50-104 | for every way of splitting a message into updates the result is SHA-256 of the whole |
| Hmac.Authenticate | linux/monitor/kg_hmac.c:106-138 | HMAC as section 2 of RFC 2104 defines it, for keys of any length |
| Hmac.CtEqual | linux/monitor/kg_hmac.c:140-149 | true exactly for equal contents |
| ModuleId.ParseModinfo | linux/monitor/kg_modid.c:87-123 | the first value of each wanted key, an error for any that does not fit, a missing name or bad characters |
| ModuleId.Parse | linux/monitor/kg_modid.c:125-181 | compressed, not ELF and unsupported exactly by their magic numbers, every other error in its order; otherwise the fields of the first .modinfo section, the signature marker and the SHA-256 of the file |
| ModuleId.AcceptedIsGood | linux/monitor/kg_modid.c:118-122 | an accepted identity has a name and version the gate can take |
| ModuleImage.ModuleRead | linux/monitor/kg_modid.c:125-181 | for every module file written field by field: name, srcversion, version and vermagic its .modinfo declares, the mark exactly if it ends with it, and the hash of the file |
| ModuleImage.SectionRead | linux/monitor/kg_modid.c:45-53 | every section header is read as it was written |
| ModuleImage.ModinfoRead | linux/monitor/kg_modid.c:87-123 | every list of key=value fields is read back, the first non-empty value of each key |
| ModGate.Next | linux/module/kg_modgate.c:142-154 | the next entry between separators |
| ModGate.ReadEntry | linux/module/kg_modgate.c:188-219 | the entry split at the first @, checked and normalised |
| ModGate.Gate.ParseDeny | linux/module/kg_modgate.c:180-221 | the list keeps the first 64 well-formed entries and counts the ignored ones |
| ModGate.Gate.ParseAllow | linux/module/kg_modgate.c:180-221 | names only; a version there is malformed |
| ModGate.Gate.Denied | linux/module/kg_modgate.c:226-239 | a name on the list with any version or with this one, case ignored |
| ModGate.Gate.Trusted | linux/module/kg_modgate.c:241-259 | on the allow list or in the baseline |
| ModGate.Gate.Notify | linux/module/kg_modgate.c:335-369 | which counter moves, what is reported and whether the load is refused; blocked never exceeds the hits |
| ModGate.RoundTrip | linux/monitor/kg_modid.c:198-204 | for up to 64 accepted files, their printed entries joined by commas are kept exactly, none ignored, and exactly the modules they identify are denied |
| ModGate.SplitJoined | linux/module/kg_modgate.c:142-154 | splitting undoes joining |
| ModGate.EntryReads | linux/module/kg_modgate.c:188-219 | a printed entry is parsed into exactly the identity |
| Pmu.ThresholdsOrdered | linux/module/kg_pmu.c:68-79 | warn >= 1 always; crit > warn exactly when pmu_warn is below 2^32 - 1 |
| Pmu.SilentIsCritical | linux/module/kg_pmu.c:68-79 | with pmu_warn at 2^32 - 1 and pmu_crit 0 a silent window is critical |
| Pmu.SilentIsQuiet | linux/module/kg_pmu.c:68-79 | with every smaller pmu_warn a silent window has no level |
| Pmu.AlertsSpaced | linux/module/kg_pmu.c:216-232 | alerts of one event on one CPU are at least a second apart, over every run |
| Pmu.Deferred | linux/module/kg_pmu.c:214-232 | an escalation is never lost, only deferred: the first window a second after the last alert raises it |
| Pmu.RepeatsWhileItLasts | linux/module/kg_pmu.c:216-225 | while a condition lasts it is reported again exactly after ten seconds |
| Pmu.LevelExactly | linux/module/kg_pmu.c:211-213 | the level of a window in terms of the overflows, the milliseconds and the settings |
| PmuRuns.ReportedActs | linux/module/kg_pmu.c:233-237 | the report of a critical alert escalates the CPU it was raised for and its core, and asks for ELEVATED |
| PmuRuns.CellsLive | linux/module/kg_pmu.c:190-251 | over any run of windows with CPUs coming up between them, the state of each event of each CPU is that of its own windows and starts, nothing else |
| PmuRuns.RaisedApart | linux/module/kg_pmu.c:216-232 | over any such run in time order, two entries of the alert log for the same event of the same CPU are at least a second apart |
| Pmu.Sampler.CpuOnline | linux/module/kg_pmu.c:277-285 | a CPU that comes up starts at no level, with no calm windows and an empty vote, but keeps the time of its last alert |
| Pmu.RisesWithAlert | linux/module/kg_pmu.c:222-237 | the level rises only together with an alert |
| Pmu.FallsAfterThree | linux/module/kg_pmu.c:238-245 | the level falls only at the third of three consecutive lower windows |
| Pmu.CalmCounts | linux/module/kg_pmu.c:238-245 | the calm counter counts the consecutive lower windows |
| Pmu.Sampler.SampleCell | linux/module/kg_pmu.c:216-245 | the in-place update of one event is the hysteresis step; an alert names the candidate and clears the vote; the other events stay |
| Pmu.SweptCells | linux/module/kg_pmu.c:201-251 | in a window every cell takes one step of its own, whatever the others do |
| Pmu.Sampler.Coolers | linux/module/kg_pmu.c:254-268 | the CPUs to relax are the online ones none of whose core partners is critical |
| Pmu.Sampler.Sample | linux/module/kg_pmu.c:190-251 | every active event of every online CPU is sampled in order, with the alerts, votes and levels of the sweep, and the critical mark is set from them |
| Vote.LeadBounded | linux/module/kg_pmu.c:129-145 | the counter bounds the lead of every task |
| Vote.MajorityWins | linux/module/kg_pmu.c:129-145 | a strict majority since the counter was zeroed is the candidate |
| Vote.ZeroExactly | linux/module/kg_pmu.c:129-145 | for every state of handler and ballot: zeroing the counter keeps the guarantee for every continuation, the candidate taken at any moment being the strict majority of the votes finished since, exactly when the handler is not about to decrement it, nor to count for a candidate already taken |
| Vote.ZeroBegunExactly | linux/module/kg_pmu.c:129-145 | with votes counted from their beginning, exactly when it lands between two overflows |
| Vote.UnsafeReached | linux/module/kg_pmu.c:137-144 | any overflow that meets another candidate with a positive counter passes through a place where zeroing loses |
| LoadQueue.Queue.Enqueue | windows/src/driver_load_guard.c:459-470 | the circular buffer appends the path, cut to 259 characters, or refuses it exactly when 64 are queued |
| LoadQueue.Queue.Dequeue | windows/src/driver_load_guard.c:480-494 | the circular buffer gives the oldest path |
| LoadGuard.NextInv | windows/src/driver_load_guard.c:441-538 | every step of callbacks, worker and unloading keeps the accounts of permits, paths and callbacks |
| LoadGuard.SemaphoreSound | windows/src/driver_load_guard.c:472-494 | permits <= queued <= 64 in every reachable state, the limit is never exceeded and a woken worker finds a path |
| LoadGuard.ProcessedInOrder | windows/src/driver_load_guard.c:513-538 | processed paths are a prefix of the queued ones |
| LoadGuard.NothingLost | windows/src/driver_load_guard.c:452-477 | queued + dropped equals the callbacks that passed the running check |
| LoadGuard.NoFault | windows/src/driver_load_guard.c:719-758 | unless unloading gave up waiting for a callback, nobody touches a queue that is not there |
| LoadGuard.GivingUp | windows/src/driver_load_guard.c:734-743 | giving up is harmless exactly when no callback stands between its check and its use of a queue with room, and no path waits for a worker that can fetch it |
| LoadGuard.GivingUpCanFault | windows/src/driver_load_guard.c:734-743 | a run in which a callback uses the cleared queue |

## Left out

- RingMonitor.Monitor.Drain: the account of a drain is promised while the writer is less than 2^32 notifications ahead of where the drain began, because a reader cannot tell such a lap from none.
- RingMonitor.Monitor.Look: that the event is true of the writer is promised under the same condition; when TAMPER is raised is stated without it.
- RingReader.ReadSlot: the MAC is ideal (a tag spliced from tags of other messages is a tag of one of them or of none), so forgery by chance is outside the model; cells are copied as eleven loads, smaller tearing inside a field is not modelled.
- ResponseStuck.StuckExactly: says whether a timer or handler is under way, not when the work queue runs it.
- AuthenticodeTheorems.SigningInvariant: asks, besides the section data, that the section table lies before the blob, because the table is read from the file itself.
- PeImage.ImageCovered: for images whose section data lies behind the headers without gaps; for every other file it is stated that driver and tool agree, and how many bytes they feed.
- TextSites.Classify: the address and length kg_classify keeps for a debug message are not modelled.
- Weak memory below sequential consistency, and the KG_TESTHOOKS build of the kernel module.
- Out-of-memory paths, counters that wrap after 2^64 events, files and messages of 2^61 bytes or more except where the wrap of the length is written out.
- kg_mit_enter_failsafe has no caller, so it is a method of the table and not a step of the interleaved machine.
- Hardware access: MSR, CPUID, APIC, VERW, VT-d, ECAM, cache flushes and kicks of other scans.
- Kernel services as such: work queues, RCU, perf, uevents, mmap, the module loader, BCrypt, registry and file reads are steps, functions or inputs.
- Page-table discovery of text bounds, CPU-state and IDT checks, and the tracking of module regions.
- The lock-mode baseline snapshot and the load-policy audit of the gate; the baseline is a field.
- kgmon output sinks, fork and exec of actions, acknowledgement files, command line.
- The ownership checks of the policy file and of programs are one input.
- One shared line buffer: the tokenizer works in place on its own copy of each line.
- The load guard's start pass over drivers already loaded, and its hashing and reporting of a path.
- The clearing of key material after use, and the error texts of the parsers.
- digest_table.c, the block-list database, import, build and document tools.
