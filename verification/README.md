# Verified model of the eBPF anomaly detection and triage pipeline

This project states in Dafny what the pipeline's stateful algorithms and its decision layer do, and proves what they
promise. Probabilities, scores, costs and times are exact reals; machine learning models are arbitrary functions;
64-bit kernel counters wrap where the kernel wraps them. `dafny verify dfyconfig.toml` checks everything.

The files follow the source:

| file | what it models |
|---|---|
| `Kernel.dfy`, `CounterMap.dfy`, `Windows.dfy` | the kernel handlers of `collector-go/bpf/collector.bpf.c`, their interleaving with the userspace drain of `collector-go/main.go` and of its Python twin, and what each window holds |
| `Attribution.dfy`, `Drains.dfy`, `Features.dfy` | what each counter is credited in terms of the events alone, the drains as code that the kernel interrupts between any two steps, and the feature rows they export |
| `Totals.dfy`, `OnCpu.dfy`, `DiskLedger.dfy`, `DiskWindows.dfy`, `DiskTurns.dfy` | conservation of on-CPU time, the in-flight ledger of block requests, and the latency mean of every pass |
| `CaseBundle.dfy`, `BaselineWindow.dfy`, `WeakLabeler.dfy`, `LabelStore.dfy` | the streaming case builder, its baseline window on rows in any order, the weak-label rules and the label log |
| `Argmin.dfy`, `CostMatrix.dfy`, `PolicyReward.dfy` | expected-cost decisions, guardrails, the escalation policy and its promotion gate |
| `Detector.dfy` | the two annotate passes and the metric counters behind the detector service |
| `Reservoir.dfy`, `Chunker.dfy` | the bounded-memory training sample and the message chunker |
| `Mapper.dfy`, `TwinMappers.dfy`, `Aggregator.dfy` | the cgroup-to-pod caches in Go and Python, the two side by side, and the window aggregator |
| `Text.dfy`, `Wrappers.dfy` | the few string operations and result types these share |

## Findings

Places where the code and what is said about it part, each with the exact condition:

- A raised decision lists its guardrails; an action that was already strong enough lists none, although a guardrail
  fired (`CostMatrix.GuardrailsOnlyRaise`). On the probability simplex, with the default configuration and either
  shipped matrix, three of the five guardrails can never change an action (`CostMatrix.DecisionExact`).
- "A tripped guardrail is never suppressed" fails for one configuration, an unknown-workload floor of `suppress`
  (`CostMatrix.TrippedNeverSuppressed`, with an input in `CostMatrix.TrippedAndSuppressed`).
- "On any error, never suppress" in the noise filter holds exactly when the threshold is positive
  (`Detector.NoiseFailsOpen`, with an input in `Detector.ErrorSuppresses`).
- Next to the 0.05 miss gate, the 0.90 escalation gate asks for at least one fault row and nothing else: with a fault,
  the miss gate passes exactly when at least 95 per cent are escalated; with none, it passes and the escalation gate
  fails (`PolicyReward.EscalationGateAdds`, `PolicyReward.NoFaultFailsOneGate`).
- The quick vote's rung at 0.85 decides nothing: a case in its second window is triaged from 0.7 on
  (`CaseBundle.QuickLadder`).
- With every window emitted, the case builder never learns a baseline (`CaseBundle.AllWindowsLearnsNothing`).
- On rows out of time order a stale sample can outlive the five-minute window (`CaseBundle.StaleSampleSurvives`), and a
  recent one can be lost (`BaselineWindow.RecentSampleLost`). The deque is the window at every moment if and only if, at
  each timed normal row, no sample still fresh stands before a stale one and none dropped before is fresh again
  (`BaselineWindow.WindowExactIff`).
- A drain loses what is credited between a key's read and its delete; the Python twin's `clear` also deletes keys it has
  never read (`CounterMap.LossExact`, with a run for each in `CounterMap.LateCreditLost` and
  `CounterMap.BccLosesUnread`).
- The two disk maps are drained one after the other. In every pass of every run, with the kernel at work between any two
  steps of the drains, a cgroup of the latency window is missing from the count window, and so exported as zero, if and
  only if it completed a request after its last removal from the latency map and before its last removal from the count
  map, and none from then until the count map is read (`DiskWindows.MissingIff`). For drains that nothing interrupts,
  that is between the two drains of the pass before (`DiskTurns.MissingInTurn`, with an input in
  `DiskTurns.LatencyLostToSplitDrain`).
- The Go and the Python mapper do not always answer alike. Go stamps a refresh with the time it ended, Python with the
  time it was decided, so a request in between their next refreshes is answered from old tables by one and from new ones
  by the other. Whatever the scans and listings hold, they answer alike if and only if no request comes at least the
  refresh period after an earlier one was made and less than that after the refresh which that one may have caused
  ended, with none in between that would have refreshed again: a condition on the clock readings alone
  (`TwinMappers.MappersAgreeIff`, with an input in `TwinMappers.StampsMatter`). Their lookups on the same tables differ
  only on a path that is empty or ends in a slash, or a container table with an empty key (`Mapper.ResolversAgree`),
  which neither the directory walk nor the pod listing produces.

## Model

| member | source | states |
|---|---|---|
| CounterMap.BooksBalance | collector-go/bpf/collector.bpf.c:65-75 | Over every interleaving of increments and drain steps, for every key credited less than 2^64 in all: emitted + in the drain's hands + resident + lost + refused by a full map = credited, and every loss is a late credit or an unread delete. |
| CounterMap.EmittedAtMostCredited | collector-go/main.go:130-148 | Windows plus what is resident never exceed what was credited: no double counting. |
| CounterMap.LossExact | collector-go/main.go:130-148 | Between drains the loss is exactly the credits that fell between a key's read and its delete, plus, only in the Python twin, keys deleted unread; nothing is missing if and only if there was none of either and no full map. |
| CounterMap.GoDeletesOnlyRead | collector-go/main.go:140-146 | The Go drain deletes only keys it has read, and they are still there. |
| CounterMap.LateCreditLost | collector-go/main.go:137-147 | A run of either collector in which a credit between a key's read and its delete is in no window and not in the map. |
| CounterMap.BccLosesUnread | collector/ebpf_collector.py:246-254 | A key first inserted between the read loop and the clear is lost whole in the Python twin. |
| CounterMap.GoKeepsUnread | collector-go/main.go:132-148 | The same key survives the Go drain for the next window. |
| CounterMap.ShapeAlways | collector-go/main.go:139-146 | Along every run, what the drain has read or means to delete is still in the map (and, in Go, was read). |
| Kernel.Maps.Increment | collector-go/bpf/collector.bpf.c:65-75 | Adds in place with 64-bit wrap-around, or inserts if the map has room; no other map changes. |
| Kernel.Maps.Count | collector-go/bpf/collector.bpf.c:78-95 | The one-counter handlers credit one cgroup in one map and nothing else. |
| Kernel.Maps.TcpCleanupRbuf | collector-go/bpf/collector.bpf.c:133-137 | Received bytes count only when some were copied. |
| Kernel.Maps.TpSwitch | collector-go/bpf/collector.bpf.c:97-112 | A switch counts once, credits the time since this CPU's recorded switch to the current cgroup, and records the time if the map has room. |
| Kernel.Maps.TpBlockIssue | collector-go/bpf/collector.bpf.c:140-153 | An issue overwrites or inserts both in-flight entries; its bytes go to the write map if it is a write and to the read map otherwise, and to no other. |
| Kernel.Maps.TpBlockComplete | collector-go/bpf/collector.bpf.c:154-168 | A matched completion credits latency and count to the issuing cgroup and clears both entries; an unmatched one does nothing. |
| Kernel.Maps.Remove | collector-go/main.go:144-146 | Deletes one cgroup from one map and changes nothing else. |
| Windows.TableSince | collector-go/bpf/collector.bpf.c:65-75 | On every run, while the cgroup is not refused for want of room: a map holds it if and only if it was credited since it was last removed, and then exactly the sum of those credits, modulo 2^64. |
| Windows.WindowIsCredited | collector-go/main.go:130-148 | The window of an uninterrupted drain holds a cgroup if and only if it was credited since the drain before, and then exactly those credits. |
| Windows.WindowOfDrain | collector-go/main.go:137-147 | The window of a drain interleaved with the kernel holds exactly the cgroups it read, each with its credits from its last removal to that read. |
| Windows.FewAreNeverRefused | collector-go/bpf/collector.bpf.c:14-23 | While no more cgroups are credited than the map holds, no credit is refused. |
| Drains.Collector.Interrupt | collector-go/bpf/collector.bpf.c:65-75 | What the kernel credits between two steps of a drain, as increments on any maps. |
| Drains.Collector.ReadOne | collector-go/main.go:140-143 | One turn of the read loop and the credits that follow it keep the drain a legal run that has read what it returned. |
| Drains.Collector.ReadAll | collector-go/main.go:137-143 | Interrupted by any credits, the read loop returns each entry once, at least those there when it began; uninterrupted, the whole map. |
| Drains.Collector.DeleteAll | collector-go/main.go:144-147 | Interrupted by any credits, the deletes end the drain, Go's of the keys read, Python's of the keys in the map when it is cleared; the other maps are only credited. |
| Drains.Collector.DrainMap | collector-go/main.go:132-148 | The whole drain, interrupted by any credits, is a run of the transition system from Begin to Return that hands over its snapshot as one more window; uninterrupted, the snapshot is the map and only that map ends empty. |
| Drains.SnapshotIsCredited | collector-go/main.go:130-148 | Hence what such a drain returns for a cgroup is exactly its credits from its last removal to its read. |
| Kernel.Projection | collector-go/bpf/collector.bpf.c:25-39 | Every run of the machine is, seen by one counter map, a legal run of that map alone. |
| Kernel.EveryCounterBalances | collector-go/bpf/collector.bpf.c:77-168 | The books of all fifteen counters balance for every cgroup on every run of handlers and drains. |
| Attribution.DiskBytes | collector-go/bpf/collector.bpf.c:147-151 | Over any stretch of any run, what a cgroup is credited in the write map is the bytes of its write requests, in the read map the bytes of its others. |
| Attribution.SwitchCount | collector-go/bpf/collector.bpf.c:99-101 | What it is credited in the switch map is the number of its switches. |
| Attribution.PlainCount | collector-go/bpf/collector.bpf.c:78-95 | What it is credited in a plain map is what that map's own handlers counted for it. |
| Attribution.CpuTimeAt | collector-go/bpf/collector.bpf.c:103-110 | A switch credits CPU time to its own cgroup alone: the time since the latest switch on its CPU, if that was recorded. |
| Attribution.WindowBytes | collector-go/main.go:130-148 | So the window of a byte counter, drained with interruptions, holds the bytes the cgroup wrote, or read, between its last removal and its read, modulo 2^64. |
| Totals.WholeMapBalances | collector-go/main.go:130-148 | Summed over all cgroups: everything credited to a map is in a window, in the drain's hands, in the map, lost or refused. |
| OnCpu.LastIsRecorded | collector-go/bpf/collector.bpf.c:103-110 | The timestamps map holds each CPU's latest switch; a CPU missing from it never switched or met a full map. |
| OnCpu.CreditedIsSpans | collector-go/bpf/collector.bpf.c:97-112 | With per-CPU clocks that never run backwards, the nanoseconds credited to all cgroups are the sum over CPUs of latest minus first switch. |
| OnCpu.OnCpuConserved | collector-go/bpf/collector.bpf.c:97-112 | Across any number of drains those nanoseconds are emitted, in hand, resident, lost or refused, and nothing else is. |
| OnCpu.OnCpuWithinElapsed | collector-go/main.go:193-197 | Credited on-CPU time, across all windows and the map, never exceeds the number of recorded CPUs times the elapsed time. |
| DiskLedger.InFlightPaired | collector-go/bpf/collector.bpf.c:140-168 | At every handler boundary the two in-flight maps have the same sectors. |
| DiskLedger.IssuesAccounted | collector-go/bpf/collector.bpf.c:140-168 | Issues = matched completions + in flight + overwritten re-issues + refusals by a full map. |
| DiskLedger.HeldIsOutstanding | collector-go/bpf/collector.bpf.c:145-146 | The in-flight maps hold each sector's latest issue with no completion since, or nothing, and nothing only after a refusal or when none is outstanding. |
| DiskLedger.CompletionCredits | collector-go/bpf/collector.bpf.c:157-163 | A matched completion credits the cgroup of the latest issue on its sector, once each in latency and count; an unmatched one credits nothing. |
| DiskLedger.CountIsMatched | collector-go/bpf/collector.bpf.c:159-163 | Everything ever credited to the I/O counter is the number of matched completions. |
| DiskWindows.PassHolds | collector-go/main.go:182-184 | Interrupted at any step, the latency drain of a pass hands over a cgroup's completions from its last removal from that map to its read there, the count drain those from its last removal from that map to its read there. |
| DiskWindows.CutInOrder | collector/ebpf_collector.py:262-265 | In a pass of either collector the count map loses a cgroup, if at all, before the latency map is read for it, and is read for it later. |
| DiskWindows.MissingIff | collector-go/main.go:182-192 | In every pass of every run, interrupted at any step: a cgroup is in the latency window handed over and not in the count window if and only if it completed a request after its last removal from the latency map and before its last removal from the count map, and none from then to its read there; and the mirror image for a cgroup only in the count window. |
| DiskWindows.HandedTells | collector-go/main.go:130-148 | A drain interrupted at any step hands over a cgroup exactly if it was credited between its last removal and its read, and then exactly those credits. |
| DiskWindows.HandedOver | collector-go/main.go:137-147 | A drain hands over, as one window of the run, what the map held of a cgroup when it was read, and nothing for one it did not read. |
| DiskWindows.ExportedExact | collector-go/main.go:185-192 | What such a pass exports of a cgroup in its latency window: the mean times the count is the total if and only if the cgroup is in the count window (or the total is zero); otherwise zero. |
| DiskWindows.SplitDrainAgreesIff | collector-go/main.go:182-184 | The two windows of such a pass name the same cgroups if and only if no cgroup is missing on either side in that sense. |
| DiskWindows.MeanTimesCount | collector-go/main.go:185-192 | A cgroup that completed nothing between its last removals from the two maps, nor between its two reads: both windows are over the same completions, the export is their average, and average times number is the total. |
| DiskWindows.PairStaysTwins | collector-go/main.go:182-184 | If that is so of every cgroup, the two windows name the same cgroups and every count is positive. |
| DiskWindows.MeanExact | collector-go/main.go:185-192 | For any total and count, the mean gives the total back if and only if the count is positive or the total is zero. |
| DiskWindows.CompletedMeans | collector-go/bpf/collector.bpf.c:155-166 | The completions these statements count are the matched completion events of the issuing cgroup. |
| DiskWindows.RoomWhenFew | collector-go/bpf/collector.bpf.c:14-23 | While no more cgroups issue requests than the map holds, neither disk map ever refuses one of them. |
| DiskTurns.TurnIsPass | collector-go/main.go:182-184 | Drained in turn with no interruption, a pass cuts the run at its own two drains and at those of the pass before. |
| DiskTurns.MissingInTurn | collector-go/main.go:182-192 | So in such a run a cgroup of the latency window is missing from the count window if and only if it completed a request between the two drains of the pass before and none from then to this count drain; and the mirror image. |
| DiskTurns.LatencyLostToSplitDrain | collector-go/main.go:185-192 | A run in which one completion between the two drains ends as a latency of zero in the next window. |
| DiskTurns.LossIsInTurn | collector-go/main.go:182-192 | That run drains the two maps in turn and fills neither, so it is one of the runs the exact condition covers. |
| Features.Drain | collector-go/main.go:150-199 | In Go and in Python, with any credits in between: every cgroup gets exactly the features whose drains handed it over, each with its scaled value, one window of each map, and no cgroup is listed without a feature; without credits in between these are the maps' contents, and all maps end empty. |
| Features.Pass | collector-go/main.go:166-181 | One turn of a rate, sum or CPU loop, with any credits in between, adds exactly that feature from exactly one more window of that map. |
| Features.TakeInTurn | collector-go/main.go:183-184 | Draining the disk maps in turn hands over one window of each and only credits the others. |
| Features.TakeTogether | collector/ebpf_collector.py:262-265 | So does reading both before either is cleared. |
| Features.PassLatency | collector-go/main.go:182-192 | The latency step adds the mean of the two windows for every cgroup of the latency window. |
| Features.Record | collector-go/main.go:153-158 | Filing a feature creates a row where there was none and changes no other entry. |
| CaseBundle.IdentityState.Baseline | src/triage/case_bundle.py:207-217 | The baseline is the mean of the samples held, all zero when there are none. |
| CaseBundle.MeanOfOne | src/triage/case_bundle.py:207-217 | The baseline of one sample is that sample's score, disk latency and syscall rate. |
| CaseBundle.MeanIsMean | src/triage/case_bundle.py:212-217 | Times the number of samples, baselines of two sample runs add up. |
| CaseBundle.WindowEdge | src/triage/case_bundle.py:224-226 | A sample stays exactly while it is at most 300 s older than the row pushed. |
| CaseBundle.IdentityState.PushNormal | src/triage/case_bundle.py:219-226 | A normal row ends the run, joins the deque if it has a time, and drops the stale front. |
| CaseBundle.Advance | src/triage/case_bundle.py:252-260 | One row against its identity's state: either it is absorbed, or it becomes a case with the run length and baseline of that moment; a row flagged true always becomes one, a row flagged false only when every window is emitted. |
| CaseBundle.Feed | src/triage/case_bundle.py:250-260 | Feeding one row through the shared state dict moves only the row's own identity and appends at most its own case. |
| CaseBundle.BundlesFromRows | src/triage/case_bundle.py:243-285 | The loop over interleaved identities emits exactly the bundles of the per-identity machine, in row order; each bundle carries its row's identity, features, texts, times and votes, and where every flag is a bool the rows are those flagged true. |
| CaseBundle.VerdictAt | src/triage/case_bundle.py:234-240 | A bool flag is the verdict; a text flag counts however it is cased and padded; without either the score decides, the threshold included. |
| CaseBundle.TextVerdicts | src/triage/case_bundle.py:238-239 | "True" and " 1 " emit; "False", "0" and the empty text do not. |
| CaseBundle.RaisingThreshold | src/triage/case_bundle.py:234-240 | Raising the threshold never adds a bundle: what it lets through is what it would let through of the rest. |
| CaseBundle.StreamMeetsReference | src/triage/case_bundle.py:199-285 | On rows in time order per identity, every emitted case equals its definition: duration is the length of the emitting block that ends there, baseline the mean of the timed normal rows within 300 s of the latest of them. |
| CaseBundle.Block | src/triage/case_bundle.py:259-259 | The reference duration: the longest suffix of the identity's history that consists of emitting rows. |
| CaseBundle.WindowIsRecent | src/triage/case_bundle.py:219-226 | The deque holds exactly the normal samples within 300 s of the latest normal one, not of the anomaly. |
| CaseBundle.DropStaleIsSince | src/triage/case_bundle.py:224-226 | Popping stale samples off the front of an ordered deque keeps exactly the recent ones. |
| BaselineWindow.PopsExactlyIff | src/triage/case_bundle.py:224-226 | On samples in any order, popping the stale front keeps exactly the fresh ones if and only if no fresh one stands before a stale one. |
| BaselineWindow.WindowExactIff | src/triage/case_bundle.py:219-226 | For one identity's rows in any order, the deque is the 300 s window of the latest normal row at every moment if and only if each push has no fresh sample before a stale one and readmits none dropped before. |
| BaselineWindow.OrderedKeeps | src/triage/case_bundle.py:247-248 | Time order is sufficient for that. |
| BaselineWindow.StreamMeetsReferenceUnordered | src/triage/case_bundle.py:199-285 | On every stream whose pushes are of that kind, in time order or not, every emitted case equals its definition. |
| BaselineWindow.RecentSampleLost | src/triage/case_bundle.py:243-248 | Samples at 400, 1000 and 500: the first is within 300 s of the last and no longer in the deque. |
| CaseBundle.NonInterference | src/triage/case_bundle.py:229-285 | The cases of one identity are those of a run on that identity's rows alone. |
| CaseBundle.InterleavingIrrelevant | src/triage/case_bundle.py:249-285 | Two streams with the same rows for an identity give it the same cases, however they interleave. |
| CaseBundle.StaleSampleSurvives | src/triage/case_bundle.py:243-248 | Samples at 400, 0 and 350: the second is stale and still in the deque. |
| CaseBundle.AllWindowsLearnsNothing | src/triage/case_bundle.py:256-260 | With all windows emitted no baseline is ever learned and the duration counts the identity's rows. |
| CaseBundle.QuickWeakVote | src/triage/case_bundle.py:159-174 | The quick vote is the action of the same rank as the class it settles on. |
| CaseBundle.ThresholdLadder | src/triage/case_bundle.py:148-156 | The threshold vote climbs at 0.7 of the middle, at the middle and at the high threshold, each inclusive. |
| CaseBundle.QuickLadder | src/triage/case_bundle.py:159-174 | The quick vote is at least wait from 0.7 on, triage when that lasts a second window or is alarming, alert exactly when the score is 0.9 and the latency above 50 ms and three times the baseline. |
| CaseBundle.VotesMonotone | src/triage/case_bundle.py:148-174 | Both cheap votes move up with score, latency and duration. |
| Argmin.FirstOf | src/triage/cost_matrix.py:104-104 | The position of the least cost, the earliest one on a tie. |
| Argmin.ArgminMonotone | src/triage/cost_matrix.py:85-105 | For any matrix with increasing differences, of any size, first-order dominance never lowers the first-wins argmin. |
| Argmin.AbelGap | src/triage/cost_matrix.py:85-89 | Summation by parts: a non-decreasing cost gap has the larger expectation under the dominating vector. |
| CostMatrix.ShippedIncreasing | src/triage/cost_matrix.py:40-59 | Both shipped matrices have increasing differences. |
| CostMatrix.PureClassMatchesRank | src/triage/cost_matrix.py:108-115 | With the class known for certain, the action of the same rank is the cheapest, under either matrix. |
| CostMatrix.RecommendedMonotone | src/triage/cost_matrix.py:99-105 | The recommended action is monotone in the severity of the class distribution. |
| CostMatrix.Confidence | src/triage/cost_matrix.py:171-171 | The confidence is the largest probability in the dict, 0 for an empty one. |
| CostMatrix.Fired | src/triage/cost_matrix.py:173-182 | The reasons are exactly the guardrails whose condition holds, each once, in the order they are tried. |
| CostMatrix.RaiseTo | src/triage/cost_matrix.py:163-167 | Keeps the floor at the strongest of the recorded reasons' floors. |
| CostMatrix.GuardrailFloor | src/triage/cost_matrix.py:153-184 | Returns the fired guardrails and the strongest of their floors, and nothing when disabled. |
| CostMatrix.FloorUnique | src/triage/cost_matrix.py:163-167 | The recorded reasons determine the floor. |
| CostMatrix.UnknownExactly | src/triage/cost_matrix.py:144-150 | A workload is unknown exactly if its namespace or its pod reads, in any case and padding, as empty, unknown, none, null or n/a; no identity is unknown too. |
| CostMatrix.Decide | src/triage/cost_matrix.py:187-202 | The decision computed through the guardrail loop is the one all statements below are about. |
| CostMatrix.ProbabilityGuardrailsRedundant | src/triage/cost_matrix.py:175-180 | On the simplex the P(high) and confidence guardrails never ask for more than the argmin gives. |
| CostMatrix.DecisionExact | src/triage/cost_matrix.py:187-202 | The production action is the argmin, raised to triage if the score is at least 0.9 or the workload unknown; reasons are listed if and only if the action was raised. |
| CostMatrix.DecisionMonotone | src/triage/cost_matrix.py:187-202 | The decision is jointly monotone in class dominance, score and loss of identity. |
| CostMatrix.GuardrailsOnlyRaise | src/triage/cost_matrix.py:187-202 | For any matrix and configuration the action is at least the argmin and every fired floor, and reasons are listed exactly when the action was raised. |
| CostMatrix.DecisionLadder | src/triage/cost_matrix.py:153-202 | For any matrix and configuration: each rank of the action is reached if and only if the argmin reaches it or one of the configured conditions that call for it holds. |
| CostMatrix.DecisionCarries | src/triage/cost_matrix.py:194-202 | A decision lists all the guardrails that fired or none, and returns the costs that the argmin minimises. |
| CostMatrix.TrippedNeverSuppressed | src/triage/cost_matrix.py:121-125 | A tripped guardrail leaves the action at suppress if and only if the argmin is suppress and only the unknown-workload guardrail, configured to suppress, fired. |
| CostMatrix.TrippedAndSuppressed | src/triage/cost_matrix.py:127-134 | An input on which a guardrail trips and the action is suppress. |
| CostMatrix.MissedIncidentBound | src/triage/cost_matrix.py:187-202 | A suppressed or deferred case has P(high) at most 1/53 under the recall-first matrix and 1/17 under the default one. |
| CostMatrix.MissedIncidentBoundTight | src/triage/cost_matrix.py:99-105 | Both bounds are attained, at the tie that suppress wins. |
| PolicyReward.EscalationBands | policy/reward.py:46-57 | The escalation choice is wait up to 1/4, triage up to 5/11, alert above. |
| PolicyReward.FullBands | policy/reward.py:46-57 | In the full action space suppress takes over up to 1/7 and nothing else changes. |
| PolicyReward.EscalateOrMiss | policy/train_policy.py:84-86 | Escalation and miss rate add up to 1 on any non-empty fault set, to 0 on an empty one. |
| PolicyReward.BenignEscalation | policy/train_policy.py:90-90 | The benign rows counted as escalated are those with a fault probability above 1/4. |
| PolicyReward.Evaluate | policy/evaluate_policy.py:33-45 | Every gate gets one line, in order; the candidate passes if and only if all four metrics are there and clear the thresholds in force, the environment's where set and 0.90, 0.05, 0.02 and 0.40 otherwise. |
| PolicyReward.PromotionExact | policy/evaluate_policy.py:24-45 | A default-threshold promotion as a condition on the raw probabilities alone: how many rows fall in each band. |
| PolicyReward.EscalationGateAdds | policy/evaluate_policy.py:26-27 | The miss gate passes if and only if there is no fault or at least 95 per cent are escalated; given it, the escalation gate passes if and only if there is a fault. |
| PolicyReward.NoFaultFailsOneGate | policy/evaluate_policy.py:24-30 | On one benign row every gate passes but the escalation gate. |
| PolicyReward.PromotionMeansEscalation | policy/evaluate_policy.py:24-45 | A promoted candidate saw at least one fault and escalates at least 95 per cent of them. |
| WeakLabeler.ClassMonotone | src/triage/weak_labeler.py:87-152 | Across the whole first-match rule list, more score, duration, latency and syscalls never lower the class. |
| WeakLabeler.ActionIsArgmin | src/triage/weak_labeler.py:110-152 | Every rule, those with a hard-wired action included, attaches the cost argmin of its class under either matrix. |
| WeakLabeler.InjectionSpeaks | src/triage/weak_labeler.py:96-105 | A known injection speaks before every rule: ground-truth source, its fault type, high for a score of 0.9, a third window or a control-plane fault, low for an unknown fault, medium otherwise; nothing else gets that source. |
| WeakLabeler.RuleLadder | src/triage/weak_labeler.py:107-152 | Without one: a routine workload below 0.9 is suppressed; otherwise each rank of the action is reached if and only if the score, with a slow disk, a syscall storm or a third window, reaches its threshold. |
| WeakLabeler.FaultNamed | src/triage/weak_labeler.py:72-84 | From 0.8 on, the fault type named: the breached feature first, then what the score and the counters of a third window tell. |
| WeakLabeler.RoutineExactly | src/triage/weak_labeler.py:63-69 | A workload is routine exactly if its namespace, pod or container mentions one of the hints, in any case. |
| WeakLabeler.LabelAlwaysValid | src/triage/weak_labeler.py:102-152 | A rule's label never fails validation and carries the rule's class, action and source. |
| WeakLabeler.InjectionOutranksRules | src/triage/weak_labeler.py:96-105 | Once a known injection is logged for an event, whatever else is, no weak-rule label of any time changes the resolution. |
| LabelStore.MakeLabel | src/triage/label_store.py:41-69 | Succeeds exactly on known source, class and action; then confidence is in range, the fault type is listed, and a missing action is the one that matches the class. |
| LabelStore.SourcesNamed | src/triage/label_store.py:47-48 | Exactly the four listed sources are accepted. |
| LabelStore.ClassesNamed | src/triage/label_store.py:49-52 | Exactly the four class names are accepted, each with the action of the same rank when none is given. |
| LabelStore.ActionsNamed | src/triage/label_store.py:53-54 | Exactly the four action names are accepted, each as itself. |
| LabelStore.LessAt | src/triage/label_store.py:115-117 | Two creation times compare by the first character in which they differ, a prefix coming first. |
| LabelStore.BelowIsWeakOrder | src/triage/label_store.py:115-117 | The rank order is a strict weak order whose ties are equal priority and equal time string. |
| LabelStore.LabelLog.AppendMany | src/triage/label_store.py:80-88 | Appends in order and returns the count; the resolution becomes the merge of the old one with that of the new labels. |
| LabelStore.LabelLog.ResolveAll | src/triage/label_store.py:102-112 | The loop returns the resolution of the log. |
| LabelStore.ResolveIsArgmax | src/triage/label_store.py:102-112 | Per event, the earliest label of the highest rank, for exactly the non-empty event ids in the log. |
| LabelStore.SourcesInOrder | src/triage/label_store.py:102-117 | An operator's label beats the adjudicator's, that beats a known injection's, that beats a weak rule's; within the winning source no line of the event is later. |
| LabelStore.WinnerUnique | src/triage/label_store.py:110-111 | There is one such line. |
| LabelStore.ResolveMerges | src/triage/label_store.py:102-112 | Resolving a concatenation is the left-biased merge of the two resolutions. |
| LabelStore.CompactionSafe | src/triage/label_store.py:80-112 | Replacing a log by its resolved labels, in any order, changes no later resolution. |
| LabelStore.OrderIrrelevant | src/triage/label_store.py:102-117 | With distinct ranks per event, any permutation of the log resolves alike. |
| LabelStore.PriorityNeverDrops | src/triage/label_store.py:102-117 | Appending never drops an event nor replaces its label by one of lower rank. |
| LabelStore.WeakerThanALine | src/triage/label_store.py:102-117 | A label weaker than any one line of its event changes nothing. |
| LabelStore.WeakerSourceIgnored | src/triage/label_store.py:110-117 | A label of a weaker source changes nothing, whenever it was created. |
| Detector.NoiseFailsOpen | detector/noise_filter.py:68-94 | On a model error a row is suppressed if and only if it is flagged, the filter is on and the threshold is not positive. |
| Detector.ErrorSuppresses | detector/noise_filter.py:68-94 | With a threshold of zero, an anomalous row on which the model fails is suppressed. |
| Detector.PolicyNeverSuppresses | policy/policy_filter.py:70-100 | The policy action is suppress exactly for rows suppressed upstream, an escalation exactly for survivors while it is on, and alert on a model error. |
| Detector.NoiseAnnotate | detector/noise_filter.py:79-96 | Marks every row in place with the model's probability, suppressed if and only if it is flagged and that reaches the threshold, and returns how many were. |
| Detector.FlagEffective | detector/api.py:409-410 | Flags every row in place as effective if it is anomalous and was not suppressed. |
| Detector.PolicyAnnotate | policy/policy_filter.py:78-100 | Marks every row in place, a survivor with the model's probability and wait up to 1/4, triage up to 5/11, alert above or on an error, and returns the count of each action. |
| Detector.PolicyMonotone | policy/policy_filter.py:68-76 | Of two survivors the likelier fault never gets the milder action. |
| Detector.Metrics.Observe | detector/api.py:101-113 | The whole new counter state after one scored request. |
| Detector.Metrics.ObserveTriage | detector/api.py:115-118 | One triage counter moves, nothing else. |
| Detector.Service.Reload | detector/api.py:313-320 | A reload replaces the filters and leaves every counter alone. |
| Detector.Service.Detect | detector/api.py:359-371 | One row is marked by both models and counted as a run of one scoring event. |
| Detector.Service.DetectBatch | detector/api.py:394-435 | A batch is marked in place, row by row by both models, and counted as one scoring event followed by one triage event per effective anomaly; the effective total returned is the number of rows so flagged; an empty batch touches nothing. |
| Detector.BatchCounts | detector/api.py:405-412 | In one marked batch suppressed <= anomalies <= rows, the effective flags number anomalies minus suppressed, the policy's suppress count is the suppressed count, and its escalations are the survivors while it is on, none while it is off. |
| Detector.TriagesSurvivors | detector/api.py:415-430 | The triage pass takes one decision per effective anomaly, on that row. |
| Detector.CountersAreTotals | detector/api.py:101-118 | Over every run each exported number is what its name says of all rows scored, marks given and decisions taken; the last score is the latest row's, the maximum the highest or 0. |
| Detector.RunConsistent | detector/api.py:88-153 | Over every run of requests, triage decisions and reloads: suppressed <= anomalies <= scored, the policy's suppress count equals total suppressed, escalations <= effective, last score <= max score. |
| Detector.EffectiveMonotone | detector/api.py:120-122 | The exported effective counter, a difference of two counters, never decreases, nor does the maximum score. |
| Detector.EscalationsExact | policy/policy_filter.py:86-94 | Escalations equal the effective count if and only if no batch had a survivor while the policy was off. |
| Reservoir.PartitionAround | detector/retrain.py:107-107 | A partition step permutes keys and positions together around a pivot and keeps the splits on either side. |
| Reservoir.ArgPartition | detector/retrain.py:107-107 | Returns a permutation of the positions with the smallest keys in front. |
| Reservoir.TakeChunk | detector/retrain.py:101-108 | One chunk keeps key and row paired, keeps the cap smallest of all seen so far, and never holds more than cap plus the chunk. |
| Reservoir.ReservoirSample | detector/retrain.py:76-109 | For any files, chunks and cap: the sample is min(cap, kept) distinct rows of the filtered corpus, none with a larger key than any left out; with the filter on, kept counts the rows that read false, 0 or 0.0 in any case or whose file has no such column, and only such rows are sampled; with it off, every row counts; peak size is at most cap plus the longest chunk. |
| Reservoir.TrimKeepsSmallest | detector/retrain.py:106-108 | Trimming the grown reservoir to its cap smallest keys gives the cap smallest of the whole population. |
| Reservoir.SampledByRank | detector/retrain.py:78-81 | With distinct keys a row is sampled if and only if fewer than cap rows drew a smaller key. |
| Reservoir.PopulationOfRows | detector/retrain.py:91-101 | Filtering chunk by chunk is filtering the rows of the corpus in order, and the rows seen are those rows. |
| Reservoir.FlaggedNeverKept | detector/retrain.py:112-120 | A row that a file with the column flags as an anomaly is never kept; in a file without the column it is. |
| Reservoir.ChunkingIrrelevant | detector/retrain.py:91-108 | Hence two ways to cut the same rows into files and chunks give the same population, the same counts and the same sample. |
| Reservoir.RechunkKeepsRows | detector/retrain.py:91-95 | Cutting any chunk in two leaves the rows as they were. |
| Chunker.SplitRejoins | scripts/qwen_triage.py:85-85 | Splitting at blank lines loses nothing: the paragraphs with their breaks are the text. |
| Chunker.SplitComplete | scripts/qwen_triage.py:85-85 | No paragraph holds a blank line. |
| Chunker.PiecesSpell | scripts/qwen_triage.py:85-96 | Slices and paragraphs in order spell the text, each character once. |
| Chunker.Chunks | scripts/qwen_triage.py:83-99 | Terminates for every positive limit; the chunks are the pieces in order, packed greedily, each within its limit; only blank paragraphs at the end are dropped; a text that would leave no chunk is returned as it is. |
| Chunker.ChunksKeepText | scripts/qwen_triage.py:83-99 | The concatenated chunks equal the text up to trailing white space. |
| Chunker.ChunksBounded | scripts/qwen_triage.py:87-96 | Every chunk has at most n + 2 characters. |
| Chunker.ChunksForTelegram | scripts/qwen_triage.py:71-73 | With the limit of 3900 every message has at most 3902 characters, below the 4096 allowed. |
| Mapper.NormalizeIdempotent | collector-go/mapper.go:122-129 | Normalising a uid twice changes nothing. |
| Mapper.NormalizeIdentifies | collector/k8s_mapper.py:44-51 | Two spellings normalise alike if and only if they have the same 32 digits or, for anything else, differ by underscores only. |
| Mapper.NormalizedDigits | collector-go/mapper.go:122-129 | Normalising keeps the digits and leaves no underscore. |
| Mapper.GoMapper.MaybeRefresh | collector-go/mapper.go:61-69 | A refresh is due when the period is over or no path is known; it takes the scan, the listing or else the old pods, empties the cache and restarts the clock; otherwise nothing changes. |
| Mapper.GoMapper.Resolve | collector-go/mapper.go:132-174 | Every answer is the uncached one on the current tables and names what they hold: namespace and pod of the listed uid that the path spells, the container listed by its id, and the documented fallbacks. |
| Mapper.PyMapper.MaybeRefresh | collector/k8s_mapper.py:114-120 | The same for the Python mapper, which stamps the refresh with the time it was decided. |
| Mapper.PyMapper.Resolve | collector/k8s_mapper.py:124-150 | The same for the Python resolver. |
| Mapper.LookupsAnswer | collector-go/mapper.go:145-174 | Both lookups: a path that spells a listed uid with any dashes or underscores gives that entry's namespace and pod, an unlisted one unknown and its first eight characters; a listed container its name, an unlisted one its first twelve characters; a path without a pod its last component; no path, unknown. |
| Mapper.CanonicalFixed | collector/k8s_mapper.py:44-51 | A uid as the cluster writes it is its own normal form. |
| Mapper.CacheInvisible | collector-go/mapper.go:61-69 | Over any sequence of calls and refreshes the cached resolver answers as the uncached one. |
| Mapper.ResolversAgree | collector/k8s_mapper.py:129-150 | The two resolvers agree if and only if the path is not empty and the base names do, or the container table has no telling empty key. |
| Mapper.BasesAgree | collector/k8s_mapper.py:138-138 | On non-empty paths the base names agree if and only if the path does not end in a slash or its last name is root. |
| TwinMappers.MappersAgree | collector/k8s_mapper.py:114-150 | From their first request on, with each its own refresh stamps, the two mappers give the same answers as long as no request comes between Python's and Go's next refresh. |
| TwinMappers.StayTogether | collector-go/mapper.go:61-69 | While in step both hold the tables and the two stamps of one and the same refresh. |
| TwinMappers.Separated | collector-go/mapper.go:68-68 | After any run in step, a request between the two next refreshes can be answered differently: some scan and listing tell the mappers apart. |
| TwinMappers.MappersAgreeIff | collector-go/mapper.go:61-69 | For given times of requests and refreshes, whatever the scans and listings: the mappers answer alike if and only if no later request comes a full period after an earlier one and less than a period after the refresh of that one ended, with none between that would refresh. |
| TwinMappers.StampsMatter | collector/k8s_mapper.py:115-120 | A refresh of five seconds and a request 31 seconds after it was decided: Go answers from the old scan, Python from the new one. |
| Aggregator.WindowAggregator.AddSample | collector/feature_aggregator.py:159-170 | Adds a sample name by name to one identity's bucket. |
| Aggregator.WindowAggregator.MaybeFlush | collector/feature_aggregator.py:175-180 | Flushes exactly when forced or due; otherwise returns nothing and changes nothing. |
| Aggregator.WindowAggregator.Flush | collector/feature_aggregator.py:182-207 | One record per accumulated identity and no other, with rates divided by the window, and an empty accumulator after. |
| Aggregator.RateColumns | collector/feature_aggregator.py:138-138 | The columns divided are those that end in _rate: the first five of the collector's fourteen. |
| Aggregator.RecordSays | collector/feature_aggregator.py:186-193 | A flushed record gives each listed column the identity's sum, per second for a rate. |
| Aggregator.Conservation | collector/feature_aggregator.py:159-207 | Over any run, per identity and listed feature: added = emitted (rates times their window) + resident. |
| Aggregator.FlushCarriesResident | collector/feature_aggregator.py:186-203 | A flush hands over exactly what was resident. |
| Aggregator.UnforcedWindowFull | collector/feature_aggregator.py:175-183 | With a clock that does not run backwards an unforced flush divides by a full window at least. |
| Aggregator.UnlistedDropped | collector/feature_aggregator.py:188-193 | A feature outside the listed order is dropped by the flush that meets it. |

## Left out

- Model code: Isolation Forest, decision trees, random forests, boosting, SHAP, feature vectors built for them, training, threshold tuning and evaluation. Scores and probabilities are arbitrary inputs.
- Floating point: rounding, NaN, infinities and display rounding (`round`, formatted reasons); all quantities are reals.
- Requests, HTTP, Telegram, LLM calls, prompts, JSON, CSV and JSONL reading and writing, file rotation, model loading and environment lookup, except the gate thresholds.
- Reading a row: `features_from_row`, `fault_metadata_from_row` and timestamp parsing are inputs of the case builder; event ids, creation times and window strings are not modelled, window times are epoch seconds.
- The lookup of a cost matrix by mode name, and its error for an unknown name; the shipped matrices are passed directly.
- Label creation times are compared as strings, as the code does, not as instants; the free-text reason and the error field of a label are not modelled.
- Strings are sequences of characters; `lower` covers what comparison with lower-case ASCII words can tell.
- Regular expressions of the cgroup mappers, the directory walk and the building of the pod tables: their results are inputs.
- Kernel handlers are atomic steps; concurrent handlers inside one handler, memory reuse after a delete, failing probes and an iteration aborted by the kernel are not modelled. Cgroup ids, sectors and CPUs are natural numbers.
- The BCC `clear` is modelled as a list of the keys then present followed by one delete each. The BCC maps have the library's default size, which is a parameter; the Go maps have their declared sizes.
- Locks: each locked section of the metrics and the mappers is one step; the Go mapper's two clock readings are inputs of a request.
- The random keys of the reservoir are a function of the row's place in the filtered corpus; the test for an empty reservoir assumes at least one feature column.
- Python's `round`, dict ordering of flushed records beyond "each identity once", and the action mix of the gate metrics.
- OnCpu.OnCpuConserved: assumes 64-bit clocks that never run backwards per CPU and total credited time below 2^64 ns, because a wrapped counter has lost the information.
- DiskWindows.MissingIff: assumes that neither map refused the cgroup (when that is so is DiskWindows.RoomWhenFew) and that each drain reads a cgroup which its map held when it began, as the kernel's iteration does.
- Drains.Collector.ReadAll: what the kernel's iteration does with keys inserted meanwhile is left open; it may or may not return them.
- Mapper.LookupsAnswer: listed uids are taken in the dashed form in which the cluster writes them; one listed in another form is never found, because the lookup normalises only the path's.
- TwinMappers.MappersAgreeIff: takes tables on which the two lookups agree, as the directory walk and the pod listing build them, a clock that does not run backwards during a refresh, and the same period for both.
- Features.Drain: assumes a positive window; Go's ticker refuses any other, and Python would treat a zero window as "do not divide" for rates.
- CounterMap.BooksBalance: assumes that less than 2^64 is ever credited to the key, for the same reason.
- Reservoir.ChunkingIrrelevant: assumes distinct keys; among equal keys numpy's choice is unspecified.
