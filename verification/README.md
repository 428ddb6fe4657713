# Anne de Breuil, modelled and verified in Dafny

Anne de Breuil scans hosts for listening endpoints, decides from each host's firewall rules which of them
can be reached, compares scans over time and reports the outcome. This project models the parts of it that
are hardest to get right and proves what they promise.

- **The fan-out.** `Fanout` is a step relation: host tasks compete for a semaphore, resolve a strategy, scan,
  persist and retry under one idempotency key, are cut off by a timeout or panic at any point, and are joined in
  any order. Scan answers, store failures, panics, timeouts and the scheduler are adversarial. A blocking write
  is a detached step that may land after its host was reported timed out. `FanoutSafety` holds the invariant,
  `FanoutRuns` the whole-run theorems and the collector loop, `FanoutOutcomes` what each host is reported with, `Retry` the retry loop and its jitter, and
  `FanoutTiming` the same protocol with a clock.
- **Gates and atomic replacement.** `Prober` is the protocol of concurrent probes passing a per-host budget,
  per-host permits and one global rate gate, `ProberProgress` when they let calls through; `HttpProber` is the object
  those gates live in. `AtomicReplace`
  interleaves any number of writers of one report file with kills and power cuts; `ReportWriter` is one writer
  run against a directory.
- **Firewall meaning and drift.** `PortSpecs` is the port grammar, `FirewallMapping` compiles the raw rules a
  collector reports, `Reachabilities` evaluates them, `Snapshots` sorts what a scan found, `Drift` compares two
  snapshots and `ReportModels` counts everything again for the report. Each has a module of laws beside it.
- **Scanners, printers and parsers.** `Redaction` claims and replaces secret spans, `Brackets` is the stack
  scanner that vets regular expressions, `Checksum` and `Update` write, verify and act on a release manifest,
  `Scorecard` reads the annotations file, and `Svg` draws.

Every result is for all inputs, all runs or all reachable states of the model. What comes from outside the
program is a parameter: scan answers and store failures, clock readings, file system faults, the spans a regular
expression matches, SHA-256 as a function on byte strings, version parsing, UTF-8 decoding, and rule identifiers
made from text. Fan-out task identifiers and idempotency keys are assumed fresh, and progress reporters not to
panic.

`dafny verify dfyconfig.toml` checks the project.

## Where the code and its documentation differ

The model follows the code in each case.

- `write_atomically_with` documents that it cleans up its temporary file on failure. A failed rename returns
  without the cleanup (`AtomicReplace.TempGoneExactlyWhen`, `AtomicReplace.RenameErrorLeavesTemp`,
  `ReportWriter.StrayTempExactlyWhen`).
- `write_manifest` documents an order by file name. It sorts whole lines, and those begin with the digest, so the
  names come out of order as soon as an earlier digest belongs to a later name
  (`Checksum.NameOrderExactlyWhen`, `Checksum.NamesOutOfOrder`). A manifest of no artifacts is one empty line, which its own verifier calls
  malformed (`Checksum.EmptyManifestRejected`); the command line refuses to write one.
- `ScanSnapshot` documents that the order of collection never shows. Sorting is stable and by key, so rules that
  share an identifier keep the order they came in, and the comparison then reports a changed rule set
  (`Snapshots.OrderForgottenExactlyWhen`, `Snapshots.SharedRuleIdDrifts`).
- The severity of a reachability change is documented as low for newly blocked traffic and moderate for anything
  else that allows nothing. The code asks whether the traffic was allowed before
  (`DriftEntries.LowExactlyWhenBlocked`, `DriftEntries.NewlyBlockedIsNotLow`).
- `Grid4::snap` is described as rounding down; its documentation limits that to values that are not negative, and
  `Svg.SnapsDownExactlyWhen` says exactly when it holds.
- Disabled rules are documented not to shape connectivity. The evaluator reads neither a rule's direction nor
  whether it is enabled (`ReachabilityLaws.UnreadFieldsDoNotMatter`), so a collected disabled or outbound rule
  decides unless a live one is at least as strong (`ReachabilityLaws.DeadRulesIgnoredExactlyWhen`,
  `ReachabilityLaws.DeadRuleDecides`).

## Model

| member | source | states |
|---|---|---|
| FanoutRuns.EveryEntryAnsweredOnce | crates/anne-de-breuil/src/application/fanout.rs:218-347 | a finished run has exactly one result per inventory entry, carrying the entry's host, the outcome its one `host_finished` reported after its one `host_started`, and the resolved strategy, or `Probe` if resolution never finished or its task panicked; all permits are back |
| FanoutRuns.PermitsConserved | crates/anne-de-breuil/src/application/fanout.rs:226-265 | in every reachable state free and held permits add up to max(concurrency, 1) |
| FanoutRuns.OneKeyPerHost | crates/anne-de-breuil/src/application/fanout.rs:304-398 | every scan and put of a host carries its one key, there are at most three scans and one put, only retryable answers are retried, the put stores what the last scan returned, and no two hosts share a key |
| FanoutOutcomes.OutcomeExactlyWhen | crates/anne-de-breuil/src/application/fanout.rs:331-336 | an outcome is reported exactly when the steps of the run call for it: a timeout when the host's own fired or its last answer was one, a success when the put came back from a write without failure, and otherwise the last answer's error, the store's failure, or what joining the panicked task said |
| FanoutOutcomes.OutsideIsFree | crates/anne-de-breuil/src/application/fanout.rs:304-336 | in every reachable state scanners and store may answer anything, a write may settle either way, and a host at work may panic or be timed out |
| FanoutOutcomes.TimeoutsCoverTheBudget | crates/anne-de-breuil/src/application/fanout.rs:309-331 | a timeout fires only once the host has its key |
| FanoutOutcomes.CollectsAfterSpawning | crates/anne-de-breuil/src/application/fanout.rs:232-269 | nothing is collected before every host has been spawned |
| FanoutRuns.OutcomesEarned | crates/anne-de-breuil/src/application/fanout.rs:331-336 | a host reported as succeeded has that snapshot stored under its key; one reported as failed retryably had all its attempts answered retryably |
| FanoutRuns.AtMostOneRecordPerKey | crates/anne-de-breuil/src/application/snapshot_store.rs:20-32 | at any moment, also after a write has landed behind a timeout or panic, the store is its earlier content plus at most one record for each key |
| FanoutRuns.StoredForGood | crates/anne-de-breuil/src/application/fanout.rs:362-371 | what the store holds at any point of a run it holds at every later point |
| FanoutRuns.WriteLandsAfterTimeout | crates/anne-de-breuil/src/application/fanout.rs:352-361 | there is a run that reports a host timed out, with nothing stored, whose write lands afterwards |
| FanoutRuns.RecordCanAppearExactlyWhen | crates/anne-de-breuil/src/application/fanout.rs:352-371 | whatever ended a host, a record under its key appears in some continuation exactly when its write is still in flight or has landed |
| FanoutRuns.RunsEnd | crates/anne-de-breuil/src/application/fanout.rs:384-398 | every run takes at most fifteen steps per host, whatever scanners, store, timeouts and panics do |
| FanoutRuns.NeverStuck | crates/anne-de-breuil/src/application/fanout.rs:226-241 | until every entry has its result, some step is possible that needs no answer from scanner or store, also for concurrency zero |
| FanoutRuns.RunFanout | crates/anne-de-breuil/src/application/fanout.rs:269-287 | under every scheduler the collector returns, after a finished run, with one result per host |
| FanoutSafety.StepKeepsInv | crates/anne-de-breuil/src/application/fanout.rs:232-285 | each step keeps the protocol's invariant on tasks, permits, keys, store, join map, log and results |
| Retry.WithRetry | crates/anne-de-breuil/src/application/fanout.rs:373-398 | the loop awaits attempts up to the first that is not retryable or the third, returns the last outcome, and sleeps the doubled backoff plus less than 100 ms between them |
| Retry.ExhaustedRetriesSleep | crates/anne-de-breuil/src/application/fanout.rs:382-396 | a host that spends every attempt sleeps at least 600 ms and under 800 ms in all |
| Retry.MixingSeparates | crates/anne-de-breuil/src/application/fanout.rs:411-422 | at one clock reading different counters, and with one counter different clock readings, give different mixed words, the jitter below 100 ms being what is left of them |
| Retry.XorBits | crates/anne-de-breuil/src/application/fanout.rs:420 | the mix is the exclusive or, bit by bit |
| Retry.MachineFollowsLoop | crates/anne-de-breuil/src/application/fanout.rs:362-398 | fed the outcomes the loop awaited, the protocol's task makes the same attempts and ends where the loop's result says |
| FanoutTiming.AllFinishByDeadline | crates/anne-de-breuil/src/application/fanout.rs:228-265 | when only the per-host budget takes time, all N hosts are done by ceil(N / C) budgets, in every timed run |
| FanoutTiming.TimeoutsFireOnTime | crates/anne-de-breuil/src/application/fanout.rs:331-336 | a host that is timed out ends exactly one budget after it began |
| FanoutTiming.TimeGoesOn | crates/anne-de-breuil/src/application/fanout.rs:331-336 | until every entry has its result an instant step or a timeout is possible, or a host has not ended and time may pass |
| FanoutTiming.TimedRunsFinish | crates/anne-de-breuil/src/application/fanout.rs:228-287 | every timed run extends to one in which all hosts are collected, without the clock passing the deadline |
| FanoutTiming.TimedRunsAreRuns | crates/anne-de-breuil/src/application/fanout.rs:232-287 | without its clock a timed run is a run of the protocol and reaches the same state |
| Prober.HostBoundsHold | crates/anne-de-breuil/src/adapters/prober.rs:114-137 | in every reachable state a host was admitted at most `max_probes_per_host` times and at most `max_concurrent_per_host` of its probes hold a permit |
| Prober.RequestsOnlyWhenAdmitted | crates/anne-de-breuil/src/adapters/prober.rs:173-198 | excluded, refused and not yet started calls send nothing, no call sends more than five requests, a completed one sends exactly five, and a call is refused for its host's budget only when that is spent |
| Prober.WakesAsSoonAsAllowed | crates/anne-de-breuil/src/adapters/prober.rs:141-150 | a call wakes at the first moment that is neither before it came nor before the gate opens |
| ProberProgress.GrantedAsSoonAsOpen | crates/anne-de-breuil/src/adapters/prober.rs:141-150 | a call that locked the gate is granted its request exactly once the gate is open, at once if it was open already |
| ProberProgress.ProbesEnd | crates/anne-de-breuil/src/adapters/prober.rs:173-230 | no run holds more than 22 acts a call |
| ProberProgress.StuckExactlyWhen | crates/anne-de-breuil/src/adapters/prober.rs:118-137 | no call can go on exactly when all have ended, or the concurrency is zero and the others wait for a permit for ever |
| ProberProgress.AtMostSoManyAtWork | crates/anne-de-breuil/src/adapters/prober.rs:114-137 | at most `max_concurrent_per_host` calls of a host are between their permit and their end |
| Prober.GrantsSpaced | crates/anne-de-breuil/src/adapters/prober.rs:141-150 | every request has a grant of its own, and the i-th and j-th grants are at least (j - i) intervals apart |
| Prober.WindowHolds | crates/anne-de-breuil/src/adapters/prober.rs:139-150 | a window of length w holds at most w / interval + 1 grants |
| Prober.StepKeepsInv | crates/anne-de-breuil/src/adapters/prober.rs:173-230 | each step of any concurrent probe keeps budgets, permits, the gate and the requests consistent |
| HttpProber.HttpProber.ReserveHostBudget | crates/anne-de-breuil/src/adapters/prober.rs:118-132 | a call is counted exactly when its host's budget is not spent, and no other host's state changes |
| HttpProber.HttpProber.Throttle | crates/anne-de-breuil/src/adapters/prober.rs:141-150 | the grant comes at the first moment the gate allows, plus what the sleep overran, and the gate then closes for one interval |
| HttpProber.ReadCapped | crates/anne-de-breuil/src/adapters/prober.rs:244-265 | the result is exactly the first `cap` bytes sent, and an error exactly when the transport fails before that many arrived |
| AtomicReplace.TargetNeverTorn | crates/anne-de-breuil/src/adapters/report_writer.rs:64-92 | in every interleaving with kills and power cuts the target, as seen and as found after a crash, is its old content or one successful writer's whole payload, and no other file changes |
| AtomicReplace.LastRenameWins | crates/anne-de-breuil/src/adapters/report_writer.rs:64-77 | without power loss the target is the payload of the writer whose rename came last, and the renames are exactly the writers that report success |
| AtomicReplace.OnlySuccessTouchesTarget | crates/anne-de-breuil/src/adapters/report_writer.rs:64-77 | no step of a writer other than its successful rename changes the target |
| AtomicReplace.TempGoneExactlyWhen | crates/anne-de-breuil/src/adapters/report_writer.rs:70-76 | which failed writers leave their temporary file behind, exactly |
| AtomicReplace.RenameErrorLeavesTemp | crates/anne-de-breuil/src/adapters/report_writer.rs:76 | a run in which the rename fails and the temporary file stays |
| AtomicReplace.SharedTempTearsTarget | crates/anne-de-breuil/src/adapters/report_writer.rs:83-89 | why names must be fresh: with one shared name a failed writer's cleanup lets an unfinished file be installed |
| AtomicReplace.FaultsAreFree | crates/anne-de-breuil/src/adapters/report_writer.rs:64-92 | in every reachable state each call may fail or not, each running writer may be killed, and power may be cut with anything in place of unsynced data |
| AtomicReplace.LoneWriterSucceeds | crates/anne-de-breuil/src/adapters/report_writer.rs:64-92 | from any reachable state a writer that has not begun can run to success with its file installed |
| AtomicReplace.CutKeepsOnlySynced | crates/anne-de-breuil/src/adapters/report_writer.rs:79-92 | a power cut leaves of each file begun what a sync had put on the disk, and else anything |
| AtomicReplace.FlushedSurvives | crates/anne-de-breuil/src/adapters/report_writer.rs:76 | a name survives a power cut as it stood when the directory last reached the disk |
| AtomicReplace.CutUndoesRename | crates/anne-de-breuil/src/adapters/report_writer.rs:76 | a run in which power is lost after a success was reported and the old file is back |
| ReportWriter.WriteNewFile | crates/anne-de-breuil/src/adapters/report_writer.rs:79-92 | which stage fails and exactly what the directory then holds under the temporary name |
| ReportWriter.WriteAtomicallyWith | crates/anne-de-breuil/src/adapters/report_writer.rs:64-77 | success installs the whole payload and changes nothing else; failure leaves the target as it was |
| ReportWriter.StrayTempExactlyWhen | crates/anne-de-breuil/src/adapters/report_writer.rs:70-76 | a temporary file stays exactly when the rename failed, or the cleanup after a write or sync error did |
| PortSpecLaws.ParsesExactlyWhen | crates/anne-de-breuil/src/domain/port_spec.rs:80-121 | a text parses exactly when every comma-separated item is a wildcard, a keyword, a nonzero port or a nonempty range of nonzero ports |
| PortSpecLaws.ParsesToExactlyWhen | crates/anne-de-breuil/src/domain/port_spec.rs:80-121 | a text parses to a spec exactly when it says that spec: item by item, a wildcard, a number, two numbers around a dash, or a keyword's name |
| PortSpecLaws.NumberParsesExactlyWhen | crates/anne-de-breuil/src/domain/port_spec.rs:104-107 | a number is a nonempty run of decimal digits, perhaps after a plus sign, that spells at most 65535 |
| PortSpecLaws.KeywordExactlyWhen | crates/anne-de-breuil/src/domain/port_spec.rs:222-244 | a keyword is recognised exactly by its canonical name, whatever the case |
| PortSpecLaws.ErrorBlamesFirstBadItem | crates/anne-de-breuil/src/domain/port_spec.rs:80-121 | a text that does not parse is blamed on its first bad item, by the error that fits it |
| PortSpecLaws.MatchesWhatTheTextSays | crates/anne-de-breuil/src/domain/port_spec.rs:40-47 | matching a parsed text agrees with the set of ports its items denote |
| PortSpecLaws.ParsedShape | crates/anne-de-breuil/src/domain/port_spec.rs:91-97 | what parses is well formed, and a parsed list is flat with at least two members |
| PortSpecLaws.ReadsBackExactlyWhen | crates/anne-de-breuil/src/domain/port_spec.rs:61-77 | a well-formed spec's label parses back to it exactly when it is a port, a range or a flat list of two to four of these |
| PortSpecLaws.FlatListReadsBack | crates/anne-de-breuil/src/domain/port_spec.rs:70-74 | the label of a flat list of two to four members parses back exactly when each member's does |
| PortSpecLaws.LabelShows | crates/anne-de-breuil/src/domain/port_spec.rs:61-77 | a dynamic label names its keyword, a list of more than four its size, a shorter one its members |
| Reachabilities.ExpandEnvVars | crates/anne-de-breuil/src/domain/reachability.rs:202-234 | the nested loop replaces each closed, named and known placeholder and leaves everything else as written |
| Reachabilities.ExpansionIsIdentity | crates/anne-de-breuil/src/domain/reachability.rs:142-158 | with no variables to look up, every program filter expands to itself |
| ReachabilityLaws.ExpansionMeans | crates/anne-de-breuil/src/domain/reachability.rs:202-234 | what expansion makes of every text, whatever variables are known |
| ReachabilityLaws.ProgramFilterMatchesExactlyWhen | crates/anne-de-breuil/src/domain/reachability.rs:142-195 | a program filter matches exactly the path it names, and `System` in any case |
| ReachabilityLaws.OtherProgramsUntouched | crates/anne-de-breuil/src/domain/reachability.rs:120-136 | a rule filtered to one program applies to no other |
| ReachabilityLaws.VerdictMeans | crates/anne-de-breuil/src/domain/reachability.rs:52-105 | the verdict depends on the set of applicable rules: block over dynamic allow over allow over none |
| ReachabilityLaws.JoiningTakesTheMaximum | crates/anne-de-breuil/src/domain/reachability.rs:64-104 | concatenating rule lists takes the stronger verdict |
| ReachabilityLaws.MoreRulesClimb | crates/anne-de-breuil/src/domain/reachability.rs:64-104 | the verdict only climbs as rules are added, wherever they are put |
| ReachabilityLaws.OrderAndRepetitionIgnored | crates/anne-de-breuil/src/domain/reachability.rs:64-91 | order and repetition of rules do not matter to the verdict |
| ReachabilityLaws.VerdictExplainsItself | crates/anne-de-breuil/src/domain/reachability.rs:28-38 | the rules a verdict carries all apply, come from the list, and alone give the same verdict |
| ReachabilityLaws.MatchedRulesAre | crates/anne-de-breuil/src/domain/reachability.rs:69-104 | a blocked verdict carries the first rule that blocks, an allowed or unresolved one every rule that applies and allows, in order |
| ReachabilityLaws.UnreadFieldsDoNotMatter | crates/anne-de-breuil/src/domain/reachability.rs:115-136 | rule ids, names, stores, directions and enablement, process ids, signatures, command lines and profiles do not influence a verdict |
| ReachabilityLaws.DeadRulesIgnoredExactlyWhen | crates/anne-de-breuil/src/application/collect.rs:126-129 | disabled and outbound rules leave the verdict alone exactly when the endpoint is loopback or each of them that applies is matched by an applicable enabled inbound rule at least as strong |
| ReachabilityLaws.DeadRuleDecides | crates/anne-de-breuil/src/domain/reachability.rs:115-136 | a disabled block rule, or an outbound one, alone turns a web server from the default action to blocked |
| FirewallMapping.FirewallRulesFromRaw | crates/anne-de-breuil-cli/src/application/firewall_mapping.rs:27-33 | the loop yields every raw rule's rules in order, or the first error |
| FirewallMeaning.CompilingPreservesMeaning | crates/anne-de-breuil-cli/src/application/firewall_mapping.rs:79-125 | evaluating any endpoint against the compiled rules gives the verdict the raw texts state, a missing protocol meaning both, an untracked one nothing, and a program the path as written |
| FirewallMeaning.RuleMeaning | crates/anne-de-breuil-cli/src/application/firewall_mapping.rs:79-125 | a raw rule and the rules it compiles to count for the same endpoints, actions and port forms |
| FirewallMeaning.RuleCarries | crates/anne-de-breuil-cli/src/application/firewall_mapping.rs:79-125 | a raw rule becomes one rule for each protocol it covers, TCP first, all with its id, name, enablement, direction, action, store, ports and trimmed filters |
| FirewallMeaning.MapsExactlyWhen | crates/anne-de-breuil-cli/src/application/firewall_mapping.rs:79-108 | mapping succeeds exactly when every raw rule's fields are well formed; an untracked protocol is no error |
| FirewallMeaning.MappingErrorBlamesFirst | crates/anne-de-breuil-cli/src/application/firewall_mapping.rs:79-94 | a mapping that fails names the first bad field of the first raw rule that is not well formed |
| Snapshots.New | crates/anne-de-breuil/src/domain/snapshot.rs:49-72 | the three collections hold exactly what was supplied, endpoints ascending by protocol, address and port, rules by id, profiles from domain to public |
| Snapshots.OrderForgottenExactlyWhen | crates/anne-de-breuil/src/domain/snapshot.rs:11-15 | another order of supply builds the same snapshot exactly when elements with one key come in the same order |
| Snapshots.DistinctOrderForgotten | crates/anne-de-breuil/src/domain/snapshot.rs:59-61 | with distinct keys any order of supply builds the same snapshot |
| Snapshots.SharedRuleIdDrifts | crates/anne-de-breuil-cli/src/application/firewall_mapping.rs:110-124 | collecting two rules that share an id the other way round makes the comparison report a changed rule set |
| Snapshots.TiedExactlyWhenSameKey | crates/anne-de-breuil/src/domain/endpoint.rs:90-92 | two endpoints tie in the sort exactly when the comparison joins them |
| Snapshots.EndpointLeMeans | crates/anne-de-breuil/src/domain/endpoint.rs:90-92 | the sort key compares protocol, address family, address and port in this order |
| Snapshots.ComparisonsAreOrdered | crates/anne-de-breuil/src/domain/drift.rs:128-205 | comparing two snapshots lists appearances, disappearances, changes and the rule set in this order, each by key |
| Sorting.SortsAlikeExactlyWhen | crates/anne-de-breuil/src/domain/snapshot.rs:59 | a stable keyed sort forgets the order of supply exactly up to the order of ties |
| Drift.Diff | crates/anne-de-breuil/src/domain/drift.rs:116-215 | the indexes and the three loops compute the specified entries, filtered and counted |
| DriftLaws.FoundExactlyWhen | crates/anne-de-breuil/src/domain/drift.rs:128-205 | for any two snapshots the entries found are exactly the changes an index-free reading detects, each current endpoint compared with the last baseline endpoint of its key |
| DriftEntries.EntriesExactly | crates/anne-de-breuil/src/domain/drift.rs:207-278 | the entries of a report are exactly the justified ones, each with the severity its kind and its endpoint's exposure call for, apart from ephemeral churn |
| DriftEntries.EntriesInOrder | crates/anne-de-breuil/src/domain/drift.rs:128-205 | for sorted snapshots the entries come group by group and within a group by key |
| DriftEntries.LowExactlyWhenBlocked | crates/anne-de-breuil/src/domain/drift.rs:255-277 | the documented grade, low for newly blocked traffic and medium for other changes that allow nothing, is the code's exactly when the traffic was allowed before just if it is blocked now |
| DriftEntries.NewlyBlockedIsNotLow | crates/anne-de-breuil/src/domain/drift.rs:264-276 | an endpoint that goes from the default action to blocked is reported as medium |
| DriftLaws.ReportedExactlyWhen | crates/anne-de-breuil/src/domain/drift.rs:207-227 | what is reported is exactly what is detected and is not churn |
| DriftLaws.FilterSplits | crates/anne-de-breuil/src/domain/drift.rs:207-227 | filtering splits the entries into two order-preserving parts, and the suppressed one is exactly the appearances and disappearances above port 49152 |
| DriftLaws.SwapMirrorsExactlyWhen | crates/anne-de-breuil/src/domain/drift.rs:116-215 | for any two snapshots, swapping them swaps appeared with disappeared and before with after and keeps the other kinds exactly when, for each shared key, both sides differ alike from the other side's last endpoint in path and in signature and nothing reaches otherwise than these two |
| DriftLaws.SwappingMirrors | crates/anne-de-breuil/src/domain/drift.rs:116-215 | with distinct keys that always holds |
| DriftLaws.SwapKeepsSuppressed | crates/anne-de-breuil/src/domain/drift.rs:207-227 | for any two snapshots a swap suppresses as many entries |
| DriftLaws.QuietExactlyWhen | crates/anne-de-breuil/src/domain/drift.rs:116-215 | for any two snapshots the report is empty with nothing suppressed exactly when keys and rule lists agree and each current endpoint agrees with the last baseline endpoint of its key in path, signature and reachability |
| DriftLaws.EmptyExactlyWhen | crates/anne-de-breuil/src/domain/drift.rs:116-215 | with distinct baseline keys: exactly when keys, process paths, signatures, per-endpoint reachability and rule lists agree |
| DriftLaws.ReportedOnce | crates/anne-de-breuil/src/domain/drift.rs:133-205 | with distinct keys nothing is reported twice |
| DriftLaws.UnreadFieldsDoNotDrift | crates/anne-de-breuil/src/domain/drift.rs:17-40 | process ids, command lines, times, host and scan ids, versions, strategies and profiles may change on either side without changing the report |
| DriftLaws.RepeatedKeyBreaksSwap | crates/anne-de-breuil/src/domain/drift.rs:117-126 | with a repeated key one direction of a comparison can be silent and the other not |
| ReportModels.BuildRollup | crates/anne-de-breuil/src/domain/report_model.rs:621-667 | every counter ends at the number of endpoints, or drift entries, that fall under it |
| ReportModels.Build | crates/anne-de-breuil/src/domain/report_model.rs:544-567 | without confirmation an error; otherwise one section per snapshot in order of host and scan id, the drift as given, and a rollup that recounts them |
| ReportLaws.RollupAddsUp | crates/anne-de-breuil/src/domain/report_model.rs:621-667 | exposure counts and reachability counts each sum to all endpoints, local-only equals loopback, and severities sum to the drift entries |
| ReportLaws.RollupAgreesWithSections | crates/anne-de-breuil/src/domain/report_model.rs:553-565 | counting the endpoints the report displays gives the numbers of its rollup |
| ReportLaws.SectionsShowSnapshots | crates/anne-de-breuil/src/domain/report_model.rs:569-619 | every section shows one supplied snapshot: its collection data and fidelity, endpoint by endpoint the reachability its own rules give with the rules that decided it, and each command line as redaction left it, with its markers |
| ReportLaws.SectionsAscend | crates/anne-de-breuil/src/domain/report_model.rs:553-567 | a report has one section for each snapshot, ascending by host and then scan, and the drift as found |
| ReportLaws.HostOrderForgotten | crates/anne-de-breuil/src/domain/report_model.rs:553-565 | with distinct host keys the built model does not depend on the order of the snapshots |
| ReportLaws.SupplyOrderForgotten | crates/anne-de-breuil/src/domain/report_model.rs:544-567 | with distinct host keys and, within each host, distinct endpoint keys, rule ids and profiles, the built model depends neither on the order of the hosts nor on the order in which each host's collections were supplied |
| Redaction.Redact | crates/anne-de-breuil/src/domain/redaction.rs:113-148 | the output is the input with exactly the resolved spans replaced by the texts of their markers, each marker holds the category and the start of its span, in strictly ascending order, and putting the original slices back rebuilds the input |
| Redaction.ClaimSpans | crates/anne-de-breuil/src/domain/redaction.rs:116-127 | the claimed spans are disjoint matches, and every match is claimed or overlaps a claim of a strictly earlier pattern |
| Redaction.ResolutionUnique | crates/anne-de-breuil/src/domain/redaction.rs:105-112 | these promises leave no choice about which spans are claimed |
| Redaction.SpliceBack | crates/anne-de-breuil/src/domain/redaction.rs:130-145 | splicing the original slices into ordered disjoint spans rebuilds the text |
| Redaction.MarkersTell | crates/anne-de-breuil/src/domain/redaction.rs:141-143 | a marker's text names its category, and no two categories leave the same text |
| Brackets.HasNestedUnboundedQuantifier | crates/anne-de-breuil/src/domain/fingerprint.rs:136-178 | the one-pass stack scanner is true exactly when some matched unescaped group, followed by a quantifier character, has an unescaped quantifier among its direct contents; for every string, balanced or not |
| Brackets.QuantifiersAre | crates/anne-de-breuil/src/domain/fingerprint.rs:136-178 | the quantifiers are the star, the plus, the question mark and the opening brace |
| Checksum.Sha256Hex | xtask/src/checksum.rs:21-30 | each pair of characters reads, in base 16 and with lower-case digits, as its byte of the digest |
| Checksum.VerifyManifest | xtask/src/checksum.rs:71-89 | the loop returns the first line's error, if any |
| Checksum.AcceptedExactlyWhen | xtask/src/checksum.rs:53-89 | a manifest written from any nonempty list is accepted exactly when every artifact's bytes still hash the same |
| Checksum.ComplaintNames | xtask/src/checksum.rs:71-89 | verifying a written manifest complains about the artifact whose line comes first among those that no longer hash the same: missing, or with both digests |
| Checksum.UnreadableExactlyWhen | xtask/src/checksum.rs:37-57 | writing fails exactly when an artifact cannot be read, and names the first |
| Checksum.OneLineEach | xtask/src/checksum.rs:53-62 | a written manifest has one line for each artifact and ends every line |
| Checksum.LineShape | xtask/src/checksum.rs:32-43 | a line is the digest, two spaces and the name |
| Checksum.LineLeMeans | xtask/src/checksum.rs:58 | lines compare by the first character in which they differ, and a line follows its beginnings |
| Checksum.EmptyManifestRejected | xtask/src/checksum.rs:59-77 | the manifest of no artifacts is rejected as malformed |
| Checksum.SupplyOrderForgotten | xtask/src/checksum.rs:46-58 | the order in which artifacts are supplied does not show in the manifest |
| Checksum.NameOrderExactlyWhen | xtask/src/checksum.rs:46-62 | the names in a written manifest are in order exactly when no artifact has an earlier digest and a later name than another |
| Checksum.NamesOutOfOrder | xtask/src/checksum.rs:46-62 | two artifacts, a and b, whose manifest lists b first |
| Checksum.ExpectedDigestFor | crates/anne-de-breuil-cli/src/application/update.rs:180-189 | the loop returns the digest of the first line that names the asset |
| Checksum.DigestFoundExactlyWhen | crates/anne-de-breuil-cli/src/application/update.rs:177-189 | looking a name up in a written manifest finds the digest of an artifact of that name, and nothing when there is none |
| Checksum.HexInjective | xtask/src/checksum.rs:25-29 | different digests are written differently |
| Update.Installation.RunWithSource | crates/anne-de-breuil-cli/src/application/update.rs:39-149 | the run installs the planned bytes or stops with the planned outcome, and nothing is written before every check has passed |
| Update.Installation.ReplaceRunningExecutable | crates/anne-de-breuil-cli/src/application/update.rs:232-262 | wherever it fails, the target keeps its old bytes; otherwise it holds all the new ones and is executable |
| Update.InstallsExactlyWhen | crates/anne-de-breuil-cli/src/application/update.rs:39-149 | these bytes are installed exactly when the release is newer or asked for by tag, confirmed, and they are what the first asset for this platform serves and hash to what the release's first sums file lists for it |
| Update.InstallsWhatWasReleased | crates/anne-de-breuil-cli/src/application/update.rs:137-146 | against a manifest written at release time, the served bytes are installed exactly when they hash like the released artifact |
| Update.ExitsExactlyWhen | crates/anne-de-breuil-cli/src/application/update.rs:52-144 | when a run that installs nothing ends, and with which exit code or error |
| Update.MissingExactlyWhen | crates/anne-de-breuil-cli/src/application/update.rs:115-137 | an update that lacks something names the asset, the sums, their downloads, readable sums, or a line for the asset, in this order |
| Update.AssetFitsPlatform | crates/anne-de-breuil-cli/src/application/update.rs:154-175 | Linux gets the build for its architecture, Windows the one for x86_64, anything else none |
| Scorecard.ParseAnnotations | xtask/src/scorecard_annotations.rs:106-178 | the line loop yields the folded state's annotations or the first error with its line |
| ScorecardGrammar.AcceptedExactlyWhen | xtask/src/scorecard_annotations.rs:106-178 | a file is accepted exactly when every line is valid where it stands and the key is there; otherwise the first invalid line is named, with the complaint that fits it |
| ScorecardGrammar.LineParts | xtask/src/scorecard_annotations.rs:118-121 | a line without its comment is white space, whose bytes are its indent, and its content |
| ScorecardGrammar.IgnoredExactlyWhen | xtask/src/scorecard_annotations.rs:114-117 | a line is skipped exactly when it is blank or its first character that is not white is a hash |
| ScorecardGrammar.Utf8LengthIsLeast | xtask/src/scorecard_annotations.rs:120 | a character counts as the fewest bytes that can carry it |
| ScorecardLaws.LayoutReadsBackExactlyWhen | xtask/src/scorecard_annotations.rs:93-101 | the reader inverts the documented layout of a list of annotations exactly when every check and reason is clean |
| ScorecardLaws.CheckSurvivesExactlyWhen | xtask/src/scorecard_annotations.rs:150-157 | a check without line breaks is read back as written exactly when it is trimmed, nonempty, starts no comment and holds none, and does not look like a nested item |
| ScorecardLaws.ReasonSurvivesExactlyWhen | xtask/src/scorecard_annotations.rs:158-165 | the same for a reason, which may look like a nested item |
| ScorecardLaws.IgnoredLinesDoNotMatter | xtask/src/scorecard_annotations.rs:112-117 | inserting a blank or comment line between any two lines of a text, whichever way it ends, changes neither the result nor the complaint |
| ScorecardLaws.ItemsBelongToTheLastEntry | xtask/src/scorecard_annotations.rs:131-168 | the accepted entries are exactly those opened, each holding, in order, the items written while it was the last one opened and under the key last named |
| Svg.EscapeSvgText | crates/anne-de-breuil/src/domain/svg.rs:53-66 | the loop escapes every character in turn |
| Svg.DecodingUndoesEscaping | crates/anne-de-breuil/src/domain/svg.rs:53-66 | decoding the five predefined entities (section 4.6 of XML 1.0) undoes escaping |
| Svg.EscapingInjective | crates/anne-de-breuil/src/domain/svg.rs:41-51 | different texts are escaped differently |
| Svg.EscapedIsInert | crates/anne-de-breuil/src/domain/svg.rs:44-51 | an escaped text holds none of the five characters but ampersands that open an entity |
| Svg.SnapIsNearest | crates/anne-de-breuil/src/domain/svg.rs:23-33 | snapping gives the next multiple of four toward zero, and is idempotent |
| Svg.SnapsDownExactlyWhen | crates/anne-de-breuil/src/domain/svg.rs:24-29 | it rounds down exactly for values that are not negative or already on the grid |
| Svg.SvgCanvas.DrawRect | crates/anne-de-breuil/src/domain/svg.rs:93-109 | the canvas then holds the elements of all calls so far, this one last |
| Svg.SvgCanvas.DrawText | crates/anne-de-breuil/src/domain/svg.rs:114-124 | the same for a text |
| Svg.SvgCanvas.DrawLine | crates/anne-de-breuil/src/domain/svg.rs:129-145 | the same for a line |
| Svg.SvgCanvas.Render | crates/anne-de-breuil/src/domain/svg.rs:152-161 | the document is the one the sequence of calls determines |
| Svg.ElementReadsBack | crates/anne-de-breuil/src/domain/svg.rs:93-145 | whatever follows it, an XML reader takes off each drawn element its tag, each snapped coordinate under its own name, the class and the content, decoded to what was passed in |
| Svg.DocumentReadsBack | crates/anne-de-breuil/src/domain/svg.rs:147-161 | the reader parses a rendered document up to its closing tag and returns the role, label and snapped size, the title and description as passed in, and one node for each snapped call, in order |
| Svg.GeometryReadsBack | crates/anne-de-breuil/src/domain/svg.rs:93-161 | read as integers, the size and every coordinate and length of a rendered document are multiples of four less than four from what was asked for, under their own names, beside tag, class and content |
| Svg.ShownReadsBack | crates/anne-de-breuil/src/domain/svg.rs:102 | a number that is written is read as itself |
| Svg.MarkupDependsOnKindsOnly | crates/anne-de-breuil/src/domain/svg.rs:9-13 | two drawings with the same kinds of calls have the same tags and quotes, whatever their texts and numbers |
| Svg.OnlyTheGridIsDrawn | crates/anne-de-breuil/src/domain/svg.rs:5-9 | every drawing is the drawing of calls whose coordinates are all multiples of four |
| Text.SameIgnoringCaseMeans | crates/anne-de-breuil/src/domain/port_spec.rs:88 | ignoring case, texts are the same exactly when they agree but for the case of the 26 ASCII letters |
| Text.TrimMeans | crates/anne-de-breuil/src/domain/port_spec.rs:84 | trimming takes white space, and only that, off both ends |
| Text.WhiteAscii | xtask/src/scorecard_annotations.rs:114 | among the ASCII characters tab, line feed, vertical tab, form feed, carriage return and space are white |
| Text.SplitOnceLeftmost | xtask/src/scorecard_annotations.rs:81-83 | a text is split at the leftmost occurrence, and not at all only when there is none |
| Text.LineEnds | xtask/src/checksum.rs:74 | what a line is, with either line end or at the end of the text |

## Left out

- The branch of the fan-out for a closed semaphore: nothing in the repository closes it.
- `SnapshotStore::get` and `list`, and the store adapters: the fan-out relies on `put` alone.
- Regular expressions, SHA-256, UUIDs, semantic versions and serialization: library code, kept abstract.
- SSH, HTTP, TLS and release clients, process spawning, configuration, command line, tracing and spinners: input and output over libraries.
- The TLS prober's gates: the same gates as the prober's.
- Evidence derived from responses, header redaction and UTF-8 truncation of bodies: pure string work beside the protocol.
- `temp_path_for`: only the freshness of the name it makes is used.
- Fingerprint matching beyond the bracket check, contrast, HTML reports, diagrams, port registry and reconciliation: easy members or floating point.
- Firewall profiles: the evaluator ignores them and their mapping is read off one branch; the per-profile port summaries of a report are not modelled.
- `validate_annotations`: two membership tests over fixed lists.
- `Endpoint::new` sorting hosted services and deriving exposure: the endpoint's exposure is a field, so the laws hold for any exposure.
- Byte offsets of redaction: a text is a sequence of units and matches fall between them.
- Error messages: errors are data, not texts.
- Reachabilities.CompareProgramPaths: models the build for systems other than Windows, where program paths compare exactly unless one is `System`; the Windows build ignores case throughout.
- Update.Installation.ReplaceRunningExecutable: models the Unix build; the Windows one renames the running file away first.
- FanoutTiming.AllFinishByDeadline: assumes that only the per-host budget takes time, so scheduling and joining are instant.
