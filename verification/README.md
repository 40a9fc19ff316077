# Wanderer: models and proofs

Wanderer is a Go monitor. Agents on hosts post batches of findings to a core; the core scans domains from outside,
imports Internet.nl measurements, scores every target with rule packs, and shows one organisation's fleet on a few
screens. This project models the parts whose correctness is not visible from one function, and proves what they
promise.

| module | what it models |
|---|---|
| `Wire`, `BatchStore`, `Outbox`, `AgentTick`, `Delivery`, `DeliverySafety` | batch delivery: the core's transaction, the lossy network, the outbox directory, the agent's tick, and all of them as one step system with crashes |
| `ImportCorrelation`, `Imports`, `ImportTheorems`, `ImportTraffic`, `ImportRaces`, `ImportConverges`, `ImportContents` | the Internet.nl import: what it writes, which imported findings the assessor sees, runs that crash, runs among other files' imports, and runs whose store calls interleave |
| `CaaWire`, `CaaClimb` | the DNS CAA message walker and the climb to the registrable domain |
| `Assessments`, `RuleFold`, `Standards` | the rule fold behind a dimension score, and the standards verdict that feeds it |
| `Flows`, `Fleet`, `Aggregate`, `Screens`, `ScoresToScreens`, `ScoreMeanings` | three independently coded counts of the same scores, per domain, per flow and per framework, how they agree, that they do on what the scorer writes, and what each says of single results, flows and targets |
| `ProbePass` | the concurrent probe passes of a scan |
| `Sessions`, `PendingLogins`, `Enrolment` | lazily expiring sessions and logins, and agent enrolment with its shared key |
| `Drift`, `DriftReports` | the comparison of two scans, and what its reports tell |
| `Findings`, `Timestamps`, `Strings`, `Sequences` | shared vocabulary |

Code that changes state is modelled as classes or methods with loops, each proved against a specification function or
predicate; the laws are lemmas about those. What an operation writes, answers or shows is also stated without its
specification function, field by field or count by count. The network, clocks, random values, database faults, probe results and the
iteration order of Go maps are parameters or nondeterministic choices, so every theorem holds for all of them. SHA-256,
HMAC and random values are injective constructors or fresh values. Times are whole numbers.

## Where the code and its comments disagree

The models follow the code.

- `internal/assessor/engine.go:91-93` says that a result with a gap reason counts as missing. With evidence it counts as
  evidenced, and the fold compares the rule's own score, not the onbekend shown in the rationale. `RuleFold.GapReading`
  says exactly when that makes no difference; `RuleFold.GapShows` is a case where it does.
- `internal/assessor/wand/standards_rules.go` documents "tested findings present and none passed" as afhankelijk.
  Warnings alone score voldoende: `Standards.NothingPassed`, and `Standards.WarningAlone` for one.
- `internal/ui/flows.go` counts the empty score as answered in one place and as onbekend in another.
  `Fleet.RowsEqualColumns` shows that it is the only thing that can make the two screens disagree, and
  `ScoresToScreens.AllColumnsAgree` that no assessment the scorer writes contains it.
- `internal/ui/aggregate.go:277-280` says a concern reports the frameworks that fired. It lists those that evaluated the
  rule. Those are the frameworks whose rule scored afhankelijk exactly if every rule of the concern did
  (`Aggregate.FrameworksFiredIff`; `Aggregate.SoundTwinIsListed` is a row where one did not). A few lines on, the same
  function says "fired against, any score"; read that way the comment is right.
- `internal/agent/outbox.go:156-157` bounds the directory. The bound covers the listed files; leftovers with other
  extensions are never counted or removed (`Outbox.LeftoverExceedsLimit`), and a file whose size cannot be read stays
  while Prune reports success (`Outbox.UnreadSizeExceedsLimit`). `Outbox.PruneMakesRoom` says of a directory beforehand
  whether a prune in which nothing fails brings it within the limit: always when it has no leftovers.
  `Outbox.PruneBoundsDirectory` says it whatever fails.
- `internal/agent/enrol.go:20-23` writes the key file in place, and a key file always wins from then on. A write that is
  cut short leaves an agent whose requests are refused on every later start (`Enrolment.TornKeyIsRefused`); in every run
  a key file agrees with the core exactly if it was not cut short (`Enrolment.KeysAgreeUnlessTorn`).
- `internal/agent/outbox.go:97-101` makes file names sort in time order. Between years of four and of five digits they
  need not: `Timestamps.FiveDigitYears` says when they do, and `Timestamps.YearTenThousandSortsFirst` is a case where
  they do not.
- `sendWithRetry` reports success without sending when allowed no attempts; its only caller allows three.
- The climb of `internal/probe/dns/dns.go:227-243` compares a name as written with a normalised one.
  `CaaClimb.StaysWithin` says for which domains that keeps it below the top level.

## Model

| member | source | states |
|---|---|---|
| `BatchStore.Store.InsertFindings` | internal/store/sqlite.go:247-284 | the insert loop fails as a whole on an invalid finding or a taken ID |
| `BatchStore.Store.AppendBatch` | internal/store/sqlite.go:210-284 | one transaction: new batch and all its findings with every field, a duplicate reported without change, or nothing |
| `BatchStore.AppendRows` | internal/store/sqlite.go:210-242 | for every batch ID, one call adds exactly the stamped findings of a newly stored batch and touches no other batch's rows |
| `BatchStore.AppendStores` | internal/store/sqlite.go:210-284 | exactly which calls store, report a duplicate or fail; each stored row has all fields of its finding, its own ID if it brings one, and perimeter if it names no modus |
| `BatchStore.Store.IngestBatch` | internal/api/findings.go:126-154 | untagged findings become inventory, every other field is stored, and a duplicate is answered like a success |
| `BatchStore.IngestStores` | internal/api/findings.go:126-154 | exactly which requests are accepted, and the rows an accepted new batch adds, field by field |
| `Wire.Remote.SendBytes` | internal/agent/remote.go:75-104 | a POST may be lost, arrive late or repeatedly, or lose its answer; success means a 2xx for this batch |
| `Outbox.Directory.ListBatchFiles` | internal/agent/outbox.go:197-220 | exactly the .json files, in name order |
| `Outbox.SideFilesAreNotListed` | internal/agent/outbox.go:97-120 | temporary and set-aside files are never listed, spooled files always are |
| `Outbox.Directory.Spool` | internal/agent/outbox.go:82-121 | the directory and the answer after each way the write, the rename or the closing prune can fail; with a working prune the listed files are the longest suffix, in name order, of the old ones and the new one that fits |
| `Outbox.SpoolPrunes` | internal/agent/outbox.go:82-121 | the same of every spooling: when it keeps the newest files that fit, and that it fails exactly if the prune cannot list or cannot remove a file that has to go |
| `Outbox.Directory.Prune` | internal/agent/outbox.go:158-195 | the removal loop reaches the specified directory and answer, whichever listing, stat or remove fails |
| `Outbox.PruneKeepsLongestSuffix` | internal/agent/outbox.go:158-195 | unless a file operation fails, the survivors are the longest suffix of the name order that fits the limit; nothing unlisted is touched |
| `Outbox.PruneIsSafe` | internal/agent/outbox.go:158-195 | whatever fails, only listed files are removed, each after every older one that could be sized |
| `Outbox.PruneBoundsDirectory` | internal/agent/outbox.go:156-157 | whatever fails, the directory is within the limit after a prune exactly if what it held exceeds the limit by no more than the oldest files that can be sized, up to where the counted bytes fit or a removal fails |
| `Outbox.PruneMakesRoom` | internal/agent/outbox.go:156-157 | when nothing fails, exactly if its leftovers leave room for the longest suffix of the listing that fits alone; so always without leftovers |
| `Outbox.LeftoverExceedsLimit` | internal/agent/outbox.go:156-157 | a directory that stays over the limit: one leftover larger than it |
| `Outbox.UnreadSizeExceedsLimit` | internal/agent/outbox.go:166-193 | without leftovers too a directory can stay over the limit while Prune reports success: one file whose size cannot be read |
| `Outbox.Directory.DrainTo` | internal/agent/outbox.go:128-154 | the drain loop, posting through the network, equals its specification, whichever read, remove or set-aside fails |
| `Outbox.DrainKeepsSuffix` | internal/agent/outbox.go:128-154 | a drain handles a prefix of the listing and stops with the failing file first; what is listed afterwards is the rest exactly if every undecodable file it met could be set aside |
| `Outbox.HealthyDrainEmpties` | internal/agent/outbox.go:128-154 | when every POST arrives, is accepted and answered, and the disk works, a drain leaves nothing listed |
| `Timestamps.NamesSortInTimeOrder` | internal/agent/outbox.go:97-101 | among years of one width file names sort as strings in time order, the suffix deciding within one second |
| `Timestamps.FiveDigitYears` | internal/agent/outbox.go:97-101 | between any years of four and five digits the earlier file sorts first exactly if its eight date digits are below the later file's first eight |
| `Timestamps.YearTenThousandSortsFirst` | internal/agent/outbox.go:97-101 | the last file of 9999 sorts after the first of 10000 |
| `AgentTick.Process.SendWithRetry` | cmd/wanderer/agent.go:296-319 | the attempts made, how the wire changes, and that success means an answer for this batch |
| `AgentTick.RetryAcked` | cmd/wanderer/agent.go:296-319 | a retry that succeeds had an attempt answered with a 2xx |
| `AgentTick.Process.RunTick` | cmd/wanderer/agent.go:252-289 | one tick: drain, mint, send, spool on failure; if one of the three POSTs of its batch is healthy the core has the batch and no file is added, and if none is answered it is spooled |
| `AgentTick.TickAchieves` | cmd/wanderer/agent.go:252-319 | every tick ends so, with any network behaviour; a healthy drain before it leaves nothing listed |
| `AgentTick.TickWorldIsTick` | cmd/wanderer/agent.go:252-289 | the disk, the wire and the remaining network of that world are those RunTick leaves |
| `AgentTick.TickReaches` | cmd/wanderer/agent.go:252-289 | every tick, with any network behaviour and any failing file operation, is a run of the delivery step system that ends exactly in the world the tick leaves, history included |
| `AgentTick.TicksAreSafe` | cmd/wanderer/agent.go:252-289 | for any sequence of ticks of the program: each batch is stored at most once and whole, and one that neither failed to spool nor was pruned is stored or waits whole in a listed file |
| `Delivery.StepKeeps` | internal/store/sqlite.go:210-242 | every step, crash and restart included, keeps all delivery invariants |
| `DeliverySafety.ExactlyOnce` | internal/store/sqlite.go:210-242 | in every run a batch ID has at most one row and its findings are stored once as a whole, in order, or not at all |
| `DeliverySafety.NoSilentLoss` | cmd/wanderer/agent.go:252-289 | between ticks every batch that was not pruned, crashed over or refused by the disk is stored whole or waits whole in a listed file |
| `DeliverySafety.NoPartialFiles` | internal/agent/outbox.go:112-120 | in every run each listed file holds a complete batch as minted, whatever crashed between write and rename |
| `Delivery.NeverCorrupt` | internal/agent/outbox.go:128-154 | a drain in a reachable state never meets an undecodable file |
| `ImportCorrelation.StreamIsSpec` | internal/store/netnlimport.go:107-154 | the one-pass winner map over newest-first rows keeps a finding exactly if no newer scan of the target carries its type |
| `Imports.Importer.LatestImportFindings` | internal/store/netnlimport.go:107-154 | the loop returns the declaratively specified winners |
| `Imports.Importer.FindingsForAssessment` | internal/store/netnlimport.go:170-184 | the scan's own findings without imports, followed by the correlated imports |
| `ImportCorrelation.NewestImport` | internal/store/netnlimport.go:107-154 | findings of a scan newer, by start time and then by ID, than those its target has imports of replace exactly their own types there and change no other target |
| `ImportCorrelation.TieGoesToGreaterId` | internal/store/netnlimport.go:107-154 | of two scans that started together only the one with the greater ID shows, whichever came last |
| `ImportCorrelation.LateImportIsInvisible` | internal/store/netnlimport.go:107-154 | findings that arrive late, each of a type that a newer scan of the target already has, show nowhere |
| `ImportCorrelation.PerimeterIsInvisible` | internal/store/netnlimport.go:107-154 | a perimeter scan changes no target's import half |
| `ImportTraffic.MailRunKeepsWeb` | internal/store/netnlimport.go:107-154 | an import, complete or not, of a file with only mail for a domain leaves its web findings as they were, in order |
| `ImportCorrelation.OverIdempotent` | internal/store/netnlimport.go:107-154 | laying the same import over itself changes nothing |
| `Imports.NetnlFindings` | internal/scanner/netnlimport.go:205-247 | never empty, all import findings of the entry's type, all storable for an accepted entry |
| `ImportContents.NetnlTellsAll` | internal/scanner/netnlimport.go:205-278 | one finding per result in order with all it says and the severity its status calls for, or one with the entry's status |
| `ImportContents.FindingsForEntries` | internal/scanner/netnlimport.go:325-332 | what a file says of a domain is what its entries about that domain say, one after the other |
| `ImportContents.ImportWrites` | internal/scanner/netnlimport.go:310-348 | with enough calls a known unrecorded domain gets one new complete scan with exactly its findings and the record; otherwise nothing changes |
| `ImportContents.CrashLeaves` | internal/scanner/netnlimport.go:310-348 | what every prefix of the store calls leaves: a domain is recorded only after its scan is complete, and that only after its findings are stored |
| `ImportContents.CountersTell` | internal/scanner/netnlimport.go:300-350 | a complete run's counters are the domains it imported, those without a target and those already recorded |
| `ImportContents.EveryTestShows` | internal/scanner/netnlimport.go:300-350 | after a complete first run the assessor sees every test of every entry about a known domain |
| `Imports.Importer.GroupByDomain` | internal/scanner/netnlimport.go:301-308 | domains in order of first appearance, with all their findings |
| `Imports.Importer.ImportOne` | internal/scanner/netnlimport.go:310-348 | one domain's store calls, stopping anywhere, leave exactly the stages specified |
| `Imports.Importer.ImportNetnlDomains` | internal/scanner/netnlimport.go:300-350 | a run over a file equals its specification, whichever store call fails |
| `ImportTheorems.CompleteRun` | internal/scanner/netnlimport.go:300-350 | a complete run records each domain with a target and lays the file over it, once |
| `ImportTheorems.CrashedImportsAreInvisible` | internal/scanner/netnlimport.go:330-346 | attempts at a file that fail at any store call, among new targets and perimeter scans, leave the assessor what one clean import leaves |
| `ImportTraffic.OrphansAreErased` | internal/scanner/netnlimport.go:330-346 | with complete imports of other files in between as well, attempts that did not record a domain leave no trace in its import half once a run completes |
| `ImportRaces.RecordedIffScannedOnce` | internal/store/netnlimport.go:41-63 | in every interleaving of imports, store call by store call, with failures anywhere: (hash, domain) is recorded exactly if one scan was made for it, and never two, exactly at the times when no importer is between creating and recording it |
| `ImportRaces.FromEmptyStore` | internal/store/netnlimport.go:41-63 | so for every history that starts from an empty store |
| `ImportRaces.FailureFreeRuns` | internal/scanner/netnlimport.go:300-350 | in particular when all importers are done without a failure |
| `ImportRaces.BothCreate` | internal/scanner/netnlimport.go:310-348 | two importers past the check for one pair both create a scan |
| `ImportRaces.DoubleScanFails` | internal/store/netnlimport.go:41-63 | after two scans for one pair, however the run goes on, some importer fails or is unfinished |
| `ImportRaces.AloneIsImportDomain` | internal/scanner/netnlimport.go:310-348 | undisturbed, the store calls of one importer add up to the uninterrupted import |
| `ImportConverges.ImportersConverge` | internal/scanner/netnlimport.go:310-348 | importers of one file in any interleaving of their store calls, with failures, new targets and perimeter scans: a domain's import half is at every time what it was or that with the file laid over it, and the latter once the domain is recorded |
| `ImportConverges.RecordedIsClean` | internal/scanner/netnlimport.go:310-348 | so a recorded domain shows exactly what one clean import leaves |
| `ImportTheorems.RunRecordsKnownDomains` | internal/scanner/netnlimport.go:320-328 | a complete run records a domain exactly if it has a target by then, however often the file was seen before |
| `ImportTheorems.RerunIsNoOp` | internal/scanner/netnlimport.go:300-350 | the three counters add up to the distinct domains, and an immediate rerun changes nothing and counts them as already done |
| `CaaWire.SkipName` | internal/probe/dns/resolver.go:273-295 | the pointer loop terminates inside any message and equals its specification |
| `CaaWire.SkipsName` | internal/probe/dns/resolver.go:273-295 | on a serialised name, plain or compressed, it lands just past it |
| `CaaWire.SkippedIsName` | internal/probe/dns/resolver.go:273-295 | whatever it accepts is a serialised name |
| `CaaWire.SkipsEncodedName` | internal/probe/dns/resolver.go:175-188 | an encoded name is skipped exactly, wherever it stands |
| `CaaWire.EncodeName` | internal/probe/dns/resolver.go:175-188 | succeeds exactly for labels of 1 to 63 bytes, and writes the serialised name |
| `CaaWire.EncodeCAAQuery` | internal/probe/dns/resolver.go:135-160 | the query is the serialised message with one CAA question |
| `CaaWire.SkipQuestionSection` | internal/probe/dns/resolver.go:209-219 | the question loop |
| `CaaWire.DecodeOneAnswer` | internal/probe/dns/resolver.go:223-244 | one answer record, or the error that ends the walk |
| `CaaWire.DecodeAnswerSection` | internal/probe/dns/resolver.go:221-246 | the answer loop |
| `CaaWire.DecodeCAAResponse` | internal/probe/dns/resolver.go:195-247 | total on every byte string, never indexing outside it |
| `CaaWire.RecordRoundTrip` | internal/probe/dns/resolver.go:253-266 | record data decodes to the flag, tag and value it was written from |
| `CaaWire.ReadsAnswer` | internal/probe/dns/resolver.go:223-244 | a serialised answer is read back, ending just past it |
| `CaaWire.DecodeInvertsSerialise` | internal/probe/dns/resolver.go:195-247 | a serialised response decodes to exactly its CAA records in order, to none for NXDOMAIN, to the error code otherwise |
| `CaaWire.DecodedIsSerialised` | internal/probe/dns/resolver.go:195-247 | conversely a message decoded without an error code whose questions fit is a serialised response, with those CAA records |
| `CaaWire.AcceptedIffFits` | internal/probe/dns/resolver.go:195-247 | and a message decoded without an error code is a serialised response only if its questions fit |
| `CaaWire.CutQuestionIsAccepted` | internal/probe/dns/resolver.go:209-219 | a question cut off after its name is accepted and is no serialised response |
| `CaaWire.AnswersNeedRoom` | internal/probe/dns/resolver.go:209-244 | with answers announced, the questions of a decoded message always fit |
| `CaaClimb.LookupCAAChain` | internal/probe/dns/dns.go:227-243 | asks a prefix of the path towards the registrable domain, and returns the closest name's records, the first error, or nothing after the whole path was empty |
| `CaaClimb.OwnPath` | internal/domainutil/domainutil.go:11-18 | a climb towards a name's own last two labels visits ancestors of two labels or more and ends there |
| `CaaClimb.NormalPath` | internal/probe/dns/dns.go:227-243 | from a normalised domain the climb ends at the registrable domain and never leaves it; a single label is asked alone |
| `CaaClimb.StaysWithin` | internal/probe/dns/dns.go:227-243 | for any domain with a dot the climb asks no single-label name exactly if its last two labels, as written, are its registrable domain |
| `CaaClimb.UnnormalisedLeaves` | internal/probe/dns/dns.go:227-243 | an upper-case or rooted domain makes it ask the top-level domain |
| `RuleFold.ScoreDimension` | internal/assessor/engine.go:50-145 | score, completeness, n.v.t. flag and rationale in terms of the rules only; panics exactly for an unregistered reason code |
| `ScoreMeanings.DimensionMeans` | internal/assessor/engine.go:112-116 | onbekend if a rule with evidence says so, else afhankelijk before voldoende before soeverein |
| `ScoreMeanings.CompletenessMeans` | internal/assessor/engine.go:129-145 | incomplete without evidence, partial with something missing beside it, else complete |
| `ScoreMeanings.ApplicableMeans` | internal/assessor/engine.go:122-127 | not applicable exactly if there are rules and each gives a structural reason |
| `ScoreMeanings.LineMeans` | internal/assessor/engine.go:57-120 | the words, evidence, score and advice of a rule's line |
| `ScoreMeanings.RegisteredMeans` | internal/assessor/engine.go:50-75 | the only reasons that do not panic |
| `RuleFold.Assess` | internal/assessor/engine.go:30-48 | one entry per dimension in order, each the verdict of that dimension's rules, lines sorted by rule ID |
| `RuleFold.OrderIndependent` | internal/assessor/engine.go:50-145 | neither rule order nor repetition shows in score, completeness or n.v.t. flag |
| `RuleFold.StructuralIsInvisible` | internal/assessor/engine.go:81-89 | rules that do not apply change neither score nor completeness |
| `RuleFold.EvidenceNeverRaises` | internal/assessor/engine.go:112-116 | another evidenced rule never raises the score of an evidenced dimension |
| `RuleFold.GapReading` | internal/assessor/engine.go:91-93 | the comment's reading of gap reasons gives the code's verdict exactly if there are no gaps with evidence, or something is missing anyway and some plain evidence is as bad |
| `RuleFold.GapShows` | internal/assessor/engine.go:91-93 | a gap with evidence beside a sound rule: onbekend and complete, where the comment's reading gives soeverein and partial |
| `RuleFold.WorstIsOnbekend` | internal/assessor/engine.go:112-116 | an evidenced onbekend decides the dimension |
| `Standards.TallyCategory` | internal/assessor/wand/standards_rules.go:285-331 | every counter and evidence list of the loop, in terms of the findings |
| `Standards.ScoreStandardsCategory` | internal/assessor/wand/standards_rules.go:279-410 | the result the specification gives for any findings, age limit and clock |
| `Standards.ScoreTells` | internal/assessor/wand/standards_rules.go:378-409 | onbekend exactly if nothing was tested, soeverein exactly if all tests passed, afhankelijk exactly if some failed and none passed |
| `Standards.EvidenceTells` | internal/assessor/wand/standards_rules.go:333-371 | the evidence is exactly the tested findings', or all there are, and stale is given exactly if all are too old |
| `Standards.SixTalliesSum` | internal/assessor/wand/standards_rules.go:285-331 | the six status tallies sum to the total |
| `Standards.OrderIndependent` | internal/assessor/wand/standards_rules.go:279-410 | score and reason ignore the order of the findings |
| `Standards.UnmeasuredIsInvisible` | internal/assessor/wand/standards_rules.go:345-371 | once something is measured, stale, untested and failed measurements never change the score |
| `Standards.RaisingNeverLowers` | internal/assessor/wand/standards_rules.go:378-409 | raising one fresh test along failed, warning, passed never lowers the score |
| `Standards.NothingPassed` | internal/assessor/wand/standards_rules.go:378-409 | measured and none passed is afhankelijk exactly if something failed |
| `Standards.WarningAlone` | internal/assessor/wand/standards_rules.go:378-409 | a single warning scores voldoende |
| `Standards.UnmeasuredSinksDimension` | internal/assessor/wand/standards_rules.go:346-371 | an unmeasured category makes its whole dimension onbekend, through the fold's treatment of gaps |
| `Flows.SovereigntyFlows` | internal/ui/flows.go:69-92 | one flow per flow rule with the rule's last score, in table order |
| `Flows.OrderIrrelevantIffAgree` | internal/ui/flows.go:69-78 | the flows are independent of map order exactly if all assessments that know a flow rule give it the same score |
| `Fleet.ClassifyFlows` | internal/ui/flows.go:216-228 | the three classes of a domain's flows |
| `Fleet.BuildFleetScore` | internal/ui/fleet_score.go:36-50 | a domain's x of n, unanswered count and heaviest flow |
| `Fleet.FleetScoreLaws` | internal/ui/fleet_score.go:36-50 | every flow is counted once, and a flow is named exactly if one is afhankelijk, exactly if x is below n |
| `ScoreMeanings.FleetScoreMeans` | internal/ui/fleet_score.go:36-50 | x, n, the unanswered count and the named flow in terms of the flows' scores |
| `Fleet.BuildAnswerVerdict` | internal/ui/answer.go:37-70 | nee exactly if x is below n, ja exactly if 0 < x = n, onbekend exactly if n = 0, as the demo headline assumes |
| `Fleet.SovereigntyFlowRollup` | internal/ui/flows.go:312-357 | one row per flow that occurs, with its counts and worst score |
| `ScoreMeanings.RowMeans` | internal/ui/flows.go:312-357 | a row's counts by score and its worst, in terms of the flows of its title |
| `Fleet.BuildFleetSummary` | internal/ui/fleet_score.go:94-121 | the sums over domains with a completed scan, the others counted apart, not sovereign being those with an afhankelijk flow, and the rollup, for any two map orders |
| `ScoreMeanings.SummaryMeans` | internal/ui/fleet_score.go:94-121 | the totals in terms of the scores of all those domains' flows |
| `ScoreMeanings.ScoredMeans` | internal/ui/fleet_score.go:94-121 | summed are exactly the domains whose latest scan completed, wholly or partly |
| `Fleet.OrderDoesNotShow` | internal/ui/fleet_score.go:103-107 | if assessments agree, both loops see the same flows |
| `Fleet.RowsEqualColumns` | internal/ui/flows.go:312-395 | outside the EEA the per-flow rows always sum to n - x; the onbekend and in-EEA columns agree with the totals exactly if no flow has the empty score |
| `Fleet.RowsCountDomains` | internal/ui/flows.go:312-357 | a row's counts are numbers of domains |
| `Aggregate.WorstScore` | internal/ui/aggregate.go:159-162 | the lowest rated score, onbekend if none is rated |
| `Aggregate.WorstScoreCovering` | internal/ui/aggregate.go:173-192 | that score with the sorted names of exactly the rated dimensions |
| `ScoreMeanings.TargetMeans` | internal/ui/aggregate.go:159-192 | afhankelijk before voldoende before soeverein, onbekend only if there is nothing else |
| `Aggregate.WorstByFramework` | internal/ui/aggregate.go:411-468 | for every map order, one verdict per framework: the lowest rated score, how many targets sit at it, how many were assessed |
| `ScoreMeanings.FrameworkMeans` | internal/ui/aggregate.go:411-468 | a framework's worst, how many targets have it and how many were assessed, in terms of the targets |
| `Aggregate.BucketIsDetermined` | internal/ui/aggregate.go:411-446 | the verdict depends only on the scores, is onbekend exactly if nobody is rated and then counts everybody |
| `Aggregate.TopConcerns` | internal/ui/aggregate.go:281-357 | for every map order, one row per failing topic with distinct-target counts, worst first, cut at the cap |
| `ScoreMeanings.ConcernMeans` | internal/ui/aggregate.go:281-315 | a row counts the targets with a failing line about it out of those with any line about it |
| `Aggregate.CutKeepsWorst` | internal/ui/aggregate.go:346-356 | a failing topic is listed, or cut off behind a full table of rows that all count at least as many targets |
| `Aggregate.WandLeads` | internal/ui/aggregate.go:320-331 | a row is led by wand's rule if wand has one, else by eucsf's |
| `Aggregate.FrameworksFiredIff` | internal/ui/aggregate.go:277-280 | a row lists exactly the failing rules' frameworks if and only if every rule of its topic failed somewhere |
| `Aggregate.SoundTwinIsListed` | internal/ui/aggregate.go:277-280 | a target whose certificate fails for wand and passes for eucsf: the row lists both frameworks |
| `Aggregate.RowLaws` | internal/ui/aggregate.go:282-315 | a row counts at least one failing target and no more than were evaluated |
| `Aggregate.TopicsMerge` | internal/ui/aggregate.go:131-144 | two rules share a row exactly if they are one rule or the declared pair, when framework names have no bar |
| `Aggregate.BarsCollide` | internal/ui/aggregate.go:139-144 | with a bar, which neither framework of the program has, unrelated rules can share a row |
| `Screens.ConcernsEqualFlows` | internal/ui/aggregate.go:281-315 | for a flow rule known to one framework, the concern table's targets equal the flow table's afhankelijk count exactly if no target overrides a failing line of the rule with a later one, and never fall below it |
| `Screens.OneLineAgrees` | internal/ui/flows.go:69-78 | a rule with one line is shown by that line |
| `ScoresToScreens.AssessScan` | cmd/wanderer/assess.go:73-79 | one assessment of a scan by a framework's pack, dimension by dimension |
| `ScoresToScreens.WrittenOnce` | internal/assessor/engine.go:30-48 | a written assessment has at most one line per rule, over all its dimensions |
| `ScoresToScreens.AllColumnsAgree` | internal/ui/fleet_score.go:94-121 | on assessments the scorer wrote, the flow table and the fleet's totals agree in all three columns |
| `ScoresToScreens.ConcernsAreFlows` | internal/ui/aggregate.go:281-315 | on assessments the scorer wrote, the concern table and the flow table give the same count for every flow rule but the merged one |
| `ProbePass.SchedulesAgree` | internal/scanner/scanner.go:262-314 | for every interleaving, after the wait the slots are the probes' results in probe order and the store holds exactly the findings of the slots whose write succeeded |
| `ProbePass.SlotTells` | internal/scanner/scanner.go:280-295 | a slot holds all its probe found and a notice of a timeout, an error or a panic, of which the latter two are failures |
| `ProbePass.EveryFindingShows` | internal/scanner/scanner.go:262-314 | whatever a probe found is among the pass's findings |
| `ProbePass.NoFailureKeepsAll` | internal/scanner/scanner.go:296-300 | without a failing store no slot is left out |
| `ProbePass.Collect` | internal/scanner/scanner.go:305-313 | the results concatenated, and the failed count |
| `ProbePass.FailedCount` | internal/scanner/scanner.go:373-414 | the failed count is the number of probes that erred or panicked; a timeout is none |
| `ProbePass.SplitPasses` | internal/scanner/scanner.go:121-128 | every probe is in one pass, in order |
| `ProbePass.ExpandRelatedFromFindings` | internal/scanner/scanner.go:323-368 | the target followed by the sorted hosts it lacked |
| `ProbePass.HostTells` | internal/scanner/scanner.go:341-356 | which findings name a host, and by which field |
| `ProbePass.ExpandTells` | internal/scanner/scanner.go:323-368 | the old hosts, then in order exactly those the findings name and the target lacked |
| `ProbePass.SecondPassSeesAll` | internal/scanner/scanner.go:130-135 | every host the first pass found is known to the second, each gained once and none it had |
| `ProbePass.FinalStatus` | internal/scanner/scanner.go:220-237 | failed exactly if no probe completed, complete exactly if none failed and some ran, partial in between |
| `ProbePass.ScanComposes` | internal/scanner/scanner.go:117-135 | a whole scan under any schedules: the second pass runs on the target the first expanded, findings are the first pass's then the second's in probe order, the store holds exactly those unless a write failed, and the failed count is that of the probes |
| `ProbePass.ConcludeScan` | internal/scanner/scanner.go:130-237 | for any schedules of both passes, the findings in probe order and the status by the probes that erred or panicked |
| `Sessions.Store.CreateSession` | internal/store/session.go:33-51 | inserts a stamped row, refusing an empty or taken ID |
| `Sessions.Store.GetSession` | internal/store/session.go:56-79 | an expired session is absent, whether or not its lazy delete succeeds |
| `Sessions.Store.RefreshSession` | internal/store/session.go:85-97 | updates the token fields of an existing row only |
| `Sessions.Store.DeleteExpiredSessions` | internal/store/session.go:112-120 | removes exactly the rows past expiry and says how many |
| `Sessions.LiveSessionIsGot` | internal/store/session.go:33-97 | a session that was created and not deleted is got exactly until its expiry, with its fields and the tokens of its last refresh |
| `Sessions.DeletedIsGone` | internal/store/session.go:101-107 | a deleted session is not got until it is created again |
| `Sessions.ExpiryIsUnobservable` | internal/store/session.go:56-120 | with a monotone clock, a store that deletes expired rows at any times answers as one that never does, unless an expired ID is created again |
| `Sessions.AnsweredAlike` | internal/store/session.go:33-79 | two such stores answer a call alike exactly if it does not create a session under a purged ID |
| `Sessions.ReuseShows` | internal/store/session.go:33-51 | creating under a purged ID shows the purge |
| `Sessions.IdentityIsImmutable` | internal/store/session.go:81-97 | owner and hard expiry of a session never change while it exists |
| `PendingLogins.AuthGate.PutPending` | internal/ui/auth.go:325-335 | the sweep removes exactly the expired entries, then the new one is recorded |
| `PendingLogins.AuthGate.TakePending` | internal/ui/auth.go:340-352 | consumes the entry, answering only while it is live |
| `PendingLogins.TakeAnswersLastPut` | internal/ui/auth.go:325-352 | the next take after the last put of a state answers its nonce exactly if it comes within ten minutes, and a second take nothing |
| `PendingLogins.SweepIsUnobservable` | internal/ui/auth.go:325-352 | with a monotone clock the sweep changes no take's answer |
| `PendingLogins.NoncesAreSpentOnce` | internal/ui/auth.go:325-352 | in every run a nonce is handed out no more often than it was recorded |
| `PendingLogins.NoncesAreInTime` | internal/ui/auth.go:325-352 | a nonce is handed out only for the state it was recorded under and within ten minutes |
| `Enrolment.Store.CreateEnrolmentToken` | internal/store/agent.go:48-67 | stores a digest with its deadline, refusing a lifetime that is not positive |
| `Enrolment.Store.EnrolAgent` | internal/store/agent.go:78-129 | granted exactly for a known, unused token in time and a new host; then the token is used and the agent added, and otherwise nothing changes |
| `Enrolment.Store.RevokeAgent` | internal/store/agent.go:135-158 | revokes the host's agent now, or keeps the first revocation time; every other agent and all tokens stay; fails for unknown hosts |
| `Enrolment.OperationsDo` | internal/store/agent.go:48-158 | what issuing, exchanging and revoking each do to every row |
| `Enrolment.Store.LookupKey` | internal/api/findings.go:73-83 | the stored digest, for known hosts that are not revoked |
| `Enrolment.AgentProcess.EnsureSecret` | internal/agent/enrol.go:28-54 | an existing key file wins, whole or cut short; otherwise one exchange, whose derived key is returned only if its write succeeded |
| `Enrolment.StartDoes` | internal/agent/enrol.go:28-54 | the core, the key file and the returned key after every way a start can go |
| `Enrolment.TokensBackOneAgent` | internal/store/agent.go:78-129 | two exchanges that succeed in one run used different tokens and enrolled different hosts |
| `Enrolment.TokensAreInTime` | internal/store/agent.go:48-105 | an exchange succeeds only with a token issued earlier in the run and within its lifetime |
| `Enrolment.AgentsMatchTokens` | internal/store/agent.go:78-129 | in every run there are as many agents as spent tokens |
| `Enrolment.RevocationIsPermanent` | internal/store/agent.go:135-158 | a revoked host never has a key again |
| `Enrolment.RevokedIsRefused` | internal/store/agent.go:135-158 | after a host is revoked it has no key in any later state, everything signed for it is refused, and the first revocation time stays |
| `Enrolment.KeysAgreeUnlessTorn` | internal/agent/enrol.go:28-54 | in every run a key file holds the digest the core keeps for its host exactly if its write was not cut short |
| `Enrolment.TornKeyIsRefused` | internal/agent/enrol.go:28-54 | after a write that was cut short, whatever happens later, the agent keeps signing with the rest and is not accepted |
| `Enrolment.SignedIsAccepted` | internal/agent/hmac.go:40-81 | in every run, a body signed with a key file is accepted exactly if the file is whole, the host is not revoked and the core's clock is within five minutes of the signing time cut to seconds |
| `Enrolment.EnrolledIsAccepted` | internal/agent/enrol.go:28-54 | an agent that exchanges a fresh token in time signs requests that are accepted from then on, until it is revoked |
| `Enrolment.OnlySignedIsAccepted` | internal/agent/hmac.go:53-81 | an accepted header pair was signed with the core's key for that body and timestamp |
| `Drift.ListHosts` | internal/drift/rules.go:82-119 | the hosts of a probe, sorted and without duplicates |
| `Drift.SetDiff` | internal/drift/rules.go:122-142 | added and removed, each the other with the arguments swapped |
| `Drift.DiffReconstructs` | internal/drift/rules.go:122-142 | the old set without the removed and with the added is the new one; both are empty exactly if the sets are equal |
| `Drift.DnsSetChanged` | internal/drift/rules.go:188-230 | reports exactly a changed host set |
| `DriftReports.HostSetTells` | internal/drift/rules.go:188-230 | one report exactly if the scans name different hosts; added are those of the new scan alone and removed those of the old alone |
| `Drift.HttpThirdPartyChanged` | internal/drift/rules.go:312-338 | reports additions and removals apart |
| `DriftReports.DaysTell` | internal/drift/rules.go:165-186 | exactly if the days left fell from thirty or more to below thirty |
| `DriftReports.IssuerTells` | internal/drift/rules.go:146-163 | exactly if the first issuer findings name different issuers |
| `DriftReports.ThirdPartiesTell` | internal/drift/rules.go:312-338 | additions and removals are exactly the third parties of one scan alone |
| `Drift.IpCountryChanged` | internal/drift/rules.go:247-310 | the two indexing loops and the reporting loop equal the per-finding specification |
| `DriftReports.CountriesTell` | internal/drift/rules.go:247-310 | a country drift is reported exactly if a finding has another known country than the old scan last had, at its address or for a host with a single finding in each |
| `Drift.AddressDrifts` | internal/drift/rules.go:280-294 | an addressed drift fires exactly if some current finding differs from the address's last country, both known |
| `Drift.AddressDriftsBetween` | internal/drift/rules.go:232-246 | hence exactly if the address has different known countries in the two scans, when the old scan names one |
| `Drift.Diff` | internal/drift/diff.go:25-40 | empty only without a current scan; otherwise baseline, all reports, or a single no-changes report, each with the probe name, dimension, severity and scan IDs of its kind |
| `DriftReports.ChangesTell` | internal/drift/diff.go:25-40 | a comparison reports exactly the changes between the two scans, or that there are none, or the baseline |
| `DriftReports.EmitTells` | internal/drift/rules.go:27-43 | the finding each kind of change becomes |
| `Drift.SelfDiff` | internal/drift/diff.go:25-40 | a scan against itself reports nothing but no-changes exactly if it does not contradict itself about an address |
| `Drift.OneCountryIsSettled` | internal/drift/rules.go:232-246 | in particular when each address has one country |

## Left out

- ImportTheorems.CrashedImportsAreInvisible: other files' imports are not part of this history. When an interrupted attempt recorded a domain, whether another file's import came before or after that record decides which shows, and no single clean run compares with both; for domains no attempt recorded ImportTraffic.OrphansAreErased states it with other files present.
- DeliverySafety.NoSilentLoss: that the outbox empties is stated for drains in which everything works, as Outbox.HealthyDrainEmpties, and not as a property of fair runs.
- ImportCorrelation.NewestImport: scan IDs are numbers in the order of creation here and random strings in the source, so a tie goes to an arbitrary scan there; TieGoesToGreaterId states the tie rule itself.
- BatchStore.Store.InsertFindings: the source also writes the generated IDs and timestamps back into the caller's findings; the model keeps them in the stored rows only.
- Fleet.BuildFleetSummary: the three rules that cost the most are Aggregate.TopConcerns with a cap of three and are not repeated.
- Flows.SovereigntyFlows: a flow's Dutch verdict text is not carried along.
- Fleet.BuildAnswerVerdict: the Dutch headline and the deciding flow's verdict sentence are not modelled.
- Aggregate.TopConcerns: the description and rationale texts looked up for a row's leading rule are not carried along.
- ImportRaces.FailureFreeRuns: the three counters of a run are proved for whole runs, in RerunIsNoOp, and not for interleaved ones.
- ImportConverges.ImportersConverge: imports of other files at the same time are not part of these interleavings; whose record shows then depends on their order.
- Fleet.BuildFleetScore: the heaviest flow's verdict sentence is not carried along.
- Standards.ScoreStandardsCategory: the verdict sentence of the result is not modelled.
- ProbePass.SchedulesAgree: the attributes of the notices for timeouts, panics and errors, the synthesised findings and the name-server holder lookups that follow the passes are not modelled.
- CaaWire.DecodeCAAResponse: the flag bits of the header other than the response code are not examined by the source and are free in the model.
- CaaClimb.LookupCAAChain: lower-casing and trimming act on ASCII only.
- Enrolment.Store.EnrolAgent: host-name normalisation is a parameter; the proofs use only that both sides apply the same one.
- HTTP routing, JSON, SQL text, templates, command-line flags and configuration: plumbing.
- Parsing of the Internet.nl file, which depends on encoding/json.
- The bodies of the other wand and eucsf rules, the vendor tables and the Dutch copy: long case lists.
- Bar and chart geometry, report exporters, MCP dispatch, fixtures: formatting.
- The probes themselves (DNS transport, TLS, RDAP, WebDAV, eBPF, OIDC): their answers are inputs.
- Redaction patterns and address filtering: table lookups.
