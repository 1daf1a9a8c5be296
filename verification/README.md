# SafePlay Guardian: a verified model of the core platform

This project models the parts of SafePlay Guardian that decide things: which device an
observation belongs to, how much a device was used, what a policy means right now, which backend
enforces it, what an agent is handed at check-in, what reaches the event log, which MACs a scan
promotes, and how migrations and the ping sweep run to completion. Every operation is written in
the form the Go code has (classes with fields for the tables and maps it changes, loops where it
loops, functions where it computes) and tied to a specification about which the real claims are
proved. `dafny verify dfyconfig.toml` checks everything.

## The parts

- **Mac** (with **Text**): `NormalizeMAC` as a parser followed by a printer, `IsRandomizedMAC`, and
  the non-host test. The two packages read a MAC in different ways; the model proves that they
  agree.
- **Registry**: the four tables and the class whose statements change them. `Reconciled` says what
  one whole Reconcile does. **RegistryReplay** proves what weak matching decides and when a repeated
  observation is recognised. **RegistryOwnership** is about whole runs: when strong identifiers stay
  unique. **RegistryInterleaving** takes Reconcile and Upsert apart into single SQL statements that
  concurrent calls may interleave, and proves that every flagged merge is justified in every
  reachable state; it also proves that an uninterrupted call is exactly the atomic one.
  **RegistryRace** says exactly when strong identifiers stay unique under interleaving, gives two
  calls that break them, and a rule for callers that keeps them.
- **Usage**, **Reports**, **EventStore**, **Ranking**: screen time as the number of instants that
  lie between two sightings less than five minutes apart. The gap-chaining loop and both windowed
  reports are proved to compute this measure.
- **Schedule**, **Policy**, **BudgetLock**: `evalSchedule` as circular membership in a week of 10080
  minutes, `Resolve` and `Merge`, and the stickiness of a spent budget.
- **EventLog**: redaction at write time as noninterference over whole histories.
- **Coordinator**, **Mailbox**, **Checkin**: the split of required capabilities over backends, the
  consume-once slot under any interleaving of handlers, and the two together in one check-in.
  **CheckinLog** gives the rows a check-in leaves in the log and the registry, field by field.
- **Scanner**, **ScannerRegistry**: blending, enrichment and promotion of one cycle, the promotion
  count over whole runs, and what a run of the scanner leaves in the registry. **ScannerCalls** says
  what each call to the registry carries, in terms of what the sources observed.
- **Migrate**: start-up migrations cut or failed anywhere.
- **Sweep**: the subnet enumeration, and the sweep's goroutines as a state machine.

## Where the code and its comments differ

The model follows the code, and each difference is a theorem.

- `migrations/002_phase2.sql:4-5` says strong identifiers remain effectively unique.
  `UniqueIffNoConflict` gives the exact condition over all runs of whole calls and
  `UniqueIffNoClash` over all interleavings of their statements. `AgentCarriesForeignMac` is three
  observations that break uniqueness, `ConcurrentScansDuplicate` two interleaved ones. It always
  holds in the runs of `AgentIdsStayUnique` and `AnonymousRunsStayUnique`, and, interleaved, when
  calls carrying the same leading identity never overlap (`SeparatedCallsStayUnique`).
- `internal/policy/model.go:17-19` reads a zero budget as no time allowed. A used-up budget locks iff
  the day's entry is positive or the schedule locks anyway (`BudgetLocksIffPositive`); a budget of
  zeros resolves like no budget (`ZeroBudgetIsNoBudget`, `ZeroBudgetNeverLocks`).
- `internal/event/log.go:59-63` names three levels; any other string hides nothing, because the
  switch has no default (`HidesNothingIff`).
- `internal/device/sqlite.go:88-89` calls Upsert idempotent. The stored rows are the same iff the
  caller names the device, both calls fall into one second (they stamp `updated_at`), and either the
  clock has not moved or every identity carries its own time where it is listed last
  (`UpsertIdempotent`).
- `internal/enforce/agent/agent.go:64-66` says the next coordinator run re-queues the slice from the
  current policy. When the policy requires nothing, nothing is applied, and a slice left from before
  is handed over (`CheckinHandsOver`, `StaleSliceIsHandedOver`); `StaleSliceHappens` is a policy
  change that makes it happen.
- `internal/api/agent.go:163-168` turns a wrong token away, but only after the observation has been
  reconciled and logged. `RejectedStillWrites` says what that leaves in the registry and the log,
  `RejectedRecordsOnOwner` that naming an agent_id is enough to write onto its owner, and
  `RejectedSpendsBudget` by how much it raises the owner's use.

## How the outside world appears

- An instant is an integer number of nanoseconds; 0 is Go's zero time. Report gaps are summed exactly
  instead of in floating-point days, and whole minutes are an integer division.
- Random identifiers and clocks are parameters (`drawn`, `now`); a drawn identifier is assumed fresh
  where a lemma says so.
- Which of several rows a single-row query returns is a function of the key and the matching devices
  (`Lookup`), arbitrary otherwise. Where two calls are compared it is the same function for both.
- How the database writes a JSON array or object as text is the store's `render` field; booleans
  compare as the numbers 0 and 1.
- The iteration order of a Go map is arbitrary: loops draw elements in any order.
- A mailbox history is any sequence of operations, because each operation on the shared map is atomic.
- The resolver's queries, and the time zone database with its local weekday, hour, minute and start of
  day, are function-valued fields of `Resolver`.

## Model

| member | source | states |
|---|---|---|
| `Mac.NormalizeMAC` | internal/discovery/scanner.go:154-186 | on every string, the result is the canonical print of the six octets the string denotes, and empty when it denotes none |
| `Mac.PrintParts` | internal/discovery/scanner.go:167-185 | the builder loop prints all parts as padded octets, or gives up as soon as one part is not an octet |
| `Mac.ParsePrinted` | internal/discovery/scanner.go:154-186 | round trip: reading a printed MAC gives the same six octets |
| `Mac.NormalizeIdempotent` | internal/discovery/scanner.go:154-186 | normalizing twice is normalizing once, for every string |
| `Mac.NormalizeDecidesIdentity` | internal/discovery/scanner.go:150-186 | two accepted spellings normalize alike iff they denote the same six octets |
| `Mac.IncompleteIsNoMac` | internal/discovery/scanner.go:156-158 | the test for "incomplete" rejects nothing that the octet test would have accepted |
| `Mac.RandomizedReadsOctet` | internal/device/mac.go:15-33 | on any accepted spelling the registry's own parsing finds bit 0x02 of the first of the six octets |
| `Mac.NormalizeKeepsRandomized` | internal/device/mac.go:15-33 | a MAC and its normal form are classified alike, so the scanner never changes what the registry decides |
| `Mac.NonHostByOctets` | internal/discovery/scanner.go:197-208 | on printed MACs the text test is true of exactly the broadcast address and the IPv4 and IPv6 multicast ranges |
| `Mac.MacSpellings` | internal/discovery/scanner.go:154-186 | the accepted spellings of a MAC are exactly: up to white space around them, the six octets joined by colons or by hyphens, each in one or two hexadecimal digits of either case |
| `Mac.PrintedExact` | internal/discovery/scanner.go:167-185 | a printed MAC is its octets joined by colons, each as two lower-case hexadecimal digits |
| `Text.TrimSpaceExact` | internal/discovery/scanner.go:155 | trimming leaves a middle part without white space at its ends, and takes nothing but white space |
| `Text.ContainsExact` | internal/discovery/scanner.go:156 | the search for "incomplete" is true iff it begins at some position |
| `Text.LexLeExact` | internal/store/migrate.go:37 | string order: a beginning of the other, or smaller at the first character that differs |
| `Registry.SQLiteRegistry.Reconcile` | internal/device/sqlite.go:146-193 | the whole new state of the four tables and the answer, for all four layers of matching, the new device and the pending merge |
| `Registry.SQLiteRegistry.FindStrong` | internal/device/sqlite.go:147-167 | token before agent_id before universal MAC; the first layer that finds a row decides |
| `Registry.SQLiteRegistry.FindWeakHits` | internal/device/sqlite.go:199-234 | each device's count is the number of the observation's weak signals recorded on it |
| `Registry.SQLiteRegistry.FindConfident` | internal/device/sqlite.go:169-178 | the confident list holds each device with two or more weak hits exactly once |
| `Registry.CountRows` | internal/device/sqlite.go:219-226 | reading a query's rows in any order adds one to exactly the devices returned |
| `Registry.AtLeastTwo` | internal/device/sqlite.go:173-178 | whatever the map order, exactly the devices counted twice or more are collected, none twice |
| `Registry.SQLiteRegistry.MergeObservation` | internal/device/sqlite.go:274-312 | the whole new state: given identities stamped on this device, capabilities only from an agent, last_seen set, all else unchanged |
| `Registry.SQLiteRegistry.CreateFromObservation` | internal/device/sqlite.go:314-354 | the new row's label, kind and state, then the observation merged into it |
| `Registry.SQLiteRegistry.Upsert` | internal/device/sqlite.go:90-123 | the whole new state: the row replaced, the given identities and capabilities added, nothing removed |
| `Registry.SQLiteRegistry.CreatePendingMerge` | internal/device/sqlite.go:249-258 | one row is appended to pending_merges and no other table changes |
| `Registry.SQLiteRegistry.TouchIdentity` | internal/device/sqlite.go:356-369 | (device, kind, value) is a key: the row is inserted or its last_seen replaced |
| `Registry.ReconciledKeepsWellFormed` | internal/device/sqlite.go:146-193 | every Reconcile keeps all foreign keys, deletes no device, and answers with a device that exists |
| `RegistryReplay.SightedRows` | internal/device/sqlite.go:279-300 | after a merge exactly the observation's non-empty identities have been added, on that device, with its time |
| `RegistryReplay.WeakMatchingIsASetRule` | internal/device/sqlite.go:169-181 | without a strong match, the answer is an existing device iff it alone has two weak hits, and then it is that device |
| `RegistryReplay.UnmatchedIsCreatedAndFlagged` | internal/device/sqlite.go:183-192 | otherwise exactly one device is added, and a pending merge lists exactly the devices with two hits iff there are two of them |
| `RegistryReplay.OutcomeIgnoresMapOrder` | internal/device/sqlite.go:173-192 | two runs of one Reconcile that differ in map order agree on everything but the order of the flagged candidates |
| `RegistryReplay.ReplayBinding` | internal/device/sqlite.go:146-193 | after a Reconcile, the same observation will match the device just returned iff it was recognisable beforehand: a strong signal, or two weak signals with at most one device sharing two |
| `RegistryReplay.Replay` | internal/device/sqlite.go:146-193 | the second of two identical observations gets the same device iff the observation was recognisable |
| `RegistryReplay.ReplayIsNoOp` | internal/device/sqlite.go:146-193 | a recognised replay adds no device, identity, capability or pending merge; it changes nothing at all, `updated_at` included, iff both calls fall into the same second and the observation carries its time or the clock has not moved |
| `RegistryReplay.UnrecognisedReplayDuplicates` | internal/device/sqlite.go:146-193 | an unrecognised replay creates exactly one more device |
| `RegistryReplay.TokensKept` | internal/device/sqlite.go:146-193 | Reconcile never issues, moves or clears an agent token |
| `RegistryReplay.UpsertIdempotent` | internal/device/sqlite.go:88-123 | a repeated Upsert leaves all four tables as they are, `updated_at` included, iff it names the device, both calls fall into the same second, and the clock has not moved or every identity carries its own time where listed last; a named device never gains a row, an unnamed one is inserted again |
| `RegistryReplay.SpellingDecides` | internal/device/sqlite.go:161-167 | the registry compares the text of MACs: an observation offering only a universal MAC nobody held is bound to the device just observed iff both observations spell it the same |
| `RegistryReplay.ReconciledAnswer` | internal/device/sqlite.go:146-193 | which device answers: one issued the token, else one holding the agent_id, else one holding the universal MAC, else the only one on which two of address, hostname and randomized MAC are recorded, else the new one |
| `RegistryReplay.StrongSignals` | internal/device/sqlite.go:147-167 | a strong layer selects a device iff its signal is given and recorded, and an earlier one does not |
| `RegistryReplay.SoleTwoWeak` | internal/device/sqlite.go:169-181 | the weak layer selects iff exactly one device has two of the three weak signals |
| `RegistryReplay.ReconciledDevices` | internal/device/sqlite.go:274-354 | the devices table after one Reconcile, field by field: a new row with no owner or token, discovered if scanned and else active, its title the first given name; or the known row with its times alone changed; all other rows as they were |
| `RegistryReplay.ReconciledRecords` | internal/device/sqlite.go:279-308 | the identities and capabilities after one Reconcile: what was given is added on the answering device with the time of sight, capabilities from agents only, all else as it was |
| `RegistryReplay.SavedRows` | internal/device/sqlite.go:90-123 | the tables after one Upsert, field by field: an empty state is stored as active, all other fields as given, the given identities and capabilities added, all other rows as they were |
| `RegistryReplay.SavedTimes` | internal/device/sqlite.go:110-117 | an identity carries the time of its last listing, or the clock where that gives none |
| `RegistryOwnership.StepKeepsUniqueIff` | internal/device/sqlite.go:146-167 | a call on tables with unique strong identifiers leaves them unique iff none it writes already belongs to another device |
| `RegistryOwnership.UniqueIffNoConflict` | migrations/002_phase2.sql:1-5 | over every run of Reconciles and Upserts from empty tables: strong identifiers are unique at the end iff no call conflicted |
| `RegistryOwnership.AgentIdsStayUnique` | internal/device/sqlite.go:154-160 | in every run of observations each agent_id is held by at most one device |
| `RegistryOwnership.AnonymousRunsStayUnique` | internal/device/sqlite.go:161-167 | in every run of observations without agent_ids each universal MAC has at most one owner |
| `RegistryOwnership.UniversalMacIsSticky` | internal/device/sqlite.go:161-167 | in such a run the owner of a universal MAC keeps it, and every later observation carrying it is bound to that owner |
| `RegistryOwnership.AgentCarriesForeignMac` | internal/device/sqlite.go:154-160 | three concrete observations after which one universal MAC is on two devices |
| `RegistryInterleaving.NextSound` | internal/device/sqlite.go:146-193 | one statement of one call, or its failure, keeps what every other call in progress relies on |
| `RegistryInterleaving.EveryFlaggedMergeIsJustified` | internal/device/sqlite.go:146-258 | in every reachable state of every interleaving, a pending merge has two or more distinct existing candidates, none its source, each sharing two weak identities with it |
| `RegistryInterleaving.SharesTwoAtFlagging` | internal/device/sqlite.go:187-191 | when the merge is flagged the source itself holds both signals that made the candidate confident |
| `RegistryInterleaving.CountCompletes` | internal/device/sqlite.go:199-234 | with nobody in between, the lookups pair by pair find exactly the confident devices |
| `RegistryInterleaving.WritesAreMerged` | internal/device/sqlite.go:274-312 | mergeObservation's statements one after the other amount to one merge |
| `RegistryInterleaving.UninterruptedIsReconciled` | internal/device/sqlite.go:146-193 | refinement: statement by statement without interruption, a Reconcile finishes and does exactly what the atomic one does |
| `RegistryInterleaving.UninterruptedIsSaved` | internal/device/sqlite.go:90-123 | the same of an Upsert |
| `RegistryRace.NextKeepsUniqueIff` | internal/device/sqlite.go:356-369 | one statement, arrival or failure leaves unique strong identifiers unique iff it does not record one that another device holds |
| `RegistryRace.UniqueIffNoClash` | migrations/002_phase2.sql:1-5 | in every interleaving of Reconciles and Upserts, at every moment: strong identifiers are unique iff no statement so far recorded one that another device held |
| `RegistryRace.SeparatedIsOrderly` | internal/device/sqlite.go:146-193 | an identity that is the first strong signal wherever it is carried, in Reconciles that do not overlap, and that no Upsert lists, has at most one owner in every reachable state, whatever other Reconciles and Upserts interleave |
| `RegistryRace.SeparatedCallsStayUnique` | internal/device/sqlite.go:146-193 | if that is so of every strong identity (so that no observation carries both an agent_id and a universal MAC), no statement ever clashes and all of them stay unique |
| `RegistryRace.ConcurrentScansDuplicate` | internal/device/sqlite.go:161-192 | a reachable interleaving of two scanner observations that puts one universal MAC on two devices |
| `Usage.ChainGaps` | internal/event/store.go:136-151 | the loop's total is the number of instants lying between two sightings less than five minutes apart |
| `Usage.MeasureWithLatest` | internal/event/store.go:144-149 | a latest sighting adds its gap to the one before iff that is under five minutes, and nothing otherwise |
| `Usage.MeasureMonotone` | internal/event/store.go:124-153 | more sightings never mean less use |
| `Usage.MeasureWithinSpan` | internal/event/store.go:124-153 | use is at most the time from the first sighting to the last |
| `Usage.MeasureSplits` | internal/event/store.go:124-153 | use before and after a silence of five minutes or more adds up |
| `Reports.GapIsMeasured` | internal/event/store.go:178-184 | the gap that LAG gives a row is what the row adds to its device's use |
| `Reports.DeviceSumIsMeasure` | internal/event/store.go:227-238 | a device's summed gaps are the measure of its sightings |
| `Reports.GroupsAddUp` | internal/event/store.go:176-186 | over any listing of all groups, by day or by device, the sums add up to the total |
| `Reports.DaysAndDevicesAgree` | internal/event/store.go:176-239 | the day report's groups and the device report's groups, HAVING clause included, each account for the whole total |
| `Reports.ReportsConserveUse` | internal/event/store.go:165-257 | conservation: for one cut-off and person filter both reports account for the same use, and each device's share is the measure of its sightings |
| `Reports.TruncationLosesLittle` | internal/event/store.go:196-203 | whole minutes undercount the exact sum by less than a minute a row, and never overcount |
| `Reports.RowGroups` | internal/event/store.go:176-186 | a row counts for a day iff its time lies in that UTC day, and for a device iff it is that device |
| `Reports.FilteredTimes` | internal/event/store.go:165-176 | the person filter keeps exactly that person's sightings, and none given keeps all |
| `EventStore.Store.Insert` | internal/event/store.go:31-59 | the whole new table and answer: the unknown kind, missing device and repeated id cases, else one completed row appended |
| `EventStore.Store.DeleteOlderThan` | internal/event/store.go:115-122 | exactly the rows recorded before the cut-off go, the rest keep their order, and the count is right |
| `EventStore.Store.UsageSince` | internal/event/store.go:128-153 | the answer is the measure of the device's sightings since the start |
| `EventStore.Store.ScreenTimePerDay` | internal/event/store.go:165-206 | one row for each UTC day with a sighting, in order, with its summed gaps in whole minutes |
| `EventStore.Store.UsageByDevice` | internal/event/store.go:216-257 | one row for each device with any use, most used first, in whole minutes |
| `EventStore.Store.TopBlocks` | internal/event/store.go:268-299 | the most frequent groups of block events, as the database compares values, with their exact counts, and no omitted group exceeds a listed one |
| `EventStore.ReportShareIsUsage` | internal/event/store.go:128-257 | with no person filter a device's share of the report is what UsageSince answers for the same start |
| `EventStore.UsageMonotone` | internal/event/store.go:128-153 | another row never lowers a device's use, and row order and repetition are irrelevant |
| `EventStore.UsageWithinSpan` | internal/event/store.go:128-153 | a device's use lies within the span of its sightings |
| `EventStore.InsertAnswers` | internal/event/store.go:31-59 | Insert's answer by case: exactly the eight kinds of the schema are known, and a missing device and a taken identifier are refused in that order |
| `EventStore.KeptIsFilter` | internal/event/store.go:115-122 | retention acts on each row alone and keeps the order and content of those that stay |
| `EventStore.BlockCountIsCardinality` | internal/event/store.go:268-299 | a group's count is the number of block rows since the cut-off that belong to it |
| `EventStore.GroupShowsAttributes` | internal/event/store.go:270-284 | a group shows the text of its rows' attributes, numbers and booleans as numbers, and nothing where they are absent or null |
| `EventStore.ReportWindow` | internal/event/store.go:165-175 | a report reaches back the given number of days, or seven |
| `Ranking.Rank` | internal/event/store.go:282-284 | ORDER BY on groups: every group once, by descending weight |
| `Schedule.EvalScheduleIsCircular` | internal/policy/resolver.go:154-190 | the schedule locks iff the minute of the week lies in the circular window of a parseable blocked or bedtime block on a listed real weekday, and gives the reason |
| `Schedule.BlockIsCircular` | internal/policy/resolver.go:174-187 | looking at today and yesterday is enough: the code's three tests are membership in seven circular windows |
| `Schedule.BlockOrderIrrelevant` | internal/policy/resolver.go:162-188 | neither order nor repetition of blocks matters |
| `Schedule.WeeklyLockedMinutes` | internal/policy/resolver.go:154-190 | one block locks exactly (end - start) mod 1440 minutes a week for each distinct weekday 0..6 it lists |
| `Schedule.ArcsDisjoint` | internal/policy/resolver.go:180-187 | windows opening on different weekdays never overlap, even across midnight and the end of the week |
| `Schedule.EvalScheduleExact` | internal/policy/resolver.go:154-190 | the schedule locks iff a listed weekday's window, from its start to the next time its end comes round, holds the minute, with the text of both times read as numbers |
| `Schedule.ParseHMExact` | internal/policy/resolver.go:192-206 | a time of day is what stands before and after the first colon, read as decimal numbers of at most 23 and 59 |
| `Schedule.DigitsReadDecimal` | internal/policy/resolver.go:192-206 | reading a number's decimal digits gives the number |
| `Schedule.AtoiReads` | internal/policy/resolver.go:192-206 | one sign may stand before the digits, and anything else is refused |
| `Policy.Merge` | internal/policy/resolver.go:125-152 | each field is the override's if it has one, else the person's; nothing when both are absent |
| `Policy.RequiredCaps` | internal/policy/model.go:85-110 | the listed capabilities, in order, are those some rule of the policy needs |
| `Policy.RequiredCapsExact` | internal/policy/model.go:85-110 | a capability is listed iff a rule needs it, and never twice |
| `Policy.RequiredCapsInOrder` | internal/policy/model.go:85-110 | they are listed in the order schedule, budget, domains, apps |
| `Policy.Resolve` | internal/policy/resolver.go:41-121 | every field of the result, for each failed lookup, no person, no policy and the full case |
| `Policy.Fill` | internal/policy/resolver.go:72-119 | locked iff some window covers the minute of the week or the positive budget is reached, the schedule's reason winning |
| `Policy.ResolvesInForce` | internal/policy/resolver.go:41-152 | override before person, in every field of the answer: lock, reason, budget, use, lists, level and capabilities are those of the policy in force, each of whose five fields is the override's if it gives one and else the person's |
| `Policy.OverrideBudgetDecides` | internal/policy/resolver.go:87-141 | a positive entry of the override's budget is the answer's budget, and it locks iff the schedule does or the use reaches it |
| `Policy.ResolvesToNothing` | internal/policy/resolver.go:41-71 | which lookups fail; and with no owner, no policy and override, or a failure, nothing is locked, blocked or required |
| `Policy.BudgetLocksIffPositive` | internal/policy/resolver.go:87-104 | with a budget, every use that reaches the day's entry resolves locked iff the entry is positive or the schedule locks |
| `Policy.ZeroBudgetIsNoBudget` | internal/policy/resolver.go:87-104 | a budget without a positive entry resolves, in every field and for any use, like no budget |
| `Policy.ZeroBudgetNeverLocks` | internal/policy/resolver.go:87-104 | the budget of seven zeros resolves unlocked at every time and for any use |
| `BudgetLock.BudgetLockIsSticky` | internal/policy/resolver.go:87-104 | a budget that locks stays locked for the rest of the local day under any inserts and any retention up to midnight, given that what is dated since midnight is recorded since midnight |
| `BudgetLock.UseOnlyGrows` | internal/event/store.go:115-153 | under such operations use since midnight never falls |
| `BudgetLock.WholeSecondsSuffice` | migrations/004_phase6.sql:13 | that condition survives recorded_at being cut to whole seconds: a row not dated ahead of the clock meets it |
| `BudgetLock.RetentionKeepsInstantsIff` | internal/event/store.go:115-122 | retention leaves a device's sightings since a start unchanged iff every instant of them has a row recorded no earlier than the cut-off |
| `BudgetLock.RetentionKeepsRowsIff` | internal/event/store.go:115-122 | it keeps every sighting row since a start iff none was recorded before the cut-off, and then the use is unchanged |
| `BudgetLock.PostdatedRowsAreForgotten` | internal/event/store.go:115-122 | the condition on rows is needed: rows dated ahead of the clock can be deleted by a retention run at midnight, and their use with them |
| `EventLog.Redact` | internal/event/log.go:64-82 | exactly the attributes visible at the level remain, with their values |
| `EventLog.Logger.Append` | internal/event/log.go:27-37 | the table changes as by inserting the event redacted at its effective level |
| `EventLog.RedactionIsExact` | internal/event/log.go:39-82 | two events alike but for attributes are stored alike iff they agree on every visible attribute |
| `EventLog.HiddenAttributesLeaveNoTrace` | internal/event/log.go:27-82 | noninterference: histories that differ only in attributes hidden at the time leave the same table, hence the same reports, however the policies change between appends |
| `EventLog.EqualTablesMeanIndistinguishable` | internal/event/log.go:27-82 | for one accepted event also the converse: equal tables iff nothing visible differed |
| `EventLog.StrictLevelsStoreNoTarget` | internal/event/log.go:68-78 | if no block event is logged above metadata, under policies that may change, no stored block row carries value, url or host |
| `EventLog.StrictLevelsReportNoValue` | internal/event/store.go:265-299 | TopBlocks then answers with empty values only |
| `EventLog.HidesNothingIff` | internal/event/log.go:68-81 | a level leaves every event as it is iff it is neither enforcement_only nor metadata |
| `EventLog.LevelIsResolversLogLevel` | internal/event/log.go:39-53 | the level is the resolver's LogLevel when device, owner and store agree and no lookup fails |
| `EventLog.LevelExact` | internal/event/log.go:39-53 | the level is the override's, else the person's, else enforcement_only, which it also is when nobody is named or the policy cannot be read; an override that cannot be read counts as none |
| `EventLog.RedactedAttributes` | internal/event/log.go:64-82 | which attributes remain, level by level; nothing else about an event changes |
| `EventLog.AppendAddsRow` | internal/event/log.go:27-37 | an append adds one row at the end, its fields and attributes given one by one, or none when the kind is unknown, the device missing or the identifier taken |
| `Coordinator.SortCaps` | internal/enforce/coordinator.go:111-113 | in place: the array ends as the ascending rearrangement of what it held |
| `Coordinator.PickIsFirst` | internal/enforce/coordinator.go:98-109 | the first listed backend that declares the capability and can handle the device, and none iff there is none |
| `Coordinator.Assign` | internal/enforce/coordinator.go:43-56 | each name's share, the order of first use and the unsatisfied rest |
| `Coordinator.Split` | internal/enforce/coordinator.go:43-94 | the Apply calls made, in order, and the rules reported, gaps last |
| `Coordinator.Enforce` | internal/enforce/coordinator.go:29-96 | no call and no rule when a lookup fails; else the split of the sorted needs, with the sort visible in the policy passed on |
| `Coordinator.EveryNeedIsAnswered` | internal/enforce/coordinator.go:46-94 | the rules' capabilities are a permutation of the needs |
| `Coordinator.EveryRuleNamesItsBackend` | internal/enforce/coordinator.go:46-94 | every rule names the first able backend, or is unenforceable under no name iff there is none |
| `Coordinator.EachBackendAppliedOnce` | internal/enforce/coordinator.go:62-66 | a backend is applied at most once, never with nothing, and with exactly the capabilities that pick it |
| `Coordinator.EnforceIsComplete` | internal/enforce/coordinator.go:25-96 | end to end: the rules answer for exactly the resolved policy's required capabilities, each in the right name |
| `Coordinator.OrderIsFirstUse` | internal/enforce/coordinator.go:46-55 | backends are applied in the order of the first capability each gets |
| `Coordinator.SharesKeepOrder` | internal/enforce/coordinator.go:46-55 | shares and gaps are taken capability by capability, in the order of the needs |
| `Coordinator.RulesKeepOrder` | internal/enforce/coordinator.go:62-80 | the rules follow the order of the Apply calls |
| `Coordinator.RulesRepeatReport` | internal/enforce/coordinator.go:62-80 | a call's rules repeat the backend's report item by item, each field in its place, under the backend's name |
| `Coordinator.GapsSaySo` | internal/enforce/coordinator.go:82-94 | a gap is an unenforceable rule under no name, without an error, with the note that says so |
| `Checkin.DeployedIsFaithful` | cmd/platform/main.go:280-281 | the server's two backends have distinct names and report each capability of a slice exactly once, as completeness asks |
| `Checkin.DeployedEnforceIsComplete` | cmd/platform/main.go:279-285 | so its every Enforce answers for exactly the required capabilities, all under "agent" if the device has a non-empty token, else all under "describe" |
| `Mailbox.AgentBackend.Apply` | internal/enforce/agent/agent.go:46-57 | the slot holds the new slice, other slots are unchanged, and each capability is reported queued |
| `Mailbox.AgentBackend.Revoke` | internal/enforce/agent/agent.go:59-62 | the slot is emptied, other slots are unchanged |
| `Mailbox.AgentBackend.PullPending` | internal/enforce/agent/agent.go:67-73 | what the slot held is returned and the slot is emptied in one step |
| `Mailbox.SlotIsLatestApply` | internal/enforce/agent/agent.go:46-73 | after any history the slot holds the latest Apply for the device that nothing has replaced, revoked or pulled, and is empty iff there is none |
| `Mailbox.PullReturnsLatest` | internal/enforce/agent/agent.go:64-73 | under any interleaving a pull returns a slice iff it is that latest one |
| `Mailbox.NoSecondDelivery` | internal/enforce/agent/agent.go:64-73 | two pulls never deliver the same Apply |
| `Mailbox.DevicesIndependent` | internal/enforce/agent/agent.go:46-73 | a device's slot depends only on the operations on that device |
| `Checkin.AgentHandler.Checkin` | internal/api/agent.go:125-220 | the registry, the event log, the mailbox and the response after the whole ordered sequence of effects, the two hooks of the server included |
| `Checkin.AgentHandler.Observe` | cmd/platform/main.go:287-299 | the observe hook appends one device_seen event of the reconciled device and its owner, and changes nothing else |
| `Checkin.AgentHandler.LogRules` | cmd/platform/main.go:301-333 | the rule hook appends one event for each rule, in order, through the redacting writer |
| `Checkin.AgentHandler.Serve` | internal/api/agent.go:158-220 | the part after Reconcile: token check, reported events, Enforce and its rule events, Resolve, PullPending |
| `Checkin.AgentHandler.Ingest` | internal/api/agent.go:170-185 | reported events of known kinds are appended in order through the redacting writer, the others skipped |
| `Checkin.IngestedIsOwn` | internal/api/agent.go:172-184 | every row so added is of a known kind and carries the reconciled device and its owner, whatever the agent sent |
| `Checkin.AgentHandler.Deliver` | internal/enforce/coordinator.go:62-66 | the coordinator's calls reach the mailbox only through the agent backend |
| `Checkin.TokenDecides` | internal/api/agent.go:153-168 | the device Reconcile returns carries the presented token iff some device already did |
| `Checkin.RejectedIffTokenUnknown` | internal/api/agent.go:163-168 | a check-in is turned away as invalid iff its token was never issued; the mailbox is then untouched and the log has gained exactly the observe hook's row |
| `Checkin.RejectedStillWrites` | internal/api/agent.go:153-168 | what it leaves behind: if agent_id, universal MAC or weak signals point to a known device, all it presented is recorded on that device, which does not hold the token; otherwise exactly the drawn device is added, without a token; and that device is logged as seen |
| `Checkin.RejectedRecordsOnOwner` | internal/api/agent.go:153-168 | with a token nobody holds, naming an agent_id records the request's identities and capabilities on the device that owns it and logs that device as seen |
| `Checkin.SightingAddsGap` | internal/event/store.go:144-149 | logging one more sighting, no earlier than the rest, raises the device's use by its gap iff that is under five minutes |
| `Checkin.RejectedSpendsBudget` | cmd/platform/main.go:287-299 | such a rejected check-in raises the owner's use by exactly the time since its latest sighting if under five minutes, and so completes a day's budget |
| `Checkin.ServedIffResolves` | internal/api/agent.go:187-197 | a check-in with its device's token is accepted iff the device's policy resolves, and a server error otherwise |
| `Checkin.AgentGetsEverything` | internal/enforce/coordinator.go:46-66 | for a device with a token the deployed backends send the whole need to the agent in one slice, and nothing when there is no need |
| `Checkin.CheckinHandsOver` | internal/api/agent.go:187-204 | caps_assigned is the sorted list of required capabilities if there are any, else whatever was left in the slot; afterwards this slot is empty and no other has changed |
| `Checkin.StaleSliceIsHandedOver` | internal/api/agent.go:188-204 | what an Enforce queued for a policy with requirements is assigned by the next accepted check-in, though its policy requires nothing |
| `Checkin.StaleSliceHappens` | internal/enforce/coordinator.go:62-66 | a concrete policy change after which an accepted check-in requires nothing and assigns domain blocking |
| `CheckinLog.CheckinLogs` | internal/api/agent.go:153-204 | the log of any check-in with new identifiers: the sighting, then the reported events of known kinds, then, if accepted, exactly one "policy_applied" row of severity "info" and backend "agent" for each required capability, in order, and no other; a server error adds no rule row |
| `CheckinLog.ServedLog` | cmd/platform/main.go:301-333 | after the token check the log grows by one row for each reported event of a known kind and then one for each rule of a known outcome, in order, every field given literally by the event or rule |
| `CheckinLog.RulesAddRows` | cmd/platform/main.go:301-333 | the rule hook: "applied", "failed" and "unenforceable" rules each add one row with its kind, severity, person, device, capability, backend, note and error, in order; other outcomes add none |
| `CheckinLog.RuleAddsRow` | cmd/platform/main.go:301-333 | one rule: the row it adds, field by field, or none for an outcome that is not known |
| `CheckinLog.ReportsAddRows` | internal/api/agent.go:170-185 | the reported events: one row for each of a known kind, in order, with its own time and the attributes its level lets through |
| `CheckinLog.WitnessedRow` | cmd/platform/main.go:287-299 | the observe hook adds one device_seen row with the source as its only attribute |
| `CheckinLog.CheckinRecords` | internal/api/agent.go:135-157 | what any check-in with a token records: the request's agent_id, MAC, address and hostname and its capabilities on the answering device at the time of sight; a new device is active, of unknown kind, without owner or token |
| `Scanner.Scanner.Cycle` | internal/discovery/scanner.go:69-142 | the new counters, and exactly the due calls, each once, with the blended and enriched observation |
| `Scanner.Scanner.Promote` | internal/discovery/scanner.go:119-141 | the promotion loop counts each visible host once and calls for exactly those seen often enough, in any map order |
| `Scanner.Scanner.Visit` | internal/discovery/scanner.go:121-135 | one host: hidden ones are neither counted nor called for |
| `Scanner.Blend` | internal/discovery/scanner.go:76-101 | the blended map holds each host MAC's observations merged in order of arrival, failed sources skipped |
| `Scanner.BlendSource` | internal/discovery/scanner.go:85-100 | one source's observations, added to what came before |
| `Scanner.BlendedExact` | internal/discovery/scanner.go:86-99 | a MAC is blended iff some observation normalizes to it and it is a host's |
| `Scanner.BlendTakesFirst` | internal/discovery/scanner.go:210-219 | a blend's IP, hostname and agent_id are the first ones given, and empty iff none is |
| `Scanner.BlendSeenLatest` | internal/discovery/scanner.go:220-222 | a blend's time is the latest of its observations' |
| `Scanner.BlendKeepsFirst` | internal/discovery/scanner.go:210-224 | everything else about a blend is its first observation's |
| `Scanner.Enrich` | internal/discovery/scanner.go:103-117 | each nameless host gets the first non-empty hostname among the enrichers of its address, and no other field changes |
| `Scanner.LendToAll` | internal/discovery/scanner.go:109-116 | one enricher over all hosts, in any map order |
| `Scanner.CountIsTimesSeen` | internal/discovery/scanner.go:121-127 | over whole runs a visible MAC's counter is the number of cycles it was seen in, a hidden one's is zero |
| `Scanner.PromotedExactly` | internal/discovery/scanner.go:119-141 | a visible MAC seen in k cycles is handed to the registry exactly max(0, k - MinCycles + 1) times for MinCycles >= 1 (every time below that), at most once a cycle; a hidden one never |
| `Scanner.OnlyHostsAreCalled` | internal/discovery/scanner.go:90-93 | only canonical MACs of hosts that are not hidden are handed over, marked as scanned |
| `ScannerCalls.CallsReport` | internal/discovery/scanner.go:69-142 | every call of a cycle, field by field in terms of the cycle's observations: first given address and agent_id, the first given hostname or else the first one lent to that address, the latest time or now, source "scan", all else the first contributor's; one call for exactly the visible hosts seen often enough |
| `ScannerCalls.SightReports` | internal/discovery/scanner.go:131-135 | the same of what is handed over for one MAC |
| `ScannerCalls.HostnameIsFirstLent` | internal/discovery/scanner.go:103-117 | the hostname lent to an address is that of the first observation without a MAC that has the address and a hostname, and none iff there is none |
| `ScannerCalls.HostByOctets` | internal/discovery/scanner.go:86-93 | an observation counts for a MAC iff its text denotes six octets, printed as that MAC, that are not broadcast or multicast |
| `ScannerCalls.ObservedInOrder` | internal/discovery/scanner.go:76-85 | sources are read one after the other, and a failed one gives nothing |
| `ScannerRegistry.CalledSometime` | internal/discovery/scanner.go:119-141 | within the first n cycles the MAC has been due in some cycle iff a call was counted for it |
| `ScannerRegistry.HandedOver` | internal/discovery/scanner.go:131-135 | what a run hands over carries no agent_id if no source gives one, and includes a MAC iff a call was counted for it |
| `ScannerRegistry.HeldIffObserved` | internal/device/sqlite.go:284-290 | in a run of observations a MAC is recorded on some device iff an observation carried it |
| `ScannerRegistry.ScannedMacHasOneDevice` | internal/discovery/scanner.go:119-141 | after any number of cycles of the scanner alone, a universal MAC has exactly one device if it is visible and was seen in MinCycles cycles, and none otherwise |
| `Migrate.ListFiles` | internal/store/migrate.go:30-37 | the .sql files that are not directories, in lexical order |
| `Migrate.FilesExact` | internal/store/migrate.go:30-37 | a name is listed iff an entry that is no directory has it and its last four characters are ".sql"; as often as such entries have it; in ascending order |
| `Migrate.MissingExact` | internal/store/migrate.go:44-47 | a name is missing as often as it is listed, and not at all once recorded |
| `Migrate.AppliedAreListed` | internal/store/migrate.go:30-69 | a run applies nothing that is not listed, and one that gets through leaves nothing listed unapplied |
| `Migrate.Database.Migrate` | internal/store/migrate.go:20-69 | one start-up applies the missing files in order up to where it is cut, each together with its record, and completes iff it got through; it never applies a name that is not an .sql file of the directory, and when it completes every such name has taken effect |
| `Migrate.MissingAfterPrefix` | internal/store/migrate.go:44-47 | with a prefix of the list recorded, exactly the rest is missing |
| `Migrate.AlwaysAPrefix` | internal/store/migrate.go:44-67 | after any number of interrupted runs, what took effect is a prefix of the sorted list |
| `Migrate.LastRunFinishesIff` | internal/store/migrate.go:44-69 | after any interrupted runs, one more leaves exactly the sorted list applied iff it is one that completes |
| `Migrate.MigrationsConverge` | internal/store/migrate.go:17-69 | any interrupted runs and one that completes leave each file applied exactly once in lexical order, as a single run does; a further run changes nothing |
| `Sweep.EnumerateIPs` | internal/discovery/sweep.go:55-75 | nothing outside prefixes 22..30 of IPv4; else 2^(32-ones) - 2 addresses, consecutive from one past the base |
| `Sweep.NoOverflow` | internal/discovery/sweep.go:69-70 | the subnet ends within the address space, so the 32-bit addition never wraps |
| `Sweep.EnumerationExact` | internal/discovery/sweep.go:53-75 | the result is exactly the addresses sharing the prefix other than the first and the last, strictly increasing |
| `Sweep.ValueRoundTrip` | internal/discovery/sweep.go:69-71 | splitting a 32-bit value into octets and joining them again gives it back |
| `Sweep.EnumeratedOctets` | internal/discovery/sweep.go:59-73 | octet by octet: the first two are the network's, the last two count up from the number after the network's own |
| `Sweep.SizeByPrefix` | internal/discovery/sweep.go:59-66 | the size of the subnet for each of the nine prefixes |
| `Sweep.EnumeratedSlash24` | internal/discovery/sweep.go:59-73 | a /24 yields its 254 hosts in order |
| `Sweep.SweepIsBounded` | internal/discovery/sweep.go:32-50 | in every interleaving at most `parallelism` pings are in flight (32 if that is not positive), and on return from the final wait every address has been pinged and every goroutine is over |
| `Sweep.StartedAtMostOnce` | internal/discovery/sweep.go:35-49 | in every interleaving, cancelled ones included, an address is started at most once |
| `Sweep.NeverStuck` | internal/discovery/sweep.go:32-50 | until everything is over some step is possible: no deadlock of semaphore and wait group |
| `Sweep.ExecutionsAreShort` | internal/discovery/sweep.go:32-50 | an execution over n addresses has at most 6n + 2 steps, so with NeverStuck every sweep ends |

## Left out

- SQL text, drivers, JSON encoding and timestamp strings; the tables are maps, sets and sequences.
- SQL errors inside the atomic registry and the store: a failed statement is modelled in RegistryInterleaving only, where a call may stop at any point.
- Device list, get, patch and deletion, person and policy storage, sessions, passwords and the auth gate, HTTP routing and the web pages.
- Token issue at registration: `Upsert` can set a token, but how one is generated is not part of this model.
- The observe hook outside check-ins: the scanner's and registration's reconciles are logged too, which those parts do not model.
- `created_at` of devices and of pending merges, written once by the database and never changed; no lemma compares it.
- One reading of the clock stands for both the program's and the database's within a registry call.
- The event store's Recent listing.
- ARP and mDNS parsing, interface listing and the ping process; a source's snapshot is an arbitrary sequence of observations.
- Cancellation of a scan cycle; every cycle runs to its end. The sweep's cancellation is modelled.
- Two processes migrating one database at the same time.
- Daylight saving and the time zone database: the local weekday, hour, minute and start of day are inputs, so minutes of the week are wall-clock minutes.
- EventLog.Redact: works on a value; that the metadata branch deletes from the caller's own attribute map is not captured.
- Coordinator.SortCaps: stands for the library sort with a selection sort; any in-place sort leaves the same array.
- Migrate.ListFiles: the library sort of the names is a function.
- Schedule.EvalScheduleIsCircular: parsed numbers have no upper digit limit; larger ones are rejected by the range test all the same.
- Usage.ChainGaps: a time.Duration is unbounded here, so its overflow after 292 years of use is not modelled.
- Mac.NormalizeMAC: lower-casing covers ASCII; no other character lower-cases to a hexadecimal digit, a colon or a hyphen.
- Sweep.EnumerateIPs: addresses are values; their dotted text, and a network whose address is not IPv4, are not modelled.
- The sweep's early returns for a missing network or ping binary, and its per-host time limit.
- Checkin.AgentHandler.Checkin: one check-in with no other handler in between, and the event log and the agent backend, which the handler lets be absent, present; the usage the resolver is told is a parameter, not computed from the modelled log. Mailbox covers interleaved handlers.
- EventStore.Store.TopBlocks: a JSON number is a real, so precision beyond a double is not modelled.
