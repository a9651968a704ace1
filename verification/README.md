# TM-DNS: a verified model

TM-DNS is a DNS firewall: a resolver that decides each query by rules, blocklists and static records kept in SQLite,
an event log, and a second node that receives the policy. This project models the policy state, the decision pipeline
that reads it, the caches between them, and the protocols that run beside them, in Dafny 4.11, and proves what the
program is for over all inputs, all runs and all interleavings of its steps.

Check it with `dafny verify dfyconfig.toml`.

## What is modelled

**Tables.** A SQL table is the sequence of its rows in id order (`Tables.Row`: id, unique key, the columns a conflicting
insert overwrites, the columns it leaves alone). A new row gets the greatest id plus one; an `ON CONFLICT` update keeps
id and place. A transaction happens whole or not at all; whether a statement fails is a parameter of each call.

**Names.** `NormalizeName` is not idempotent: `Names.NormalizeTwice` says for which inputs a second application
changes nothing. Rules use a suffix test and blocklists a walk over parent domains; `Names.Covers` is the one relation
both refine.

**The Store.** `Stores.Store` is a class with the tables and the three write-invalidate caches; its methods follow the
source's, loops included, and `Stores.Run` shows that no sequence of calls can tell it from a store without caches.
`CacheRuns` takes one cache through every interleaving of its steps: a stale cache always holds a fill with a commit in
its window, and where no two commits write the same value that is exactly when it is stale.

**The resolver.** `Servers.Server.HandleDNS` makes its decision step by step; `Resolver.Decide` is the declarative
policy it meets, and the lemmas of `Resolver` say what can and what cannot change a decision.

**Sync.** `SyncTransactions` is the import transaction, statement by statement; `SyncTheorems` says what the secondary
then holds, `SyncOrder` in which order, and `SyncOrder` and `SyncedAnswers`, for any two nodes, exactly when it then
decides and answers as the primary does. `SyncFixpoints` says exactly when the policy carries over, and `StoredRuns` that
every node, after any calls, meets what these theorems assume of it. `Nodes.PushHASync` runs the push over two stores.

**What is written and read.** `CallEffects` says column by column what each call of the Store writes and answers, and
`Spellings` that the case of letters and the dots and blanks around a name change neither what is stored nor what is
matched.

**Beside them.** `HAWorker` (the heartbeat and sync loop, in nanoseconds), `Pairing` (join requests, as methods and as
interleaved, crashing handlers), `EventQueue`, `EventLog` and `Timestamps` (queue, tables and purge of the query
events), `BlocklistParser` and `SourceLifecycle` (lists, and who owns their entries), `HostIdentity` and `Enrichment`.

## What the code does not do

Each of these is a lemma with a family of inputs that shows it, next to the exact condition for the property that fails.

- A fill whose window holds a commit installs old data, and every later read returns it until the next write
  (`CacheRuns.OvertakenFillGoesStale`; exactly when: `CacheRuns.StaleExactlyIf`).
- After a sync the two nodes can decide a name differently, because a rule the secondary held keeps its place
  (`SyncTheorems.PrecedenceCanDiffer`). They agree on every name exactly if, at each enabled rule's own target and its
  normal form, the first covering rule among the keys the secondary held, in its order, and then the others, in the
  primary's, has the primary's action (`SyncOrder.SyncedNodesAgreeIff`). They give every reply alike exactly if rules and
  lists block those names and the listed domains alike and the static answers are equal
  (`SyncedAnswers.SyncedNodesAnswerAlikeIff`). Both are read off the tables before the sync.
- A rule for "..com" is stored as ".com.", which covers only names with an empty label, and a sync writes "com." for
  it (`SyncFixpoints.DoubleDotRuleWidens`). The sync compares static records by name, NUL and type joined in one text,
  so a record type that holds a NUL can hide a stale record (`SyncTheorems.NulTypesCollide`). The policy carries over
  exactly if every target and every static name is a fixed point of `NormalizeName` and no stale record has the joined
  text of one of the primary's (`SyncFixpoints.PolicyCarriesOverIff`).
- For the same reason an earlier sync can leave a record that a later one does not clear
  (`SyncTheorems.EarlierSyncRemains`): exactly if it touched one that the later one's texts hide
  (`SyncTheorems.LastSyncWinsIff`).
- A push whose reply is lost reports a failure although the secondary has made the import (`Nodes.LostReply`;
  `Nodes.PushHASync` says exactly when one is made and when success is reported, `SyncTheorems.SyncChangesNothingIff`
  exactly when it changes a row). Repeating it changes nothing (`Nodes.RetryChangesNothing`).
- `SeedDefaults` drops no cache (`Stores.SeedTooLate`). The caches stay true exactly if each loaded one is of a table
  that already holds the defaults or that no statement reached (`Stores.Store.SeedDefaults`).
- Two changes of the join-request list can overlap, and one then turns an accepted request back to pending
  (`Pairing.LateJoinRevertsAcceptance`). It stays accepted exactly if every write had read it as accepted or marks it
  (`Pairing.StaysAcceptedIff` for a step, `Pairing.AcceptedThroughoutIff` for a run).
- A failed query of that list reads as an empty one, and the next join request is written as the only one
  (`Pairing.FailedReadLosesRequests`); of two overlapping join requests the one written first is lost
  (`Pairing.OverlappingJoinIsLost`). A request stays listed exactly if every write had read it or adds it
  (`Pairing.StaysListedIff` for a step, `Pairing.ListedThroughoutIff` for a run).
- An accept that fails after its settings were committed leaves them naming the node, with the request still pending
  (`Pairing.Primary.HaJoinAccept` says exactly when).
- A list line such as "|| ^" ends the parse in a panic (`BlocklistParser.BlankAnchorPanics`; exactly which do:
  `BlocklistParser.PanicsIff`).
- A refresh that a sync overtakes writes entries for a deleted source, which the next source added inherits
  (`SourceLifecycle.OvertakenRefreshIsInherited`; exactly when a write leaves such entries:
  `SourceLifecycle.ReplaceOrphansIff`).
- Within one second the order of the stored time texts can be the reverse of time (`Timestamps.FractionOrder`).
- Two failed heartbeats in a row can make a healthy pair look stale (`HAWorker.TwoFailuresCanGoStale`), three always do
  (`HAWorker.ThreeFailuresAreStale`); between two successes exactly a gap over 181 s does (`HAWorker.StaleBetweenIff`).
- An identity update without a confidence can replace what "unifi" told (`HostIdentity.UnattributedUpdateOverwrites`;
  what any history leaves: `HostIdentity.HistoryIsAFold`); no caller sends one (`HostIdentity.UpdatesAreAttributed`).

docs/architecture.md:185-193 lists another order of precedence than internal/dnsserver/server.go:145-195 has; the model
follows the code.

## Model

| member | source | states |
|---|---|---|
| Names.NormalizeName | internal/store/store.go:2826-2836 | every result is lower case and empty or dot-terminated, whatever the input |
| Names.NormalizeDropsCase | internal/store/store.go:2826-2836 | texts that differ in the case of letters alone have one normal form |
| Names.NormalizeIs | internal/store/store.go:2826-2836 | what every name with a printable part becomes: blanks around it and one dot before it go, letters become lower case, and it keeps the dot behind it or gets one |
| Names.NormalizeIsEmpty | internal/store/store.go:2826-2836 | exactly the blank texts and those that trim to one dot have the empty normal form |
| Names.CanonicalShape | internal/store/store.go:2826-2836 | the fixed points are exactly the empty name and the lower-case, dot-terminated names that start with neither dot nor blank |
| Names.NormalizeTwice | internal/store/store.go:2826-2836 | normalising again changes a result if and only if the trimmed input starts with a dot that a dot or a blank follows |
| Names.NormalizeIsNotIdempotent | internal/store/store.go:2826-2836 | on every name with two leading dots the second application drops the second dot |
| Names.SuffixIsBelow | internal/store/store.go:756 | the rule's suffix test, position by position: a dot, and then the target to the end |
| Names.ParentIsSuffix | internal/store/store.go:815-822 | the parent of a dot-terminated name is what follows its first dot |
| Names.ParentCovers | internal/store/store.go:763-775 | one step up loses exactly the name itself from the domains that cover it |
| Names.WalkVisitsCoverers | internal/store/store.go:763-775 | the walk visits exactly the non-empty domains that cover the name, by the relation rules use, in strictly decreasing length |
| Names.CoverersAreNested | internal/store/store.go:756 | of two domains that cover one name the shorter covers the longer |
| Tables.UpsertData | internal/store/store.go:637-640 | a conflicting insert changes the columns of its own key and nothing else |
| Tables.UpsertAllData | internal/store/store.go:1799-1837 | after a run of upserts the last one of a key holds, and other keys keep what they held |
| Tables.ReplaceImage | internal/store/store.go:1791-1899 | upserts followed by the delete of unnamed rows leave what the changes ask for, whatever the table held |
| Tables.ReplaceTwice | internal/store/store.go:1791-1899 | a second replacement by the same changes is the identity, row for row |
| Tables.ReplaceByNewKeys | internal/store/store.go:1831-1833 | replacing by keys the table never held leaves exactly the changes as rows, in their order |
| Tables.ReplaceOrder | internal/store/store.go:1791-1899 | replacing leaves the held keys that were asked for in the table's order, then the new ones in the order in which they are first asked for |
| Policy.ViewDecidesByIdOrder | internal/store/store.go:662-663 | reading enabled rules first decides every name as id order does |
| Policy.RulesAreListedInOrder | internal/store/store.go:662-663 | the listing of the rules is the table's rows, each once, the enabled before the disabled and either in id order |
| Policy.WinnerHasLeastId | internal/store/store.go:742-761 | the rule found is the live covering rule with the least id, and none is found exactly when none applies |
| Policy.WalkFindsLongestCover | internal/store/store.go:763-775 | the walk finds a match exactly if a listed domain covers the name, and then the longest such domain |
| Policy.StaticsAreListedInOrder | internal/store/store.go:603 | the listing of the static records is the table's rows, each once, in strictly rising order of name and type |
| Stores.Store.Rules | internal/store/store.go:654-684 | returns what the query would return now, from the cache or by filling it; loaded after it exactly if it did not fail; every cache true |
| Stores.Store.StaticRecords | internal/store/store.go:595-626 | the same for the static records, listed by name and type |
| Stores.Store.BlocklistEntries | internal/store/store.go:777-806 | the same for the map of blocklist entries, built by its loop |
| Stores.Store.MatchRule | internal/store/store.go:742-761 | the loop returns the first applying rule of the present table, or the query's error |
| Stores.Store.Scan | internal/store/store.go:749-760 | the loop over any list finds its first enabled, unexpired, covering rule |
| Stores.Store.MatchBlocklist | internal/store/store.go:763-775 | returns the longest listed ancestor in the present table |
| Stores.Store.Walk | internal/store/store.go:769-773 | the ancestor loop terminates with the longest listed ancestor |
| Stores.Store.AddRule | internal/store/store.go:686-710 | the table and the reply, row or refusal, of a store without caches; caches stay true |
| Stores.Store.SetRuleEnabled | internal/store/store.go:717-733 | the same; an unknown id changes nothing, and a final read that fails is reported after the change |
| Stores.Store.RecordRuleHit | internal/store/store.go:1158-1166 | one more hit on that row and no other change; caches stay true |
| Stores.Store.UpsertStaticRecord | internal/store/store.go:628-645 | the table and the reply of a store without caches; caches stay true |
| Stores.Store.SeedDefaults | internal/store/store.go:578-593 | after a success or any failing statement, every cache is true if and only if each loaded one is of a table not reached or one that already held the defaults |
| Stores.SeedTooLate | internal/store/store.go:578-593 | on every file without a default, seeding after a read leaves that read's cache stale |
| Calls.SeedingKeepsFlags | internal/store/store.go:824-846 | seeding switches no preset on or off and adds new ones switched off |
| Stores.Open | cmd/tmdns/main.go:27-37 | opening and seeding before anything is read leaves every cache true, or no store when a statement fails |
| Stores.Store.ReplaceBlocklistEntries | internal/store/store.go:1070-1095 | exactly the source's old entries go and the given domains come, or nothing changes; caches stay true |
| Stores.Store.RefreshBlocklistSource | internal/store/store.go:1027-1068 | one source's entries are replaced or kept as its fetch says, its status is recorded either way and returned with the number of domains stored; caches stay true |
| Stores.Store.RefreshBlocklists | internal/store/store.go:977-1025 | the presets and sources enabled at the listing are refreshed one after the other, with one result each; caches stay true |
| Stores.Store.AddBlocklistSource | internal/store/store.go:908-940 | the row is added or updated and enabled and returned, or the refusal the arguments deserve |
| Stores.Store.SetBlocklistSourceEnabled | internal/store/store.go:942-957 | the flag changes and no entry does; an unknown id changes nothing; a final read that fails is reported after the change |
| Stores.Store.ExportHASyncPayload | internal/store/store.go:1760-1789 | the payload lists the present tables, static records by name and type and rules in reading order, from caches or queries |
| Stores.Store.ApplyHASyncPayload | internal/store/store.go:1791-1899 | the whole import or, after any refusal or failure, no change; every cache dropped |
| Stores.Run | internal/store/store.go:628-813 | over any sequence of calls each reply is what the database held at that call: a store without caches could not be told apart |
| CallEffects.AddRuleIs | internal/store/store.go:686-710 | the row that is written, column by column, or the refusal in the order of the checks; a held rule keeps its note when none is given, and its hits; what is answered with and without a read that works |
| CallEffects.SetRuleEnabledIs | internal/store/store.go:717-733 | the given flag is written to the rule with that id and to no other; an unknown id and a failed write change nothing |
| CallEffects.RecordRuleHitIs | internal/store/store.go:1158-1166 | one more hit and this time on the rule with that id, and no other change |
| CallEffects.UpsertStaticRecordIs | internal/store/store.go:628-645 | the row that is written, column by column, with a TTL of 60 for one below 1, or the refusal of a blank column |
| CallEffects.AddSourceIs | internal/store/store.go:908-940 | the checks in their order; the row that is written, enabled, under its URL as name when none is given and with "domains" as format |
| CallEffects.SetSourceEnabledIs | internal/store/store.go:942-957 | the given flag is written to the source with that id and to no other |
| CallEffects.RefreshedEntriesIff | internal/store/store.go:977-1095 | an entry is there after a refresh if and only if its source was enabled and its fetch stored and brought the domain, or it was there before and its source was not refreshed |
| CallEffects.ReplacedRows | internal/store/store.go:1070-1095 | the rows of the source are new ones under its name and this time; every other row stays as it is |
| CallEffects.ReportGrows | internal/store/store.go:977-1068 | one line of the report for each enabled source, in order: its name, its URL, the status, and the number of different domains stored |
| CallEffects.ImportedRuleIs | internal/store/store.go:1819-1837 | the import writes exactly the rules AddRule would take, under the same key, with the flag and note they come with, and passes over the others |
| CallEffects.SeededStaticsAre | internal/store/store.go:578-586 | the two default records come where their keys are new, and no record changes |
| CallEffects.SeededRuleIs | internal/store/store.go:587-592 | the default rule comes exactly if no rule has its target and action, and no rule changes |
| CallEffects.SeededPresetsAre | internal/store/store.go:824-846 | a built-in preset ends with its own texts and the flag it had, off when it is new; other presets stay as they are |
| Spellings.SpellingsMatchAlike | internal/store/store.go:742-775 | names that differ in the case of letters alone match the same rule and the same blocklist entry |
| Spellings.RuleMeetsEverySpelling | internal/store/store.go:686-761 | a live rule added under any spelling of a host applies to every spelling of it |
| Spellings.RuleMeetsNamesBelow | internal/store/store.go:686-761 | and to every spelling of every name below the host |
| Spellings.SpellingsStoreAlike | internal/store/store.go:686-699 | targets and actions in another case are stored under the same key, or refused alike |
| Spellings.RecordSpellings | internal/store/store.go:628-645 | names and record types in another case ask for the same static record |
| Spellings.RecordIs | internal/store/store.go:628-645 | the static record that a spelling of a host, a type in any case and a value are stored as |
| CacheRuns.ReadsReturnCommittedValues | internal/store/store.go:654-684 | in every interleaving a read returns the table's value at some commit |
| CacheRuns.WriteAlone | internal/store/store.go:735-740 | a write that nothing overlaps commits its value and empties the cache |
| CacheRuns.ReadAlone | internal/store/store.go:654-684 | a read that nothing overlaps returns what is cached, or else the present value and caches it |
| CacheRuns.FailedReadsLeaveNoTrace | internal/store/store.go:661-679 | a reader whose query fails, before or after it saw rows, leaves the cache as it was |
| CacheRuns.StaleExactlyIf | internal/store/store.go:654-684 | in every interleaving a stale cache holds a fill with a commit between its query and its install; if no two commits write the same value, a loaded cache with no writer pending is stale exactly then |
| CacheRuns.StaleOnlyAfterOvertakenInstall | internal/store/store.go:661-682 | in every interleaving a stale cache was put there by a fill with an invalidation between its query and its install |
| CacheRuns.UndisturbedReadsAreFresh | internal/store/store.go:595-684 | in runs without such a fill every read returns the present value unless some write call has not finished |
| CacheRuns.InvalidationHeals | internal/store/store.go:735-740 | an invalidation that no fill straddles makes any cache fresh until the next one |
| CacheRuns.OvertakenFillGoesStale | internal/store/store.go:661-682 | for any two values a run after which every further read returns the old one |
| Resolver.DecisionIsThePolicy | internal/dnsserver/server.go:145-195 | blocked exactly if the least-id applying rule does not allow it or, without one, an entry covers it; then a usable static record; then upstream; the reply of each: a blocked A or AAAA query gets the IPv4 or IPv6 sinkhole under the asked name for 30 s, another blocked type NXDOMAIN, a failed upstream SERVFAIL |
| Resolver.SinkholeReplies | internal/dnsserver/server.go:300-315 | those replies whichever of the reads worked |
| Resolver.RuleIsNamed | internal/dnsserver/server.go:145-161 | the rule named with a decision, and counted, is the applying one with the least id |
| Resolver.EntryIsNamed | internal/dnsserver/server.go:162-172 | without a rule a blocked name is put down to an entry of the longest listed domain that covers it, and an unblocked one to none |
| Resolver.StaticReplyIs | internal/dnsserver/server.go:266-298 | the answer of a name with one usable record, by type: the parsed address, the normalised alias or the text, under the normalised name with the TTL cut to 32 bits |
| Spellings.SpellingsDecideAlike | internal/dnsserver/server.go:145-195 | queries for names that differ in case alone get the same decision, rule, source and code, and the same message unless it is a sinkhole's |
| Resolver.EntriesNeverOverrideRules | internal/dnsserver/server.go:162-172 | no change of the blocklist entries changes the answer to a name a rule applies to |
| Resolver.StaticsNeverUnblock | internal/dnsserver/server.go:174-180 | no change of the static records changes whether a name is blocked, nor the answer to a blocked one |
| Resolver.AddRuleChangesOnlyItsNames | internal/store/store.go:686-710 | a new or re-enabled rule moves a decision only to itself, only for names it covers and past greater ids; a new key moves none that a rule decided |
| Resolver.HitsNeverChangeDecisions | internal/store/store.go:1158-1166 | tables that differ in hit columns alone decide every query alike |
| Resolver.StaticAnswerByKey | internal/dnsserver/server.go:266-298 | the loop over the whole listing answers with the one record of that name and type |
| Resolver.EqualPoliciesAnswerAlike | internal/dnsserver/server.go:145-195 | nodes with equal static records and listed domains answer a query alike if their rules decide its name alike |
| SyncedAnswers.SyncedEntriesIff | internal/store/store.go:1964-1996 | an entry row is in the synced table, unchanged, if and only if it was there and is of a preset or of no source row whose URL the payload leaves out |
| SyncedAnswers.SyncedNodesAnswerAlikeIff | internal/store/store.go:1791-1899 | for any two nodes: a secondary that applied the export answers every query as the primary does if and only if, on the tables before the sync, rules and lists block every stored name among the enabled targets, their normal forms and the listed domains alike, and the static answers are equal |
| Servers.Server.BuildAnswers | internal/dnsserver/server.go:274-297 | the switch over each matching record builds the specified answers, TTL cut to 32 bits |
| Servers.Server.Resolve | internal/dnsserver/server.go:145-195 | the stepwise decision equals the declarative one; one hit recorded on a match, one blocked count on a block |
| Servers.Server.HandleDNS | internal/dnsserver/server.go:108-231 | reply, tables, counters and the queued event after one query, as steps of the event queue's model; a message without a question gets FORMERR and changes nothing |
| Servers.Server.Enqueue | internal/dnsserver/server.go:225-230 | queued plus dropped grows by one, the queue by nothing but the event and never over its capacity; an event is dropped exactly if the queue is full |
| Servers.Server.WriteEvent | internal/dnsserver/server.go:331-345 | the oldest event leaves the queue, as a take and an insert of the event queue's model |
| Servers.EventsAreAccountedFor | internal/dnsserver/server.go:204-230 | on every server reached by these steps each counted query was written, failed to be written, waits or was dropped |
| Servers.Serve | internal/dnsserver/server.go:145-171 | over any queries every reply is the first database's; each hit count grows by the queries the rule won, the blocked counter by the blocked ones; nothing else of the database changes |
| SyncTransactions.ApplyChanges | internal/store/store.go:1799-1880 | the loop applies every row's upsert and collects its key, or stops at the first refused row |
| SyncTransactions.DeleteMissing | internal/store/store.go:1901-1962 | collecting and then deleting one by one removes exactly the rows whose text is not kept |
| SyncTransactions.SyncTransaction | internal/store/store.go:1791-1891 | the statements in order leave the specified tables, or refuse exactly if some source is refused |
| HASync.SourceRefusedIff | internal/store/store.go:1998-2015 | an imported source with a URL is refused if and only if that is not http or https with a host, or its format is none of the three |
| SyncTheorems.StaticSyncIsExact | internal/store/store.go:1805-1818 | the static table ends with exactly the imported keys if and only if no stale row shares a joined text |
| SyncTheorems.NulTypesCollide | internal/store/store.go:1917 | for every name and type there are records that do share one |
| SyncTheorems.NulFreeTypesDoNotCollide | internal/store/store.go:1917 | record types without a NUL never share one |
| SyncTheorems.RuleSyncIsExact | internal/store/store.go:1826-1840 | rule keys cannot share one: the rule table is always replaced exactly |
| SyncTheorems.RetentionDays | internal/store/store.go:1736-1747 | the stored number between 1 and 3650, 3650 for a greater one, 30 for none or a lower one |
| SyncTheorems.SyncIsAuthoritative | internal/store/store.go:1791-1899 | if no stale record collides, a sync from a primary whose names are fixed points leaves its rules, static records and custom sources, key by key, no more and no less |
| SyncFixpoints.PolicyCarriesOverIff | internal/store/store.go:1791-1899 | for every policy in the shape the calls store, the secondary ends with the primary's rules, static records and sources if and only if every target and static name is a fixed point of NormalizeName and no stale static record collides |
| SyncFixpoints.DoubleDotRuleWidens | internal/store/store.go:686-697 | for every name with two leading dots: the rule AddRule stores covers less than the one a sync makes of it |
| SyncFixpoints.ArgumentsAreStored | internal/store/store.go:628-699 | what AddRule and UpsertStaticRecord store is non-empty, lower case and dot-terminated, with a trimmed upper-case type, a value and a positive TTL |
| StoredRuns.EveryNodeIsShaped | internal/store/store.go:578-957 | every node, from a new file through any calls, has unique keys, own scopes and actions, rules that never expire and names in the stored shape |
| StoredRuns.NodesCarryOverIff | internal/store/store.go:1791-1899 | so between any two nodes, whatever was called on them, a sync that is not refused carries the policy over exactly if the primary's names are fixed points and no stale static record of the secondary collides |
| SyncTheorems.ReExportCarriesThePolicy | internal/store/store.go:1760-1789 | where no stale record collides, what the secondary would export brings a third node to the policy of a primary whose names are fixed points |
| SyncTheorems.LastSyncWinsIff | internal/store/store.go:1791-1899 | applying two payloads leaves the policy that the second alone leaves if and only if the first touches no static record hidden by the joined texts of the second |
| SyncTheorems.EarlierSyncRemains | internal/store/store.go:1917 | for every name and type there are two payloads of which the first leaves on a new node a record that the second does not clear |
| SyncTheorems.PresetSync | internal/store/store.go:1841-1855 | presets are added or their flag set, never otherwise changed or deleted |
| SyncTheorems.NewPresetSync | internal/store/store.go:1841-1855 | a preset the secondary lacks comes with the texts it is first listed with and the flag it is last listed with |
| SyncTheorems.SyncTwiceIsOnce | internal/store/store.go:1791-1899 | applying a payload again, at any time, changes no row |
| SyncTheorems.SyncChangesNothingIff | internal/store/store.go:1791-1899 | an import changes no row if and only if the tables already hold what it asks for |
| SyncTheorems.SameNamesMatched | internal/store/store.go:742-761 | with equal images a name matches an enabled rule on one node exactly if it does on the other |
| SyncTheorems.SyncPreservesDecisions | internal/store/store.go:1819-1840 | after a sync from such a primary the same names match; the action is the primary's when its matching rules agree, or when conflicting rules stand in its order |
| SyncTheorems.FreshKeysKeepPrecedence | internal/store/store.go:1831-1833 | if the secondary held none of such a primary's keys, every name is decided by the same target and action |
| SyncTheorems.PrecedenceCanDiffer | internal/store/store.go:1831-1833 | for every pair of nested names, tables on which a sync leaves one name blocked here and allowed there |
| SyncOrder.SyncArranges | internal/store/store.go:1819-1840 | after a sync the rules stand in this order: the keys the secondary held, in its order, then the others as the primary first asks for them |
| SyncOrder.FixpointsAreArranged | internal/store/store.go:1819-1840 | for a primary whose targets are fixed points the others are its own keys in its reading order |
| SyncOrder.SyncedNodesAgreeIff | internal/store/store.go:1819-1840 | for any rules, the nodes then decide every name alike if and only if, at each enabled rule's own target and its normal form, the first covering rule in that order has the action of the primary's first |
| SyncTheorems.NodesAgreeIffOnTargets | internal/store/store.go:742-761 | any two nodes with equal images decide every name alike if and only if they decide the enabled rules' targets alike |
| Nodes.HaImport | internal/htt_server/server.go:1171-1191 | only an enabled secondary takes a policy; every refusal leaves the tables as they were |
| Nodes.PushHASync | internal/store/store.go:2017-2071 | a push reports success exactly if the import is made and its reply arrives; the import is made exactly if the peer is enabled and configured, the export works, the request arrives, and the secondary allows, accepts and commits it; otherwise no table changes |
| Nodes.LostReply | internal/store/store.go:2046-2066 | for every primary with a rule the secondary lacks, a push whose reply is lost reports a failure and has changed the secondary |
| Nodes.ImportCarriesThePolicy | internal/store/store.go:2046-2066 | where no stale record collides, such an import leaves the policy of a primary whose names are fixed points, key by key |
| Nodes.RetryChangesNothing | internal/store/store.go:2046-2066 | a push repeated after a lost reply, by a fresh export of the same tables, changes no row, whatever both nodes hold |
| SourceLifecycle.EveryEntryHasItsSource | internal/store/store.go:1964-1996 | in every run of calls, refreshes of whatever is enabled among them, each custom entry names a live source row, so a reused row id starts without entries |
| SourceLifecycle.ReplaceOrphansIff | internal/store/store.go:1070-1095 | one write of a source's entries leaves none without its source exactly if it is rolled back, writes nothing, or is for a preset or a row still there |
| SourceLifecycle.SyncKeepsOwners | internal/store/store.go:1987-1994 | the import deletes the entries of every source it deletes |
| SourceLifecycle.RefreshNeverUnblocks | internal/store/store.go:1070-1095 | refreshing a source never unblocks a name that an entry of another source covers |
| SourceLifecycle.RefreshIsPerSource | internal/store/store.go:977-1068 | each enabled source ends with exactly the domains its fetch brought, if they were stored, and every other source with exactly what it had |
| SourceLifecycle.OvertakenRefreshIsInherited | internal/store/store.go:1058-1095 | a sync between a refresh's read and its write leaves entries that the next source inherits with the row id |
| BlocklistParser.RegexIsOneSplit | internal/store/store.go:1103 | the expression with its repeated group matches exactly the lines that split once, at the last inner dot |
| BlocklistParser.TopDecides | internal/store/store.go:1103 | behind a name and a dot the expression asks for two letters or more, and perhaps a dot |
| BlocklistParser.TokensAreTaken | internal/store/store.go:1135-1143 | a token adds its normal form if and only if the expression matches it and that form is not empty: the tests before the expression refuse nothing more |
| BlocklistParser.LineLimit | internal/store/store.go:1107-1108 | a line of 1 MiB or more ends the parse with the scanner's error, and no shorter one does |
| BlocklistParser.ParseBlocklistDomains | internal/store/store.go:1105-1146 | the loop over the text read collects exactly the domains of its lines, unless a line panics or is longer than the scanner's megabyte before that, or the reading ended in an error |
| BlocklistParser.PanicsIff | internal/store/store.go:1114-1127 | a line panics if and only if it is "||" and then only blanks, at least one a space or tab, before the first separator |
| BlocklistParser.BlankAnchorPanics | internal/store/store.go:1114-1127 | every "||", blanks and separator panics, whatever follows |
| BlocklistParser.AnchorAloneIsSkipped | internal/store/store.go:1109-1133 | "||" with nothing but blanks adds nothing |
| BlocklistParser.ShapeParses | internal/store/store.go:1109-1143 | a listable domain written in any of seven shapes, an address and any run of blanks before it among them, with anything that a blank sets off behind it, parses to its normalised name |
| BlocklistParser.EntryParses | internal/store/store.go:1109-1143 | so does such a line between blanks, whatever follows the blank behind the domain |
| BlocklistParser.PathWithoutDotAddsNothing | internal/store/store.go:1128-1137 | a domain with a path behind it that holds no dot adds nothing |
| BlocklistParser.ParsingUndoesRendering | internal/store/store.go:1105-1146 | the text of such lines, comments and blank lines, indented and with text behind them, each shorter than the limit, parses to exactly the domains it was written from |
| BlocklistParser.ExceptionsAddNothing | internal/store/store.go:1135 | a line that starts with "@@" adds nothing |
| HAWorker.Work | internal/store/store.go:2102-2167 | the loop's heartbeats are those of the turn-by-turn specification |
| HAWorker.EveryTickIsAnswered | internal/store/store.go:2104-2165 | whatever the order and length of the runs, the k-th heartbeat starts within 30 s of the k-th minute and no tick is dropped |
| HAWorker.HeartbeatAge | internal/store/store.go:1655-1717 | with at most f failures in a row the stored heartbeat is at most 100 + 60 f seconds old |
| HAWorker.HealthyPeersAreNeverStale | internal/store/store.go:2091-2098 | heartbeats that never fail twice in a row keep the node from ever being stale |
| HAWorker.TwoFailuresCanGoStale | internal/store/store.go:2091-2098 | a run with two failures in a row after which it is stale |
| HAWorker.ThreeFailuresAreStale | internal/store/store.go:2091-2098 | after three failures in a row it is stale when the next beat is due, however the runs went |
| HAWorker.StaleBetweenIff | internal/store/store.go:2091-2098 | between two successes it is stale at some time if and only if the second was stored over 181 s after the first was checked |
| Pairing.CleanURLIs | internal/store/store.go:1416 | what every URL is cleaned to: blanks around it and the slashes behind it go |
| Pairing.CleanURLTwice | internal/store/store.go:1416 | cleaning a URL again changes it exactly if the first cleaning uncovered a blank |
| Pairing.Primary.SaveHAJoinRequest | internal/store/store.go:1477-1548 | what is saved, field by field; the first pending request of that node is replaced under its id, else the new one appended; a list whose query failed counts as empty; any refusal or failure changes nothing |
| Pairing.JoinRefusals | internal/store/store.go:1477-1504 | which refusal, in the order of the checks: another role than "secondary" in any case, no URL, one that does not parse, no token |
| Pairing.Primary.HAJoinRequestForAccept | internal/store/store.go:1567-1590 | the first request with the id, pending and with a readable token, or which of three reasons there is none, or the error of the list |
| Pairing.Primary.MarkHAJoinRequestAccepted | internal/store/store.go:1592-1616 | exactly that request's status changes, if it was pending and the list could be read and written |
| Pairing.Primary.ConfigureAcceptedSecondary | internal/htt_server/server.go:933-964 | a success with a token means that the node was configured; a failure that it refused or its reply was lost; no other node is |
| Pairing.Primary.SavePeer | internal/store/store.go:1413-1463 | the settings become enabled, role, cleaned URL, trimmed name and the token, or the old one when it is blank, exactly if their transaction committed, also when the read after it fails |
| Pairing.Primary.AcceptHAJoinRequest | internal/store/store.go:1550-1565 | succeeds exactly if lookup, commit, re-read and mark do; committed settings have role "primary" and the cleaned URL, trimmed name and decrypted token of the request that was found |
| Pairing.Primary.HaJoinAccept | internal/htt_server/server.go:888-918 | succeeds exactly if every step does; the settings are changed exactly if they were committed, then to role "primary" and the found request's URL, name and token; the node is configured exactly if it applied the call; and it is a run of the interleaved model whose peers grow exactly by such a commit |
| Pairing.EveryRunIsGood | internal/store/store.go:1477-1616 | over every interleaving with crashes: distinct ids, one pending request a node, and accepted only after both nodes' settings |
| Pairing.StatusOnlyMovesForward | internal/store/store.go:1505-1541 | a change that overlaps no other lists exactly what was listed or it adds, and accepts exactly what was accepted or it marks |
| Pairing.AcceptedStaysAccepted | internal/store/store.go:1592-1616 | so after every run of such changes a request is accepted exactly if it was at the start or some step marks it |
| Pairing.StaysAcceptedIff | internal/store/store.go:1505-1616 | an accepted request is accepted after a step if and only if no write had read it otherwise, or the write marks it |
| Pairing.AcceptedThroughoutIff | internal/store/store.go:1505-1616 | over a whole run it stays accepted if and only if that holds of every write |
| Pairing.StaysListedIff | internal/store/store.go:1477-1616 | a request is listed after a step if and only if no write had failed to read it, or the write adds it |
| Pairing.ListedThroughoutIff | internal/store/store.go:1477-1616 | over a whole run it is never lost if and only if that holds of every write |
| Pairing.OverlappingJoinIsLost | internal/store/store.go:1505-1541 | in every state, of two join requests that read the list before either writes it, the one written first is lost |
| Pairing.FailedReadLosesRequests | internal/store/store.go:1618-1627 | in every state a join request whose query of the list fails takes all other requests with it |
| Pairing.LateJoinRevertsAcceptance | internal/store/store.go:1505-1541 | from every state where an accept is about to finish, a join request that reads before and writes after it undoes it |
| Pairing.RetryFinishes | internal/htt_server/server.go:888-918 | from every state a pending request with a readable token can be brought to accepted |
| EventQueue.EveryEventIsAccountedFor | internal/dnsserver/server.go:208-230 | at every moment of every interleaving queries = inserted + failed + held + queued + dropped + unsent; the queue fits; the writer keeps the queue's order |
| EventQueue.DropsNeedAFullQueue | internal/dnsserver/server.go:225-230 | an event is dropped only while as many accepted ones wait as the queue holds |
| EventQueue.CountAndSend | internal/dnsserver/server.go:204-230 | a handler that nothing interrupts adds one query, and its event to the queue if there is room, else to the dropped ones |
| EventQueue.StoppedWritesNoMore | internal/dnsserver/server.go:331-345 | in every interleaving, what waits when the writer stops and what is queued after that is never written |
| EventQueue.EventWriter | internal/dnsserver/server.go:331-345 | the loop handles queued events oldest first and leaves the rest |
| EventLog.Log.InsertQueryEvent | internal/store/store.go:1306-1334 | all of row, counters and, for a blocked event, the block event with its columns, or nothing; index and counters stay true |
| EventLog.Log.EnsureHost | internal/store/store.go:1168-1195 | the id of the trimmed address, or of "unknown" when it is none: a known one keeps its id, a new one gets the next id and counters at zero; 0 exactly if a statement fails; index and counters stay true |
| EventLog.Log.PurgeOldEvents | internal/store/store.go:2169-2196 | exactly the rows with smaller time texts go from both tables; index and counters stay true |
| EventLog.InsertKeepsIndex | internal/store/store.go:1325-1332 | inserting keeps the block events equal, column by column and in order, to the blocked query events |
| EventLog.PurgeKeepsIndex | internal/store/store.go:2177-2183 | so does the purge, with the same block events left whether or not the cascade is enforced |
| EventLog.PurgeKeepsCounts | internal/store/store.go:2177-2183 | host counters stay the number of inserts ever and bound the rows retained |
| EventLog.PurgeKeepsBySecond | internal/store/store.go:2171-2181 | every event of an earlier second than the cutoff goes, none of a later one, and which ones go within that second |
| EventLog.Run | internal/store/store.go:1168-2196 | after any hosts, inserts and purges from an empty log: the query events are the inserted ones no later purge took, the block events index the blocked ones, and each host's counters are its inserts ever |
| Timestamps.EarlierSecondIsLess | internal/store/store.go:1317 | an earlier whole second gives a smaller text |
| Timestamps.FractionOrder | internal/store/store.go:2171-2181 | within a second the texts follow time exactly if the earlier fraction is no prefix of the later |
| Timestamps.StampOrder | internal/store/store.go:2171-2181 | exactly when one stored text is below another |
| Timestamps.StampIsInjective | internal/store/store.go:1317 | different times have different texts |
| Timestamps.StampIsRead | internal/store/store.go:1317 | the text read back: year, month, day, hour, minute and second at their places between "-", "T" and ":", then the fraction and "Z" |
| Timestamps.FractionIsRead | internal/store/store.go:1317 | the fraction read back: nothing on a whole second, else a point and up to nine digits that end in no zero |
| Timestamps.DaysAreEven | internal/store/store.go:2171 | the same time on the next day of the Gregorian calendar is 86,400 seconds later |
| HostIdentity.Hosts.UpdateHostIdentity | internal/store/store.go:1249-1304 | the row becomes the merge of itself and the cleaned update, with the time of the check and one observation for each field that has a value; an unknown host changes nothing |
| HostIdentity.HostnameIs | internal/store/store.go:2554-2561 | a host name in any case, between blanks and with or without a dot behind it, is kept in lower case without the dot |
| HostIdentity.MACIs | internal/store/store.go:2563-2582 | six parts of one or two characters in any case are kept in lower case, each padded to two, with colons between |
| HostIdentity.MACShape | internal/store/store.go:2563-2582 | nothing else is kept: what is has 17 characters and came in six such parts |
| HostIdentity.ObservedIff | internal/store/store.go:1288-1301 | one observation for each of the three values that is not blank, with host and time, and no other |
| HostIdentity.MergedIs | internal/store/store.go:1262-1287 | what an update makes of each field and of the confidence: a value told fills a blank and, from "unifi", replaces what is there; a confidence replaces "source_ip" and, if it is "unifi", any |
| HostIdentity.MergeStep | internal/store/store.go:1280-1287 | one merge is one step of the fold, except exactly for an update without confidence on a "unifi" value |
| HostIdentity.HistoryIsAFold | internal/store/store.go:1249-1288 | after any history a field is the last value told by "unifi", or without a confidence after "unifi", else the first value told |
| HostIdentity.IdentityIsAFold | internal/store/store.go:1249-1288 | after any attributed history a field is the last "unifi" value, else the first value told |
| HostIdentity.UnifiIsNeverLeft | internal/store/store.go:1284 | confidence "unifi" is reached exactly by a "unifi" update and never left |
| HostIdentity.EnrichedIs | internal/store/store.go:1212-1246 | the name of the first of reverse DNS, ARP and mDNS that found one, told under that lookup's name; the vendor only with a MAC |
| HostIdentity.UpdatesAreAttributed | internal/store/store.go:1217-1246 | every update the lookups or the import send names its source |
| Enrichment.Limiter.Enqueue | internal/dnsserver/server.go:233-250 | starts exactly if the host is known and a client's, no lookup of the address runs and its pause is over; then the next start is fifteen minutes off |
| Enrichment.LookupsAreLimited | internal/dnsserver/server.go:233-264 | in every interleaving one lookup an address, starts fifteen minutes apart by their stamps, and at most w / 15 min + 1 in a window of w |

## Left out

- Stores.Store.ExportHASyncPayload: takes the rows of the preset and source listings as given, in any order, because their sort keys leave ties open and do not affect an import.
- Stores.Store.RefreshBlocklists: takes the order of those listings as a parameter, and leaves out the error texts of its results.
- Stores.Store.BlocklistEntries: of two sources that list one domain the later row wins; the query has no ORDER BY, so SQLite may pick the other.
- Servers.Server.HandleDNS: the host lookup before it, log lines, latency, the answer summary, the "TYPE" label of a nameless query type and the error of writing the reply are left out; an event holds the fields the decision sets.
- Servers.Server.WriteEvent: is the writer's turn with no step of a handler between its two; `EventQueue` has every interleaving.
- EventLog.Log.EnsureHost: leaves out labels, host names, first_seen and last_seen.
- The cut of a download after 50 MiB, and what a panic in the parser does to the refresh around it.
- Pairing.Primary.HaJoinAccept: covers one primary; the secondary's own settings check is one of the three replies.
- EventQueue.EventWriter: is the loop between two arrivals; arrivals and the stop are steps of the interleaved model.
- SetBlocklistPresetEnabled and SetRetention are single statements on tables that no cache holds; only the import changes those tables here.
- Row ids and counters are unbounded integers, not 64-bit ones.
- Names and texts are ASCII: Unicode case folding, Unicode blanks and normalisation are not modelled; years have four digits.
- URL and IP parsing, encryption, random ids, clocks, HTTP and DNS messages are parameters or nondeterministic outcomes.
- Audit rows, dashboards, reports, the web interface, authentication, configuration, UniFi fetching and the lookups themselves.
