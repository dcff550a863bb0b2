# WoWS Discord Bot match reports, in Dafny

This project models the core of a Discord bot for World of Warships. When the game writes its
arena file at the start of a battle, the bot looks up every player of the match on the Wargaming
API. It fetches each player's PvP statistics on their ship and posts a report to a Discord
channel. The report has the friendly team first, then the enemy team, each sorted
case-insensitively. It is packed greedily into chat messages of at most 2000 characters.

The model covers four source files:

- `utils_stats.js`:
  - the Levenshtein distance, as an array-filling method proved equal to a recursive definition;
  - the case-insensitive comparator;
  - the text block written for one player.
- `wg_api.js`: the response handling of the lookups.
  - Each HTTP answer is an input value (`Response`): a transport error, an API error, or a decoded body.
  - Each promise's settlement is an `Outcome`.
  - The bulk player lookup sorts both lists in place and merges them.
  - The ship-name search scans for the closest name.
  - `stats`, `searchPlayerId` and `searchShipName` classify their answers.
- `match_monitor.js`: `processMatch`.
  - A `MatchSession` class holds the state that the promise callbacks share.
  - That state is the counter, the two team lists, the one-shot `error` flag and the channel (`sent`).
  - Each callback is a method, and the chains may settle in any order.
  - A settled chain pushes the block that `formatStats(player.name, shipName, stats)` builds, as match_monitor.js:113 has it. The corrected block is the one the replay monitor pushes (see "## Findings").
  - The completion block sorts, adds headers and packs.
  - The `COMPACT_MSG_FORMAT` prefix choice is a function.
- `replay_monitor.js`: the earlier `processMatch`.
  - One lookup chain runs per vehicle, and every failure is sent.
  - The team lists live at module level (`Monitor`) and each call empties them.
  - The counters belong to one call (`ReplayRun`).

Shared pieces:

- `JsText`: the JavaScript string `<`, `toLowerCase` and integer-to-text rendering.
- `Sorting`: `Array.prototype.sort` with a key comparator. It is specified by `StableSort`, the stable order that ECMAScript requires since its 2019 edition, and implemented as an in-place insertion sort on an array.
- `Packer`: the greedy packing loop, proved against a step function. With a block longer than the limit, the loop never ends; the model says what it has sent by then.
- `TeamReport`: what both monitors do with a settled chain and at completion. `Report` is the state the completion block leaves; `TeamBlocks` is the list a team collects from a sequence of settled chains.

Each monitor's run is also stated as a function of its settlement events. `SettledState` gives the lists and the channel after the events, and `SettledStalls` tells whether the completion block would loop forever. The lemmas `FullMatchReport`, `FullMatchSent`, `FullMatchTeam`, `FullRunReport`, `FullRunSent` and `FullRunTeam` then say what a complete run sends and what each team's list holds.

The replay monitor packs at 1998 characters, a literal at replay_monitor.js:110. The model derives it as 2000 minus the length of the `'.\n'` prefix (`PAYLOAD_LIMIT`); the source's comment at lines 106-107 gives the same reason.

## Model

| member | source | states |
|---|---|---|
| JsText.LessIrreflexive | wg_api.js:108-113 | no string is `<` itself, so equal names fall through to the match branch |
| JsText.LessAsymmetric | wg_api.js:108-113 | `a < b` excludes `b < a`, so the comparator's -1 and 1 are never both possible |
| JsText.LessTrichotomy | wg_api.js:133-147 | of two names one is smaller, or they are equal: the merge's three branches cover every case |
| JsText.LessTransitive | wg_api.js:107-124 | string `<` is transitive |
| JsText.LessOrEqualTransitive | wg_api.js:107-124 | "not greater" is transitive, which makes the comparators a consistent sort order |
| Sorting.SortByKey | wg_api.js:107-124 | the in-place sort leaves exactly `StableSort` of the old contents: ordered by the key, a permutation, with equal keys in their old order |
| Sorting.InsertAt | wg_api.js:107-124 | one insertion step turns the ordered prefix and the next element into `Insert` of that element into the prefix, and leaves the rest of the array alone |
| Sorting.SortedCons | wg_api.js:107-124 | a list with one element in front is ordered exactly when the rest is ordered and the front key is no greater than any key behind it |
| Sorting.Insert | wg_api.js:107-124 | inserting adds exactly the one element: the multiset grows by it |
| Sorting.StableSort | wg_api.js:107-124 | the sorted order is a permutation of the input |
| Sorting.InsertSorted | wg_api.js:107-124 | inserting into an ordered list keeps it ordered |
| Sorting.StableSortSorted | wg_api.js:107-124 | `StableSort` is ordered by the key |
| Sorting.InsertAtSplit | wg_api.js:107-124 | in an ordered list, the element goes behind every key no greater than its own and in front of every greater key, so equal keys keep their order |
| Sorting.StableSortStep | wg_api.js:107-124 | sorting one more element of the input inserts it into the sorted shorter prefix |
| UtilsStats.LevenshteinDistance | utils_stats.js:37-77 | returns the edit distance `Lev(actual, input)`; an empty `input` gives `actual.length`, an empty `actual` gives `input.length`, identical strings give 0 |
| UtilsStats.FillRow | utils_stats.js:64-73 | the inner loop fills row `actualIndex` with the distances of the prefixes, so every row up to it holds them, and leaves the first column as it was |
| UtilsStats.FillCell | utils_stats.js:65-71 | from the diagonal, left and upper cells holding the prefix distances, the cell gets the distance of its own prefixes and no other cell changes |
| UtilsStats.LevStep | utils_stats.js:65-71 | a cell is its diagonal neighbour when the characters match, else one plus the least of substitution, insertion and deletion |
| UtilsStats.LevIdentical | utils_stats.js:44-46 | identical strings are at distance 0 |
| UtilsStats.LevZeroIff | utils_stats.js:44-76 | the distance is 0 exactly when the strings are equal |
| UtilsStats.LevBounds | utils_stats.js:52-76 | the distance is at least the difference of the lengths and at most the longer length |
| UtilsStats.LevSymmetric | utils_stats.js:37-77 | swapping `input` and `actual` does not change the distance |
| UtilsStats.CaseInsensitiveCompare | utils_stats.js:80-91 | returns only -1, 0 or 1: 0 exactly when the lower-cased strings are equal, -1 exactly when the first is smaller, 1 exactly when it is greater |
| UtilsStats.CompareAntisymmetric | utils_stats.js:80-91 | `compare(a, b) == -compare(b, a)` |
| UtilsStats.CompareTransitive | utils_stats.js:80-91 | `compare(a, b) <= 0` and `compare(b, c) <= 0` give `compare(a, c) <= 0` |
| UtilsStats.SortedByLowerIsComparatorOrder | utils_stats.js:80-91 | a list ordered by lower-cased text is exactly a list ordered by the comparator |
| UtilsStats.FormatStats | utils_stats.js:12-32 | every block starts with the bold player and italic ship header; a string `stats` follows it verbatim; a record ends with `KD: inf` for a string kd and otherwise with the rendered ratio |
| WgApi.MergeByName | wg_api.js:126-155 | the two-index loop computes exactly the recursive merge `MergeSorted` of the two sorted arrays |
| WgApi.MergeAdvance | wg_api.js:133-154 | each turn of the loop (a smaller requested name, a smaller returned nickname, or equal names) keeps "merged so far followed by the merge of the rest is the whole merge" |
| WgApi.SearchMultiplePlayerIds | wg_api.js:61-165 | undefined or empty input rejects with the empty-names error; a failed response rejects with its reason and leaves the input alone; otherwise both lists are sorted in place as permutations and the outcome is their merge |
| WgApi.MergeCounts | wg_api.js:132-160 | matching plus missing never exceeds the two lengths together, and matching is no longer than either list |
| WgApi.MergeMatchingSound | wg_api.js:147-154 | every matching entry is a requested vehicle whose name equals a returned nickname, with that account's id attached |
| WgApi.MergeMatchingComplete | wg_api.js:132-155 | for sorted inputs, a requested vehicle whose name equals a returned nickname is matched, with an id attached |
| WgApi.SortedHead | wg_api.js:107-124 | the first element of a sorted list has the least key of all its elements, and the rest stays sorted |
| WgApi.MergeMissingSound | wg_api.js:133-146 | every missing entry is a requested name with its own relation, or a returned nickname with relation -1 |
| WgApi.MergeAllFound | wg_api.js:132-160 | when the answer lists exactly the requested names in the same order, nothing is missing and each vehicle gets the id beside it |
| WgApi.SortedUnique | wg_api.js:107-124 | two sorted lists of names with the same elements are identical |
| WgApi.AllRequestedFound | wg_api.js:107-160 | after the sorts, an answer with exactly the requested names leaves nothing missing and attaches an id to every vehicle |
| WgApi.MergeDropsLeftovers | wg_api.js:132-155 | for all inputs: a name beyond every returned nickname is in neither output, because the loop stops once the answer runs out: no matching vehicle has it and no not-found reason names it |
| WgApi.MergeDropsUnrequested | wg_api.js:132-155 | for all inputs: a returned nickname beyond every requested name is in neither output, because the loop stops once the requested names run out |
| WgApi.SearchPlayerId | wg_api.js:169-213 | an undefined name rejects; a failed response rejects with its reason; it resolves exactly when `meta.count > 0`, with `data[0].account_id`; otherwise it rejects with not-found for the name |
| WgApi.SearchShipId | wg_api.js:217-295 | undefined rejects; a failed response rejects; the first identical name resolves with its id and no message; otherwise an empty catalog rejects, else an entry of least distance resolves with the warning, the last one on ties |
| WgApi.ClosestStep | wg_api.js:264-272 | one turn of the scan keeps the remembered entry a last one of least distance among the entries scanned so far |
| WgApi.ScanCatalog | wg_api.js:247-291 | the scan resolves with the first identical name and no message; otherwise an empty catalog rejects with not-found, else the last entry of least distance resolves with the warning |
| WgApi.SearchShipName | wg_api.js:299-343 | an undefined id rejects first; a failed response rejects; it resolves exactly when the name is not null, with that name; a null name rejects with not-found for the id |
| WgApi.Stats | wg_api.js:347-426 | only an undefined player id is rejected on input, never an undefined ship id; a failed response rejects; otherwise it resolves, in priority order, hidden, then no data, then no PvP battles, then a record |
| WgApi.StatsKdGuard | wg_api.js:403-419 | a record has battles > 0; its kd is `'inf'` exactly when every battle was survived, and otherwise divides the frags by a non-zero death count |
| Packer.Pack | match_monitor.js:151-170 | the payloads are the greedy packing: they spell out the blocks in order, each is non-empty and within the limit, and no payload together with the next would have fitted; with non-empty blocks, every payload is a run of whole consecutive blocks and would exceed the limit with the first block of the next payload |
| Packer.GreedyConcat | replay_monitor.js:104-122 | the packing loses, duplicates and reorders nothing: the payloads concatenate to the blocks |
| Packer.GreedyBounded | replay_monitor.js:104-122 | every payload is non-empty and at most the limit |
| Packer.GreedyFirst | match_monitor.js:157-163 | a state holding a non-empty message sends a first payload at least that long |
| Packer.GreedyMaximal | match_monitor.js:151-170 | no payload plus the following payload fits the limit |
| Packer.EmitKeepsMaximal | match_monitor.js:160-163 | sending the message because the next block does not fit keeps the packing greedy |
| Packer.ConsKeepsMaximal | match_monitor.js:160-163 | putting a payload in front of a greedy list keeps it greedy when the two leading payloads do not fit together |
| Packer.OversizedIff | replay_monitor.js:110-115 | some block exceeds the limit exactly when not every block fits |
| Packer.FitsConcat | match_monitor.js:147 | two lists all fit exactly when each of them does, so the concatenated teams fit exactly when both teams do |
| Packer.Fitting | replay_monitor.js:105-116 | the blocks in front of the first oversized one all fit and are no more than the blocks |
| Packer.FittingShape | replay_monitor.js:105-116 | `Fitting` is a prefix of the blocks, the block after it exceeds the limit, and it is all of them exactly when every block fits |
| Packer.FittingSplit | replay_monitor.js:105-116 | when some block exceeds the limit, the blocks are the fitting prefix followed by a rest that starts with an oversized block |
| Packer.RunSplit | replay_monitor.js:105-116 | running a + b turns is running a turns and then b turns from where they left off |
| Packer.RunThrough | replay_monitor.js:105-116 | running as many turns as the fitting blocks need sends their greedy packing (the unsent message included) and leaves the rest of the list untouched |
| Packer.StepAppend | replay_monitor.js:110-115 | one turn looks only at the head of the list, so blocks behind it are carried along unchanged |
| Packer.NeverFinishes | replay_monitor.js:105 | with a block over the limit, no number of turns empties the list: the loop condition stays true |
| Packer.EmptyTurns | replay_monitor.js:110-115 | with an empty message facing an oversized block, every turn sends an empty payload and changes nothing else |
| Packer.EmitOversized | replay_monitor.js:112-114 | facing an oversized block, one turn sends the message held so far and empties it |
| Packer.DrainEmitStall | replay_monitor.js:105-116 | once the fitting blocks are consumed, one turn sends the unsent message and every later turn sends an empty payload |
| Packer.OversizedBlockStalls | replay_monitor.js:105-116 | when some block exceeds the limit, the loop first sends the greedy packing of the blocks in front of the first oversized one; after that, however many further turns it takes, it sends only empty payloads and that block stays at the head of the list |
| Packer.GreedyGroups | match_monitor.js:151-170 | the loop never splits a block: the groups flatten to the blocks, every group is non-empty, each payload is the concatenation of its group, and each payload but the last plus the next group's first block exceeds the limit |
| Packer.ConsWhole | replay_monitor.js:110-115 | sending the pending blocks because the next block does not fit puts one whole-block payload in front of a whole-block packing of the rest |
| TeamReport.SuccessBlock | replay_monitor.js:71-77 | a success block starts with the header of the player's name and ship name and ends with a newline |
| TeamReport.AsWrittenBlock | match_monitor.js:113 | `formatStats(player.name, shipName, stats)` gives the header of the ship name and the stats as text, followed by the player's name and a newline |
| TeamReport.PushedAppend | match_monitor.js:115-119 | a settled chain only appends to the list: at most its own block, onto the old list |
| TeamReport.TeamBlocksAppend | match_monitor.js:110-137 | one more settled chain adds its own contribution, and nothing else, behind the team's earlier blocks |
| TeamReport.TeamBlocksSound | match_monitor.js:110-137 | every block in a team's list comes from some settled chain that yields it for that team |
| TeamReport.TeamBlocksComplete | match_monitor.js:110-137 | every block a settled chain yields for a team is in that team's list |
| TeamReport.ReportAssembled | match_monitor.js:143-147 | the report holds each team behind its header, ordered by lower-cased text and a permutation of the collected blocks |
| TeamReport.ReportExtends | match_monitor.js:151-170 | the completion block only appends to the channel |
| TeamReport.HeadedMembers | match_monitor.js:143-146 | a headed list starts with its header, its sorted tail is ordered, and a block is in the tail exactly when it was in the list |
| TeamReport.ReportSends | match_monitor.js:151-170 | the report keeps the old channel as a prefix, every new message is longer than the prefix by at least one and at most the limit, and all blocks fit exactly when the lists do not stall |
| TeamReport.SortTeam | match_monitor.js:143-146 | a team list sorted with `caseInsensitiveCompare` is `StableSort` of the list by lower-cased text, and every pair of its elements is in comparator order |
| TeamReport.FitsAfterPermutation | match_monitor.js:143-147 | sorting keeps every block within the limit |
| TeamReport.PrefixedBound | match_monitor.js:161-168 | a prefix of at most `extra` characters keeps every message within the limit plus `extra` |
| TeamReport.Complete | replay_monitor.js:93-122 | the completion block leaves exactly `Report`: both teams sorted behind their headers, and the prefixed greedy packing appended to the channel; it stalls exactly when some block exceeds the limit (`Stalls`) |
| MatchMonitor.CompactPrefix | match_monitor.js:211-216 | `'true'` chooses `'.\n'`, `'false'` chooses nothing, any other value or an unset one throws the not-set error; a prefix never exceeds 2 characters |
| MatchMonitor.MissingRoutedOnce | match_monitor.js:76-92 | every missing player lands in exactly one of the two team lists |
| MatchMonitor.MissingBlocksContents | match_monitor.js:83-89 | a team list holds exactly the blocks of the missing players routed to it: 0/1 friendly and 2 enemy with the error text, other relations enemy with the unknown-team text |
| MatchMonitor.MissingBlocksStep | match_monitor.js:76-92 | one more missing player adds its block to its own team's list and to no other |
| MatchMonitor.RouteMissing | match_monitor.js:76-92 | the loop appends to each team list exactly the blocks of the missing players routed to it, in order, and counts every missing player once |
| MatchMonitor.MatchChain | match_monitor.js:105-137 | a chain succeeds exactly when `stats` and then `searchShipName` resolve, with their values; otherwise it fails with the first rejection |
| MatchMonitor.AsWrittenSwapsRoles | match_monitor.js:113 | the block as written is the header of ship name and stats text, followed by the player's name |
| MatchMonitor.AsWrittenDiffers | match_monitor.js:113 | whenever the player and ship names start differently, the block as written differs from the intended one |
| MatchMonitor.FormatStatsArgumentsSwapped | match_monitor.js:113 | Alice on the Yamato with a record gets `**Yamato**: *[object Object]*\nAlice\n`, not her statistics |
| MatchMonitor.AliceOnYamatoText | match_monitor.js:113 | the header of ship "Yamato" over stats text "[object Object]", followed by "Alice", is `**Yamato**: *[object Object]*\nAlice\n` |
| MatchMonitor.FirstFailureConcat | match_monitor.js:125-131 | the first failure of two runs of chains is the first run's, if it has one, else the second's |
| MatchMonitor.FirstFailureNone | match_monitor.js:125-131 | there is no first failure exactly when every chain succeeded |
| MatchMonitor.FirstFailureFirst | match_monitor.js:125-131 | the first failure is the reason of some failed chain with only successes before it |
| MatchMonitor.FirstFailureStep | match_monitor.js:127-131 | `error` is set after one more chain exactly when it was set before or that chain failed |
| MatchMonitor.AtMostOneError | match_monitor.js:127-131 | however the events are split, the error announcements together are one message for the first failure, and only when `error` was false at the start |
| MatchMonitor.AfterNone | match_monitor.js:95-137 | no settled chain leaves the lists and the channel as they were |
| MatchMonitor.AfterEachStep | match_monitor.js:110-137 | one more settled chain applies its own callbacks to the state the earlier ones left, with `error` set by their failures |
| MatchMonitor.SettleBefore | match_monitor.js:110-137 | the state after the first j + 1 events is the j-th event's callbacks applied after the first j |
| MatchMonitor.SettleAfter | match_monitor.js:110-137 | the same step, for the events settled after the completion block |
| MatchMonitor.SettleStep | match_monitor.js:121-140 | one more event applies its callbacks and, exactly when it brings the counter to the total, the completion block |
| MatchMonitor.SettleStepLater | match_monitor.js:121-140 | an event after completion only applies its callbacks and the stall flag stays |
| MatchMonitor.SettleStepCompleting | match_monitor.js:121-175 | the event that brings the counter to the total applies its callbacks and then the completion block, which stalls exactly when a block exceeds the limit |
| MatchMonitor.SettleStepQuiet | match_monitor.js:121-140 | an event before completion that does not complete only applies its callbacks |
| MatchMonitor.SettledNone | match_monitor.js:95-176 | with no chains at all, the state and the stall flag stay as they were |
| MatchMonitor.CompleteReport | match_monitor.js:143-170 | the completion block computes exactly `Completed` of the state and stalls exactly when a block exceeds the limit |
| MatchMonitor.TeamListContents | match_monitor.js:76-137 | a block is in a team's collected list exactly when it is a missing player's block routed to that team or a settled chain yields it for that team |
| MatchMonitor.FullMatchReport | match_monitor.js:52-180 | when the lookup leaves players to match, the final state is the completion block applied to the collected lists and the channel holding the announcement and the one-shot error |
| MatchMonitor.FullMatchSent | match_monitor.js:60-170 | the channel starts with the announcement and then the one-shot error, before the report |
| MatchMonitor.FullMatchTeam | match_monitor.js:76-147 | each final team list starts with its header, is ordered by lower-cased text behind it, and holds exactly the blocks of the missing players and settled chains routed to that team |
| MatchMonitor.MatchSession.constructor | match_monitor.js:60-69 | the match is announced and the counter, lists and error flag start empty |
| MatchMonitor.MatchSession.OnPlayerIds | match_monitor.js:71-100 | a resolved lookup routes each missing player to its team's list and counts it once, then starts the matching chains; a rejection changes nothing |
| MatchMonitor.MatchSession.Record | match_monitor.js:110-137 | a success pushes the block built as line 113 writes it (`formatStats(player.name, shipName, stats)`) onto its team's list, or nowhere without a team; a failure is sent only if `error` was false; `error` becomes true on a failure; the counter rises by one |
| MatchMonitor.MatchSession.CheckComplete | match_monitor.js:138-175 | when the counter equals the total, the completion block runs once and leaves `Completed` of the state: sorted, headed lists and the packed report sent; it stalls exactly when a block exceeds the limit; otherwise nothing changes |
| MatchMonitor.MatchSession.OnChainSettled | match_monitor.js:105-175 | one chain's callbacks, pushing the as-written block, followed by the completion check |
| MatchMonitor.MatchSession.SettleAll | match_monitor.js:95-176 | in any order of settlement, the lists and channel end as `SettledState` of the events: each chain's block or one-shot error, then the report exactly when the counter reaches the total; the completion block runs once exactly then; `error` is set exactly when some chain failed |
| MatchMonitor.ProcessMatch | match_monitor.js:52-180 | the report is sent exactly when the missing players fall short of the total and the matching ones make it up; the final lists and channel are `SettledState` of the routed missing players and the chains' events; with no matching player, or a rejected lookup, only the announcement is ever sent |
| ReplayMonitor.ReplayChain | replay_monitor.js:59-90 | a chain succeeds exactly when the player id, stats and ship-name lookups all resolve; otherwise it fails with the first rejection, skipping the later lookups |
| ReplayMonitor.FailuresContents | replay_monitor.js:83-89 | at most one message per vehicle is sent for failures, and a message is sent exactly when some vehicle failed with that reason |
| ReplayMonitor.FailuresAppend | replay_monitor.js:83-89 | one more vehicle adds only its own failure message, if any |
| ReplayMonitor.AfterNone | replay_monitor.js:59-90 | no settled vehicle leaves the lists and the channel as they were |
| ReplayMonitor.AfterEachAppend | replay_monitor.js:68-90 | one more settled vehicle applies its own callbacks to the state the earlier ones left |
| ReplayMonitor.AfterEachStep | replay_monitor.js:68-90 | the state after the first j + 1 events is the j-th event's callbacks applied after the first j |
| ReplayMonitor.SettleStep | replay_monitor.js:79-93 | one more event applies its callbacks and, exactly when it brings the counter to the total, the completion block |
| ReplayMonitor.SettleStepLater | replay_monitor.js:79-93 | an event after completion only applies its callbacks and the stall flag stays |
| ReplayMonitor.SettleStepCompleting | replay_monitor.js:79-122 | the event that brings the counter to the total applies its callbacks and then the completion block, which stalls exactly when a block exceeds the limit |
| ReplayMonitor.SettleStepQuiet | replay_monitor.js:79-93 | an event before completion that does not complete only applies its callbacks |
| ReplayMonitor.CompleteReport | replay_monitor.js:96-122 | the completion block computes exactly `Completed` of the state and stalls exactly when a block exceeds 1998 characters |
| ReplayMonitor.ReplayRun.constructor | replay_monitor.js:45-46 | a call's counter starts at 0 and its total is the number of vehicles |
| ReplayMonitor.Monitor.constructor | replay_monitor.js:18-19 | the module-level team lists start empty |
| ReplayMonitor.Monitor.ProcessMatch | replay_monitor.js:41-48 | the match is announced, the module-level lists are emptied and a fresh run starts |
| ReplayMonitor.Monitor.Record | replay_monitor.js:68-90 | a success pushes the block `formatStats(stats, player.name, shipName)` onto its team's list, or nowhere without a team; every failure is sent; the run's counter rises by one |
| ReplayMonitor.Monitor.CheckComplete | replay_monitor.js:91-127 | when the run's counter equals its total, the block leaves `Completed` of the state: sorted, headed lists and `'.\n'` plus each payload sent; it stalls exactly when a block exceeds 1998 characters; otherwise nothing changes |
| ReplayMonitor.Monitor.Finish | replay_monitor.js:93-122 | the completion block replaces the lists and channel by `Completed` of the old state and stalls exactly when a block exceeds 1998 characters |
| ReplayMonitor.Monitor.OnVehicleSettled | replay_monitor.js:59-127 | one vehicle's callbacks followed by the completion check |
| ReplayMonitor.Monitor.SettleAll | replay_monitor.js:50-128 | in any order of settlement, the lists and channel end as `SettledState` of the events: each vehicle's block or failure message, then the report exactly when the run's counter reaches its total, which is when the completion block runs, once |
| ReplayMonitor.ReplayEvents | replay_monitor.js:50-59 | one settlement event per vehicle, in the order of the arena file, each for its own vehicle |
| ReplayMonitor.RunMatch | replay_monitor.js:33-131 | every vehicle is counted once, so the report is sent exactly once for a match with vehicles and never for an empty one; the final lists and channel are `SettledState` of the vehicles' events after the emptied lists and the announcement |
| ReplayMonitor.FullRunReport | replay_monitor.js:33-127 | for a match with vehicles, the final state is the completion block applied to the collected lists and the channel holding the announcement and every failure |
| ReplayMonitor.FullRunSent | replay_monitor.js:41-122 | the channel holds the announcement and then every failure message, in settlement order, before the report |
| ReplayMonitor.TeamListContents | replay_monitor.js:68-77 | a block is in a team's collected list exactly when some settled vehicle yields it for that team |
| ReplayMonitor.FullRunTeam | replay_monitor.js:47-99 | each final team list starts with its header, is ordered by lower-cased text behind it, and holds exactly the blocks that settled vehicles yield for that team |

## Left out

- HTTP requests, URL assembly and `JSON.parse` are not modelled. Each lookup receives its decoded answer as a `Response` value.
- The Bottleneck rate limiter is not modelled. Its `schedule` is treated as calling the function directly.
- Promise interleaving is modelled as settlement events. `SettleAll` accepts them in any order; `ProcessMatch` and `RunMatch` apply them in list order.
- `MatchMonitor.MatchSession.SettleAll` and `ReplayMonitor.Monitor.SettleAll` treat each settlement event as one atomic step: the counter increment (match_monitor.js:121 and 134, replay_monitor.js:79 and 87) runs together with the completion check that follows it (match_monitor.js:140, replay_monitor.js:93). In the source, promise hops separate the two, so two chains could both increment before either checks, and the completion block would then run twice. That interleaving is not explored, so "at most once" holds only for the atomic-event model.
- `Packer.Pack` promises whole blocks only when no block is empty (`NoEmptyBlock`). Leading empty blocks merge into an empty message that is never sent. Every block the monitors build ends with a newline, but the model does not carry that fact through to the packing.
- The model of the replay monitor shows runs sharing the module-level lists, but it does not explore interleavings of two matches' callbacks.
- File watching and copying, the `WOWS_REPLAY_FOLDER` checks, timing and console logging are left out. They are I/O.
- The channel is the list `sent`; `send` is an append to it.
- index.js and wows_bot.js are not part of this model.
- Floating-point statistics and `toFixed` are left out. `UtilsStats.Numbers` holds their rendered text, and only the integer zero-denominator guard of kd is modelled.
- `toLowerCase` maps only the ASCII letters.
- Strings are sequences of Dafny characters, which are code points rather than UTF-16 units. This affects the string `<`, the lengths and `charAt` in `levenshteinDistance` (utils_stats.js:37-77), and the `.length` the packing loop compares with the limit (match_monitor.js:157, replay_monitor.js:110). Text outside the Basic Multilingual Plane is therefore measured differently.
- `for…in` over the catalog and over `missing`/`matching` is taken in sequence order.
- The engine's own sorting algorithm is not visible. ECMAScript requires `Array.prototype.sort` to be stable since its 2019 edition, so the sort is specified as the stable order `Sorting.StableSort` and implemented by an insertion sort.
- The packing loop never terminates when some block exceeds the limit. By then it has sent the greedy packing of the blocks in front of the first oversized one; after that it sends the bare prefix over and over (`Packer.OversizedBlockStalls`). `TeamReport.Report` records only the first part, and the ghost flag `stalled` says that the loop does not end. The endless prefix-only messages are not recorded in `sent`.
- `WgApi.SearchShipName` models only a null `name`. The source reads `data[shipId].name` (wg_api.js:329), which throws when `data[shipId]` is null. The reject on an undefined id (wg_api.js:302-304) has no `return`, so the request is still made with the id `undefined`; the model stops at the reject, and the later settlement of the same promise has no effect.
- `WgApi.Stats` models only a null `data[playerId]`. An empty array there, or one without `pvp`, makes `dataArray[0].pvp` throw (wg_api.js:394-395). The reject on an undefined player id (wg_api.js:350-351) has no `return`, so the request is still made; the model stops at the reject, and the later settlement of the same promise has no effect.
- `WgApi.SearchPlayerId` requires that a positive `meta.count` comes with a non-empty `data`. An answer that breaks this throws in the source and is not modelled. `ReplayMonitor.ReplayChain` and `ReplayMonitor.RunMatch` inherit the requirement as `CountedList`.
- `WgApi.SearchMultiplePlayerIds` does not say which sorted order of the answer is merged when two accounts share a nickname. It promises only that some sorted permutation is.
- `WgApi.SearchMultiplePlayerIds` returns matching entries as updated copies. The source writes `playerId` into the shared vehicle objects, and that aliasing is not modelled.
- An unhandled rejection of the bulk lookup is modelled as no change. The runtime's warning about it is not modelled.
- Some behaviours are kept exactly as the code has them, though one might expect otherwise:
  - ship-name ties go to the last closest entry (`<=` at wg_api.js:266);
  - `stats` tests the player id twice and never rejects a missing ship id (wg_api.js:350-353);
  - a ship with no PvP battles gives the first-PvP message, which says the ship was played in PvE. The request asks only for `pvp.*` fields (wg_api.js:359-360), and line 397 branches on `pvp.battles === 0` alone, so no PvE field is read before the claim is made.

## Findings

| source | as written | input that shows it | evidently intended | confidence | as-written member | corrected member |
|---|---|---|---|---|---|---|
| match_monitor.js:113 | `formatStats(player.name, shipName, stats)`: the player name takes the `stats` slot, so the text branch runs with the ship name as player and the stats as ship | player "Alice" on the "Yamato" with a PvP record: the block is `**Yamato**: *[object Object]*\nAlice\n` | `formatStats(stats, player.name, shipName)`, the order of the signature (utils_stats.js:12) and of replay_monitor.js:71 | high; not executed | MatchMonitor.FormatStatsArgumentsSwapped | TeamReport.SuccessBlock |
