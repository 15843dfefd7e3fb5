# Verified model of the match-reconstruction pipeline

HLL Vietnam rebuilds matches from the AdminLog that game servers expose over RCON. Overlapping polls
are stored without duplicates, match boundaries are paired into matches, each match's events become
player statistics, duplicate historical matches are folded together, old data is pruned, and an
independent audit recomputes the same quantities with faster algorithms. This project models that
logic in Dafny 4.11 and proves what it keeps. `dafny verify dfyconfig.toml` checks all of it.

Tables are sequences in id order, or maps by unique key, and instants are integers of seconds. Objects
that the program updates in place (player accumulators, the live roster, the scheduler's globals, the
trackers, the tables) are classes whose methods are proved against functions of the old state; the
lemmas beside them say what those functions mean, and for each main operation one of them reads its
result directly off the rows: which matches, events or listings are deleted, which samples are stored,
which reports count as one, which jobs start, and what a statistics row says.

| file | what it covers |
|---|---|
| `Foundations.dfy` | counting, deleting, sorting and text order, used everywhere |
| `AdminLogEvents.dfy`, `SweepAudit.dfy` | stored events, the naive range query, and the audit's one-pass sweep with prefix counts, active set and heap |
| `BoundaryPairing.dfy`, `BoundaryAudit.dfy`, `PairCounting.dfy` | the production pairing, the audit's pairing, and the longest START END scan |
| `LinkAssignment.dfy` | mutual unique best links and stable assignments |
| `PlayerStats.dfy`, `StatsConservation.dfy`, `ActiveTime.dfy`, `MatchPipeline.dfy` | player statistics of a match, their conservation laws, the connection clock, and the agreement of materializer and audit |
| `HistoricalMerge.dfy` | folding duplicate historical matches |
| `Retention.dfy` | the retention plan, its stability, and batched deletion that may stop after any batch |
| `CurrentMatch.dfy` | the live roster with name and id entries |
| `Sessions.dfy` | competitive windows from live samples |
| `Scheduler.dfy` | refresh slots, cycles and historical refreshes |
| `Trackers.dfy` | parity trackers |
| `ArchiveListing.dfy`, `PlainImport.dfy`, `Ingestion.dfy` | the pages of the remote archive, the import on a plain table, and the crash-resumable import with the normalisation inside every storage call |
| `AdminLogPolling.dfy` | overlap-safe polling |

Five promises turned out to hold only under a condition; each is stated with it, in both directions.

- The audit's first and last references are those of the query exactly when something was selected, or
  when every event lies both before the lower and after the upper bound.
- A server's start counters agree with its rows exactly when it takes over as many open starts from
  other servers as it gives away; over all servers together they always agree.
- A merge keeps the label of the surviving row unless that row shows no map at all, through an empty
  pretty name, and takes over a map name that reads differently. The import itself never stores an empty
  pretty name, so this needs rows written by something else; with such rows a normalisation can leave two
  matches in one group, as three concrete rows show.
- An archive imported to its end is completely in the tables exactly when no two of its matches share
  their start and map label. Where two do, a bootstrap that is stopped after they are folded and then
  resumed can lose what one clean pass keeps: for two such listings it does exactly when the earlier one
  knows something that the later one does not. A concrete archive shows it.
- An explicit bootstrap start page is safe exactly when it does not lie beyond the checkpoint: beyond
  it, pages are skipped for good, and past the end of the archive the run even records the archive as
  exhausted; a concrete two-page archive loses its first match that way.

## Model

| member | source | states |
|---|---|---|
| AdminLogEvents.SelectKeepsExactly | backend/app/rcon_admin_log_materialization.py:676-698 | the range query keeps exactly the rows inside the bounds, one-sided and inverted bounds included |
| AdminLogEvents.SelectIsSlice | scripts/audit_rcon_match_materialization.py:923-971 | on time-sorted rows a range query is the slice between two prefix positions, or nothing when they cross: why prefix counts can answer it |
| SweepAudit.RecordLower | scripts/audit_rcon_match_materialization.py:923-927 | the lower points passed so far hold the prefix counts of the events before them and the first event from them on |
| SweepAudit.RecordUpper | scripts/audit_rcon_match_materialization.py:928-982 | the upper points passed so far hold the prefix counts of the events through them and the last such event |
| SweepAudit.AdvanceActive | scripts/audit_rcon_match_materialization.py:934-942 | after the range pointer and the heap have moved, the active set is exactly the set of ranges that contain the current time |
| SweepAudit.ActiveCount | scripts/audit_rcon_match_materialization.py:943-943 | the size of the active set is the number of bounded matches that contain the time |
| SweepAudit.ReadMetric | scripts/audit_rcon_match_materialization.py:985-999 | one match: the difference of recorded prefix counts is the count of the naive range query, also when the bounds are inverted |
| SweepAudit.ScanTargetEvents | scripts/audit_rcon_match_materialization.py:864-1005 | one pass gives, for the last match of every key that has a bound and for nothing else, the counts and references of its naive query; how many events lie in no, one or more of the matches with a bound, with their kills; the attained maximum with its first event and the keys of the matches around it; and the streamed totals |
| SweepAudit.SharesPartitionEvents | scripts/audit_rcon_match_materialization.py:944-951 | assigned_0, assigned_1 and assigned_many together are the events streamed |
| SweepAudit.SelectionsEqualMultiplicities | scripts/audit_rcon_match_materialization.py:943-1005 | the sum of selected_events (and of selected_kills) over the matches equals the sum of the multiplicities over the events: the prefix and heap computations agree |
| SweepAudit.ReferencesAreExactIff | scripts/audit_rcon_match_materialization.py:985-999 | the reported first and last events are both those of the range query exactly when something is selected or every event lies both before the lower and after the upper bound (no event at all where a bound is missing) |
| SweepAudit.ReferencesOfSelection | scripts/audit_rcon_match_materialization.py:990-998 | something is selected exactly when the reported first event lies inside the bounds, and exactly when the last one does |
| SweepAudit.EmptySelectionReportsStrayEvent | scripts/audit_rcon_match_materialization.py:990-998 | a concrete input where nothing is selected and the reported first event lies outside the match |
| SweepAudit.InvertedRangesSelectNothing | scripts/audit_rcon_match_materialization.py:988-994 | a match whose upper bound is below its lower bound selects nothing and contains no time |
| BoundaryPairing.DeriveAdminLogMatches | backend/app/rcon_admin_log_materialization.py:489-512 | the loop over open_by_target is the fold of the pairing state machine over the rows, with the starts left open appended |
| BoundaryPairing.EachTargetIsPaired | backend/app/rcon_admin_log_materialization.py:489-512 | under any interleaving the matches of one target are a pairing of that target's own rows: in order, each start closed by a directly following end |
| BoundaryPairing.PairingIsUnique | backend/app/rcon_admin_log_materialization.py:489-512 | a row sequence has only one such pairing |
| BoundaryPairing.TargetsAreIndependent | backend/app/rcon_admin_log_materialization.py:489-512 | running all targets together gives each target the matches it gets alone |
| BoundaryPairing.EachRowIsUsedOnce | backend/app/rcon_admin_log_materialization.py:489-512 | as multisets, the starts and ends of the derived matches are exactly the boundary rows |
| BoundaryPairing.ClosedMatchesAreDisjoint | backend/app/rcon_admin_log_materialization.py:489-512 | closed matches of one target follow each other: the end of one is not after the start of the next, so no instant lies strictly inside two |
| BoundaryAudit.BoundaryOrderIsTotalPreorder | scripts/audit_rcon_match_materialization.py:570-578 | the sort key orders all rows, with null server times before or after the others |
| BoundaryAudit.RowsAreReadInOrder | scripts/audit_rcon_match_materialization.py:570-578 | the rows are read target by target in ascending time and id, rows without a time all first or all last, and none is lost |
| BoundaryAudit.ChosenAreTheSelected | scripts/audit_rcon_match_materialization.py:563-600 | the rows read are those that resolve to a selected server |
| BoundaryAudit.DeriveAdminMatches | scripts/audit_rcon_match_materialization.py:563-651 | for rows in any order, the matches of the sorted selected rows and, per server, the four sequence counters as counts over rows and matches |
| BoundaryAudit.AuditAgreesWithMaterializer | scripts/audit_rcon_match_materialization.py:563-651 | with every target selected and the same null ordering the audit derives the sequence of start and end pairs the materializer derives |
| BoundaryAudit.EndsBalance | scripts/audit_rcon_match_materialization.py:602-630 | for every server, ends = normal_start_end + orphan_end |
| BoundaryAudit.StartsBalanceIff | scripts/audit_rcon_match_materialization.py:602-635 | for every server, starts = normal_start_end + consecutive_start + final_open_start exactly when as many of its rows directly follow a start of another server as rows of other servers directly follow one of its starts, row by row within a target |
| BoundaryAudit.TotalsBalance | scripts/audit_rcon_match_materialization.py:602-635 | summed over all selected servers the start counters always add up to the selected starts |
| BoundaryAudit.StartsBalance | scripts/audit_rcon_match_materialization.py:327-334 | with the real resolver every server balances when each target has one trusted external id on all its rows, or none |
| BoundaryAudit.StartsMayNotBalance | scripts/audit_rcon_match_materialization.py:327-334 | an input of the real resolver where the counters of two servers do not add up: a start without external id on a target mapped to one server, closed by an end that carries the other trusted id |
| PairCounting.CountOrderedBoundaryPairs | scripts/audit_rcon_match_materialization.py:122-135 | the greedy scan of the sorted boundaries returns the largest k such that START END repeated k times is a subsequence |
| PairCounting.ScanIsAchievable | scripts/audit_rcon_match_materialization.py:126-135 | the scan's count is reached by a subsequence |
| PairCounting.ScanIsOptimal | scripts/audit_rcon_match_materialization.py:126-135 | no subsequence has more pairs than the scan counts |
| PairCounting.PairingCompletesMostPairs | scripts/audit_rcon_match_materialization.py:602-630 | on one target the pairing state machine completes exactly that largest number of pairs |
| PairCounting.CountersAgree | scripts/audit_rcon_match_materialization.py:122-135 | on a target of one server the result of the scan is the normal_start_end counter of the sequence audit, when timestamps and server times order the rows alike |
| LinkAssignment.MutualUniqueBestAssignments | scripts/audit_rcon_match_materialization.py:2145-2174 | a board is linked exactly when it and its match are each other's only best candidate; linked and ambiguous boards partition the boards with an edge; an ambiguous board lists its best candidates |
| LinkAssignment.ExactLinksAreOneToOne | scripts/audit_rcon_match_materialization.py:2161-2172 | no match is linked to two boards |
| LinkAssignment.ExactLinksAreInEveryStableAssignment | scripts/audit_rcon_match_materialization.py:2145-2174 | with one edge per pair, every exact link is in every stable one-to-one assignment over the scored edges |
| LinkAssignment.StableAssignmentExists | scripts/audit_rcon_match_materialization.py:2145-2174 | a stable assignment always exists |
| PlayerStats.Ledger.EnsurePlayer | backend/app/rcon_admin_log_materialization.py:821-851 | the record of a key is found or created and refreshed; every other record is unchanged |
| PlayerStats.Ledger.ApplyKill | backend/app/rcon_admin_log_materialization.py:705-738 | one kill row on the mutable records, killer and victim possibly the same one, gives the specified records |
| PlayerStats.Ledger.ApplyOther | backend/app/rcon_admin_log_materialization.py:740-754 | one other row on the mutable records, with the skipped team switch |
| PlayerStats.DerivePlayerStats | backend/app/rcon_admin_log_materialization.py:672-785 | every exported record is what counting over the rows gives for that player, each mentioned player appears once, in order of first appearance |
| StatsConservation.KillsAreConserved | backend/app/rcon_admin_log_materialization.py:705-737 | total kills + total teamkills = total deaths = kill events in range, and total teamkills = total deaths_by_teamkill, self-kills included |
| StatsConservation.PlayerCountersAddUp | backend/app/rcon_admin_log_materialization.py:726-735 | each player's weapon and victim counters sum to kills + teamkills, the death counters to deaths |
| StatsConservation.WeaponEntryIsExact | backend/app/rcon_admin_log_materialization.py:732-732 | a weapon counter entry is the number of that player's kill rows with the weapon |
| StatsConservation.SeenWithinMatch | backend/app/rcon_admin_log_materialization.py:854-860 | first_seen is not after last_seen and both lie inside the match bounds |
| StatsConservation.StatsSayWhatRowsSay | backend/app/rcon_admin_log_materialization.py:672-785 | there is one statistics row for every player who takes part in a row, in the order of their first rows, and it says what the rows say: the tallies, the first and last instant, the last name given, the team (a kill of oneself only suggests one), and each counter entry by weapon or by the name carried after the row |
| ActiveTime.CalculateConnectionIntervalActiveSeconds | backend/app/rcon_admin_log_materialization.py:977-1010 | the clock returns the number of seconds in the match at which the last link at or before them, or the carry-over, leaves the player connected; None exactly without carry-over and connect event |
| ActiveTime.SplittingAMatch | backend/app/rcon_admin_log_materialization.py:977-1010 | splitting a match at any instant splits the seconds, the second half starting from the state before the instant |
| ActiveTime.CollectPlayerConnectionEvents | backend/app/rcon_admin_log_materialization.py:930-946 | the connect and disconnect rows of the player among the match rows |
| ActiveTime.WasConnectedAtMatchStart | backend/app/rcon_admin_log_materialization.py:949-974 | the state left by the last connect or disconnect strictly before the match |
| ActiveTime.MatchSecondsAreHistorySeconds | backend/app/rcon_admin_log_materialization.py:875-927 | the carry-over query and the rows of the match together give the seconds of the player's whole history inside the match |
| ActiveTime.BuildPlayerActiveTime | backend/app/rcon_admin_log_materialization.py:875-927 | with two ends in order, a player with an id and a connection seen before or in the match, the seconds online in it, by whether the player was online before it; otherwise the span of the player's events |
| MatchPipeline.DerivePlayerStatsForMatch | backend/app/rcon_admin_log_materialization.py:672-785 | one row for every player with an event inside the bounds, none without bounds; each says what those events say, and its active seconds are those the player was online |
| MatchPipeline.AuditedKillsAreCreditedKills | scripts/audit_rcon_match_materialization.py:985-999 | the audit's selected_kills of a match equals the kills + teamkills, and the deaths, that the materializer credits |
| MatchPipeline.NoKillCountedTwice | scripts/audit_rcon_match_materialization.py:943-1005 | when the maximum multiplicity is at most one, selected kills and uncovered kills add up to the kills streamed |
| MatchPipeline.PairedMatchesCoverOnce | backend/app/rcon_admin_log_materialization.py:489-512 | of the closed matches derived for one target with ascending times, at most one contains a time that is no boundary |
| MatchPipeline.PairedMatchesCountKillsOnce | scripts/audit_rcon_match_materialization.py:943-1005 | audited over the closed matches derived for its target, no kill off the boundaries is counted twice: selected and uncovered kills add up to the kills streamed |
| HistoricalMerge.HistoricalStore.MergeMatchRows | backend/app/historical_storage.py:2272-2363 | both tables after one merge: filled columns, moved or merged statistics, the source gone; nothing when a row is missing |
| HistoricalMerge.MergeUnitesGroups | backend/app/historical_storage.py:2272-2415 | one merge unites two groups: the survivor has a value of the united group in every column and the largest number of every player, and other matches are untouched |
| HistoricalMerge.HistoricalStore.Preferred | backend/app/historical_storage.py:2262-2269 | the row chosen is the greatest under the five-part preference |
| HistoricalMerge.HistoricalStore.NormalizeIdentities | backend/app/historical_storage.py:1883-1925 | the preferred match of each (server, start, label) group is left, with one statistic per player seen anywhere in the group, holding the maximum of every number over the group; the result depends on the tables alone |
| HistoricalMerge.NormalizeIsNormalized | backend/app/historical_storage.py:1883-1925 | grouping, choosing and merging row by row, as a function of the tables, has that meaning: survivors, filled columns, largest numbers and untouched lone matches |
| HistoricalMerge.MatchIsFoldedIff | backend/app/historical_storage.py:1907-1925 | a match is deleted exactly when another of its server, start and map label beats it: by having ended, then a numeric id, then more statistics, then a later creation, then a greater id |
| HistoricalMerge.PreferredIsLeft | backend/app/historical_storage.py:2262-2269 | the match left of a group has an end if any has, then a numeric id if any of those has, then the most statistics, the latest creation and the greatest id |
| HistoricalMerge.TextsLeftOfGroup | backend/app/historical_storage.py:2289-2415 | the match left was last seen when the latest of its group was, and its statistics know the reference and team that any of the group knew |
| HistoricalMerge.OneMatchPerGroup | backend/app/historical_storage.py:1883-1925 | afterwards every group has one match, when no merge of two rows of a group would change its label (by the guard of MergeLosesLabelIff) |
| HistoricalMerge.NormalizationIsIdempotent | backend/app/historical_storage.py:1883-1925 | under the same condition normalising again changes neither table |
| HistoricalMerge.MergeLosesLabelIff | backend/app/historical_storage.py:1907-1911 | a merge of two rows of one label changes the label exactly when the target has an empty pretty name and no map name, the source a pretty name, and the map name it hands over reads differently from an unknown map |
| HistoricalMerge.MergeMayLoseLabel | backend/app/historical_storage.py:2272-2363 | two rows of one label whose merge has another label |
| HistoricalMerge.NormalizeKeepsOwn | backend/app/historical_storage.py:2272-2363 | no filled column of a match that is left is ever overwritten: normalisation only fills the empty ones |
| HistoricalMerge.NormalizeFillsInOrder | backend/app/historical_storage.py:1883-2330 | a column that the match left lacks takes the value of the match with the least id of its identity that has one |
| HistoricalMerge.ThirdIsJoined | backend/app/historical_storage.py:1883-1925 | whenever the survivor of a pair shows no map and takes over the map name of a third match with its server and start, the two are left in one group |
| HistoricalMerge.NormalizationMayLeaveTwo | backend/app/historical_storage.py:1883-1925 | three concrete rows after whose normalisation two matches of one group are left |
| Retention.PositionCountsMoreRecent | backend/app/database_maintenance.py:282-290 | the position of a closed match in the sorted list is the number of closed matches more recent than it |
| Retention.PlanMatchCleanup | backend/app/database_maintenance.py:244-343 | the candidates, most recent first, are exactly the closed matches no rule protects, and the ranges shield exactly the server times of protected matches |
| Retention.PlanAdminLogCleanup | backend/app/database_maintenance.py:346-383 | the planned events are the expired ones, critical events only outside every protected range of their target |
| Retention.PlanSnapshotCleanup | backend/app/database_maintenance.py:183-191 | the planned snapshots are those before the cutoff |
| Retention.RecentSurvive | backend/app/database_maintenance.py:282-290 | deleting only matches outside the most recent k changes no count of more recent matches below k |
| Retention.ProtectionUnchanged | backend/app/database_maintenance.py:282-326 | after all or some candidates of a plan are deleted, the protections recomputed from the rows left are the ones before |
| Retention.KeepingMoreDeletesLess | backend/app/database_maintenance.py:290-383 | a larger recent_matches_keep only shrinks the match and event candidates |
| Retention.MatchIsGoneIff | backend/app/database_maintenance.py:282-326 | a match is deleted exactly when it is closed, recent_matches_keep closed matches are later by closing instant, server time and id, and it closed before this month and week, not in the previous month during its first week, and not in the previous week while this one has too few matches |
| Retention.EventIsGoneIff | backend/app/database_maintenance.py:346-383 | a kill or boundary event is deleted exactly when it is past its cutoff, has a server time and no closed match that is left covers it; any other event when it is past its cutoff |
| Retention.StatIsGoneIff | backend/app/database_maintenance.py:132-143 | a statistic is deleted exactly when a match of its target and key is |
| Retention.SnapshotIsGoneIff | backend/app/database_maintenance.py:183-191 | a snapshot is deleted exactly when its capture is known and before the cutoff |
| Retention.CleanupsCompose | backend/app/database_maintenance.py:115-164 | cleaning up and then again with a smaller recent_matches_keep is one cleanup with the smaller one, over all four tables |
| Retention.PartThenCleanup | backend/app/database_maintenance.py:115-164 | a cleanup that follows any part of an earlier one in which no match goes before its stat rows ends as it would have alone |
| Retention.CleanupIsStable | backend/app/database_maintenance.py:115-241 | planning again at the same instant finds no match, event or snapshot to delete |
| Retention.ProtectedMatchKeepsItsEvents | backend/app/database_maintenance.py:346-383 | a protected match keeps its row and, in order, every critical event of its server-time range |
| Retention.StatsFollowTheirMatch | backend/app/database_maintenance.py:132-143 | a match keeps all its stat rows or loses them all, exactly as its own row is kept or deleted |
| Maintenance.DeleteIdsInBatches | backend/app/database_maintenance.py:430-457 | deletion in batches of any positive size is one set difference and counts the rows it removes; the table after each commit holds exactly the rows outside the batches so far |
| Maintenance.DeleteMatchPlayerStats | backend/app/database_maintenance.py:401-427 | deletion by (target, match key) in batches of at most 250 is one set difference; the table after each commit holds exactly the rows outside the batches so far |
| Maintenance.DeletingByIdIsExact | backend/app/database_maintenance.py:138-155 | deleting by the ids of the planned rows deletes exactly the planned rows |
| Maintenance.Database.RunCleanup | backend/app/database_maintenance.py:115-164 | a dry run changes nothing; an applied one leaves the four set differences of the plan and reports the rows removed from each table, and the tables after each of its commits are an interruption from which a second run ends as this one |
| Maintenance.InterruptedCleanupCompletes | backend/app/database_maintenance.py:401-457 | a cleanup that stops after any committed batch, in any of the four tables, and is run again at the same instant leaves what an uninterrupted one leaves |
| CurrentMatch.CurrentPlayer.AddStat | backend/app/rcon_admin_log_storage.py:1057-1066 | an event counts once for a player and statistic |
| CurrentMatch.CurrentPlayer.AddWeapon | backend/app/rcon_admin_log_storage.py:1069-1078 | an event counts once for a player and weapon |
| CurrentMatch.CurrentPlayer.AddKill | backend/app/rcon_admin_log_storage.py:542-548 | a kill enters the weapon set and the kill or teamkill set under the same event key |
| CurrentMatch.CurrentPlayer.MergeStat | backend/app/rcon_admin_log_storage.py:990-1004 | adding the source count less the overlap keeps the counter equal to the size of the united key set |
| CurrentMatch.CurrentPlayer.MergeFrom | backend/app/rcon_admin_log_storage.py:954-1020 | a merge is the union of all key sets, with the name, team, connection and last-seen rules |
| CurrentMatch.CurrentRoster.ResolvePlayerKey | backend/app/rcon_admin_log_storage.py:905-933 | an id claims the entry of its name, merged or re-keyed; a name alone finds the only id entry that carries it; where every existing entry object is afterwards |
| CurrentMatch.CurrentRoster.EnsurePlayer | backend/app/rcon_admin_log_storage.py:849-902 | the entry of a sighting is found, made, folded and refreshed, and no two keys share an entry |
| CurrentMatch.CurrentRoster.ApplyKill | backend/app/rcon_admin_log_storage.py:522-553 | a kill credits the killer's entry even when looking up the victim has just moved it, or detached it from the roster |
| CurrentMatch.ListCurrentMatchPlayers | backend/app/rcon_admin_log_storage.py:517-600 | after any rows every counter of every entry is the size of its event-key set, and the roster is the fold of the rows on key sets |
| CurrentMatch.RunKeepsRoster | backend/app/rcon_admin_log_storage.py:849-1020 | over every run an id entry holds its id, a name entry holds no id and its normalised name, the weapon sets hold exactly the kills and teamkills, and deaths by teamkill are deaths |
| CurrentMatch.RunCountsOnlyEarned | backend/app/rcon_admin_log_storage.py:522-553 | no entry counts an event that does not earn the statistic it is counted under |
| CurrentMatch.RunCreditsTheIds | backend/app/rcon_admin_log_storage.py:522-553 | every kill row is counted, under the right statistic and weapon, for the ids it names, whatever is merged afterwards |
| CurrentMatch.DifferentKillsAllCount | backend/app/rcon_admin_log_storage.py:1028-1041 | after any rows the kills and teamkills of an id entry are at least the number of kills naming its id as killer that differ pairwise in server time, stamp, names, teams or weapon |
| CurrentMatch.DifferentDeathsAllCount | backend/app/rcon_admin_log_storage.py:1028-1041 | and its deaths at least the number of such kills naming it as the victim |
| CurrentMatch.DifferentKillsCountUnderWeapon | backend/app/rcon_admin_log_storage.py:1028-1041 | and a weapon counter at least the number of such kills with the weapon |
| CurrentMatch.CountedKillsAreDifferent | backend/app/rcon_admin_log_storage.py:1028-1041 | no report counts twice: a counter of any entry is the number of some pairwise different kills of its kind, teamkills being those within one named team |
| CurrentMatch.CountedWeaponsAreDifferent | backend/app/rcon_admin_log_storage.py:1028-1041 | and a weapon counter the number of some pairwise different kills with that weapon |
| CurrentMatch.OneKillShowsBoth | backend/app/rcon_admin_log_storage.py:522-553 | the whole roster after one kill between two players of different names: both profiles, the statistic of each and the weapon |
| Sessions.SampleStore.UpsertCompetitiveWindow | backend/app/postgres_rcon_storage.py:1112-1201 | one sample extends the latest window of its target or opens one; a blank map changes nothing |
| Sessions.SampleStore.PersistSample | backend/app/postgres_rcon_storage.py:615-661 | a sample of a stored target and instant changes no table and counts as a duplicate |
| Sessions.SampleStore.PersistFeed | backend/app/postgres_rcon_storage.py:615-661 | a feed stores the first sample of each target and instant, and inserted + duplicates = samples |
| Sessions.StoredAreFirstReports | backend/app/postgres_rcon_storage.py:615-661 | what is stored of a feed are its first samples of each target and instant, in order |
| Sessions.TwoSamplesShareIff | backend/app/postgres_rcon_storage.py:1112-1201 | two samples in a row share a window exactly when their maps read alike and half an hour has not passed |
| Sessions.RunsAreMaximal | backend/app/postgres_rcon_storage.py:1265-1277 | the samples of a target can be cut into runs with one normalised map and gaps of at most 1800 seconds that cannot be joined |
| Sessions.MaximalRunsAreUnique | backend/app/postgres_rcon_storage.py:1265-1277 | there is only one such cut |
| Sessions.WindowsAreTheRuns | backend/app/postgres_rcon_storage.py:1112-1201 | with each target's samples in time order, its windows are those runs, with the count, total, peak and newest sample of each, whatever other targets send in between |
| Sessions.SamplesAreConserved | backend/app/postgres_rcon_storage.py:1141-1201 | in any order of samples, the sample counts of all windows add up to the stored samples with a map |
| Sessions.PeakIsAttained | backend/app/postgres_rcon_storage.py:1149-1149 | peak_players is the largest player count of the run and is reached |
| Scheduler.ResolveLatestHourlySlot | backend/app/historical_runner.py:1202-1216 | the loop terminates with the greatest aligned instant that is not in the future |
| Scheduler.ResolveLatestDailySlot | backend/app/historical_runner.py:1219-1236 | the greatest instant at one of the configured times that is not in the future |
| Scheduler.PublicScheduler.RunNonOverlapping | backend/app/historical_runner.py:1111-1134 | what runs, what is skipped or blocked, that the job is in progress while its callback runs, and that the set is restored whatever it does |
| Scheduler.PublicScheduler.RunCycle | backend/app/historical_runner.py:454-600 | one cycle resolves its slots and gives each job the specified result in order, and restores the in-progress set |
| Scheduler.PublicScheduler.RunHistoricalRefresh | backend/app/historical_runner.py:1065-1148 | a historical refresh with its retries refreshes the recent matches after each capture that calls for it, and records the try that succeeds under the start of the whole refresh |
| Scheduler.EachSlotCompletesOnce | backend/app/historical_runner.py:124-150 | over any run of cycles and historical refreshes with a clock that does not go back, failures, exceptions and retries included, the completed slots of a job strictly increase, and recent matches are polled at least an interval after every earlier poll and after the start of every historical refresh that refreshed them |
| Scheduler.HeavyJobsExclude | backend/app/historical_runner.py:461-600 | a heavy job that is executed keeps every slot job after it, heavy or not, from starting in the cycle; only the recent matches go on |
| Scheduler.JobStartsIff | backend/app/historical_runner.py:464-587 | a job starts in a cycle exactly when it is due at its start, no earlier job of the cycle threw, no heavy one was executed before it unless it refreshes the recent matches, and nothing in progress conflicts with it |
| Scheduler.CycleRecords | backend/app/historical_runner.py:464-587 | after a cycle the last slot of a job is the current one if it ended well, and as before otherwise |
| Scheduler.HistoricalRefreshRecords | backend/app/historical_runner.py:1065-1148 | which tries a historical refresh makes, how often they complete the recent matches, and the instant recorded for them |
| Scheduler.ThreeCyclesCatchUp | backend/app/historical_runner.py:454-600 | after any past, three undisturbed cycles at one instant leave no job due, the recent matches included |
| Trackers.MatchStateMachine.Step | backend/app/observe_current_match_parity.py:79-103 | the event of a poll is determined by the match ids seen before; flags and current id are too |
| Trackers.MatchStateMachine.Unavailable | backend/app/observe_current_match_parity.py:105-110 | an outage ends no match and leaves the ids seen unchanged |
| Trackers.Advance | backend/app/observe_current_match_parity.py:134-141 | the runs of the keys present are their trailing runs, and no other key has one |
| Trackers.TrailingRunReaches | backend/app/observe_current_match_parity.py:134-141 | a trailing run reaches n exactly when the key is in each of the last n observations |
| Trackers.PlayerSetStabilizer.Observe | backend/app/observe_current_match_parity.py:119-132 | the four counts are the sizes of the sets of keys below and at the threshold, on each side |
| Trackers.DifferenceRunReaches | backend/app/observe_current_match_parity.py:155-170 | a difference run reaches n exactly when each of the last n comparisons of the key differs |
| Trackers.DeltaMetric.Observe | backend/app/observe_current_match_parity.py:155-170 | after any history the counters are the folds of the comparisons and the systematic set is the keys whose difference run reaches the threshold |
| Trackers.RecoveriesArePaid | backend/app/observe_current_match_parity.py:156-170 | eventually_consistent plus the keys still differing never exceeds the differing comparisons |
| Ingestion.BackfillStore.Prepare | backend/app/historical_storage.py:53-201 | every storage call first commits the identity normalisation, whatever follows |
| Ingestion.BackfillStore.UpsertMatch | backend/app/historical_storage.py:538-702 | normalisation, then the row and the player statistics of the payload overwritten; a match without an id is refused after the normalisation |
| Ingestion.BackfillStore.IngestServer | backend/app/historical_ingestion.py:321-389 | the page loop performs exactly the writes of the run, in order, up to the first that does not get through |
| Ingestion.BackfillStore.RunIngestion | backend/app/historical_ingestion.py:174-260 | a run ends in the database its writes reach before the budget stops it and finishes exactly when all get through; it completes the pages from the given start page, from page 1 for a refresh, or from the checkpoint for a bootstrap, without a gap; a refresh of a newest-first archive writes every match listed from the cutoff on, and no run writes an older one |
| Ingestion.BackfillStore.MarkPageCompleted | backend/app/historical_storage.py:325-389 | a completed page moves next_page behind it and clears archive_exhausted |
| Ingestion.BackfillStore.FinalizeProgress | backend/app/historical_storage.py:392-447 | archive_exhausted is set only by a successful run that read an empty page |
| Ingestion.InitializeKeepsServer | backend/app/historical_storage.py:1883-1925 | the normalisation leaves every row and statistic of a server whose listed matches do not share start and map label |
| Ingestion.StoppedFollows | backend/app/historical_ingestion.py:321-389 | without shared identities a run that stops after any number of commits shows what a plain table of items shows after half as many writes |
| PlainImport.PageSettles | backend/app/historical_ingestion.py:367-386 | a fully written page makes every row and statistic that no later page writes final |
| Ingestion.RunKeepsSound | backend/app/historical_ingestion.py:321-389 | without shared identities, wherever a bootstrap stops, everything below next_page is in the tables as it will be in the end, and archive_exhausted implies that page next_page is empty |
| Ingestion.ExhaustedMeansComplete | backend/app/historical_ingestion.py:321-389 | without shared identities, after any sequence of interrupted runs, archive_exhausted implies the rows and statistics of one clean pass |
| Ingestion.ResumingCompletes | backend/app/historical_ingestion.py:410-420 | without shared identities a resumed run that gets through ends with the rows and statistics of one uninterrupted run |
| Ingestion.ExhaustedIsCompleteIff | backend/app/historical_ingestion.py:321-389 | an archive of one detail per match id, recorded as exhausted after any interruptions, is completely in the tables exactly when no two of its matches share start and map label |
| Ingestion.ResumingLosesTheEarlierMatch | backend/app/historical_storage.py:538-702 | two matches of one identity on two pages: a clean pass keeps the columns and greater numbers only the earlier one has, a run that stops after folding them and resumes overwrites them with the later one |
| Ingestion.ResumingMayDiffer | backend/app/historical_storage.py:538-702 | a concrete archive where the clean pass ends with ten kills and a game mode, the resumed run with five kills and none |
| Ingestion.ResumingAgreesIff | backend/app/historical_storage.py:538-702 | for two matches of one identity on two pages the clean and the resumed run end alike exactly when the earlier listing has no column, reference, team or greater number that the later one lacks |
| Ingestion.GivenStartIsSoundIff | backend/app/historical_ingestion.py:416-417 | without shared identities an explicit start page keeps the checkpoint trustworthy exactly when it is not beyond next_page |
| Ingestion.GivenStartMaySkip | backend/app/historical_ingestion.py:416-417 | two matches on two pages imported from page 2 on an empty database: recorded as exhausted without the first match |
| ArchiveListing.RefreshMissesNothingRecent | backend/app/historical_ingestion.py:340-389 | a refresh of an archive that lists the newest first stops at the first page with an older match and still writes every listed match from the cutoff on |
| ArchiveListing.RefreshWritesOnlyRecent | backend/app/historical_ingestion.py:344-351 | a refresh writes no match listed with a time before the cutoff |
| AdminLogPolling.EventStore.PersistEntries | backend/app/rcon_admin_log_storage.py:106-194 | events_inserted + duplicate_events = events_seen, and the rows are the insert-if-absent fold |
| AdminLogPolling.PersistedStores | backend/app/rcon_admin_log_storage.py:141-176 | a key is stored after a batch exactly when it was before or the batch holds it |
| AdminLogPolling.BatchesJoin | backend/app/rcon_admin_log_storage.py:106-194 | however a feed is cut into batches the same rows are stored in the same order |
| AdminLogPolling.EventStore.RefreshOnce | backend/app/rcon_current_match_worker.py:58-144 | refused without a lookback or targets; otherwise each target is an item with every entry fetched from it, or an error, in order, and the totals are those of the entries fetched and the rows added |
| AdminLogPolling.EachTargetIsAccounted | backend/app/rcon_current_match_worker.py:58-144 | the targets that answer are the items and the rest are the errors |
| AdminLogPolling.AddedRowsAreFetched | backend/app/rcon_admin_log_storage.py:141-176 | a row that a batch adds is its first entry of a key that was not stored |
| AdminLogPolling.EventStore.RefreshLoop | backend/app/rcon_current_match_worker.py:155-209 | the loop refuses a non-positive interval or cap, and is otherwise its refreshes one after another, up to the cap or, without one, up to the interrupt |
| AdminLogPolling.CyclesStore | backend/app/rcon_current_match_worker.py:93-144 | over any cycles, whichever targets fail, an event is stored once, and exactly when some cycle fetched it |
| AdminLogPolling.OverlappingPollsAreOneFetch | backend/app/rcon_current_match_worker.py:93-110 | polls at most one lookback and one second apart, in whole seconds, store exactly what one fetch of the whole time would, in the same order |
| AdminLogPolling.StoredIffCovered | backend/app/rcon_current_match_worker.py:93-110 | at whatever distance polls are made, an event is stored once, and exactly when some poll covers an entry of its key |
| AdminLogPolling.NoGapIff | backend/app/rcon_current_match_worker.py:93-110 | two polls lose no whole second between them exactly when the second comes at most a lookback and one second after the first |

## Left out

- SQL, schema creation, connections, transactions and the SQLite/PostgreSQL split: each table is its rows, each statement its effect on them.
- RCON, A2S and HTTP clients, configuration, logging, sleeping and the command lines: what they return is a parameter, a failure is an outcome.
- Parsing of AdminLog messages: events are modelled after parsing. Missing, null and empty payload texts are one value, the empty text, since the code only tests their truth.
- Text normalisation (map names, player names, canonical messages, letter case, white space) is a function parameter; canonical messages are given with the row.
- Time zones and daylight saving: instants are local wall-clock seconds with 24-hour days, and month and week starts are inputs of the retention plan.
- References hashed for reports, rounding, ratios, JSON rendering, sanitised examples and the map-mismatch counters of the boundary audit.
- The binary layout of heapq: the heap is held as its contents in order, which is all its pops reveal. Python's sorts are a stable insertion sort.
- The order in which Counter entries and dictionaries are listed, except where the code's result depends on it.
- SweepAudit.ScanTargetEvents: the metrics map keeps the last match of a repeated match key, as the dictionary does; the contract speaks of that match.
- ActiveTime.WasConnectedAtMatchStart: the LIKE pattern on the stored payload is modelled as equality of the player id.
- BoundaryPairing.ClosedMatchesAreDisjoint: speaks of rows with a server time; rows with a null one have no place in time.
- LinkAssignment.ExactLinksAreInEveryStableAssignment: one edge per board and match, as the scoring produces.
- HistoricalMerge.HistoricalStore.NormalizeIdentities: integer columns are held as their text and float columns as reals, and updated_at is not kept.
- Retention.PlanMatchCleanup: recent_matches_keep and the batch size are taken as positive: zero falls back to the default, and a negative value is not modelled; missing tables are not modelled, and texts of the rows are already stripped.
- CurrentMatch.CurrentRoster.ApplyKill: a kill credited to an entry detached while the same row is processed is lost from the roster, as in the code, so kills of players known only by name are not conserved.
- CurrentMatch.CurrentPlayer.AddStat: counters at zero are held as missing ones; the choice of rows, their serialisation and the sorting of the result are not modelled.
- Sessions.WindowsAreTheRuns: a sample that arrives out of time order moves last_seen_at back, as in the code; only the conservation of samples is proved for such feeds.
- Scheduler.PublicScheduler.RunCycle: the configuration does not change between cycles and a callback that raises completes nothing.
- Scheduler.PublicScheduler.RunHistoricalRefresh: of a historical refresh only the refresh of the recent matches is modelled; the capture, the fallback and the other snapshots decide how each try ends, which is an input. A run of the loop logs it under its start, so a poll may follow the refresh itself by less than an interval.
- Ingestion.RunKeepsSound: one server and one bootstrap row over an archive that does not change, pages of one size, and one detail per match id when a start page before the checkpoint is given; page and match totals and the run table are not modelled.
- Ingestion.BackfillStore.UpsertMatch: players are known by their row id and the map id is one of the columns; the player and map tables, and the folding of player identities inside the same initialisation, are not modelled. A run reads the clock once.
- Ingestion.BackfillStore.Prepare: the normalisations before reads and before the run table's writes are left out, since repeating one changes nothing.
- Ingestion.ExhaustedIsCompleteIff: speaks of archives that give one detail per match id; otherwise a later detail may take a match out of a shared identity again.
- ArchiveListing.RefreshMissesNothingRecent: speaks of archives that list the newest match first; the overlap that chooses the cutoff is an input.
- AdminLogPolling.OverlappingPollsAreOneFetch: instants are whole seconds, and a fetch returns every entry of its lookback.
- AdminLogPolling.EventStore.RefreshLoop: profile snapshots are not modelled; a batch whose write fails is rolled back and counts as a failed fetch.
- The HTTP server, the frontend, leaderboards, snapshot generation, the A2S packet reader and source policies would only add one-branch members.
