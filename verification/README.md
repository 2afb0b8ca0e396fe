# Verification of OpenBrain's identity, review, token and migration logic

A Dafny model of the parts of OpenBrain whose correctness is hardest to see by reading one function:
services that update several tables together, protocols whose steps interleave, and algorithms whose
result is only right for a global reason. `dafny verify dfyconfig.toml` checks everything.

A service that updates rows in place is a method of a class holding those rows as fields. It is proved
to make a specified new state, and the specification functions carry the theorems over all runs. A
method that does no more than that (a rename, an alias, one insert) has no row below; the lemmas about
its specification do. A lemma that only spells a definition out case by case has none either. Pure
scoring rules are functions; loops stay loops. Whatever only the database decides (the order in which a
statement returns rows, a fresh id, which of several equally deep partners `limit 1` reports) is
universally quantified.

| modules | what they model |
|---|---|
| `Identity`, `IdentityRuns`, `MergeUndo`, `UndoHistory`, `IdentityStore`, `Surfaces` | soft merges: a union-find in a table, with path compression, an audit log that undo reads back, a candidate table, and the names a row is found by |
| `Lineage`, `LineageRuns`, `LineageFails`, `SmallRuns` | the recursive query that finds the pair a human judged, over every run, and runs in which it misses |
| `SplitBindings` | the hard rewrite of mentions and claims behind a split |
| `QueueCap`, `DedupPlan`, `PlanQueue`, `DedupApply`, `ListOrder`, `Unions`, `PlanListings`, `HeldPairs`, `BatchRuns` | the batch dedup planner, its greedy queue cap, what applying a plan does to the identity tables, when the order of its merges matters, and which rows it can bring together |
| `JaroMatching`, `Jaro`, `Scoring`, `ScoringAgrees` | Jaro-Winkler over arrays, and the two match scorers compared |
| `JsonScan` | recovering a JSON object from model output (sections 4 and 7 of RFC 8259) |
| `OAuthTokens`, `RefreshRace`, `RevocationCache` | refresh-token families (section 6 of RFC 6749, section 4.14.2 of RFC 9700), one request at a time and overlapping, and the watermark read through a cache |
| `Reviews`, `CandidateRace`, `ClaimSupport`, `DeleteRace` | claim-then-dispatch resolution; confirming a merge candidate in two steps; claims under deletion, superseding and retraction, and under deletions that overlap |
| `MigrationLedger` | the schema ledger under crashes, upgrades and rollbacks |

## Where the code and its own account of itself differ

The model follows the code. Each property below is false in general and holds exactly under the
condition given; a run that breaks it is stated as a lemma.

- `unmerge_entity` says a loser that pointed at the winner on its own is left alone
  (`web/openbrain/brain/services/entities.py:880-883`). A compression logged before that row was
  unmerged and merged again still matches, and drags it away (`UndoHistory.StaleCompressionDrags`). The
  promise holds if and only if no compression through the unmerged row was overtaken by a later entry
  of another origin with the same survivor (`LeavesOthersAloneIff`). A merge undone at once cancels if
  and only if no row stands where an older compression through its loser put it
  (`MergeThenUnmergeIff`). Pointers stay one level deep in any case.
- An unmerge stamps every row it restores with one and the same `before.merged_into`. That is wrong
  exactly when a compression through the unmerged row left its target on a survivor the row itself has
  since been moved away from (`UndoHistory.UnmergeBeforesTrueIff`, `RestoredBeforeIsWrong`). The `after`
  values always replay correctly.
- The lineage walk is to find the pair that was actually judged
  (`web/openbrain/brain/services/entities.py:909-919`). It reports the ends of the longest chains of
  compressions, 32 steps at most, so it is right if and only if none of these ends elsewhere
  (`WalkEndsAtJudgedIff`). Before the first unmerge of all, that means at most 32 compressions
  (`FirstUnmergeIff`). Afterwards a single outdated compression can mislead it, and so can a row's own
  compressions when they run in a circle (`OutdatedLineageStrandsThePair`, `LoopMisleads`). A row that
  since its last merge went on to new survivors only is not misled, up to 32 of them (`NewSurvivorsIff`).
- A merge promises that a search by any historical surface form still resolves
  (`web/openbrain/brain/services/entities.py:110-111`). Renaming a merged row to a name its survivor
  lacks, and restoring a row with names the unmerged row lacks, are the two calls that break this
  (`StepKeepsSearchableIff`, `RenameHides`, `UnmergeHides`).
- A merge reports whether it appended an alias by comparing the sizes of two arrays
  (`web/openbrain/brain/services/entities.py:113-128`). A winner minted by the resolver lists its own name
  among its aliases, and the merge drops that entry: it takes two new forms before such a merge reports an
  alias (`AliasAppendedIff`, `GainIsNotReported`).
- A split says its audit row is enough to reverse it by running it back
  (`web/openbrain/brain/services/entities.py:334-340`). Running it back restores the tables if and only
  if the target owned nothing in scope (`SplitBackRestoresIff`,
  `SplitBackFails`).
- The planner walks over a Python set of candidate pairs, and the tables the batch leaves can depend on
  the order of that walk. They do not if and only if every loser of the merges left to apply has a winner
  that never loses and that all its other winners lose to (`HeldPairs.BatchOrderIff`). Three organisations
  of which one bears a name of each of the others end differently with the default scorer, which has no
  contested gate (`BatchRuns.TwoWinners`).
- Holding back a pair a human ruled on does not always keep the two apart
  (`web/openbrain/brain/management/commands/dedup_entities.py:18-20`). Some walk unites them if and only if
  the merges that are left lead from both to one row (`BatchMayUniteIff`); in a gated plan, where no other
  pair of the two is held, exactly when the lower one loses to a third row as well (`HeldPairUnitedIff`).
  Of three organisations that share a name, two that were kept apart are united on every walk
  (`BatchRuns.VerdictOverruled`).
- A merge candidate that is rejected after `resolve_merge_candidate` has read it is merged all the
  same, while its row keeps the other verdict (`CandidateRace.ConfirmStampsIff`, `RejectedAndMerged`).
- A soft delete is to retract the claims it leaves without a live source. When deletions overlap, a claim
  stays asserted without one if and only if all its live sources are gone and no deletion looked after all
  the others were, each counting on another (`DeleteRace.StrandedIff`, `TwoStrand`).
- A refresh token is for one use (`web/openbrain/oauth/grants.py:3-6`), but a request reads it, saves its
  successor and revokes it in three statements. Any number of requests leave a family with one live token
  if and only if no token was redeemed twice (`RefreshRace.OneLiveIff`, `BothRedeem`). Revoking a family is
  to stop any further refresh (`web/openbrain/oauth/services.py:34-35`); a request already under way may
  still save its token, and the family is alive again if and only if one was saved into it after that
  (`AliveAgainIff`, `RenewedAfterDisconnect`). One request at a time, both promises hold
  (`OAuthTokens.RunKeepsLineages`).
- Disabling a user promises that even a still-valid access token is rejected
  (`web/openbrain/oauth/services.py:70-74`). A client whose refresh tokens were all revoked before gets
  no watermark, so its access tokens live on (`DisableUser`, `DisabledUserKeepsAccess`).
- `migrate` refuses a volume that was never baselined, because applying every entry would re-run the
  whole spine (`web/openbrain/mcp/ledger.py:78-79`). `baseline` creates the table and stamps it in two
  transactions; a crash between them disables that refusal (`HalfBaselineIsNotRefused`), and it is the
  only step that can (`StepKeepsCoherentIff`). How far the next migrate then gets depends on the files.
  With the shipped ones it repeats file 01 and stops at 02, which creates a table whose name is taken
  (`init/02-thoughts.sql:7`). Running `baseline` again first repairs the ledger (`BaselineRepairs`).

## Model

| member | source | states |
|---|---|---|
| `IdentityRuns.RunKeepsInv` | web/openbrain/brain/services/entities.py:80-190 | in every run of merges, unmerges, renames, alias appends, splits, resolver calls and queue writes, stale compressions included, every `merged_into` target is a live, different row of the same kind, and replaying the logged `after.merged_into` values in order gives every current pointer |
| `IdentityRuns.StepKeepsInv` | web/openbrain/brain/services/entities.py:63-197 | the same for one call of any service, including calls that raise |
| `IdentityRuns.OneHopIsTheWholeChase` | web/openbrain/brain/services/entities.py:125-164 | after any run, following pointers any number of times ends where one hop ends, at a live row of the same kind: `coalesce(merged_into, id)` is a full chase |
| `IdentityRuns.MergeUnitesTwoClasses` | web/openbrain/brain/services/entities.py:130-164 | a merge joins the class of the loser to the class of the winner, two classes that were different, and regroups no other row |
| `IdentityRuns.UnmergeSplitsOffOneClass` | web/openbrain/brain/services/entities.py:872-896 | an unmerge puts the row and everything it restores into one class of their own and regroups nothing else |
| `IdentityRuns.MergeBeforesTrue` | web/openbrain/brain/services/entities.py:153-190 | every audit row a merge writes records the pointer its target really had before the call |
| `MergeUndo.LastFirstUndo` | web/openbrain/brain/services/entities.py:130-176 | from any history in which, before each merge, no row stands where an older compression through its loser put it and none leads from the winner back past the loser: unmerging the losers, last merge first, restores the whole pointer map, and every candidate row those merges stamped is pending again, every other row unchanged |
| `MergeUndo.UndoFromEmptyLog` | web/openbrain/brain/services/entities.py:875-951 | the same from an empty log, row by row: listed pairs end pending, unlisted pairs keep their status |
| `MergeUndo.UndoGoesThrough` | web/openbrain/brain/services/entities.py:850-872 | from any state whatever that undo never gets stuck: each of its unmerges finds its row merged |
| `MergeUndo.MergeThenUnmergeIff` | web/openbrain/brain/services/entities.py:872-896 | for any history: a merge followed at once by its unmerge restores the pointer map if and only if no row already stands where an old compression through the loser had put it; the other rows are named exactly |
| `MergeUndo.SettledIsClear` | web/openbrain/brain/services/entities.py:141-164 | a history whose compressions concern no row that is live again, an empty log for one, meets that condition for every run of merges |
| `UndoHistory.LeavesOthersAloneIff` | web/openbrain/brain/services/entities.py:880-896 | in every reachable state, the promise that an unmerge leaves alone what stands where it does on its own holds if and only if no compression through the unmerged row was overtaken by a later entry of another origin that wrote the same survivor |
| `UndoHistory.StaleCompressionDrags` | web/openbrain/brain/services/entities.py:880-896 | the run merge(0,1), merge(1,2), unmerge(0), merge(0,2), unmerge(1) drags row 0 back to 1 although it had been merged into 2 on its own |
| `UndoHistory.UnmergeBeforesTrueIff` | web/openbrain/brain/services/entities.py:897-951 | in every reachable state, the audit rows of an unmerge record true old pointers if and only if no compression through the row left a target behind on a survivor that the row itself has since been moved away from |
| `UndoHistory.RestoredBeforeIsWrong` | web/openbrain/brain/services/entities.py:897-907 | a run of seven calls whose last one records a pointer the restored row did not have |
| `UndoHistory.RunKeepsSealed` | web/openbrain/brain/services/entities.py:141-190 | in every run each logged compression is followed by the merge that caused it |
| `Lineage.DecidedAreChainEnds` | web/openbrain/brain/services/entities.py:920-938 | in any state, the partners the recursive query may report are exactly the ends of the longest chains of compressions leading back from the present pointer, cut at 32 steps |
| `Lineage.StraightWalk` | web/openbrain/brain/services/entities.py:909-938 | on a trail that repeats nothing and that no compression leads away from, the query reports its start if and only if it has at most 32 steps |
| `LineageRuns.RunKeepsTrails` | web/openbrain/brain/services/entities.py:141-190 | in every run each row's survivors since its last merge, cut back by restores, form a path whose every step is a logged compression and which ends at the present survivor; without an unmerge they are distinct, start at the judged partner, and account for every compression |
| `LineageRuns.WalkEndsAtJudgedIff` | web/openbrain/brain/services/entities.py:909-938 | so, in every reachable state, the query reports the partner the row was last merged with, and nothing else, if and only if no longest chain of its compressions ends anywhere else |
| `LineageRuns.StraightTrailIff` | web/openbrain/brain/services/entities.py:909-938 | in every run, for a row whose trail starts at that partner, repeats nothing and is all its compressions lead to: if and only if the trail has at most 32 steps |
| `LineageRuns.NewSurvivorsIff` | web/openbrain/brain/services/entities.py:909-938 | in every run, unmerges included, for a row that since its last merge was neither restored nor unmerged and moved only to survivors no compression of it had led to before: the query reports the partner of that merge if and only if the row was compressed at most 32 times since |
| `LineageRuns.FirstUnmergeIff` | web/openbrain/brain/services/entities.py:909-938 | in every run before the first unmerge: if and only if the row was compressed at most 32 times |
| `LineageRuns.UnmergeReopensTheJudgedPairIff` | web/openbrain/brain/services/entities.py:909-951 | unmerging restamps the judged pair's candidate row and no other, whatever the database reports, if and only if no longest chain ends elsewhere; otherwise some report names another pair |
| `LineageFails.OutdatedLineageStrandsThePair` | web/openbrain/brain/services/entities.py:909-951 | a run of five calls after which the judged pair's row stays on merged although its row is live again; it was compressed once |
| `LineageFails.LoopMisleads` | web/openbrain/brain/services/entities.py:917-938 | a row merged once and standing at that very partner, compressed three times in a circle, is reported with another |
| `LineageFails.CompressedAnyNumberOfTimes` | web/openbrain/brain/services/entities.py:933-938 | from live rows, for every n a run of merges compresses a row n times, and the query then reports the partner it was judged with if and only if n is at most 32 |
| `IdentityStore.Tables.MergeEntities` | web/openbrain/brain/services/entities.py:200-214 | raises the first failing guard and changes nothing, or makes the whole of the merge's new state: afterwards a form is an alias of the winner exactly when it is not its name and was its alias or a form of the loser, and the call reports an alias exactly when the winner has more of them than before, with that condition on the rows it was given |
| `IdentityStore.Tables.ApplyMerge` | web/openbrain/brain/services/entities.py:107-197 | alias, pointer, compression, candidate and audit updates, one after the other, add up to the specified merge, whatever row order the database chooses |
| `IdentityStore.Tables.UnmergeEntity` | web/openbrain/brain/services/entities.py:850-966 | raises and changes nothing, or makes the whole of the unmerge's new state for some row order and one of the deepest partners |
| `IdentityStore.Tables.Lineage` | web/openbrain/brain/services/entities.py:909-939 | the round-by-round recursive query, run over the log already extended by this call, reports a partner of the specified walk |
| `Surfaces.RenameAddsOneName` | web/openbrain/brain/services/entities.py:217-277 | a rename raises exactly on a blank name or an unknown row; otherwise it adds one name, keeps the old one as an alias, drops the new one from the aliases, logs both names if they differ, and changes no pointer, no candidate and no other row |
| `Surfaces.SplitKeepsRows` | web/openbrain/brain/services/entities.py:432-493 | a split goes through exactly between two different live rows, or from a live row to a minted one, keeps every row it found, mints the row it was asked for, of the source's kind if none was given, and logs exactly when something moved |
| `Surfaces.MergedAliasesIff` | web/openbrain/brain/services/entities.py:113-128 | after a merge a form is an alias of the winner if and only if it is not the winner's name and it was the winner's alias, the loser's name or the loser's alias |
| `Surfaces.AliasAppendedIff` | web/openbrain/brain/services/entities.py:113-128 | the merge grows the winner's alias set if and only if the loser has a form the winner lacks; two such forms are needed when the winner lists its own name among its aliases, as rows minted by the resolver do |
| `Surfaces.GainIsNotReported` | web/openbrain/brain/services/entities.py:113-128 | merging any row without further aliases into such a winner adds an alias and reports none |
| `Surfaces.MergedRows` | web/openbrain/brain/services/entities.py:130-164 | after a merge the loser and the rows that pointed at it point at the winner; no other pointer, kind, name or alias set changes |
| `Surfaces.MergedCandidates` | web/openbrain/brain/services/entities.py:166-176 | a merge stamps the pending row of its own pair and no other |
| `Surfaces.UnmergedRows` | web/openbrain/brain/services/entities.py:872-951 | an unmerge frees its row, gives it back exactly the rows a logged compression took from it and that still stand there, and reopens at most the merged row of the reported pair |
| `Surfaces.MergePassesSurfaces` | web/openbrain/brain/services/entities.py:110-128 | a merge leaves the winner with exactly the surface forms of the two and takes none from anyone |
| `Surfaces.RunKeepsSurfaces` | web/openbrain/brain/services/entities.py:855-861 | over every run, unmerges included, no row loses a surface form |
| `Surfaces.StepKeepsSearchableIff` | web/openbrain/brain/services/entities.py:110-128 | a search by any surface form of a merged row finds its survivor, and a call keeps that so if and only if it is not the rename of a merged row to a name its survivor lacks, nor an unmerge restoring a row with names the unmerged row lacks |
| `Surfaces.RunKeepsSearchable` | web/openbrain/brain/services/entities.py:110-128 | so it stays true over every run without such calls |
| `Surfaces.RenameHides` | web/openbrain/brain/services/entities.py:217-277 | renaming any merged row to a name nobody has hides that name from searches |
| `Surfaces.UnmergeHides` | web/openbrain/brain/services/entities.py:880-896 | a run of five calls whose last, an unmerge, restores a row to one that lacks a name of it |
| `IdentityStore.Tables.ResolveOrCreate` | web/openbrain/brain/services/entity_resolver.py:77-181 | reuse above 0.85; above 0.55 the second-stage match score of the surface against the best row decides between auto-merge and provisional bind; mint otherwise; the entity it binds to is live afterwards |
| `Surfaces.ResolveReuses` | web/openbrain/brain/services/entity_resolver.py:103-109 | above 0.85 the surface becomes an alias of the best row and nothing else changes |
| `Surfaces.ResolveVerifies` | web/openbrain/brain/services/entity_resolver.py:111-177 | between 0.55 and 0.85 a second score below 0.92 changes nothing; from 0.92 on a row named after the surface is minted and merged into the best row, which gains the surface, with candidate and audit row |
| `Surfaces.ResolveMints` | web/openbrain/brain/services/entity_resolver.py:179-181 | otherwise a live row is minted whose name and only alias is the surface |
| `SplitBindings.SplitConservesMentions` | web/openbrain/brain/services/entities.py:342-361 | an experience-scoped split keeps the (experience, surface, field) bindings of source and target together, empties the source in scope, and changes no mention outside, target rows keeping their own creation time |
| `SplitBindings.SplitMovesClaims` | web/openbrain/brain/services/entities.py:364-394 | a claim with no source row in the experiences is unchanged; for any other the source is on neither side afterwards and each former occurrence of it is the target |
| `SplitBindings.SplitMovesClaimsOfOne` | web/openbrain/brain/services/entities.py:688-730 | the same for the claims of one experience, mentions untouched |
| `SplitBindings.SplitKeepsTimes` | web/openbrain/brain/services/entities.py:342-361 | a moved mention keeps its creation time unless the target had that very mention already, which keeps its own |
| `SplitBindings.SplitOneMention` | web/openbrain/brain/services/entities.py:538-563 | a mention-scoped split moves that binding and nothing else, a co-mention of the source in the same experience included |
| `SplitBindings.SplitBackRestoresIff` | web/openbrain/brain/services/entities.py:334-361 | splitting back over the same experiences restores mentions, their times and claims exactly if and only if the target owned nothing in scope before; a minted target never does |
| `SplitBindings.SplitBackFails` | web/openbrain/brain/services/entities.py:342-361 | the smallest split that running back does not undo |
| `SplitBindings.MentionsComeBack` | web/openbrain/brain/services/entities.py:347-361 | the mention half of it |
| `SplitBindings.ClaimsComeBack` | web/openbrain/brain/services/entities.py:364-394 | the claim half of it |
| `SplitBindings.Tables.RepointEntityReferences` | web/openbrain/brain/services/entities.py:324-419 | insert, delete and two updates in place make the specified rewrite; one audit row exactly when something moved |
| `SplitBindings.Tables.RepointSingleMention` | web/openbrain/brain/services/entities.py:516-588 | the one-mention rewrite, claims untouched |
| `SplitBindings.Tables.RepointClaimsInExperience` | web/openbrain/brain/services/entities.py:688-755 | the one-experience claim rewrite, mentions untouched |
| `QueueCap.CapQueue` | web/openbrain/brain/services/dedup.py:156-166 | the counting scan over the sorted queue keeps exactly the greedy selection |
| `QueueCap.SortRanks` | web/openbrain/brain/services/dedup.py:159-160 | the sort ranks by score, then ids, and loses nothing |
| `QueueCap.GreedyFeasible` | web/openbrain/brain/services/dedup.py:156-166 | no entity keeps more than five pairs |
| `QueueCap.DroppedIsBlocked` | web/openbrain/brain/services/dedup.py:161-165 | a dropped pair has an endpoint that five pairs ranked no worse had already filled |
| `QueueCap.GreedyIsHalfOptimal` | web/openbrain/brain/services/dedup.py:156-166 | no other selection under the cap has more than twice the kept total score |
| `QueueCap.Potential` | web/openbrain/brain/services/dedup.py:156-166 | the potential argument behind it, for every prefix of the ranking |
| `DedupPlan.PlanDedup` | web/openbrain/brain/services/dedup.py:213-285 | over any listing of within-kind candidate pairs: the surviving merges, and the capped queue of the pairs WaitingIff names |
| `PlanQueue.WaitingIff` | web/openbrain/brain/services/dedup.py:252-283 | before the cap a triple waits if and only if it is a candidate pair with its score, below the merge bar, that reaches the floor or is two people sharing a form, or it is a proposal demoted for an abbreviation with two winners or, with the gate on, for an unjoined third partner |
| `PlanQueue.MergedIff` | web/openbrain/brain/services/dedup.py:259-283 | a proposal survives if and only if all proposals of its abbreviation have its winner and, with the gate on, all partners of either side are joined with one another |
| `PlanQueue.ProposalsNameAbbreviations` | web/openbrain/brain/services/dedup.py:131-146 | a proposal carries the score of its pair, and names its loser as an abbreviation exactly when it joins two people and the loser has a form that abbreviates one of the winner's |
| `PlanQueue.EachPairOnce` | web/openbrain/brain/services/dedup.py:232-285 | for each listing of a pair at most one merge or queue entry comes out |
| `PlanQueue.CapDrops` | web/openbrain/brain/services/dedup.py:156-166 | the cap keeps the best first, five at most for an entity, and drops an entry only when one of its ends has five |
| `PlanQueue.PeopleSharingAreKept` | web/openbrain/brain/services/dedup.py:252-257 | no candidate pair of people that share a form is lost: it is proposed or waits |
| `PlanQueue.NamesakesAreQueued` | web/openbrain/brain/services/dedup.py:252-257 | two people with one and the same form are queued under either scorer, at 0 under the default one, when neither has more than five entries waiting |
| `DedupPlan.ContestedEntities` | web/openbrain/brain/services/dedup.py:169-202 | finds exactly the entities with two merge partners that do not merge with each other |
| `DedupPlan.AmbiguousSubsets` | web/openbrain/brain/services/dedup.py:259-265 | finds exactly the abbreviations claimed by two different winners |
| `DedupPlan.Demote` | web/openbrain/brain/services/dedup.py:271-283 | moves to the queue exactly the merges touching an ambiguous abbreviation or, with the gate on, a contested entity |
| `DedupPlan.BeatsIsStrictTotalOrder` | web/openbrain/brain/services/dedup.py:205-210 | the winner choice is the maximum of a strict total order and does not depend on the order of its arguments |
| `DedupPlan.WinnerIff` | web/openbrain/brain/services/dedup.py:205-210 | more aliases win, then the longer name, then the lower id |
| `DedupPlan.ProposalsAreOriented` | web/openbrain/brain/services/dedup.py:232-250 | each proposal comes from a candidate pair at the merge bar and joins two different entities of one kind |
| `DedupPlan.SurvivorsFormCliques` | web/openbrain/brain/services/dedup.py:169-202 | with the gate on, two surviving merges that share an entity are closed by a third: the survivors are disjoint cliques |
| `DedupPlan.SurvivorsPointUp` | web/openbrain/brain/services/dedup.py:205-210 | each surviving merge points at the member that beats the other |
| `DedupPlan.JoinsKept` | web/openbrain/brain/services/dedup.py:271-283 | a merge survives exactly when neither side is contested |
| `DedupApply.ApplyMerges` | web/openbrain/brain/management/commands/dedup_entities.py:186-201 | runs the merges in list order skipping those that raise, each counted merge retiring exactly one live row |
| `DedupApply.CliqueCollapses` | web/openbrain/brain/management/commands/dedup_entities.py:186-201 | applying disjoint uphill cliques in list order leaves each clique's top live and every other member pointing directly at it |
| `DedupApply.OthersStayLive` | web/openbrain/brain/management/commands/dedup_entities.py:186-201 | an entity in no merge stays live |
| `DedupApply.PlanCollapsesCliques` | web/openbrain/brain/services/dedup.py:267-285 | planner and application together, for any order of the surviving merges: every entity ends at the live top of its clique, which beats all it was joined with |
| `DedupApply.FsKeepsAbbreviationsLow` | web/openbrain/brain/services/probabilistic.py:114-122 | the Fellegi-Sunter scorer has the gate on and keeps abbreviations below its merge bar |
| `DedupApply.FsBatchCollapsesCliques` | web/openbrain/brain/management/commands/dedup_entities.py:186-201 | so the batch run with that scorer collapses every surviving clique onto its top |
| `DedupApply.ApplyQueue` | web/openbrain/brain/management/commands/dedup_entities.py:203-214 | inserts the queue pair by pair and counts the rows that are new |
| `DedupApply.QueueingKeepsVerdicts` | web/openbrain/brain/management/commands/dedup_entities.py:77-86 | afterwards every queued pair has a row, every row that existed keeps its status, and nothing else changed |
| `ListOrder.OrderIsIrrelevantIff` | web/openbrain/brain/management/commands/dedup_entities.py:186-201 | for any merges that point up the planner's order, all orders of the list have the same outcome if and only if every loser has a winner that never loses and that all its other winners lose to |
| `ListOrder.OutcomeIsTop` | web/openbrain/brain/management/commands/dedup_entities.py:186-201 | then every entity ends at that winner, which stays live |
| `ListOrder.TornGoesBothWays` | web/openbrain/brain/management/commands/dedup_entities.py:196-200 | otherwise two orders of the same merges leave some entity in different places |
| `Unions.MayUniteIff` | web/openbrain/brain/management/commands/dedup_entities.py:186-201 | for any merges that point up the planner's order, some order of the list leaves two rows in one class if and only if the merges lead from both to one row, which may be one of the two |
| `PlanListings.WalksPermute` | web/openbrain/brain/services/dedup.py:233-258 | another walk over the same candidate pairs proposes, demotes and holds back the same merges |
| `PlanListings.EveryOrderIsAWalk` | web/openbrain/brain/services/dedup.py:233-285 | and every order of the merges left to apply is the order some walk gives them |
| `DedupPlan.ProposedIff` | web/openbrain/brain/services/dedup.py:233-252 | one row is proposed to lose to another exactly when they are a candidate pair at the bar and the other beats it |
| `HeldPairs.DropHeldPairs` | web/openbrain/brain/management/commands/dedup_entities.py:165-184 | holds a merge back if and only if some candidate row with a status other than pending and merged has ends that survive in its two rows; list order is kept |
| `HeldPairs.HeldKeysIff` | web/openbrain/brain/management/commands/dedup_entities.py:57-73 | the set of held pairs is exactly that: both dismissing verdicts count, each read at the survivors of its two ends |
| `HeldPairs.VerdictsFollowMerges` | web/openbrain/brain/management/commands/dedup_entities.py:57-73 | after any merge the verdicts are the former ones with the loser read as the winner, save those the merge made one row |
| `HeldPairs.StaleVerdictHolds` | web/openbrain/brain/management/commands/dedup_entities.py:57-73 | a verdict of either kind on (0, 1) holds (0, 2) back once 1 is merged into 2 |
| `HeldPairs.SiftsSplit` | web/openbrain/brain/management/commands/dedup_entities.py:179-184 | the two parts hold each merge exactly once, on the side its pair belongs to |
| `HeldPairs.BatchMayUniteIff` | web/openbrain/brain/management/commands/dedup_entities.py:123-157 | for the command with either scorer, whatever pairs have been ruled on: some walk over the candidate pairs ends with two rows in one class if and only if the merges left to apply lead from both to one row |
| `HeldPairs.HeldPairUnitedIff` | web/openbrain/brain/management/commands/dedup_entities.py:165-184 | for a gated plan with one pair held back, and no other held pair of the plan that has one of its rows: some walk still unites the two if and only if the lower one loses to a third row as well |
| `HeldPairs.BatchOrderIff` | web/openbrain/brain/management/commands/dedup_entities.py:123-157 | for the command with either scorer and any pairs held back: the tables it leaves are the same for every walk if and only if each loser left to apply has a winner that never loses and that all its other winners lose to |
| `HeldPairs.BatchTogetherIff` | web/openbrain/brain/management/commands/dedup_entities.py:165-201 | then two rows, a held pair or not, end together exactly when they have the same such winner |
| `BatchRuns.TwoWinners` | web/openbrain/brain/services/dedup.py:254-285 | three organisations, of which one bears a name of each of the others: with the default scorer one walk leaves it with the one, another with the other |
| `BatchRuns.VerdictOverruled` | web/openbrain/brain/management/commands/dedup_entities.py:165-184 | three organisations that share a name, two of them kept apart by a human: with either scorer every walk puts the two in one class |
| `JaroMatching.JaroMatches` | web/openbrain/brain/services/name_matching.py:119-132 | the flag-array scan computes the greedy matching: its size and both sets of matched positions |
| `JaroMatching.GreedyIsMaximum` | web/openbrain/brain/services/name_matching.py:119-132 | no windowed matching of equal characters is larger than the greedy one |
| `JaroMatching.MatchCountSymmetric` | web/openbrain/brain/services/name_matching.py:119-132 | the match count is the same with the strings swapped |
| `JaroMatching.GreedyIsStable` | web/openbrain/brain/services/name_matching.py:122-131 | every possible pair is matched or blocked by an earlier partner on one side |
| `JaroMatching.StableIsUnique` | web/openbrain/brain/services/name_matching.py:122-131 | there is only one such matching |
| `JaroMatching.ScanDirectionIrrelevant` | web/openbrain/brain/services/name_matching.py:119-132 | so scanning from either string finds the very same pairs |
| `Jaro.Transpositions` | web/openbrain/brain/services/name_matching.py:135-147 | the second pointer never leaves the string, and the result is half the number of matched characters out of order |
| `Jaro.JaroSimilarity` | web/openbrain/brain/services/name_matching.py:150-163 | computes the specified similarity over the greedy matching, 0 when nothing matches |
| `Jaro.JaroWinkler` | web/openbrain/brain/services/name_matching.py:166-176 | computes the specified boost |
| `Jaro.JaroFormula` | web/openbrain/brain/services/name_matching.py:150-163 | for unequal strings three times the similarity is m/|a| + m/|b| + (m - t)/m, with m characters found and t half of those out of order; 0 when m is |
| `Jaro.WindowIs` | web/openbrain/brain/services/name_matching.py:157-157 | the window reaches half the longer string less one, and is 0 for strings under four characters |
| `Jaro.PrefixIs` | web/openbrain/brain/services/name_matching.py:169-175 | the prefix counted is the longest common one, up to its limit |
| `Jaro.WinklerFormula` | web/openbrain/brain/services/name_matching.py:166-176 | the boost is a tenth of the missing similarity for each of up to four common leading characters |
| `Jaro.SwappedEndsScore` | web/openbrain/brain/services/name_matching.py:150-176 | `abcd` against `abdc` is 11/12, boosted 14/15 |
| `Jaro.JaroBounds` | web/openbrain/brain/services/name_matching.py:150-163 | Jaro lies in [0,1] |
| `Jaro.NoSingleMismatch` | web/openbrain/brain/services/name_matching.py:135-147 | a perfect matching of two equally long strings leaves no room for exactly one differing character |
| `Jaro.PerfectMatchIsEquality` | web/openbrain/brain/services/name_matching.py:135-147 | everything matched and fewer than two characters out of order means equal strings |
| `Jaro.JaroOneIffEqual` | web/openbrain/brain/services/name_matching.py:150-163 | Jaro is 1 exactly on equal strings |
| `Jaro.JaroWinklerBounds` | web/openbrain/brain/services/name_matching.py:166-176 | Jaro-Winkler lies between Jaro and 1 and is 1 exactly on equal strings |
| `Jaro.SimilaritySymmetric` | web/openbrain/brain/services/name_matching.py:150-176 | neither similarity depends on the order of the names |
| `Scoring.PersonScore` | web/openbrain/brain/services/name_matching.py:211-246 | containment first, then the running best over comparable full names |
| `Scoring.BestFullName` | web/openbrain/brain/services/name_matching.py:229-246 | the loops compute the maximum similarity over the comparable pairs, 0 if there is none |
| `Scoring.FindAbbreviation` | web/openbrain/brain/services/name_matching.py:214-219 | the double scan finds whether any form abbreviates one of the other side |
| `Scoring.AbbreviationIff` | web/openbrain/brain/services/name_matching.py:179-196 | a form abbreviates another exactly when it is one token, the other has more, the token among them, and some other token is not a generational suffix |
| `Scoring.ComparableIff` | web/openbrain/brain/services/name_matching.py:199-246 | two forms are compared exactly when their cores have the same number of tokens, two at least, differ, agree in their suffix and in every token holding a digit |
| `Scoring.PersonFeatures` | web/openbrain/brain/services/probabilistic.py:114-151 | containment first, then the strongest interpretation over all pairs of full names, the first of equals |
| `ScoringAgrees.BestReaches` | web/openbrain/brain/services/name_matching.py:229-246 | the best similarity reaches a positive bar exactly when some comparable pair does |
| `ScoringAgrees.StrongestIsMax` | web/openbrain/brain/services/probabilistic.py:128-151 | the interpretation kept has the largest total weight |
| `ScoringAgrees.ProbabilityCuts` | web/openbrain/brain/services/probabilistic.py:43-44 | the two probability cut-points are odds of 9 and 3/2 |
| `ScoringAgrees.PersonDecision` | web/openbrain/brain/services/probabilistic.py:101-151 | for people without abbreviations, reaching the two probability bars is having a best similarity of 0.92 and 0.75 |
| `ScoringAgrees.SameAutoMerges` | web/openbrain/brain/services/probabilistic.py:169-195 | for all kinds, names and aliases the two scorers auto-merge the same pairs |
| `ScoringAgrees.QueuesPartIff` | web/openbrain/brain/services/probabilistic.py:43-62 | the second scorer queues a subset of what the first does, and they part exactly for people without shared or abbreviated forms whose best similarity lies in [0.55, 0.75) |
| `ScoringAgrees.FullNameOdds` | web/openbrain/brain/services/probabilistic.py:72-151 | the total weight of two full names, each level, the numbers and the suffix with its own weight |
| `ScoringAgrees.OtherOdds` | web/openbrain/brain/services/probabilistic.py:72-195 | the total weight in every other case: different kinds, missing forms, other kinds, abbreviations |
| `ScoringAgrees.MergesAreNoAbbreviations` | web/openbrain/brain/services/name_matching.py:45-53 | an auto-merged pair of people contains no abbreviation |
| `ScoringAgrees.ScoreSymmetric` | web/openbrain/brain/services/name_matching.py:249-284 | the score does not depend on the order of the pair |
| `JsonScan.ExtractFirstObject` | web/openbrain/brain/extraction/openrouter_json.py:29-56 | returns the shortest slice from the first `{` whose brace depth outside strings is zero at its end, and nothing exactly when there is none |
| `JsonScan.OneSlice` | web/openbrain/brain/extraction/openrouter_json.py:29-56 | that slice is unique |
| `JsonScan.ObjectEndsWhereItBalances` | web/openbrain/brain/extraction/openrouter_json.py:38-67 | for every JSON object, layout and escapes included, the text first balances at the object's own end |
| `JsonScan.RoundTrip` | web/openbrain/brain/extraction/openrouter_json.py:29-67 | scanning (text without `{`) + (printed object) + (any text) returns exactly the printed object |
| `JsonScan.ValueStays` | web/openbrain/brain/extraction/openrouter_json.py:41-67 | scanning any printed value returns to the depth it started at and never goes below it |
| `OAuthTokens.RunKeepsLineages` | web/openbrain/oauth/server.py:42-56 | in every reachable state refresh strings are distinct, a family has one user and client and at most one unrevoked token; dead families stay dead and spent strings stay spent |
| `OAuthTokens.StepKeepsRevoked` | web/openbrain/oauth/grants.py:74-97 | no step removes a row, changes its owner, or revives it |
| `OAuthTokens.RedeemedOnce` | web/openbrain/oauth/grants.py:91-97 | once redeemed, a refresh string is refused as reused in every later state, whoever presents it |
| `OAuthTokens.ReplayKills` | web/openbrain/oauth/grants.py:74-86 | presenting a revoked string leaves its whole family without a live token |
| `OAuthTokens.ExchangeDoes` | web/openbrain/oauth/grants.py:52-66 | a code is redeemed exactly by its own client, verified, up to 300 seconds after it was issued: one token row more, of its user, and the code gone; otherwise nothing changes |
| `OAuthTokens.CheckIff` | web/openbrain/oauth/grants.py:69-97 | a refresh string unknown to the table is unknown; a known one is reuse if revoked, refused to another client, else rotated within its own family |
| `OAuthTokens.RefreshDoes` | web/openbrain/oauth/grants.py:69-97 | row by row: reuse stamps the family, another client changes nothing, rotation stamps the row and adds its successor |
| `OAuthTokens.KilledForGood` | web/openbrain/oauth/grants.py:74-97 | and after any further run every string of that family is still refused |
| `OAuthTokens.RevokeClientKills` | web/openbrain/oauth/services.py:43-64 | disconnecting stamps every row of every family of that user and client, sets that watermark, and changes no other row and no code |
| `OAuthTokens.NeverConnected` | web/openbrain/oauth/services.py:43-64 | disconnecting a client that never had a token changes nothing, the watermark included |
| `OAuthTokens.DisableUser` | web/openbrain/oauth/services.py:67-83 | after the cascade the user has no live refresh token; an access token issued before it is rejected exactly when its client still had a live refresh token or was already watermarked |
| `OAuthTokens.DisableDoes` | web/openbrain/oauth/services.py:67-83 | the cascade stamps the rows and watermarks of exactly the user's clients that had a live refresh token |
| `OAuthTokens.DisabledUserKeepsAccess` | web/openbrain/oauth/services.py:67-83 | a run in which reuse detection has killed the only session before the user is disabled: no watermark is written and no access token is rejected |
| `RefreshRace.AloneIsRefresh` | web/openbrain/oauth/grants.py:69-97 | uninterrupted, the separate statements of a refresh request are the refresh grant |
| `RefreshRace.DisconnectIsRevokeClient` | web/openbrain/oauth/services.py:43-64 | a disconnection does to the rows what it does with one request at a time |
| `RefreshRace.OneLiveIff` | web/openbrain/oauth/grants.py:74-97 | for any number of requests in every interleaving: a family that begins with one live token and is not revoked ends with one live token more than were handed out in excess of the tokens redeemed, so with exactly one if and only if no token was redeemed by two requests |
| `RefreshRace.AliveAgainIff` | web/openbrain/oauth/grants.py:79-97 | after the last replay or disconnection that revokes a family, the family has a live token again if and only if one was issued into it after that |
| `RefreshRace.BothRedeem` | web/openbrain/oauth/grants.py:74-97 | the smallest run that leaves two live tokens |
| `RefreshRace.RenewedAfterDisconnect` | web/openbrain/oauth/services.py:43-64 | a run in which a disconnection comes between the read and the save of a refresh, and the family is alive at rest |
| `OAuthTokens.Store.ExchangeCode` | web/openbrain/oauth/grants.py:52-66 | a code is redeemed by its own client within five minutes and once the challenge check passes, is then gone, and starts a new family; otherwise nothing changes |
| `OAuthTokens.Store.RefreshToken` | web/openbrain/oauth/grants.py:69-97 | the refresh steps in place make the specified rotation or reuse revocation |
| `OAuthTokens.Store.DisconnectClient` | web/openbrain/oauth/services.py:43-64 | the loop over families and the upsert make the specified revocation |
| `OAuthTokens.Store.DisableUserClients` | web/openbrain/oauth/services.py:67-83 | the loop over active clients makes the specified cascade and counts them |
| `RevocationCache.RunKeepsInv` | web/openbrain/mcp/auth.py:113-123 | in every interleaving every cached and in-flight answer is sound: 'revoked' is true of the table, 'not revoked' was true when its query began |
| `RevocationCache.RevocationTakesEffect` | web/openbrain/mcp/auth.py:23-36 | in every interleaving from the empty table: a verification begun at least one time to live after a watermark was written rejects each token issued before it, and one that rejects does so because of a written watermark of that subject and client that is later than the token |
| `RevocationCache.ReconnectedIsLetIn` | web/openbrain/mcp/auth.py:33-36 | a token no older than any watermark of its subject and client is never rejected, whatever the cache holds |
| `RevocationCache.RememberedForTtl` | web/openbrain/mcp/auth.py:113-123 | an answer written to the cache is taken by calls on the same token that begin within the time to live of the call that asked, and by no later one |
| `RevocationCache.Verifier.Revoked` | web/openbrain/mcp/auth.py:113-123 | an uninterrupted verification of the verifier object is the run clock, cache, table, cache of the interleaved system and returns that run's answer |
| `Reviews.RunKeepsOneHolder` | web/openbrain/brain/services/reviews.py:521-601 | a closed row is closed on behalf of exactly one call: in flight, successful, or lost to a crash |
| `Reviews.AtMostOneRepair` | web/openbrain/brain/services/reviews.py:521-601 | in any interleaving with crashes at most one dispatched repair commits |
| `Reviews.AppliedIffRepaired` | web/openbrain/brain/services/reviews.py:537-601 | without crashes and failed reopenings, a correction at rest is applied exactly when one repair committed |
| `Reviews.RejectedIffDismissed` | web/openbrain/brain/services/reviews.py:521-545 | in every interleaving the row says rejected exactly when some call dismissed it |
| `Reviews.Row.Resolve` | web/openbrain/brain/services/reviews.py:501-601 | an uninterrupted call is a legal run of the interleaved system that ends as reported, in each case: already closed, dismissed, repaired, or failed, the row then open exactly when the reopening succeeds |
| `CandidateRace.ResolveMergeCandidate` | web/openbrain/brain/services/reviews.py:604-683 | uninterrupted: succeeds exactly on a pending pair with a winner of the pair and a possible merge, then makes that merge and stamps the row; every error changes nothing |
| `CandidateRace.ConfirmStampsIff` | web/openbrain/brain/services/reviews.py:626-683 | for every interleaving of confirming calls, rejections and identity services: a confirmed call has merged the pair, and its row says merged if and only if no rejection of the pair took effect between the call's read and its merge |
| `CandidateRace.RejectedAndMerged` | web/openbrain/brain/services/reviews.py:626-683 | the run that fails: read, rejected, merged all the same |
| `ClaimSupport.RunKeepsSupported` | web/openbrain/brain/services/deletes.py:104-143 | over every run of deletes, superseding edits and retractions, each asserted claim with sources has a live source, or a superseded undeleted one that neither quotes nor infers it; polarity only moves to retracted, and from asserted unless a claim was retracted by hand |
| `ClaimSupport.DeleteRetractsExactly` | web/openbrain/brain/services/deletes.py:35-61 | deleting retracts a claim and logs it if and only if it was asserted, sourced here and now has no live source; the experience is marked and logged, nothing else changes, and deleting again changes nothing |
| `ClaimSupport.SupersedeRetractsExactly` | web/openbrain/brain/services/edits.py:130-304 | superseding retracts and logs a claim if and only if it was asserted and quoted in or inferred from the experience |
| `ClaimSupport.ParaphrasedRetractsExactly` | web/openbrain/brain/services/edits.py:256-304 | of the paraphrased claims exactly those asked for and still asserted are retracted |
| `ClaimSupport.RetractOneExactly` | web/openbrain/brain/services/edits.py:307-324 | retracting by hand retracts that claim and logs it unless it was retracted already |
| `ClaimSupport.SupersedeKeepsSupported` | web/openbrain/brain/services/edits.py:227-304 | superseding retracts enough to keep every asserted claim supported |
| `ClaimSupport.Tables.SoftDeleteExperience` | web/openbrain/brain/services/deletes.py:97-149 | the loop makes the specified deletion and returns each retracted claim once |
| `ClaimSupport.Tables.EditExperience` | web/openbrain/brain/services/edits.py:130-224 | the superseding branch and the paraphrase retractions in place; only paraphrased claims that were asked for are retracted |
| `ClaimSupport.Tables.RetractEach` | web/openbrain/brain/services/edits.py:307-324 | retracts each claim once, with its audit row |
| `DeleteRace.AloneIsSoftDelete` | web/openbrain/brain/services/deletes.py:97-149 | uninterrupted, reading, looking and committing are soft_delete_experience |
| `DeleteRace.StrandedIff` | web/openbrain/brain/services/deletes.py:104-143 | for any number of deletions in every interleaving: at rest a claim that had a live source is asserted without one if and only if all its live sources are gone and no deletion of a source looked after all the others were |
| `DeleteRace.AllLookFirst` | web/openbrain/brain/services/deletes.py:104-143 | if all look before any commits, a claim with two live sources or more is stranded once they are gone |
| `DeleteRace.OneAfterTheOther` | web/openbrain/brain/services/deletes.py:104-143 | if each commits as soon as it has looked, none ever is |
| `DeleteRace.TwoStrand` | web/openbrain/brain/services/deletes.py:104-143 | the smallest run that strands a claim |
| `MigrationLedger.ComputeMigrationStatus` | web/openbrain/mcp/boot.py:55-76 | pending, extra and out-of-order entries for any two lists, the last by its meaning (missing although a later entry is applied); in sync exactly when the two are equal as sets |
| `MigrationLedger.OutOfOrderIff` | web/openbrain/mcp/boot.py:62-73 | an entry is out of order exactly when it is missing and a later one is applied |
| `MigrationLedger.CleanIffPrefix` | web/openbrain/mcp/boot.py:62-73 | for a manifest without repeats, nothing extra and nothing out of order says exactly that the ledger is a prefix of the manifest |
| `MigrationLedger.Evaluate` | web/openbrain/mcp/boot.py:79-101 | lets the server boot exactly when the sets are equal, and advises migrating exactly when the ledger is a prefix |
| `MigrationLedger.StepKeepsCoherentIff` | web/openbrain/mcp/ledger.py:112-128 | a run keeps schema and ledger in agreement if and only if it is not a first baseline that dies between creating the table and stamping it |
| `MigrationLedger.RunKeepsPrefix` | web/openbrain/mcp/ledger.py:72-109 | over any sequence of crashed and completed runs of any mix of builds without that one step, the files that took effect are a prefix of the spine: each at most once, in order, only ever extended |
| `MigrationLedger.MigrateAdvances` | web/openbrain/mcp/ledger.py:82-109 | one run, cut after any number of transactions, runs exactly the next files; an older build or an un-stamped volume changes nothing |
| `MigrationLedger.CompletedRunIsInSync` | web/openbrain/mcp/ledger.py:99-109 | a completed run leaves the ledger equal to the manifest, and running again changes nothing |
| `MigrationLedger.HalfBaselineIsNotRefused` | web/openbrain/mcp/ledger.py:82-128 | a baseline that died before stamping switches off the refusal, and a migrate cut after any number of transactions runs that many files of the spine over again |
| `MigrationLedger.BaselineRepairs` | web/openbrain/mcp/ledger.py:112-128 | running baseline again to the end restores the agreement |
| `MigrationLedger.Volume.Migrate` | web/openbrain/mcp/ledger.py:72-109 | refuses un-stamped and diverged volumes, otherwise commits one transaction per entry |

## Left out

- IdentityStore.Tables.SplitEntity: whether a reference moved is its argument `moved`; which references move is SplitBindings, on tables of its own.
- IdentityStore.Tables.ResolveOrCreate: the ranking inside `brain.resolve_entity` is not modelled; it may return any live entity of the kind, with any score, or none. The normalisation of names is any function.
- DedupPlan.PlanDedup: blocking by shared tokens and MinHash is not modelled; any listing of within-kind pairs may be the candidate set, in any order.
- HeldPairs.BatchTogetherIff: which rows end together on every walk is settled where the walk does not matter; where it does, BatchMayUniteIff says which rows can end together.
- Scoring.PersonScore: normalisation by regular expression is not modelled; names arrive as token sequences.
- ScoringAgrees.SameAutoMerges: scores are rationals and `2.0**x` is any positive, strictly increasing function that gives the power of two at each natural number, so floating-point rounding is not modelled.
- Jaro.JaroSimilarity: computed in rationals, without floating-point rounding.
- OAuthTokens.RunKeepsLineages: one token request is one atomic step; overlapping refreshes are RefreshRace. Scopes, redirect addresses and JWT signatures are not modelled.
- RefreshRace.OneLiveIff: a disconnection and the exchange of a code are one event each, and a request that dies half-way is a run not at rest.
- OAuthTokens.Store.ExchangeCode: the outcome of the code-challenge check is an argument.
- RevocationCache.RevocationTakesEffect: wall-clock watermarks only move forward, and the cache key is the triple the code joins with spaces.
- Reviews.AtMostOneRepair: a commit whose outcome the caller never learns is not modelled, and a repair is one event whatever it does.
- ClaimSupport.RunKeepsSupported: each service is one transaction on its own; overlapping deletions are DeleteRace. Claims and sources are not added during a run.
- DeleteRace.StrandedIff: only soft deletes overlap; edits and retractions by hand in between are not modelled.
- MigrationLedger.RunKeepsPrefix: two migrate processes at the same time are not modelled; nor are the SQL files themselves and the bootstrap rows of a fresh volume.
- MigrationLedger.Volume.Baseline: the volume is taken to be at the build's own head, which the command cannot check.
- Alias arrays are sets: their order and repetitions are not modelled, nor are similarity and evidence columns, timestamps other than those a property needs, and entity metadata.
- Who may see or edit a row, argument parsing, and the error texts.
- `list_active_grants`, `get_usage`, the review-queue reads and `update_experience`: reads and field updates without a property beyond their own body.
- The one-off repair of older merge chains in `init/23`, the JWKS cache, embeddings and every network call.
- Views, templates, admin, MCP tool registration and settings.
