# Verification of the livrarr database layer

A Dafny model of the transactional state machines in livrarr's database crate,
with proofs of what they promise: the author-link worker protocol, identity
settlement and review cards, the startup repairs, author merging, and the
encodings that evidence is stored in.

A table is a map or a sequence of rows held by a class, and a method is one
transaction: it commits whole or returns with the tables as they were. Each
UPDATE or INSERT also has a function on table values, a method's contract ties
the new tables to it, and the theorems about whole runs are lemmas about
sequences of those values. Unique indexes are invariants, not part of the
representation, with three exceptions named under "Left out". Time is a number,
claim tokens are fresh numbers, and rows come in the order their query states.

| module | what it models |
|---|---|
| `LinkProgress`, `LinkRuns` | leases, claim tokens, the display-name compare-and-set; all runs of them |
| `LinkTables`, `LinkHistory`, `LinkStore` | author routes, candidates, dismissals; all runs of them; the transactions |
| `LinkAttempts` | the per-key attempts of an evidence generation |
| `AuthorNames`, `CandidateFold`, `MergeFold` | observed names; the review candidates and the whole link state of two merging authors |
| `AuthorMerge`, `AuthorUnion`, `AuthorRepair` | merging authors, without and with their link state; the startup repair of duplicates |
| `ReviewCards` | minting, dismissing, resolving and revoking review cards |
| `RouteGraph`, `Settlement`, `RouteAffirm` | identity routes and retry invalidation; settlement under optimistic generations; affirming a proposed route |
| `Contributors` | contributor ordinals and roles of a work |
| `ArticleCohorts`, `TitleHeal`, `StaleCard`, `KeyRecompute` | the title heal's graph search and rewrites, and a stale card; the key recompute |
| `SqlText`, `Staging`, `Cutover` | legacy identifiers staged, and activation of the unique index |
| `Fingerprint`, `Fnv`, `LinkCodec`, `RouteKeys` | the evidence fingerprint, FNV-1a at 128 bits (section 2 of draft-eastlake-fnv), cursors, author route keys |
| `Basics`, `Decimal`, `Utf8`, `Sorting` | shared vocabulary |

`dafny verify dfyconfig.toml` checks the whole project.

## What the proofs found

- A worker's claim is checked for its own author only. `record_candidates`
  inserts under the author id of each candidate, so a claim on one author can
  write rows of another; `LinkHistory.RecordStaysHomeIff` gives the exact
  condition.
- `merge_authors_tx` repoints `works.author_id` but neither
  `work_contributors` nor `primary_author_id`. The contributor key is ON DELETE
  RESTRICT, so a merge succeeds exactly when the loser is credited on no work
  (`AuthorMerge.Library.MergeAuthors`), the startup repair only when no loser is
  (`AuthorRepair.RepairAuthors` has the exact condition), and a primary-author link to the loser
  becomes NULL (`AuthorMerge.WorksSurvive`).
- A merge deletes a dismissed candidate of the loser where the survivor is still
  being asked the same question, so the dismissal is lost and the question stays
  open; `LinkHistory.DismissalHoldsIff` says exactly when a dismissal binds,
  `CandidateFold.OpenAfterIff` when a question is open after a merge.
- Removing the last route of a linked author leaves it `linked`
  (`LinkStore.RemovedLastStaysLinked`).
- A settlement writes the contributor of ordinal 0 as the work's author but
  numbers the contributor rows in the order of the command, a repeated author at
  its last place. The two agree exactly when that contributor is the first author
  who is not named again later (`Settlement.PrimaryAgreesIff`); commands with
  several contributors are ones the interface admits, the repository's own callers
  name one.
- A settlement checks who owns the routes of proposed cards, not those it writes,
  so it can make a second active owner (`Settlement.CommitKeepsOwnersIff`).
- A merge can make a dismissed question pending while the dismissal still binds
  (`LinkHistory.MergeAsksDismissedIff`, `LinkHistory.MergeCanAskDismissed`).
- A primary author that an author merge clears leaves a work that the title heal
  cannot decode, so the heal fails until it is set (`TitleHeal.Library.Heal`).
- A pending card of a kind that the cutover report does not count, a proposed
  route for one, holds activation up behind a ready run
  (`Cutover.UncountedCardHoldsUp`).
- The title heal stamps a card with the anchor's generation before the extra
  rise of an article-fold winner, so such a card starts out stale
  (`TitleHeal.CardIsCurrentIff`, `StaleCard.CardCanBeStale`).
- The key recompute can wait for ever although all recomputed keys differ: two
  works that want each other's key are skipped in every pass
  (`KeyRecompute.SwapNeverSettles`); it idles exactly when every work that is
  off its key waits for another (`KeyRecompute.PassIdleIffStuck`).
- The index named `idx_identity_routes_one_active_owner` is not a unique one, so
  inserting an active route that another work holds makes a second active
  owner (`RouteGraph.TwoActiveOwners`); `RouteGraph.OneOwnerKeptIff` says when one
  owner is kept.
- `merge_contributors` clashes with a parked ordinal only beyond a million
  positions; `Contributors.WorkContributors.Merge` has the exact condition,
  `Contributors.HugeRequestClashes` a request that clashes.

## Model

| member | source | states |
|---|---|---|
| `LinkProgress.ProgressTable.VerifyClaim` | crates/livrarr-db/src/sqlite_author_link.rs:216-233 | accepts exactly the token that owns a live lease of the claim's author and user |
| `LinkProgress.ProgressTable.EnsureProgress` | crates/livrarr-db/src/sqlite_author_link.rs:260-299 | the new row, or the old one pulled forward |
| `LinkProgress.ProgressTable.ClaimDue` | crates/livrarr-db/src/sqlite_author_link.rs:999-1059 | the batch is the first due authors by due time, each with its own fresh token and the display generation read with it |
| `LinkProgress.DueIsPicked` | crates/livrarr-db/src/sqlite_author_link.rs:1011-1026 | a due author, so also a dirty one without a live lease, is left out of a batch only if the batch is full of authors before it |
| `LinkProgress.ProgressTable.AdvanceProgress` | crates/livrarr-db/src/sqlite_author_link.rs:2008-2057 | accepted exactly under a live claim; the whole new row |
| `LinkRuns.AcceptedIff` | crates/livrarr-db/src/sqlite_author_link.rs:216-233 | in every run a token-bearing write is accepted if and only if an earlier batch handed that claim out, its lease has not run out, and nothing voided it since |
| `LinkRuns.ClaimsNeverInterleave` | crates/livrarr-db/src/sqlite_author_link.rs:1011-1047 | once a later claim of an author is issued, no write under an earlier one is accepted |
| `LinkRuns.OneIssuePerToken` | crates/livrarr-db/src/sqlite_author_link.rs:1028-1041 | a token is handed out once, to one author |
| `LinkRuns.VoidedClaimIsDead` | crates/livrarr-db/src/sqlite_author_link.rs:252-296 | whatever voids a claim - a user re-resolve, changed work evidence, a revocation, its own advance - voids it for the rest of the run |
| `LinkRuns.FreedStaysDue` | crates/livrarr-db/migrations/078_author_provider_linking_tables.sql:200-219 | a freed author is due at every later moment until a batch takes it |
| `LinkRuns.StaleAdvanceStaysDirty` | crates/livrarr-db/src/sqlite_author_link.rs:2018-2053 | a name that lands while a claim is out survives that claim's advance: the author ends dirty, not postponed, and claimable |
| `LinkRuns.NoLostWakeUp` | crates/livrarr-db/src/sqlite_author_link.rs:326-344 | if the dirty flag is clear, every earlier name observation was followed by a claim whose own advance cleared the flag |
| `LinkRuns.Tracks` | crates/livrarr-db/src/sqlite_author_link.rs:1028-1047 | a row always shows exactly the claim that stands on it |
| `LinkTables.StepKeepsValid` | crates/livrarr-db/migrations/078_author_provider_linking_tables.sql:22-99 | every transaction, merges included, keeps the unique keys of routes and candidates |
| `LinkHistory.RemovalHolds` | crates/livrarr-db/src/sqlite_author_link.rs:541-596 | in every run a route row keeps its tuple, its provenance rank never gets worse, and a removal is lifted only by its user's attach or pick of that tuple |
| `LinkHistory.RemovedTupleStaysRemoved` | crates/livrarr-db/src/sqlite_author_link.rs:1639-1666 | guarded writes, legacy ingestion and merges never give a removed tuple an active row |
| `LinkHistory.GuardLandsOrParks` | crates/livrarr-db/src/sqlite_author_link.rs:1601-1756 | guarded evidence becomes a verified active route of the author, or changes no route and is on record as a parked question |
| `LinkHistory.AttachLands` | crates/livrarr-db/src/sqlite_author_link.rs:541-596 | a user attach ends with the tuple active and user-picked, and touches no other tuple |
| `LinkHistory.PickAnswersGeneration` | crates/livrarr-db/src/sqlite_author_link.rs:2059-2118 | a pick closes the author's whole current generation and nothing else |
| `LinkHistory.DismissalHoldsIff` | crates/livrarr-db/src/sqlite_author_link.rs:2164-2207 | in every run a dismissal binds exactly as long as its author's dismissals are not revoked and no merge finds its question taken; it follows its author through merges |
| `LinkHistory.MergeCanDropDismissal` | crates/livrarr-db/src/sqlite_author_link.rs:2827-2847 | a merge that does: the survivor is still being asked, and the dismissed row is deleted |
| `LinkHistory.DismissedIsNotAskedAgain` | crates/livrarr-db/src/sqlite_author_link.rs:1814-1831 | while it binds, recording candidates makes no row of its question pending that was not pending before, whichever author merges brought it to |
| `LinkHistory.MergeAsksDismissedIff` | crates/livrarr-db/src/sqlite_author_link.rs:2807-2860 | a merge does not ask: under a standing dismissal of the survivor the question is open afterwards exactly when it was before, or the loser brings it open into the current generation |
| `LinkHistory.MergeCanAskDismissed` | crates/livrarr-db/src/sqlite_author_link.rs:2820-2860 | a merge that makes a dismissed question pending while the dismissal still binds |
| `LinkHistory.AnsweredStaysAnsweredIff` | crates/livrarr-db/src/sqlite_author_link.rs:1847-1872 | an answered row stays answered exactly while no merge finds its question taken, revoked or not; while it stays the question is not open under its generation |
| `LinkHistory.ProposalsAreAsked` | crates/livrarr-db/src/sqlite_author_link.rs:1805-1896 | each recorded proposal is on record or silenced by a standing dismissal |
| `LinkHistory.RecordStaysHomeIff` | crates/livrarr-db/src/sqlite_author_link.rs:1762-1901 | other authors' rows are safe in every state if and only if every proposal names the claim's author |
| `LinkStore.LinkStore.ApplyGuardedRoute` | crates/livrarr-db/src/sqlite_author_link.rs:1567-1760 | errors, outcome and new tables of a guarded write, with or without a claim; the observed name goes on record exactly where the evidence lands on a route |
| `LinkStore.LinkStore.RecordCandidates` | crates/livrarr-db/src/sqlite_author_link.rs:1766-1940 | lost claims change nothing; a newer generation supersedes the older open questions first |
| `LinkStore.LinkStore.BeginEvidenceGeneration` | crates/livrarr-db/src/sqlite_author_link.rs:1182-1224 | the generation rises, never falls, and the older open questions close |
| `LinkStore.LinkStore.PickCandidateAsUser` | crates/livrarr-db/src/sqlite_author_link.rs:2059-2145 | which pick is refused, and that a refused one changes nothing; an accepted one keeps the name set of the record |
| `AuthorNames.PickedNamesAreKept` | crates/livrarr-db/src/sqlite_author_link.rs:2111-2141 | every name of a picked record is on record in its role or a stronger one; no earlier name is lost or weakened and no other author or source touched |
| `LinkStore.PickEndsLinked` | crates/livrarr-db/src/sqlite_author_link.rs:2059-2145 | an accepted pick always leaves the author linked |
| `LinkStore.LinkStore.DismissCandidateAsUser` | crates/livrarr-db/src/sqlite_author_link.rs:2164-2207 | only a pending candidate of the current generation can be dismissed |
| `LinkStore.LinkStore.RevokeDismissalsAndReplay` | crates/livrarr-db/src/sqlite_author_link.rs:1424-1482 | ownership first; revocation and requeueing together |
| `LinkStore.LinkStore.AttachRouteAsUser` | crates/livrarr-db/src/sqlite_author_link.rs:2147-2162 | another author's tuple is refused; otherwise attached and the state rederived |
| `LinkStore.LinkStore.RemoveRouteAsUser` | crates/livrarr-db/src/sqlite_author_link.rs:2364-2397 | the row stays as a tombstone; anything but an own active route is refused |
| `LinkStore.LinkStore.RecordReadarrRejection` | crates/livrarr-db/src/sqlite_author_link.rs:1942-2006 | claimless, so the progress table is not touched; only a Goodreads key; the name is recorded |
| `LinkStore.LinkStore.Rederive` | crates/livrarr-db/src/sqlite_author_link.rs:601-653 | the author says needs-review exactly for an open question of its generation, or still with no active route, and linked exactly for a route without one, or still; no other row or column changes |
| `LinkStore.RemovedLastStaysLinked` | crates/livrarr-db/src/sqlite_author_link.rs:2364-2397 | removing a linked author's route leaves it linked unless a question is open, even when it was the last |
| `LinkStore.LinkStore.IngestLegacyRoutes` | crates/livrarr-db/src/sqlite_author_link.rs:2502-2637 | staged routes and staged names in batches and in id order, and a progress row for every author that has none; each staged value ends ingested or invalid |
| `LinkStore.NamesAreIngested` | crates/livrarr-db/src/sqlite_author_link.rs:2573-2600 | every staged name that can be read is on record, and no name that was there changes |
| `LinkStore.IngestionLosesNothing` | crates/livrarr-db/src/sqlite_author_link.rs:2530-2556 | each staged value that parses has a route row afterwards, and no earlier row changes |
| `LinkAttempts.AttemptTable.PrepareKeyAttempts` | crates/livrarr-db/src/sqlite_author_link.rs:1237-1329 | the returned rows are exactly those running under this claim, once each, in order |
| `LinkAttempts.PreparedCovers` | crates/livrarr-db/src/sqlite_author_link.rs:1263-1312 | every key with text left has its attempt, and what is not handed out is settled |
| `LinkAttempts.AttemptTable.CompleteKeyAttempt` | crates/livrarr-db/src/sqlite_author_link.rs:1484-1565 | a completion without a live claim or a row running under it is refused |
| `LinkAttempts.OnePassSettles` | crates/livrarr-db/src/sqlite_author_link.rs:1370-1376 | prepare and one completion per returned row leave every attempt terminal or due at a recorded time, and the retry list names exactly the rest, each once with its deadline |
| `LinkAttempts.TerminalIsFinal` | crates/livrarr-db/src/sqlite_author_link.rs:1297-1312 | over every run a terminal attempt's row never changes, goes only with its author or work, and while it is there its key has no other attempt in the generation |
| `LinkAttempts.CreditsAreLastSeen` | crates/livrarr-db/src/sqlite_author_link.rs:1531-1552 | the credit total is the sum of each row's last accepted observation |
| `LinkAttempts.AttemptTable.GenerationAuthorialCreditCount` | crates/livrarr-db/src/sqlite_author_link.rs:1331-1355 | that total, under a live claim |
| `LinkAttempts.AttemptTable.GenerationOutstandingRetries` | crates/livrarr-db/src/sqlite_author_link.rs:1357-1394 | one entry per retryable row with a deadline, with its provider and deadline, by deadline and id |
| `AuthorNames.NameTable.RecordObservedNames` | crates/livrarr-db/src/sqlite_author_link.rs:306-347 | the author wakes once if and only if some name was new |
| `AuthorNames.NamesAreUnited` | crates/livrarr-db/src/sqlite_author_link.rs:2742-2805 | the survivor has the union of both name sets, with the stronger OpenLibrary role and its own selection time first; the loser has none |
| `AuthorNames.NameTable.FoldNames` | crates/livrarr-db/src/sqlite_author_link.rs:2745-2805 | the loop computes that union and keeps the name key unique after every row |
| `MergeFold.StagedSurvivorWins` | crates/livrarr-db/src/sqlite_author_link.rs:2710-2740 | one staged value per provider, the survivor's own first, and no one else's changes |
| `MergeFold.StagingStaysUnique` | crates/livrarr-db/src/sqlite_author_link.rs:2719-2740 | neither statement breaks the staging key |
| `CandidateFold.QuestionsTravel` | crates/livrarr-db/src/sqlite_author_link.rs:2807-2860 | every question of the loser is asked of the survivor at its target generation, by the survivor's own row or else the earliest row restamped onto it, which keeps its status; rows of other authors are untouched |
| `CandidateFold.SurvivesIff` | crates/livrarr-db/src/sqlite_author_link.rs:2827-2860 | a row of the loser survives exactly when no row of the survivor and no earlier one of the loser takes its question |
| `CandidateFold.OpenAfterIff` | crates/livrarr-db/src/sqlite_author_link.rs:2820-2847 | a question is open for the survivor after the merge exactly when it was before, or an open row of the loser that nothing displaces is restamped onto it |
| `MergeFold.FoldLinkState` | crates/livrarr-db/src/sqlite_author_link.rs:2694-2864 | the whole fold: routes move as they are, staged values, names and questions as above, the survivor adopted and its state rederived; the unique keys hold throughout |
| `AuthorMerge.Library.MergeAuthors` | crates/livrarr-db/src/sqlite_author.rs:112-385 | succeeds if and only if both authors are the user's, differ, and the loser is credited nowhere; otherwise nothing changes |
| `AuthorMerge.WorksSurvive` | crates/livrarr-db/src/sqlite_author.rs:138-156 | no work is lost; each ends with the survivor and a live series of the same key; only primary-author links to the loser are cleared |
| `AuthorMerge.SeriesSurvive` | crates/livrarr-db/src/sqlite_author.rs:158-296 | each series of the loser is represented under the survivor with its monitoring |
| `AuthorMerge.FlagsFollow` | crates/livrarr-db/src/sqlite_author.rs:158-296 | over the whole merge a series both had is monitored exactly where one was and then has a language; works linked to either side end with the flags the two write paths give; a series only the loser had moves as it is |
| `AuthorMerge.MergedIsSound` | crates/livrarr-db/src/sqlite_author.rs:370-378 | series keys and foreign keys hold after the merge; no other author changes |
| `AuthorMerge.NothingCascades` | crates/livrarr-db/src/sqlite_author.rs:368-378 | the final delete finds no series and no work left to cascade over |
| `AuthorMerge.Library.FoldSeries` | crates/livrarr-db/src/sqlite_author.rs:177-296 | the loop keeps the series key unique after every row; each row is folded or moved |
| `AuthorMerge.CreditedLoserIsRefused` | crates/livrarr-db/src/sqlite_author.rs:368-378 | an author who is only credited on a work is refused, and nothing changes |
| `AuthorUnion.MergeAuthors` | crates/livrarr-db/src/sqlite_author.rs:112-385 | shelf and link state commit together or not at all, and the loser's progress row goes |
| `AuthorUnion.NothingLeftToCascade` | crates/livrarr-db/src/sqlite_author.rs:360-378 | when the author row goes, its routes, questions, names and staged values have all left it |
| `AuthorRepair.RepairAuthors` | crates/livrarr-db/src/pool.rs:272-382 | ends with one author per user and key, everyone with the keeper that the starting ranking names, or changes nothing; exactly when it succeeds, with or without the index at the start; a keeper is monitored exactly where one of those who became it was |
| `AuthorRepair.KeeperIsBest` | crates/livrarr-db/src/pool.rs:335-345 | the keeper is the one maximum by works, then keys, then lowest id |
| `AuthorRepair.WaitingGroup` | crates/livrarr-db/src/pool.rs:330-358 | merging a group changes no other group's members or ranking |
| `AuthorRepair.AllDone` | crates/livrarr-db/src/pool.rs:360-368 | the unique index builds, and exactly the keepers are left |
| `AuthorRepair.MergeGroup` | crates/livrarr-db/src/pool.rs:347-354 | all of a group's works end with the first of the ranking, series links live |
| `ReviewCards.KeyFromStorage` | crates/livrarr-domain/src/identity_layer/dismissal.rs:60-106 | a card's key is the same computed with the proposal's work id or the stored one |
| `ReviewCards.ReviewDesk.MintReuseOrSuppress` | crates/livrarr-db/src/identity_layer.rs:419-528 | suppressed, reused with duplicates cancelled, minted or refused, and the whole new desk |
| `ReviewCards.MintLeavesOne` | crates/livrarr-db/src/identity_layer.rs:440-528 | from any history a mint that goes through leaves exactly one pending card of its key |
| `ReviewCards.OnePendingPerKey` | crates/livrarr-db/src/identity_layer.rs:440-486 | in every run no key has two pending cards |
| `ReviewCards.DismissalCancelsAll` | crates/livrarr-db/src/identity_layer.rs:1784-1881 | a dismissal cancels every equivalent card and no other |
| `ReviewCards.DismissalSilences` | crates/livrarr-db/src/identity_layer.rs:401-438 | until revoked every machine mint of the key is a no-op; only an explicit choice or an inline origin passes |
| `ReviewCards.EditionDismissalIsFinal` | crates/livrarr-db/src/identity_layer.rs:4368-4398 | no revocation reaches an edition's dismissal |
| `ReviewCards.MintedAfterRevocation` | crates/livrarr-db/src/identity_layer.rs:401-417 | without a standing dismissal the question is asked again |
| `ReviewCards.ReviewDesk.DismissPendingReview` | crates/livrarr-db/src/identity_layer.rs:1784-1881 | who may dismiss what, and the loop that finds the equivalent cards |
| `ReviewCards.ReviewDesk.CommitReviewContinuation` | crates/livrarr-db/src/identity_layer.rs:1935-2210 | resolves the card and, for a route, revokes its work's dismissals |
| `RouteAffirm.AffirmPendingRoute` | crates/livrarr-db/src/identity_layer.rs:1930-2210 | who may affirm which route and when the answer only closes the card; otherwise all tables after it |
| `RouteAffirm.AffirmSettles` | crates/livrarr-db/src/identity_layer.rs:2076-2168 | the route is on record as the user's own, nothing else is lost, the status written directly is the projection, the generation rises as for an accepted claim, retry rows go exactly with a changed graph |
| `RouteGraph.GraphOrderIsTotal` | crates/livrarr-db/src/identity_layer.rs:41-48 | the six ORDER BY columns order the rows completely |
| `RouteGraph.GraphDecidesBag` | crates/livrarr-db/src/identity_layer.rs:54-67 | comparing two ordered reads decides whether the multiset of active routes changed |
| `RouteGraph.InvalidateRetryState` | crates/livrarr-db/src/identity_layer.rs:58-75 | retry rows go exactly when that multiset changed |
| `RouteGraph.InsertKeepsRows` | crates/livrarr-db/src/identity_layer.rs:3336-3446 | a work keeps one row per identifier, user and file provenance, and confirmation |
| `RouteGraph.OneOwnerKeptIff` | crates/livrarr-db/src/identity_layer.rs:3362-3446 | an identifier keeps one active owner if and only if no other work holds the inserted route active |
| `RouteGraph.TwoActiveOwners` | crates/livrarr-db/src/identity_layer.rs:3362-3446 | one insert that makes a second active owner |
| `Settlement.IdentityStore.Preflight` | crates/livrarr-db/src/identity_layer.rs:548-700 | all checks, without a write; the only source of StandingDismissal |
| `Settlement.IdentityStore.Settle` | crates/livrarr-db/src/identity_layer.rs:542-1007 | everything or nothing; StandingDismissal exactly on the preflight's word; a commit leaves the claimed work, its contributors, routes, retry rows and cards exactly as stated |
| `Settlement.IdentityStore.MintCards` | crates/livrarr-db/src/identity_layer.rs:970-997 | each card that was not held back is on the desk |
| `Settlement.FreshAgrees` | crates/livrarr-db/src/identity_layer.rs:401-416 | for an existing work the preflight decision on each card is what a fresh read would give when the minting loop comes to it |
| `Settlement.AsksOnlyItsOwn` | crates/livrarr-db/src/identity_layer.rs:970-997 | a settlement asks no question but those of its cards that were not held back, and closes only those its routes answer |
| `Settlement.DismissedIsNotAsked` | crates/livrarr-db/src/identity_layer.rs:568-620 | a machine settlement of an existing work never reopens a dismissed question, and the dismissal still stands |
| `Settlement.IdentityStore.ClaimWork` | crates/livrarr-db/src/identity_layer.rs:707-819 | the generation claim and the unique identity key |
| `Settlement.GenerationCounts` | crates/livrarr-db/src/sqlite_work_identity.rs:58-92 | in every run a work's generation is accounted for by its accepted claims, one each, and its unguarded rises |
| `Settlement.ClaimsAreConsecutive` | crates/livrarr-db/src/identity_layer.rs:715-780 | two accepted claims with nothing in between were built on consecutive generations; otherwise the gap is what came in between |
| `Settlement.OneCommitPerGeneration` | crates/livrarr-db/src/identity_layer.rs:715-780 | of two mutations built on one captured generation at most one commits, whatever is written in between |
| `Settlement.CommitIsClaim` | crates/livrarr-db/src/identity_layer.rs:745-780 | a committed settlement of an existing work is such an accepted claim |
| `Settlement.PrimaryAgreesIff` | crates/livrarr-db/src/identity_layer.rs:553-560 | for every command: the author column and the first contributor row agree after a commit exactly when the contributor of ordinal 0 is the first author of the command that is not named again later, or only the primary is replaced |
| `Settlement.PrimaryAgreesWhenFirst` | crates/livrarr-db/src/identity_layer.rs:3896-3905 | where no author is named twice, that is when the contributor of ordinal 0 is listed first |
| `Settlement.PrimaryCanDisagree` | crates/livrarr-db/src/identity_layer.rs:3886-3925 | a commit of two contributors listed the other way round, after which they do not |
| `Settlement.RepeatedPrimaryDisagrees` | crates/livrarr-db/src/identity_layer.rs:3886-3925 | a commit that lists the contributor of ordinal 0 first and names the author again, after which they do not either |
| `Settlement.IdentityStore.SettleRoutes` | crates/livrarr-db/src/identity_layer.rs:879-883 | the loop inserts the routes in order, each under an owner that fits it |
| `Settlement.RoutesOnRecord` | crates/livrarr-db/src/identity_layer.rs:879-883 | after a commit every route of the command is on record in the state of the last one for its identifier, no earlier row is lost or weakened, and no other row is touched |
| `Settlement.CommitKeepsOwnersIff` | crates/livrarr-db/src/identity_layer.rs:668-695 | a whole commit keeps one active owner of every identifier if and only if no route that it leaves active is held active by another work; the checks ask this of proposed cards only |
| `Settlement.IdentityStore.TransferRoute` | crates/livrarr-db/src/identity_layer.rs:2612-2746 | which refusal is returned when; the source's generation is the lock; both works' retry rows go exactly with a changed graph |
| `Settlement.IdentityStore.RecomputeProjections` | crates/livrarr-db/src/identity_layer.rs:2758-2830 | status equals the projection of the active routes, under the generation lock |
| `Contributors.WorkContributors.Merge` | crates/livrarr-db/src/identity_layer.rs:3860-3936 | no two contributors share an ordinal after any statement; refused exactly on an author who does not exist or a clash with a parked ordinal, and then nothing changes |
| `Contributors.RequestIsNumbered` | crates/livrarr-db/src/identity_layer.rs:3860-3936 | for every request nobody and no role is lost and no ordinal given twice; a requested author ends at its last position, the others follow by descending old ordinal; the ordinals are 0 to n-1 if and only if the request repeats nobody |
| `Contributors.FinalIsPrimary` | crates/livrarr-db/src/identity_layer.rs:3896-3925 | the first row is that of the first author who is not named again later |
| `Contributors.SmallNeverClashes` | crates/livrarr-db/src/identity_layer.rs:3880-3900 | up to a million contributors never clash |
| `Contributors.HugeRequestClashes` | crates/livrarr-db/src/identity_layer.rs:3880-3925 | a request of a million and one authors that clashes |
| `Contributors.WorkContributors.SetPrimary` | crates/livrarr-db/src/identity_layer.rs:3813-3858 | the author takes the ordinal of the primary, who goes with its roles |
| `Contributors.OnlyPrimaryChanges` | crates/livrarr-db/src/identity_layer.rs:3813-3858 | only the primary changes; ordinals stay distinct and every other row and role is kept |
| `ArticleCohorts.BuildAdjacency` | crates/livrarr-db/src/pool.rs:927-983 | the symmetric graph of the pairwise test |
| `ArticleCohorts.Components` | crates/livrarr-db/src/pool.rs:985-1005 | exactly the connected classes that have an edge, each once, disjoint |
| `TitleHeal.FindClasses` | crates/livrarr-db/src/pool.rs:927-1006 | the classes of the article test, which reads user, author, distinction, subtitle and the titles without their articles; each once, lowest id first |
| `TitleHeal.Library.Heal` | crates/livrarr-db/src/pool.rs:815-1270 | fails exactly on a work whose title cannot be read or whose primary author is NULL, before any write; keeps the six-column key unique, stamps its marker exactly when nothing is blocked, and does nothing while merging is off |
| `TitleHeal.Library.RewriteOne` | crates/livrarr-db/src/pool.rs:1153-1187 | every single planned UPDATE is accepted and leaves the key unique |
| `TitleHeal.EveryStepIsUnique` | crates/livrarr-db/src/pool.rs:1055-1111 | whichever unblocked rewrites have been executed, the key is unique |
| `TitleHeal.PlanRewrites` | crates/livrarr-db/src/pool.rs:1049-1111 | blocked keys are exactly those with a cohort of two or more, and the cohorts are theirs |
| `TitleHeal.FoldsExactlyLosers` | crates/livrarr-db/src/pool.rs:1015-1047 | the works of a foldable class other than its lowest id go, and that one is the winner |
| `TitleHeal.GenerationRisesOnce` | crates/livrarr-db/src/pool.rs:1153-1256 | a survivor's generation rises at most once, a fold winner's and a rewritten work's exactly once |
| `TitleHeal.StoppedOrHealed` | crates/livrarr-db/src/pool.rs:1093-1208 | a blocked rewrite changes nothing and puts the work on a card; every other rewrite is carried out |
| `TitleHeal.CardIsCurrentIff` | crates/livrarr-db/src/pool.rs:1113-1127 | a card's generation is its anchor's final one unless the anchor is a fold winner whose rewrite is blocked or not needed, both told from the works before the run |
| `StaleCard.OneClass` | crates/livrarr-db/src/pool.rs:930-983 | of three works with stale keys the article test joins exactly the first two |
| `StaleCard.CardCanBeStale` | crates/livrarr-db/src/pool.rs:1113-1127 | any heal of those works mints a card stamped one generation too low |
| `StaleCard.StaleRun` | crates/livrarr-db/src/pool.rs:815-1270 | a run that does it |
| `KeyRecompute.Library.Recompute` | crates/livrarr-db/src/pool.rs:425-493 | the legacy key stays unique after every statement; the marker is stamped exactly when every work is at its key |
| `KeyRecompute.PassProgress` | crates/livrarr-db/src/pool.rs:440-470 | a pass takes no work off its key, and a pass that changes anything makes one more correct |
| `KeyRecompute.PassesSettle` | crates/livrarr-db/src/pool.rs:425-493 | repeated startups change data in at most as many passes as works are off their key |
| `KeyRecompute.PassIdleIffStuck` | crates/livrarr-db/src/pool.rs:440-470 | when a pass changes nothing |
| `KeyRecompute.SwapNeverSettles` | crates/livrarr-db/src/pool.rs:440-470 | two works that wait for each other for ever |
| `SqlText.TrimIsBare` | crates/livrarr-db/src/identity_layer.rs:6112-6118 | the statement's trim leaves no space at either end |
| `Staging.StagingIsIdempotent` | crates/livrarr-db/src/identity_layer.rs:6109-6126 | staging stores the effective key, and a second staging finds the same |
| `Staging.NoCohortIffNoClash` | crates/livrarr-db/src/identity_layer.rs:5867-5923 | no cohort is reported exactly when no two works share an effective key |
| `Staging.StagedIndexBuildsIff` | crates/livrarr-db/src/identity_layer.rs:3029-3042 | the unique index builds over the staged keys if and only if no cohort is reported |
| `Cutover.Authority.StageLegacyRows` | crates/livrarr-db/src/identity_layer.rs:6098-6279 | keys, identifiers and cards in one transaction, checked against the report's counts |
| `Cutover.StagedIsPlaced` | crates/livrarr-db/src/identity_layer.rs:6332-6415 | every nonempty identifier ends as an active route of its work, or as another's with a pending conflict |
| `Cutover.SecondStagingChangesNothing` | crates/livrarr-db/src/identity_layer.rs:6098-6415 | staging again changes no key, route, edition, conflict or card |
| `Cutover.Authority.EnsureReady` | crates/livrarr-db/src/identity_layer.rs:2959-3046 | when activation is refused, succeeds or collides |
| `Cutover.UncountedCardHoldsUp` | crates/livrarr-db/src/identity_layer.rs:2975-3002 | a pending card that the report does not count holds activation up although the run is ready |
| `Cutover.UncountedCardExists` | crates/livrarr-db/src/identity_layer.rs:5987-6012 | one card for which that is so |
| `Cutover.ApplyThenActivate` | crates/livrarr-db/src/identity_layer.rs:2926-3046 | after an apply whose report is index-ready, activation cannot collide |
| `Fingerprint.LoadSettledTuples` | crates/livrarr-db/src/sqlite_author_link.rs:778-824 | the sorted works with their trimmed, sorted keys |
| `Fingerprint.FingerprintOf` | crates/livrarr-db/src/sqlite_author_link.rs:724-739 | counts and the hash of the length-prefixed buffer |
| `Fingerprint.PreimageDecidesEvidence` | crates/livrarr-db/src/sqlite_author_link.rs:699-739 | two reads give the same buffer if and only if they hold the same works with the same keys, in whatever order |
| `Fingerprint.FlattenInjective` | crates/livrarr-db/src/sqlite_author_link.rs:699-706 | length-prefixed fields decode uniquely |
| `Fingerprint.KeyFieldsDecode` | crates/livrarr-db/src/sqlite_author_link.rs:708-739 | a provider tag is never read as a work id |
| `Fingerprint.OneByteChangeIsNoticed` | crates/livrarr-db/src/sqlite_author_link.rs:687-739 | a one-byte change of the buffer changes the stored hash text |
| `Fnv.Fnv1a128` | crates/livrarr-db/src/sqlite_author_link.rs:687-697 | the loop computes the hash function of the lemmas below |
| `Fnv.OneByteNeverCollides` | crates/livrarr-db/src/sqlite_author_link.rs:687-697 | equal length and exactly one different byte never give equal hashes |
| `Fnv.SuffixInjective` | crates/livrarr-db/src/sqlite_author_link.rs:687-697 | different states stay different whatever bytes follow |
| `LinkCodec.CursorRoundTrip` | crates/livrarr-db/src/sqlite_author_link_codec.rs:313-347 | decoding an encoded cursor gives it back, for every page text |
| `LinkCodec.CursorEncodingInjective` | crates/livrarr-db/src/sqlite_author_link_codec.rs:315-326 | different cursors have different texts, across all three shapes |
| `LinkCodec.DecodedCursorIsValid` | crates/livrarr-db/src/sqlite_author_link_codec.rs:329-347 | whatever decodes is a cursor that could have been encoded |
| `LinkCodec.FingerprintRoundTrip` | crates/livrarr-db/src/sqlite_author_link_codec.rs:353-374 | decoding an encoded fingerprint gives it back, for every hash text |
| `LinkCodec.FingerprintEncodingInjective` | crates/livrarr-db/src/sqlite_author_link_codec.rs:353-361 | different fingerprints have different texts |
| `RouteKeys.ParseOfValue` | crates/livrarr-domain/src/author_link.rs:73-110 | re-parsing a stored canonical value gives its key back |
| `RouteKeys.ParseIsCanonical` | crates/livrarr-domain/src/author_link.rs:73-166 | the parser returns canonical keys of its provider |
| `RouteKeys.ValueHasNoColon` | crates/livrarr-domain/src/author_link.rs:101-110 | no canonical value holds the cursor separator |

## Left out

- SQL text, row decoding, JSON encoding, async pauses, failpoints and audit or history rows: plumbing around the steps.
- Timestamps as text, and the 64-bit range of ids, counters and generations: numbers are unbounded here.
- Author matching, `canonical_author_key`, `identity_key`, `title_parts_from_provider`, `evaluate_match`, `dominant_language` and the article-fold safety test: parameters of the models.
- Presentation columns of candidates (catalog state, previews, counts, alias verdicts), of name variants (source route) and of progress rows (tier, last error, the 0.90 counter): written, never decided on.
- Ownership checks of `ensure_enqueued` and `load_road_input`, and the read-only listings: single-row reads.
- Three unique keys are built into a keyed map: the progress row of an author, the dismissal of a canonical key, and the ordinal row of a contributor.
- Work absorption (`absorb_work_into`): it runs only when work merging is available, which it is not; the resolution that merges works is refused for the same reason.
- `adopt_identity_review_dismissals`: a one-time import of old dismissals from audit text.
- Evidence generations never falling over whole runs: an advance assigns the generation it is given, so this holds only if the worker never passes a lower one.
- Status equal to the route projection after a route transfer: it does not recompute the status; it is stated for settlement, recompute and an affirmed route.
- The cutover report's fingerprints and schema check, and rehearsal mode: activation reads only the counts.
- `TitleHeal.Library.Heal`: of an absorption only the loser's disappearance is modelled, because the tables it moves are not read by the heal; the cards are proposals, and whether minting reuses, suppresses or refuses one is `ReviewCards`' (a refusal fails the heal).
- `StaleCard.CardCanBeStale`: a card that the minting reuses or suppresses is not stamped.
- `AuthorMerge.Library.MergeAuthors`: without the link state, which `AuthorUnion.MergeAuthors` adds, and without the bibliography caches it deletes; it assumes that works, series and authors of one user refer to each other only, which the foreign keys alone do not say.
- `AuthorRepair.RepairAuthors`: the link state of its merges is `AuthorUnion`'s and not repeated. Migration 089 has since created the unique index, and only tests call the repair; it is modelled with the index there and without it.
- `ReviewCards.ReviewDesk.CommitReviewContinuation`: the checks before the first write are one parameter here; `RouteAffirm.AffirmPendingRoute` has them for a proposed route, and the distinction that a different-work answer writes is not modelled.
- `RouteAffirm.AffirmPendingRoute`: the frozen legacy columns and anchors that it also fills are not modelled, and where a route has several active owners the lowest id stands for the unordered LIMIT 1 read.
- `Settlement.IdentityStore.Settle`: the field projections and birth facts of a new work are not modelled; no check of this model reads them.
- `Fingerprint.PreimageDecidesEvidence`: assumes each field is shorter than 2^64 bytes, as its length prefix does.
- `Staging.StagingIsIdempotent`: assumes that a number's text has no spaces around it, as CAST to TEXT gives.
- `Settlement.IdentityStore.Preflight`: where a route has several active owners, the lowest id stands for the unordered LIMIT 1 read.
- `RouteGraph.InsertKeepsRows`: where a work has two rows of one identifier, the lowest id stands for the unordered LIMIT 1 read.
