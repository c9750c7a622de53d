# Verified model of the Bible translation services

Dafny 4.11 models of the parts of the repository where correctness spans several functions, with the
properties those parts are for. `dafny verify dfyconfig.toml` checks everything.

| files | subject |
|---|---|
| `BookContext*.dfy` | Book Context Documents: draft, review, approved and generating, approvals with a quorum, a timed edit lock, one active document for each book, a cache of translations, when it is current and when it is complete |
| `Studio*.dfy`, `AllocationLimit.dfy`, `Naming.dfy` | the Annotation Studio's tables and calls, id allocation, file names and storage keys |
| `Export*.dfy`, `Readiness.dfy` | planning an export, gathering its inputs, writing the archive, and the readiness counts |
| `Similarity.dfy`, `BookNames.dfy`, `BookTable.dfy`, `Reference.dfy`, `Passage.dfy` | book names, references, and clause chains of the BHSA corpus |
| `Acousteme.dfy`, `AcoustemeUnique.dfy` | run-length encoding of acousteme frames |
| `ReviewFlags.dfy` | the keyset-paginated backfill of review flags |
| `EntryBrief.dfy` | cutting the book context off at the first verse of a passage |
| `Options.dfy`, `FiniteSets.dfy`, `Text.dfy`, `TextOrder.dfy`, `Decimal.dfy` | shared vocabulary: optional values, set sizes, white space, sorting, decimal text |

For the two stateful services, functions named `Reply...` say what each call does to the store or which
error it raises. The class `Service` implements the call as the program does, step by step, and is
proved to end exactly as its reply says; the theorems are about the replies, over every store or every
run. `BookContextEffects` and `StudioEffects` say of each reply, without naming it, when the call succeeds
and what becomes of every field of every row. `Doc.edits` and `Entry.derivedAt` are counters that no
branch reads: they only let the theorems say which version of a section a translation was made from.
Every time is exact, and every call is one atomic step. The rows marked **Main** in the table below are
the main results; the others are the operations and the steps they rest on.

## Findings

- A successful generation ends in review, not in draft, and keeps approvals and translations
  (`generation/run.py:93-106`). A document approved while it had neither outline nor participants and
  then generated in place therefore comes back in review with a complete approval report, and one
  further capable person of any specialty approves it. `SettledUnlessRestarted` shows that this call
  is the only way to get there; `RestartLeavesReviewComplete` is the run. What holds without exception
  is the other direction: approved documents always have a quorum (`RunIsSound`).
- The docstring of `update_section.py:35-47` promises a coherent cache. `CoherentUnless` gives the exact
  condition: the loop skips the saving locale, so a cache for "en" itself goes stale on a save from
  "en", and a generation does not touch the cache at all. `EnglishCacheGoesStale` and
  `GenerationLeavesStale` are the runs.
- A cached locale is served as it is (`translate.py:39-41`), so a section missing from it is not
  translated on request. `CoveredUnless` names the five calls that leave such a gap and shows that no
  other does: among them every save while another locale has further sections cached, a first save from
  an uncached foreign locale, which starts a cache of one section, and a generation that adds a section.
  `BookContextGaps` has a run from the empty table for each. The gap lasts until the section is saved
  from that locale or the locale loses the rest of its cache (`GapLasts`, `RefilledIff`,
  `ServedAgainIff`).
- Allocating a word number can fail with as few as fifty words left (`FiftyWordsBlock`), never with
  fewer (`FewWordsAllocate`).
- Acousteme segments are all of positive length if and only if a frame lasts at least 0.0001 s
  (`PositiveIffTick`). At exactly 0.0001 s every boundary lies on the grid of rounded times.
  Under the same condition different streams of any one length have different segments (`UniqueIffTick`);
  `UniqueIff` is the exact condition for a single length.
- A passage is found again under the reference reported with it, unless the range was written backwards:
  that is answered without clauses under its first verse, which has clauses of its own (`StableIff`).

## Model

| member | source | states |
|---|---|---|
| `BookContextService.Service.Approve` | app/services/book_context/approve_bcd.py:12-83 | **Main.** Refuses without a capable role, a known open document and a first-time approver; otherwise stores the approval and ends approved, unlocked and (if the book has no active document) active exactly when the stored approvals reach the quorum, else in review; nothing else changes. |
| `BookContextService.Service.Decide` | app/services/book_context/approve_bcd.py:46-65 | The two-branch count of admins, distinct users and covered specialties decides approved exactly when an admin is among all approvals, or two different people together cover the three specialties. |
| `BookContextService.Service.Specialties` | app/services/book_context/approve_bcd.py:57-60 | The loop collects exactly the specialties held by some approval. |
| `BookContextService.TwoPeopleByCount` | app/services/book_context/approve_bcd.py:55-62 | Counting distinct user ids up to two is the same as there being two approvals by different people. |
| `BookContextService.Service.ApprovalStatus` | app/services/book_context/get_approval_status.py:28-58 | The second computation of the quorum agrees with the first: complete exactly when specialists agree; covered and missing specialties, reviewer count and English review are those of the stored approvals. |
| `BookContextService.Service.SetActive` | app/services/book_context/set_active.py:9-38 | Clears the active mark on the book's other documents only, drops the approvals, sends an approved document back to review, and unlocks it; refused while generating. |
| `BookContextService.Service.RequestRevision` | app/services/book_context/request_revision.py:11-32 | Only for admins and not while generating: drops all approvals, returns to draft, unlocks. |
| `BookContextService.Service.Lock` | app/services/book_context/lock_bcd.py:8-28 | Takes, renews or (after more than four hours) takes over the lock of a draft or document in review, in every other case refuses and changes nothing. |
| `BookContextService.Service.Unlock` | app/services/book_context/unlock_bcd.py:7-18 | No effect on a free document; otherwise only the holder or an admin frees it. |
| `BookContextService.Service.UpdateSection` | app/services/book_context/update_section.py:27-100 | **Main.** The guards in their order, the English field overwritten with the payload or its back-translation, and the cache reconciled. |
| `BookContextService.Service.ReconcileCache` | app/services/book_context/update_section.py:75-96 | The loop that edits the copied dictionary in place ends with: the section gone from every other locale, locales left empty or malformed gone, the raw payload kept under a saving locale that is not English, everything else as it was, whatever order the locales are visited in. |
| `BookContextService.VisitOne` | app/services/book_context/update_section.py:84-93 | One pass of that loop removes the section from one locale, or the locale itself, and touches no other. |
| `BookContextService.VisitedAll` | app/services/book_context/update_section.py:84-96 | When no locale is left to visit the dictionary is the reconciled one. |
| `BookContextService.Service.Translate` | app/services/book_context/translate.py:28-58 | Serves a cached locale unchanged; otherwise sends exactly the stored translatable sections and caches the answer; a failed call changes nothing. |
| `BookContextService.Service.StartGeneration` | app/services/book_context/start_generation.py:27-79 | Generates in place when the document has neither outline nor participants, else forks a generating next version that copies only the genre. |
| `BookContextService.Service.FinishGeneration` | app/services/book_context/generation/run.py:82-106 | Success writes the produced sections and ends in review, failure ends in draft; approvals, lock and translations stay. |
| `BookContextService.Service.CancelGeneration` | app/services/book_context/cancel_generation.py:11-24 | Deletes a generating document, and only such a one. |
| `BookContextService.Service.NewVersion` | app/services/book_context/create_new_version.py:8-39 | A draft copy of an approved document with the next version and no approvals, cache, lock or active mark. |
| `BookContextService.Service.Create` | app/services/book_context/create_bcd.py:9-54 | A draft for an Old Testament book, numbered one above the latest of its range. |
| `BookContextService.Service.LatestVersion` | app/services/book_context/create_bcd.py:26-39 | The highest version of the range, 0 without documents. |
| `BookContextService.Service.Add` | app/db/models/book_context.py:23-93 | An insert is refused exactly when the key is taken or the unique key on book, range and version is violated. |
| `BookContextEffects.QuorumTells` | app/services/book_context/approve_bcd.py:46-63 | A quorum is an approval as admin, or two different people and an approval in each of the three specialties; a row without a list of roles counts for its one role. |
| `BookContextEffects.ApproveSucceeds` | app/services/book_context/approve_bcd.py:20-32 | Which error an approval meets, and that it succeeds exactly for a capable newcomer on a draft or a document in review. |
| `BookContextEffects.ApproveRecords` | app/services/book_context/approve_bcd.py:34-44 | The one new row holds the caller, the locale and exactly the caller's capable roles; earlier rows stay. |
| `BookContextEffects.ApproveActivates` | app/services/book_context/approve_bcd.py:65-80 | **Main.** For every store: a quorum approves and frees the lock; the document is active afterwards if and only if it was before, or a quorum was reached and no document of its book was; the book then has an active document; no other document changes. |
| `BookContextEffects.SetActiveEffect` | app/services/book_context/set_active.py:9-38 | When it is refused; after it, exactly the chosen document of its book is active, and it is to be reviewed again without approvals or lock; all other fields and documents stay. |
| `BookContextEffects.RequestRevisionEffect` | app/services/book_context/request_revision.py:11-32 | When it is refused, and field by field what becomes of the document. |
| `BookContextEffects.LockEffect` | app/services/book_context/lock_bcd.py:11-25 | Succeeds exactly on a draft or a document in review whose lock is free, the caller's, or older than 14400 seconds. |
| `BookContextEffects.UnlockEffect` | app/services/book_context/unlock_bcd.py:7-18 | Only the holder or an admin frees a held lock; nothing but the lock changes. |
| `BookContextEffects.UpdateSectionSucceeds` | app/services/book_context/update_section.py:50-70 | Succeeds exactly for the lock holder of an open document, on a known section, unless a needed back-translation fails; and which error it meets otherwise. |
| `BookContextEffects.UpdateSectionStores` | app/services/book_context/update_section.py:66-82 | **Main.** A saved foreign object is stored in English as its back-translation, anything else as given; the foreign payload is cached verbatim under its locale; every other section and field stays. |
| `BookContextEffects.UpdateSectionLocales` | app/services/book_context/update_section.py:77-93 | A locale other than the saving one stays in the cache exactly if it has another section; a saving foreign locale is in it afterwards. |
| `BookContextEffects.SentToTranslator` | app/services/book_context/translate.py:43-47 | The translator gets exactly the stored sections that are not null, maintenance notes excepted. |
| `BookContextEffects.TranslateEffect` | app/services/book_context/translate.py:36-56 | A cached locale changes nothing; else the answer, section by section, is what is cached for the locale, and nothing else changes. |
| `BookContextEffects.StartInPlace` | app/services/book_context/start_generation.py:51-57 | Without an outline and a participant register the document itself turns generating and loses its lock, and keeps everything else. |
| `BookContextEffects.StartForked` | app/services/book_context/start_generation.py:58-71 | With either of them the document stays as it is and a generating successor with the genre as its only section is added, unless its version is taken. |
| `BookContextEffects.StartRefused` | app/services/book_context/start_generation.py:31-38 | Refused while generating and for an unknown document or book. |
| `BookContextEffects.FinishEffect` | app/services/book_context/generation/run.py:82-106 | Exactly the produced known sections are overwritten; review on success, draft on failure; every other field stays. |
| `BookContextEffects.CancelEffect` | app/services/book_context/cancel_generation.py:11-24 | Removes a generating document and no other. |
| `BookContextEffects.NewVersionEffect` | app/services/book_context/create_new_version.py:13-39 | The draft has every section of the approved document and the next version, unless that is taken. |
| `BookContextEffects.CreateEffect` | app/services/book_context/create_bcd.py:15-54 | The draft's version is the one behind the highest of its range, or 1; its only section is the genre. |
| `BookContextEffects.DeleteUserEffect` | app/services/user/delete_user.py:6-10 | Refused while the user prepared or approved a document; else the user's locks are freed and nothing else changes. |
| `BookContextSafety.RunIsSound` | app/db/models/book_context.py:23-93 | **Main.** In every state of every run: an approved document's stored approvals satisfy the quorum, each user approved a document at most once and with capable roles only, a locked document is in draft or review and has a lock time, each book has at most one active document, and ranged versions are unique. |
| `BookContextSafety.StepIsSound` | app/db/models/book_context.py:23-93 | Every one of the thirteen calls keeps those invariants. |
| `BookContextSafety.ApproveIsSound` | app/services/book_context/approve_bcd.py:31-79 | Approving keeps them: no double approval, approved only with a quorum, no second active document. |
| `BookContextSafety.SetActiveIsSound` | app/services/book_context/set_active.py:19-35 | Activating keeps them: the others of the book are cleared, an approved document loses the status with its approvals. |
| `BookContextSafety.StartGenerationIsSound` | app/services/book_context/start_generation.py:51-71 | Starting a generation keeps them, in place and forked. |
| `BookContextSafety.NewVersionIsSound` | app/services/book_context/create_new_version.py:18-37 | Copying a version keeps them. |
| `BookContextSafety.CreateIsSound` | app/services/book_context/create_bcd.py:41-52 | Creating a document keeps them. |
| `BookContextSafety.RequestRevisionIsSound` | app/services/book_context/request_revision.py:25-30 | Requesting a revision keeps them. |
| `BookContextSafety.FinishGenerationIsSound` | app/services/book_context/generation/run.py:82-104 | The end of a generation keeps them. |
| `BookContextSafety.DeleteUserIsSound` | app/services/user/delete_user.py:6-10 | Deleting an account, with the restricting and nulling foreign keys, keeps them. |
| `BookContextSafety.LockIsSound` | app/services/book_context/lock_bcd.py:11-25 | Locking keeps them. |
| `BookContextSafety.UnlockIsSound` | app/services/book_context/unlock_bcd.py:10-15 | Unlocking keeps them. |
| `BookContextSafety.UpdateSectionIsSound` | app/services/book_context/update_section.py:61-98 | Saving a section keeps them. |
| `BookContextSafety.CapableKeepsExactly` | app/services/book_context/approve_bcd.py:20 | The capable roles are exactly the user's roles that may approve. |
| `BookContextSafety.GeneratingIsStable` | app/services/book_context/start_generation.py:51-71 | A generating document stays generating under every call until its run ends or it is cancelled, which is why the end of a run may be modelled as a step that finds it generating. |
| `BookContextSafety.CreateNeverCollides` | app/services/book_context/create_bcd.py:26-52 | With a fresh key, creation always succeeds and its version is above every other of the range. |
| `BookContextApproval.VotesDecide` | app/services/book_context/approve_bcd.py:20-65 | **Main.** Any list of votes by distinct capable users, cast on a draft without approvals with refused ones ignored, ends approved if and only if the whole list has an admin or two people covering all three specialties; otherwise in review, or draft when nobody voted. |
| `BookContextApproval.VoteOrderIrrelevant` | app/services/book_context/approve_bcd.py:20-65 | Two orders of the same votes end in the same status. |
| `BookContextApproval.CastFrom` | app/services/book_context/approve_bcd.py:31-65 | The same from any point of the voting: the status depends only on all votes together. |
| `BookContextApproval.RecordedQuorum` | app/services/book_context/approve_bcd.py:46-63 | The quorum of the stored rows is the sufficiency of the people who voted, with all the roles they hold. |
| `BookContextApproval.ApprovedIgnoresVotes` | app/services/book_context/approve_bcd.py:26-29 | Later votes do not change an approved document. |
| `BookContextApproval.SettledUnlessRestarted` | app/services/book_context/start_generation.py:51-57 | **Main.** Starting from a state where approved documents and only they have a quorum, a call leaves such a state if and only if it is not a generation in place on an approved document without outline and participants. |
| `BookContextApproval.RunIsSettled` | app/services/book_context/set_active.py:29-31 | In every run without such a call, exactly the approved documents have a quorum. |
| `BookContextApproval.CompleteReportMeansApproved` | app/services/book_context/get_approval_status.py:47-56 | In those runs the status report never says complete for a document that is not approved. |
| `BookContextApproval.RestartLeavesReviewComplete` | app/services/book_context/generation/run.py:93-106 | **Main.** For any book and two people there is a run, from an empty table, that ends with a document in review whose report is complete. |
| `BookContextApproval.LeftoverQuorumApprovesAnything` | app/services/book_context/approve_bcd.py:46-65 | On such a document any one further capable person, whatever the specialty, brings approval. |
| `BookContextLocks.HolderLocked` | app/services/book_context/lock_bcd.py:11-25 | In every run whoever holds a lock took or last renewed it at the recorded time and has held it ever since. |
| `BookContextLocks.TakeoverNeedsTimeout` | app/services/book_context/lock_bcd.py:14-25 | **Main.** A lock passes directly from one user to another only by the new holder's lock call, more than four hours after the previous holder's last one; no assumption on the clock is needed. |
| `BookContextLocks.WritersHandOver` | app/services/book_context/update_section.py:61-65 | **Main.** Between successful section writes by two different users the first one's hold ends by one of the releasing calls below or such a takeover, and the second one locks the document afterwards and keeps it until the write. |
| `BookContextLocks.HolderChangesByLock` | app/services/book_context/lock_bcd.py:14-25 | No other call gives anyone a lock, and a lock in force is not taken within four hours. |
| `BookContextLocks.FreedIff` | app/services/book_context/unlock_bcd.py:10-15 | **Main.** A held lock becomes free if and only if the call succeeds and is the holder's or an admin's unlock, the approval that completes the quorum, an activation, a revision request, a generation in place, or the deletion of the holder's account. |
| `BookContextLocks.LockTimeMovesByLock` | app/services/book_context/lock_bcd.py:24-25 | While the holder stays, only the holder's lock call moves the lock time. |
| `BookContextLocks.WriterHolds` | app/services/book_context/update_section.py:61-65 | A successful write is by the holder, who still holds the lock afterwards. |
| `BookContextTranslations.CoherentUnless` | app/services/book_context/update_section.py:67-96 | **Main.** With every cached entry derived from the current English section, a call keeps it so if and only if it is neither a save from a non-foreign locale that itself has the section cached, nor a finished generation that writes a cached section. |
| `BookContextTranslations.RunIsCoherent` | app/services/book_context/translate.py:39-54 | In every run without translations into English and without generations over cached sections, every cached entry is current. |
| `BookContextTranslations.UpdateEntries` | app/services/book_context/update_section.py:75-96 | What a save does to each single (locale, section) entry. |
| `BookContextTranslations.EntrySurvives` | app/services/book_context/update_section.py:84-93 | **Main.** An entry survives unchanged any stretch of any run in which its own section is not saved and its document not deleted. |
| `BookContextCoverage.CoveredUnless` | app/services/book_context/translate.py:39-54 | **Main.** If every cached locale has every section there is to translate, then after a call this is still so if and only if the call is none of five: a save while another locale has further sections cached, a first save from a foreign locale, a save from a non-foreign locale cached without the section, a finished generation that writes a section a cached locale lacks, a translator's answer that omits a section. |
| `BookContextCoverage.RunIsCovered` | app/services/book_context/translate.py:39-54 | In every run without such a call every cached locale has every section. |
| `BookContextCoverage.CoveredServesAll` | app/services/book_context/translate.py:39-41 | Then a cached locale is served with every section there is to translate. |
| `BookContextCoverage.UpdateLacks` | app/services/book_context/update_section.py:75-96 | Where a save leaves a gap, for every locale and section. |
| `BookContextCoverage.RefilledIff` | app/services/book_context/update_section.py:77-82 | While the locale stays cached, a missing section comes back if and only if the call is a save of that section from that foreign locale. |
| `BookContextCoverage.GapLasts` | app/services/book_context/translate.py:39-41 | **Main.** Over any stretch of any run without such a save, and without losing some other cached section, the missing section stays missing and every request is answered from the cache. |
| `BookContextCoverage.DroppedSectionStaysMissing` | app/services/book_context/translate.py:39-41 | After a save from another locale, a locale that has another section cached is served without the saved section. |
| `BookContextCoverage.FirstSaveServesOne` | app/services/book_context/update_section.py:77-82 | After a first save from an uncached foreign locale, that locale is served with the saved section only. |
| `BookContextCoverage.ServedAgainIff` | app/services/book_context/translate.py:39-54 | A section dropped by a save is served again by the next translation that contains it if and only if the save dropped the whole locale. |
| `BookContextGaps.SaveOpensGap` | app/services/book_context/update_section.py:84-93 | For any book, any locale but English and any saved value but null there is a run of five calls, from an empty table, whose last call is a save that leaves that locale, complete before, without the section. |
| `BookContextGaps.FirstSaveOpensGap` | app/services/book_context/update_section.py:77-82 | The same with three calls, the last a first save from a foreign locale. |
| `BookContextGaps.EnglishSaveOpensGap` | app/services/book_context/update_section.py:77-86 | The same with four calls, the last a save from English beside a cache for English. |
| `BookContextGaps.GenerationOpensGap` | app/services/book_context/generation/run.py:93-97 | The same with four calls, the last the end of a generation. |
| `BookContextGaps.AnswerOpensGap` | app/services/book_context/translate.py:43-54 | The same with two calls, the last a translation with an incomplete answer. |
| `BookContextTranslations.StepKeepsContent` | app/db/models/book_context.py:68-71 | Calls other than saves, translations and generation ends leave every existing document's sections and cache as they are, insert documents without a cache, and remove none except by cancellation. |
| `BookContextStale.EnglishCacheGoesStale` | app/services/book_context/update_section.py:84-86 | For any book and payloads there is a run of four calls, from an empty table, in which a translation into English is cached and a save from English then leaves it stale. |
| `BookContextStale.GenerationLeavesStale` | app/services/book_context/generation/run.py:93-104 | The same for any locale and a generation in place that writes the cached section. |
| `BookContextTranslations.FinishEdits` | app/services/book_context/generation/run.py:93-97 | A finished generation rewrites exactly the produced columns and no cached entry. |
| `ExportPlan.StrideSamples` | app/services/annotation_studio/export_plan.py:73-79 | **Main.** Sampling n of at least n items takes strictly increasing positions from the first item on; the i-th is the i-th of n equal shares of the list, rounded down. |
| `ExportPlan.TierARows` | app/services/annotation_studio/export_plan.py:82-97 | The rows are sorted by word, speaker and file and are exactly the inputs whose word has at least five, each as often as given; the dropped count is the number of rarer words. |
| `ExportPlan.DroppedWords` | app/services/annotation_studio/export_plan.py:90-94 | Kept and dropped words together are all words. |
| `ExportPlan.TierAFiles` | app/services/annotation_studio/export_plan.py:82-89 | The included files are exactly those of the inputs whose word has at least five. |
| `ExportPlan.TierAWords` | app/services/annotation_studio/export_plan.py:90-94 | The counts of words are those of the inputs: all, with at least five, and the rest. |
| `ExportPlan.TierAOrder` | app/services/annotation_studio/export_plan.py:85-88 | The rows are ordered by word, then speaker, then file. |
| `TextOrder.DifferenceDecides` | app/services/annotation_studio/export_plan.py:85-88 | Texts are ordered by the code points at their first difference. |
| `TextOrder.BeginningFirst` | app/services/annotation_studio/export_plan.py:85-88 | A text comes behind its own beginnings. |
| `ExportPlan.FilesOfRows` | app/services/annotation_studio/export_plan.py:120 | The included files are those on either side of a row. |
| `ExportPlan.TierASpeakers` | app/services/annotation_studio/export_plan.py:95-96 | The counts of speakers and recordings are those of the rows. |
| `ExportPlan.PlanTierB` | app/services/annotation_studio/export_plan.py:100-127 | The loops build the two pools, cut both to the smaller size by sampling and alternate them; the counts and the included files are those of the rows. |
| `ExportPlan.Pools` | app/services/annotation_studio/export_plan.py:101-109 | The nested loops collect, pair by pair, the first two combinations of each side and the first two cross combinations. |
| `ExportPlan.Interleave` | app/services/annotation_studio/export_plan.py:115-118 | The last loop alternates the two lists. |
| `ExportPlanFacts.PlanSound` | app/services/annotation_studio/export_plan.py:100-120 | **Main.** For any pairs: rows alternate same and different in equal number, each same row is of one side of one pair, each different row crosses the sides of one pair; with distinct file names no row pairs a file with itself and no row repeats. |
| `ExportPlanFacts.SideRowsAre` | app/services/annotation_studio/export_plan.py:104-106 | What a side contributes, by its sorted files. |
| `ExportPlanFacts.CrossRowsAre` | app/services/annotation_studio/export_plan.py:107-109 | What a pair contributes across its sides, by its sorted files. |
| `ExportPlanFacts.CollectedPlan` | app/services/annotation_studio/export_plan.py:100-118 | Pairs with three files a side give exactly four rows each: one same row from either side and two different rows. |
| `ExportPlanFacts.PoolsDistinct` | app/services/annotation_studio/export_plan.py:101-109 | With distinct file names no pool repeats a row. |
| `Naming.TierAFileInjective` | app/services/annotation_studio/naming.py:57-58 | **Main.** For valid labels, equal Tier A file names come from equal word, speaker and repetition. |
| `Naming.TierBFileInjective` | app/services/annotation_studio/naming.py:61-62 | Equal Tier B file names come from equal pair number, side and repetition, negative numbers and wide ones included. |
| `Naming.AutoLabelsValid` | app/services/annotation_studio/naming.py:49-50 | Allocated labels fit the label pattern. |
| `Naming.AutoLabelsInjective` | app/services/annotation_studio/tier_a_service.py:71-74 | Different numbers give different labels. |
| `Naming.TierAFileSplits` | app/services/annotation_studio/naming.py:57-58 | A Tier A name split at the underscores is word, speaker and repetition, in this order. |
| `Naming.TierBFileSplits` | app/services/annotation_studio/naming.py:61-62 | A Tier B name split at the underscores is pair number, side and repetition. |
| `Naming.AutoLabelsRead` | app/services/annotation_studio/tier_a_service.py:71-74 | An allocated label is the word and the number, padded with zeros to three digits for words and not at all for speakers. |
| `Decimal.FormatWidth` | app/services/annotation_studio/naming.py:57-62 | Numbers are padded with zeros up to the width and no further. |
| `Naming.RawKeyInjective` | app/services/annotation_studio/naming.py:78-81 | A storage key gives back the language code, the tier, the identifier and the format, for codes of at most three characters or without a slash. |
| `Naming.RawKeySplits` | app/services/annotation_studio/naming.py:78-81 | Split at the slashes a key is code, tier directory, raw and file. |
| `StudioFacts.FirstFreeIsLeast` | app/services/annotation_studio/tier_a_service.py:71-83 | The allocation finds the least free number of its fifty candidates, or all fifty are taken. |
| `StudioFacts.FewWordsAllocate` | app/services/annotation_studio/tier_a_service.py:63-83 | Below fifty words a word can always be created. |
| `StudioFacts.FewSpeakersAllocate` | app/services/annotation_studio/speaker_service.py:55-72 | Below fifty speakers an unnamed speaker can always be created. |
| `AllocationLimit.FiftyWordsBlock` | app/services/annotation_studio/tier_a_service.py:63-83 | **Main.** The bound is sharp: after creating a hundred words and deleting the first fifty, every creation is refused although only fifty words are left. |
| `StudioFacts.ReachableIsSound` | app/db/models/as_tier_a.py:16-57 | **Main.** In every reachable state labels are valid and unique per language, recordings refer to existing rows of one language, carry the file name of their labels, and repeat no take. |
| `StudioFacts.StepIsSound` | app/services/annotation_studio/tier_a_service.py:163-200 | Every call keeps that invariant. |
| `StudioFacts.TierAFilesDistinct` | app/services/annotation_studio/tier_a_service.py:171-190 | Two live Tier A recordings of one language never share an export file name. |
| `StudioFacts.TierBFilesDistinct` | app/services/annotation_studio/tier_b_service.py:106-123 | Two live Tier B recordings of one language never share an export file name. |
| `StudioFacts.ReachableKeysDiffer` | app/services/annotation_studio/tier_a_service.py:170-190 | **Main.** In every reachable state no two live recordings, of either tier, share a storage key. |
| `StudioFacts.SoundKeysDiffer` | app/services/annotation_studio/tier_b_service.py:109-123 | The invariant alone gives that. |
| `StudioEffects.CreateWordEffect` | app/services/annotation_studio/tier_a_service.py:54-83 | Succeeds exactly when one of the fifty numbers behind the count is free, adds one word with the first such label and the trimmed gloss, and changes nothing else. |
| `StudioEffects.UpdateWordEffect` | app/services/annotation_studio/tier_a_service.py:86-99 | Only the gloss of that word changes, to the trimmed text or to none. |
| `StudioEffects.DeleteWordEffect` | app/services/annotation_studio/tier_a_service.py:102-110 | Exactly that word and its recordings go. |
| `StudioEffects.NameSpeakerEffect` | app/services/annotation_studio/speaker_service.py:30-53 | A requested name is taken exactly if it is a label of lower-case letters and digits that nobody of the language has. |
| `StudioEffects.CreateSpeakerEffect` | app/services/annotation_studio/speaker_service.py:55-72 | Without a name, the first free one of the fifty labels behind the count. |
| `StudioEffects.DeleteSpeakerEffect` | app/services/annotation_studio/speaker_service.py:83-86 | Exactly that speaker and its recordings go. |
| `StudioEffects.CreatePairEffect` | app/services/annotation_studio/tier_b_service.py:41-66 | Succeeds exactly for a known language and a number it does not use. |
| `StudioEffects.DeletePairEffect` | app/services/annotation_studio/tier_b_service.py:83-86 | Exactly that pair and its recordings go. |
| `StudioEffects.CreateAEffect` | app/services/annotation_studio/tier_a_service.py:163-190 | Succeeds exactly for a word and speaker of one known language, a known format and a new take; the row is pending and carries the name and key of its own word, speaker, repetition and identifier. |
| `StudioEffects.CreateBEffect` | app/services/annotation_studio/tier_b_service.py:98-123 | The same for a side of a pair. |
| `StudioEffects.CompleteEffect` | app/services/annotation_studio/tier_a_service.py:202-208 | Only the stored mark changes, unless the upload is oversized. |
| `StudioEffects.DeleteRecordingEffect` | app/services/annotation_studio/tier_a_service.py:211-216 | Exactly that recording goes. |
| `StudioService.Service.CreateWord` | app/services/annotation_studio/tier_a_service.py:54-83 | The retry loop over rejected inserts inserts one word, with the least free number and the cleaned gloss, or none. |
| `StudioService.Service.CreateSpeaker` | app/services/annotation_studio/speaker_service.py:25-72 | A valid unused label as given, or the least free number by the retry loop; otherwise nothing is inserted. |
| `StudioService.Service.UpdateWord` | app/services/annotation_studio/tier_a_service.py:86-99 | Changes only the gloss; file names already given stay. |
| `StudioService.Service.DeleteWord` | app/services/annotation_studio/tier_a_service.py:102-110 | Deletes the word and its recordings, nothing else. |
| `StudioService.Service.DeleteSpeaker` | app/services/annotation_studio/speaker_service.py:83-86 | Deletes the speaker and its recordings, nothing else. |
| `StudioService.Service.CreatePair` | app/services/annotation_studio/tier_b_service.py:41-66 | Refuses a number the language already uses. |
| `StudioService.Service.DeletePair` | app/services/annotation_studio/tier_b_service.py:83-86 | Deletes the pair and its recordings, nothing else. |
| `StudioService.Service.CreateA` | app/services/annotation_studio/tier_a_service.py:163-199 | Refuses foreign languages and repeated takes; otherwise a pending recording named by labels and repetition. |
| `StudioService.Service.CompleteA` | app/services/annotation_studio/tier_a_service.py:202-208 | Marks the recording stored unless the upload is oversized. |
| `StudioService.Service.DeleteA` | app/services/annotation_studio/tier_a_service.py:211-216 | Deletes that recording only. |
| `StudioService.Service.CreateB` | app/services/annotation_studio/tier_b_service.py:98-131 | Refuses repeated takes; otherwise a pending recording named by pair number, side and repetition. |
| `StudioService.Service.CompleteB` | app/services/annotation_studio/tier_b_service.py:135-141 | Marks the recording stored unless the upload is oversized. |
| `StudioService.Service.DeleteB` | app/services/annotation_studio/tier_b_service.py:144-150 | Deletes that recording only. |
| `ExportGather.GatherA` | app/services/annotation_studio/export_service.py:108-125 | One input for each stored recording of the language and none else, under gloss or label; the dictionary leads every file name to that recording's object. |
| `ExportGather.InputTells` | app/services/annotation_studio/export_service.py:108-125 | Of a stored recording the planner gets the file name, the speaker's label, and the word's gloss or, without one, its label. |
| `ExportGather.GroupB` | app/services/annotation_studio/export_service.py:146-150 | The loop groups the stored recordings by pair and side and indexes them all. |
| `ExportGather.GatherB` | app/services/annotation_studio/export_service.py:127-158 | One input for each pair with a stored recording, by number, each side's files in order of repetition. |
| `ExportGather.PairsByNumber` | app/services/annotation_studio/export_service.py:127-137 | The language's pairs, each once, by number. |
| `ExportGather.SortedByKey` | app/services/annotation_studio/export_service.py:156-157 | Sorting by a key reorders and loses nothing. |
| `ExportBundle.WriteAll` | app/services/annotation_studio/export_service.py:89-92 | Looking up the sorted names succeeds exactly when the dictionary has them all, and writes each once, in order. |
| `ExportBundle.Assemble` | app/services/annotation_studio/export_service.py:61-102 | The archive holds both tiers' planned files, or a missing name fails it. |
| `ExportBundle.BuildExport` | app/services/annotation_studio/export_service.py:228-256 | **Main.** In every state satisfying the invariant, gathering, planning and assembling never fail on a lookup, and the archive holds exactly the files of the two plans, each once, each with the object of the one stored recording of that name, and no object twice, within a tier or across the two. |
| `ExportBundle.WrittenIsFaithful` | app/services/annotation_studio/export_service.py:89-92 | Written entries carry their own recording's object when no two stored recordings share a name. |
| `ExportBundle.BundleKeysOnce` | app/services/annotation_studio/export_service.py:89-102 | Archive entries with different names carry different objects. |
| `Readiness.ReadyWordIsExported` | app/services/annotation_studio/readiness_service.py:40-48 | Every stored recording of a word counted ready becomes a Tier A row, although readiness counts by word and the plan by gloss or label. |
| `Readiness.AllPairsReady` | app/services/annotation_studio/readiness_service.py:62-78 | **Main.** If as many pairs are ready as there are pairs, p pairs give exactly 4p rows: from each pair one same row of either side and two different ones. |
| `Readiness.ExportedRows` | app/services/annotation_studio/export_plan.py:100-127 | Every export's Tier B rows are balanced, sound and free of repetition, without further hypotheses. |
| `Readiness.GatheredFilesDistinct` | app/services/annotation_studio/export_service.py:151-158 | The gathered inputs name every file once. |
| `Readiness.ReadyWordTells` | app/services/annotation_studio/readiness_service.py:40-48 | A word is ready exactly with five stored recordings. |
| `Readiness.ReadyPairTells` | app/services/annotation_studio/readiness_service.py:62-78 | A pair is ready exactly with five stored recordings on either side. |
| `Similarity.LcsSimilarity` | app/services/bhsa/reference.py:89-102 | **Main.** The table filled in place gives the score defined by the recursive longest common subsequence. |
| `Similarity.LcsIsReached` | app/services/bhsa/reference.py:95-101 | Some common subsequence has that length. |
| `Similarity.LcsIsUpperBound` | app/services/bhsa/reference.py:95-101 | No common subsequence is longer. |
| `Similarity.ScoreProperties` | app/services/bhsa/reference.py:89-102 | The score is symmetric, between 0 and 1, and 1 exactly for equal non-empty strings. |
| `Similarity.ScoreIsShare` | app/services/bhsa/reference.py:89-102 | The score is the length of a longest common subsequence divided by that of the longer text. |
| `BookNames.NormalizeBookName` | app/services/bhsa/reference.py:105-117 | The loop with its two running variables computes the chosen name. |
| `BookNames.NormalizeChooses` | app/services/bhsa/reference.py:105-117 | **Main.** The name of the exact key; else of the first entry with the highest score of at least 0.7; else the input. |
| `BookNames.ScanFindsFirstBest` | app/services/bhsa/reference.py:110-116 | The running best is the first entry of maximal score, or no entry reaches the threshold. |
| `Reference.ParseUndoesPrint` | app/services/bhsa/passage.py:48-51 | **Main.** For every chapter and verses, in any order, and every non-empty book name without outer white space, newline or long dash that normalization leaves alone, parsing the printed reference returns it. |
| `Reference.PrintUndoesParse` | app/services/bhsa/reference.py:120-135 | For any table whose names are plain and left alone by normalization, a successfully parsed text, printed and parsed again, gives the same reference. |
| `BookTable.NamesAreFixed` | app/services/bhsa/reference.py:5-84 | Every corpus name of the program's table is plain and is normalized to itself: most because the lower-case name is a key, seven because the name scores highest against its own key. |
| `BookTable.KeysBeginTheirNames` | app/services/bhsa/reference.py:5-84 | Every key of the table without a leading digit begins like its corpus name, in up to three letters. |
| `BookTable.TablePrintUndoesParse` | app/services/bhsa/reference.py:105-135 | **Main.** With the program's own table, a successfully parsed text, printed and parsed again, gives the same reference. |
| `Reference.ParseReads` | app/services/bhsa/reference.py:120-135 | **Main.** Every reference written as book, white space, chapter, colon and verse, with a hyphen, en dash or em dash and a second verse or without, a letter behind either verse or none, leading zeros and outer white space, is read as the chapter and verses it says and the normalized book. |
| `Reference.ParsesIffWritten` | app/services/bhsa/reference.py:120-135 | **Main.** A text is read if and only if it is written so. |
| `Passage.ExtractVerses` | app/services/bhsa/passage.py:17-57 | The nested loops give the clauses of the longest gapless stretch of verses, numbered and positioned, and the reference of what was found; a missing first verse is an error. |
| `Passage.AppendClauses` | app/services/bhsa/passage.py:42-46 | One verse's clauses continue numbering and chain. |
| `Passage.PassageChain` | app/services/bhsa/clause.py:12-21 | **Main.** For every passage, however clauses fall into verses: ids are 1 to n, verses are in order, and replaying the positions gives back the mainline flags. |
| `Passage.ReplayRecoversFlags` | app/services/bhsa/clause.py:16-21 | Initial as on, break as off, continuation as no change, from off, recovers the flags. |
| `Passage.InitialsCountRuns` | app/services/bhsa/clause.py:16-21 | There are as many initials as maximal mainline runs and as many breaks as runs that end before the last clause. |
| `Passage.PresentIsPrefix` | app/services/bhsa/passage.py:33-41 | The verses found are a contiguous prefix of the requested range, and the next one is missing unless the range is exhausted. |
| `Passage.ReportedReferenceIsStable` | app/services/bhsa/passage.py:12-14 | **Main.** Extracting the reference reported with a passage gives the same passage, also when the corpus ended early. |
| `Passage.StableIff` | app/services/bhsa/passage.py:48-51 | This holds if and only if the requested range runs forwards, or its first verse is known and without clauses. |
| `Passage.VerseIsHeld` | app/services/bhsa/passage.py:33-46 | Every verse found contributes exactly its clauses, in their order and in one stretch. |
| `Passage.PositionsTell` | app/services/bhsa/clause.py:7-21 | A clause is on the mainline for the types Way0 and WayX; it is initial behind no or an off-line clause, and a break when it leaves the mainline. |
| `Passage.ExtractPassage` | app/services/bhsa/passage.py:12-14 | Parsing, then extracting, with both errors. |
| `Acousteme.UnitsToSegments` | scripts/import_ruth_acoustemes.py:71-93 | The loop with its run start, and the overwritten last end, gives one segment for each maximal run. |
| `Acousteme.DecodeInvertsEncode` | scripts/import_ruth_acoustemes.py:71-93 | **Main.** From the rounded times, the frame count and the frame duration the original units come back, as soon as a frame is at least 0.0001 s. |
| `Acousteme.EncodingTiles` | scripts/import_ruth_acoustemes.py:71-93 | Then the segments start at 0, meet without gap, have positive length, differ from their neighbours, and end at the separately rounded end. |
| `AcoustemeUnique.UniqueIff` | scripts/import_ruth_acoustemes.py:71-93 | For a frame count and duration, different streams always have different segments if and only if no two neighbouring inner boundaries round to the same time. |
| `AcoustemeUnique.UniqueIffTick` | scripts/import_ruth_acoustemes.py:71-93 | **Main.** For a frame length, this is so for every frame count if and only if a frame is at least 0.0001 s. |
| `Acousteme.PositiveIffTick` | scripts/import_ruth_acoustemes.py:82-92 | **Main.** All segments of all streams with a frame duration have positive length if and only if that duration is at least 0.0001 s. |
| `Acousteme.RunStartsFacts` | scripts/import_ruth_acoustemes.py:71-85 | The run starts increase from 0 and each begins a unit unlike the one before. |
| `Acousteme.RunIsConstant` | scripts/import_ruth_acoustemes.py:71-85 | Within a run the unit does not change. |
| `Acousteme.LastEndIsNear` | scripts/import_ruth_acoustemes.py:91-92 | The end rounded on its own to six places stays within half a frame of the last boundary. |
| `Acousteme.RoundIsNear` | scripts/import_ruth_acoustemes.py:75-77 | Rounding, half to even, moves a time by at most half a step. |
| `Acousteme.TimesAreFrames` | scripts/import_ruth_acoustemes.py:82-92 | Starts and ends are the times of their frames to four places, the last end of a known length is that length to six. |
| `Acousteme.FrameShare` | scripts/import_ruth_acoustemes.py:74-80 | A frame lasts its share of a known positive length, else 0.02 s. |
| `Acousteme.BoundariesMeet` | scripts/import_ruth_acoustemes.py:75-77 | For every shorter frame some two neighbouring boundaries round to the same time. |
| `ReviewFlags.Table.Backfill` | alembic/versions/20260731_0001_add_review_flags_to_oc_recordings.py:111-160 | **Main.** For any table with distinct keys and any page size of at least 1: ends, visits every row once in key order, leaves every row with its own flags and otherwise unchanged, and counts exactly the visited and the changed rows; the result does not depend on the page size. Without the table or column nothing happens. |
| `ReviewFlags.Table.Pages` | alembic/versions/20260731_0001_add_review_flags_to_oc_recordings.py:124-160 | The paging loop. |
| `ReviewFlags.Table.FlagPage` | alembic/versions/20260731_0001_add_review_flags_to_oc_recordings.py:139-156 | The loop over one page brings exactly that stretch of the table to its final state. |
| `ReviewFlags.Table.FlagsFor` | alembic/versions/20260731_0001_add_review_flags_to_oc_recordings.py:87-108 | Appends the applicable flags in the fixed order. |
| `ReviewFlags.FlagsSayWhatIsMissing` | alembic/versions/20260731_0001_add_review_flags_to_oc_recordings.py:96-107 | Each of the three system flags is present exactly when its field is missing: a genre other than the placeholder and a non-empty register, a sufficient description, a storyteller; each at most once and in fixed order. |
| `ReviewFlags.FlaggedKeepsColumns` | alembic/versions/20260731_0001_add_review_flags_to_oc_recordings.py:146-156 | A backfilled row has its own flags and every other column as before. |
| `ReviewFlags.NextPage` | alembic/versions/20260731_0001_add_review_flags_to_oc_recordings.py:126-137 | The query behind the last key returns the next stretch of the table. |
| `ReviewFlags.SecondRunChangesNothing` | alembic/versions/20260731_0001_add_review_flags_to_oc_recordings.py:146-156 | A second run finds nothing to change. |
| `ReviewFlags.ChangesCountStaleRows` | alembic/versions/20260731_0001_add_review_flags_to_oc_recordings.py:146-156 | The reported changes are the rows whose stored flags were not their own. |
| `EntryBrief.SliceParticipants` | app/services/book_context/compute_entry_brief.py:19-33 | The loop keeps the participants that enter before the target, with their arcs cut off there. |
| `EntryBrief.SliceThreads` | app/services/book_context/compute_entry_brief.py:36-62 | The loop keeps the threads opened before the target, with statuses cut off and the resolved mark set for the target. |
| `EntryBrief.BuildEstablishedItems` | app/services/book_context/compute_entry_brief.py:101-180 | The five loops list participants, unresolved threads, institutions, places and objects in this order. |
| `EntryBrief.PeopleAbsorb` | app/services/book_context/compute_entry_brief.py:19-33 | Slicing at an earlier target what was sliced at a later one is slicing the original at the earlier one. |
| `EntryBrief.ThreadsAbsorb` | app/services/book_context/compute_entry_brief.py:36-62 | **Main.** The same for threads, their statuses and the resolved mark. |
| `EntryBrief.AppearedAbsorb` | app/services/book_context/compute_entry_brief.py:65-75 | The same for places, objects and institutions. |
| `EntryBrief.AppearedMembers` | app/services/book_context/compute_entry_brief.py:65-75 | The filtered list has exactly the items whose first verse is before the target, each as often as before. |
| `EntryBrief.PeopleShown` | app/services/book_context/compute_entry_brief.py:19-33 | The participants shown are exactly those that enter before the target, with every field but the states that come later. |
| `EntryBrief.ThreadsShown` | app/services/book_context/compute_entry_brief.py:36-62 | The threads shown are exactly those opened before the target, cut off there, and marked resolved exactly when that happened before it. |
| `EntryBrief.MissingIsZero` | app/services/book_context/compute_entry_brief.py:13-16 | A missing chapter or verse counts as 0. |
| `EntryBrief.ItemsTell` | app/services/book_context/compute_entry_brief.py:108-178 | What each item says of its participant, thread, institution, place or object. |
| `EntryBrief.CiteReads` | app/services/book_context/compute_entry_brief.py:114-115 | A citation is the chapter before the colon and the verse behind it. |
| `EntryBrief.LaterPassagesKeepPeople` | app/services/book_context/compute_entry_brief.py:19-33 | Every participant of an earlier passage is one of every later passage, with at least its states. |
| `EntryBrief.LaterPassagesKeepThreads` | app/services/book_context/compute_entry_brief.py:36-62 | Every thread stays in later passages, and once resolved stays resolved. |
| `EntryBrief.EventsAreOpenThreads` | app/services/book_context/compute_entry_brief.py:129-145 | **Main.** The event items are, in order, exactly the threads opened and not resolved before the target, each with its last status before it. |
| `EntryBrief.OpenOnce` | app/services/book_context/compute_entry_brief.py:41-61 | A thread is open over one stretch of the book. |
| `EntryBrief.ReportsLastListed` | app/services/book_context/compute_entry_brief.py:112-114 | The reported state is that of the last listed moment before the target, empty when there is none. |
| `EntryBrief.ReportsLatest` | app/services/book_context/compute_entry_brief.py:112-114 | For a list in verse order, no moment strictly before the target is later than the reported one. |
| `EntryBrief.KeepsBeginning` | app/services/book_context/compute_entry_brief.py:24-26 | Such a list is cut after that moment. |
| `EntryBrief.BeforeIsReadingOrder` | app/services/book_context/compute_entry_brief.py:13-16 | The comparison is reading order with missing numbers as 0, and what is before a target is before every later one. |

## Left out

- HTTP routers and their role checks, request schemas, database sessions and SQL: unique keys, foreign keys and cascades are rules of the modelled stores.
- Language models, translation services and e-mail: their outcomes are parameters of the calls, an exception being one of them.
- Interleaving inside one call: two approvals that read the same rows before either commits are not modelled.
- The generation's steps and logs: a run appears as its start and its end, and a failed end as the same step without sections.
- Names and avatars in the approval report, section labels, generation metadata, and the null column as against an empty translation cache, which are identified.
- A cached locale that is not a dictionary but that `dict()` would still accept: it counts as an error of the translate call.
- Object storage, zip, CSV and JSON bytes: an archive is the list of its entries, each a name with the key of the stored object.
- Tier C clips and sort assignments, agreement, emblems, reference recordings, pair texts and speaker display names: they take part in none of the modelled properties.
- Floating-point rounding: sampling uses the exact quotient (i * size) / n, similarity scores and times are exact reals, and an infinite or undefined duration counts as unknown.
- Decimal digits outside ASCII, which the pattern's \d also accepts, and Unicode case mapping: lower-casing is a parameter of the book-name functions, and a speaker label arrives trimmed and lower-cased.
- PrintUndoesParse: assumes that the table's names are plain and left alone by normalization; `TablePrintUndoesParse` proves that for the program's table, for any lower-casing that treats its ASCII names as ASCII.
- CreateWord: the check of a requested emblem is not modelled; words carry no emblem.
- CreateSpeaker: trimming and lower-casing of the requested label happen before the modelled call.
- Assemble: Tier C clips are not in the modelled archive.
- BuildExport: Tier C clips and failures of the object store are not modelled.
- ReachableKeysDiffer: assumes codes of at most three characters, as the language table holds them, or without a slash.
- Normalization against an empty name in the table: `NormalizeChooses` assumes that the table has none, as the program's has none.
- The sufficiency rule for descriptions (grapheme counting) and the order of keys are parameters of the backfill; the table is presented in the order of its primary key.
- Filling in missing glosses of an entry brief, the opening brief of a book's first passage, and the database reads around slicing: they would add only easy members.
- A verse number stored as null rather than missing: the comparison then raises an error, and no such value is modelled.
- `slugify`, corpus loading and the upload of segments in the acousteme script.
- Sound Necklace, meaning maps, organizations, projects, invitations, passwords and tokens: they would add only easy members.
