# DBGuard sandbox: a verified model

DBGuard rehearses a PostgreSQL hardening fix in a throwaway server. It rebuilds the source's
configuration there, applies the fix, checks it, undoes it, proves the undo exact and destroys the
server. This project models the part of that which decides whether "exact" and "verified" mean
anything, and proves what they mean.

`dafny verify dfyconfig.toml` checks everything (Dafny 4.11).

| file | models |
|---|---|
| Evidence, Postgres, Provenance, ConfigFile | collected rows and their signature, the server's two configuration files and its transitions, reconstruction of a source, the file text and its reader |
| SettingFix, Rehearsal | setting fixes with their derived rollback; evidence to reconstruction to rehearsal, and the sources on which a condition fails |
| NameLists, PreloadList, PreloadPair | quoted name lists, chained preload fixes, the two real preload fixes in both orders |
| Batch, BatchRun, BatchPlanning, Ordering | several fixes in one sandbox with undo in reverse order, the checks before it, the recommended and the requested order |
| AttemptLoop, Adaptive | the attempt loops with every runtime call allowed to raise, the test and revise graph |
| Acl, ObjectNames, ObjectFixes, Skeleton | access lists, per-object fixes and their conflicts, the catalog stand-in |
| Statement, Handoffs, ProfileStore, Chunker | the single-statement scanner, the handoff store, the approval store, the document chunker |
| Text, Wrappers | shared helpers |

Every lemma carries `{:induction false}`: nothing is left to automatic induction.

## How the server is modelled

* `postgresql.conf` is a sequence of lines that is only appended to; `postgresql.auto.conf` holds at most
  one line per name; ALTER SYSTEM moves a line to the end.
* The last line of a name wins, and `postgresql.auto.conf` beats `postgresql.conf`.
* A reload re-sources every setting that a reload can change. A setting fixed at server start keeps its
  running row until a restart; it is pending exactly while its value would change, or after its line was
  removed when no other file has one.
* A setting that a library defines has a row only while the running preload list loads that library, so rows
  appear and disappear at a restart. PostgreSQL 17 accepts ALTER SYSTEM for such a setting before it exists.
* `pg_file_settings` reports a waiting line as an error of that line.
* Docker, psql, polling, time-outs, TLS and passwords are replaced by nondeterministic failures. The
  assessor, the catalog checks and the offer rules are arbitrary functions of the collected evidence; the
  language model that revises a fix is an arbitrary function; SHA-256 is injective.

## What was found

* Rollback of a setting fix is exact for SET and RESET, whatever part of the apply script ran, also when a
  setting has no row before the fix, from every server on which nothing waits and the reloadable settings run
  what their files say; if the fix restarts the server, the other settings must too (`SettingFix.UndoExact`).
* `reconstruction_plan` accepts a little more than settled servers: evidence in which a row still shows
  `postgresql.conf` while a not yet loaded `postgresql.auto.conf` line exists. There the rollback is RESET and
  drops that line (`Rehearsal.UnloadedLineExample`). `SettingFix.RehearsalExactIff` gives the exact condition
  for every server on which nothing waits, `Rehearsal.EndToEnd` the one from the source's evidence on.
* Such a source can be reproduced old row included (`Rehearsal.UnloadedLineIsReproduced`). A batch of fixes that
  never restart runs and is undone from it like from any other (`BatchRun.RunFromEvidence`,
  `BatchRun.UnloadedLineBatch`). A fix that restarts it is not undone exactly (`BatchRun.OldRowShows`). One
  verified run that compared the batch's settings and restarted shows that there is no old row
  (`BatchRun.VerifiedRunSettles`); a run that compared fewer settings does not.
* `reconstruct` reproduces the source exactly if and only if the image's own lines repeat the source's, the
  library of every compared setting is loaded, and the compared settings run what their files say
  (`Provenance.ReconstructionExact`). `Rehearsal.ImageLineExample` is a settled source that is not reproduced.
  A mismatch is caught by the signature comparison; the restart allowlist is never what refuses.
* The check for a canonical value in `postgresql.auto.conf` is necessary: a textual alias (`true` for
  `on`) is not restored (`SettingFix.CanonicalCheckIsNeeded`, `Rehearsal.AliasExample`).
* A RESET of a setting fixed at server start leaves an old row when `postgresql.conf` has a line with the value it
  runs: nothing restarts, and the rollback is exact all the same (`SettingFix.ResetToTheSameValue`). When there
  is no such line and the built-in value is the running one, PostgreSQL restarts for the removed line, writing
  the value back needs no restart, and the row that the restart left stays: once activated, such a fix is
  not undone exactly (`SettingFix.ResetToBuiltInValue`). It is the only kind of which that is true
  (`SettingFix.UndoExactIff`).
* In the adaptive loop the chosen template becomes the current one before its action is validated. If the
  validation raises, the run reports a template that was never tested (`Adaptive.UntestedReportExample`).
  `Adaptive.ReportedIsTestedIff` says for which alternatives this cannot happen, whatever the reviser answers.

## Model

| member | source | states |
|---|---|---|
| Evidence.ExactlyOneKept | services/sandbox_poc/provenance.py:42-76 | of the error-free rows with one file, name and value the shadow filter keeps exactly one |
| Evidence.FilterIdempotent | services/sandbox_poc/provenance.py:42-76 | filtering filtered evidence removes nothing |
| Evidence.FilterPreservesResolution | services/sandbox_poc/provenance.py:42-76 | the filter never changes what a name resolves to, nor what it falls back to once its auto.conf line is gone |
| Postgres.FilteredEvidence | services/sandbox_poc/provenance.py:42-76 | read from a server's own filtered evidence, a compared name resolves to the line that decides it and falls back to the last line of each file |
| Postgres.SignatureOfCollected | services/sandbox_poc/catalog_fixes.py:372-387 | the signature of collected evidence is the one read off the server's files and rows; the strict form raises exactly when a compared setting has no row |
| Postgres.SigDependsOn | services/sandbox_poc/provenance.py:26-39 | a signature depends only on the compared rows, each compared name's auto.conf text and the conf lines; line order and numbers do not matter |
| Postgres.DisposablePostgres.WriteConfig | services/sandbox_poc/runtime.py:152-158 | postgresql.conf is appended to, postgresql.auto.conf replaced, any other file refused |
| Postgres.DisposablePostgres.Activate | services/sandbox_poc/runtime.py:160-178 | reload, at most one restart and only of reviewed settings, then the three outcomes, each exactly when it applies |
| Postgres.ActivatedServer | services/sandbox_poc/runtime.py:160-178 | after an activation that is not refused nothing waits, the libraries of the resolved list are loaded, and each row is read from the files unless it is fixed at server start and nothing restarted |
| Provenance.ReconstructionPlan | services/sandbox_poc/provenance.py:79-126 | a plan is returned exactly when the evidence meets the provenance rules |
| Provenance.Reconstruct | services/sandbox_poc/provenance.py:157-172 | what writing the files, activating and the one extra restart leave, or which error ends it |
| Provenance.ReconstructionExact | services/sandbox_poc/provenance.py:129-172 | from every accepted source the signature is reproduced if and only if the image's lines repeat the source's, the compared settings' libraries are loaded, and those settings were settled or, if fixed at server start, already run by the image; the restart allowlist never refuses |
| Provenance.ExactReconstructionIsSettled | services/sandbox_poc/provenance.py:157-172 | an exact reconstruction, of a settled source or not, leaves nothing waiting and every reloadable setting running what its files say; every setting of the sandbox, compared or not, does so if and only if the source's compared settings fixed at server start did |
| Provenance.ReconstructionNeverRefused | services/sandbox_poc/runtime.py:160-178 | activating the written files never meets a pending setting outside the restart allowlist |
| Rehearsal.AcceptedIff | services/sandbox_poc/provenance.py:79-126 | the plan accepts a server's evidence if and only if every compared setting is reconstructible from one line per file and those lines are plain |
| Rehearsal.EndToEnd | services/sandbox_poc/workflow.py:219-264 | from accepted evidence, reconstruction is exact and the rehearsal of any prefix of any fix gives the source's signature back, if and only if the source is reproducible, the changed settings and those read again ran what their files say, and a restart by the fix is followed by one by the rollback |
| Rehearsal.SettledEndToEnd | services/sandbox_poc/workflow.py:219-264 | for a settled source of built-in settings reconstruction is exact if and only if the image's lines repeat the source's, and then the whole server comes back unless a RESET restarted it for nothing |
| Rehearsal.UnloadedLineExample | services/sandbox_poc/provenance.py:105-126 | a concrete accepted source whose unloaded auto.conf line the rollback drops |
| Rehearsal.UnloadedLineIsReproduced | services/sandbox_poc/provenance.py:157-172 | the same source, old row included, is reproduced exactly by an image that has its postgresql.conf line |
| Rehearsal.ImageLineExample | services/sandbox_poc/provenance.py:157-172 | a concrete settled and accepted source that an image with another line never reproduces |
| ConfigFile.ValueRoundTrip | services/sandbox_poc/provenance.py:162-163 | the server reads an escaped value back unchanged, whatever quotes and backslashes it holds |
| ConfigFile.FileRoundTrip | services/sandbox_poc/provenance.py:157-164 | the written file is read back as exactly the lines of the plan |
| SettingFix.RunSql | services/sandbox_poc/runtime.py:143-150 | feeding a prefix of a script to the server leaves what that prefix means |
| SettingFix.UndoExact | backend/app/services/fix_unit_render.py:30-69 | from a server on which nothing waits and the reloadable settings run what their files say (all settings, if the fix restarts it), any prefix of the apply script (SET or RESET, also of a setting without a row), activated or not, followed by the derived rollback and an activation restores both files, every row of every setting, and leaves nothing pending |
| SettingFix.UndoExactIff | services/sandbox_poc/workflow.py:45-60 | from any server on which nothing waits the whole server comes back if and only if the old texts are written back, the settings read again ran what their files say, and a restart by the fix is followed by one by the rollback |
| SettingFix.AppliedSettledIff | services/sandbox_poc/runtime.py:160-178 | a complete fix is never refused and leaves a settled server, changed in its own settings only, if and only if one of them needs a restart or none keeps an old row |
| SettingFix.ReloadApplied | services/sandbox_poc/runtime.py:160-178 | a complete fix of reloadable settings is never refused, never restarts, changes its own rows only and leaves the server as settled as it was |
| SettingFix.ResetToTheSameValue | backend/app/services/fix_unit_render.py:56-67 | a RESET to the running value that postgresql.conf also holds restarts nothing, leaves a row that names a file without such a line, and is undone exactly |
| SettingFix.ResetToBuiltInValue | backend/app/services/fix_unit_render.py:56-67 | a RESET to the running value that is also the built-in one is not undone exactly once it was activated, and its row then shows no file; before the activation it is |
| SettingFix.RehearsalExactIff | services/sandbox_poc/workflow.py:45-60 | from any server on which nothing waits, for every list of changes, every prefix, activated or not, the rehearsal restores the signature if and only if the rollback writes the old texts back, the compared settings read again ran what their files say, and a restart by the fix is followed by one by the rollback |
| SettingFix.AcceptedRehearsalExactIff | services/sandbox_poc/workflow.py:45-60 | for accepted evidence the old texts come back exactly when the changed settings ran what their files say |
| SettingFix.CanonicalCheckIsNeeded | services/sandbox_poc/provenance.py:118-123 | a fix of settled settings is undone exactly, however far it got, if and only if their auto.conf texts are canonical and no RESET restarted the server for nothing |
| Rehearsal.AliasExample | services/sandbox_poc/provenance.py:118-123 | a concrete alias that comes back as another text |
| NameLists.ParseSearchPath | services/sandbox_poc/catalog_skeleton.py:171-208 | the scanning loops terminate on every text and compute the grammar's reading of it, refusals included |
| NameLists.RoundTrip | services/sandbox_poc/catalog_skeleton.py:419-420 | parsing undoes both printers on every non-empty list of arbitrary names |
| NameLists.TextDeterminesList | services/sandbox_poc/catalog_fixes.py:131-134 | two lists printed alike are equal |
| PreloadList.DerivedList | services/sandbox_poc/catalog_fixes.py:137-147 | a derived list is the previous list plus exactly one new library, without repeats, and its text reads back as it |
| PreloadList.RollbackOfWrittenText | services/sandbox_poc/catalog_fixes.py:220-228 | preload_rollback never refuses a text the list template wrote and renders it unchanged |
| PreloadList.ChainGrows | services/sandbox_poc/batch.py:57-77 | along a chain every later list extends every earlier one by the libraries between them |
| PreloadList.OnlyFirstLinkLast | services/sandbox_poc/batch.py:364-383 | run in any order, a chain's rollbacks restore the original text if and only if the first link's runs last: reverse order does, forward order does not |
| PreloadList.ChainNeverRefusesItself | services/sandbox_poc/catalog_fixes.py:220-228 | no later link's rollback is refused because of what an earlier link wrote |
| PreloadPair.CleanStep | services/sandbox_poc/batch.py:57-80 | a derived step that nothing interrupts runs to the end and shows the values it expects |
| PreloadPair.BothOrders | services/sandbox_poc/batch.py:57-113 | CIS 3.2 and 5.6 in either order: both steps complete, the list gets both libraries, pgaudit.log appears with its text, and the recorded rollbacks in reverse order restore the start, where it has neither row nor line |
| Batch.ChangesSound | services/sandbox_poc/catalog_fixes.py:285-350 | whatever a catalog fix derives in mid-run is a sound and effectual fix of the current server, of its own setting or appending to the list; pgaudit.log may have no row yet |
| Batch.CatalogUndoIsExact | services/sandbox_poc/catalog_fixes.py:207-228 | the recorded rollback of a derived fix, list template and settings without a row included, runs the statements of the general rule |
| Batch.ApplyReached | services/sandbox_poc/batch.py:295-327 | however far a step gets, it leaves a world that its fix can have reached |
| Batch.UndoRestores | services/sandbox_poc/batch.py:101-120 | undoing a fix from any world it can have reached restores the world before it and is not refused, also when that world has an old row that the fix does not read again |
| Batch.UndoRestoresObjects | services/sandbox_poc/batch.py:187-197 | the same for an object fix: its grants and components come back whether or not its transaction was committed |
| Batch.OthersStayReady | services/sandbox_poc/planning.py:701-709 | a completed step, of settings, libraries or objects, leaves the server as settled as it was and every independent fix ready: a rollback derived from the source is still the exact one |
| Batch.NeverWorse | services/sandbox_poc/shared.py:59-71 | non-regression from step to step bounds every later step against every earlier one |
| Batch.StillHolds | services/sandbox_poc/batch.py:162-184 | an object predicate once true is true at every later step |
| Batch.CheckStillPasses | services/sandbox_poc/catalog_fixes.py:530-538 | the check of an applied catalog fix passes at every later step, although only steps that change one of its inputs look at it |
| Batch.EndState | services/sandbox_poc/batch.py:295-361 | when all steps passed, the last collection has every setting control at PASS, every catalog fix's check passing, every object predicate true and no control worse than at the baseline |
| BatchRun.Apply | services/sandbox_poc/batch.py:57-80 | the state after a step that stops anywhere, and the rollback recorded before its SQL ran |
| BatchRun.UndoVerifies | services/sandbox_poc/batch.py:187-197 | an uninterrupted rollback passes the exact-rollback gate |
| BatchRun.ForwardPass | services/sandbox_poc/batch.py:294-360 | the journal after any failure: which fixes were started in which worlds, and that each can be undone |
| BatchRun.ReversePass | services/sandbox_poc/batch.py:363-415 | with the snapshot it picks for each undo, whatever step failed, a completed reverse loop ends in the baseline, skipping only catalog fixes of which nothing ran; it completes whenever no rollback is interrupted |
| BatchRun.ReconstructedIsPrepared | services/sandbox_poc/batch.py:255-285 | an exact reconstruction of an accepted source is a baseline the batch can start from if and only if no fix may restart it or the source's compared settings fixed at server start ran what their files say |
| BatchRun.VerifiedRunSettles | services/sandbox_poc/batch.py:226-240 | one exact rehearsal of the same settings that restarted the server shows that there is no old row, so every fix may follow |
| BatchRun.OldRowShows | services/sandbox_poc/batch.py:101-113 | the condition is needed: with an old row of a compared setting, an uninterrupted fix that restarts the server fails the exact-rollback gate |
| BatchRun.UnloadedLineBatch | services/sandbox_poc/batch.py:255-285 | a concrete unsettled source from which every batch of fixes that never restart can start |
| BatchRun.ReproducedIsReady | services/sandbox_poc/batch.py:276-294 | a fix offered on the source is ready in a sandbox that reproduces it: its rollback is the exact one there, a setting absent from the source is absent there, and an object whose value or access list is the recorded one is as its fix needs it |
| BatchRun.RunBatch | services/sandbox_poc/batch.py:263-424 | VERIFIED means all steps passed with the end state above; without a rollback error the world is the baseline again; it is not started exactly when the sandbox does not reproduce the source; CLEANUP_FAILED exactly when closing fails |
| BatchRun.RunFromEvidence | services/sandbox_poc/batch.py:254-424 | from the source's evidence on: refused exactly when the plan is; VERIFIED only from an exact reconstruction with every fix achieved and no control worse; a batch that was started leaves the sandbox as it was rebuilt unless a rollback failed, and none fails unless interrupted |
| BatchPlanning.ChecksMakeIndependent | services/sandbox_poc/planning.py:695-719 | reviews and object changes that pass the two conflict checks belong to fixes that are independent of each other; no plain fix owns the preload list, because fix_scope refuses a computed setting |
| BatchPlanning.OrderKeepsIndependent | services/sandbox_poc/batch.py:251-253 | reordering keeps the fixes independent |
| Ordering.RecommendOrder | services/sandbox_poc/planning.py:695-733 | a permutation with prerequisites first that always takes the least ready fix; after the duplicate checks it fails exactly when no order respects the prerequisites |
| Ordering.GreedyUnique | services/sandbox_poc/planning.py:717-733 | there is only one such order of the same fixes |
| Ordering.InputOrderIrrelevant | services/sandbox_poc/planning.py:717-733 | the recommendation does not depend on the order of the input |
| Ordering.ClaimedOnce | services/sandbox_poc/planning.py:705-709 | once the settings check passes no setting belongs to two fixes |
| Ordering.CheckOrder | services/sandbox_poc/batch.py:241-251 | accepts exactly the dependency-respecting permutations named by the request |
| AttemptLoop.NestedIsLawful | services/sandbox_poc/workflow.py:186-276 | the nested try statements give exactly the laws read off the events: closed once and last, rollback if and only if apply was entered and the server did not fail to restart, VERIFIED if and only if every call succeeded, the terminal errors |
| AttemptLoop.NestedInFlight | services/sandbox_poc/workflow.py:232-264 | the exception that leaves an attempt is the last one raised, so one raised in finally replaces the one in flight |
| AttemptLoop.AliveDuring | services/sandbox_poc/runtime.py:300-310 | during an attempt exactly its sandbox exists; afterwards none unless closing failed |
| AttemptLoop.OneMoreAttempt | services/sandbox_poc/workflow.py:264-276 | a further attempt never makes two sandboxes exist at once |
| AttemptLoop.Runner.RunAttempt | services/sandbox_poc/catalog_fixes.py:634-739 | one attempt of any of the three loops obeys the laws, for every pattern of failing calls |
| AttemptLoop.Runner.RunAll | services/sandbox_poc/workflow.py:278-292 | the loop stops as promised, keeps one sandbox at a time and leaves none unless it ends CLEANUP_FAILED |
| Adaptive.Loop.Revise | services/sandbox_poc/workflow.py:152-184 | a revision makes the chosen template the current one before it is validated, and ends the run unless it is valid |
| Adaptive.OutcomeIsSound | services/sandbox_poc/workflow.py:144-184 | whatever the reviser answers, tested SQL is pairwise distinct and comes from supplied templates, every test but the last failed retryably, and the status is the last test's unless a revision ended the run |
| Adaptive.ReportedIsTestedIff | services/sandbox_poc/workflow.py:163-178 | the reported template was tested for every reviser if and only if every alternative that can be chosen after the first test refreshes to a valid template |
| Adaptive.UntestedReportExample | services/sandbox_poc/workflow.py:172-178 | a concrete run that reports a template it never tested |
| Adaptive.Loop.Run | services/sandbox_poc/workflow.py:186-292 | the test and revise graph with a sandbox for every attempt: whatever the reviser answers and whichever runtime calls fail, every attempt is lawful, one sandbox exists at a time, none is left unless the run ends CLEANUP_FAILED, the result is the stated outcome for the attempts' results, and at most 2 times the limit minus one nodes run |
| Acl.MarksOfText | services/sandbox_poc/catalog_skeleton.py:223-230 | reading a printed privilege text gives its letters and grant options |
| Acl.Held | services/sandbox_poc/object_fixes.py:256-262 | the reader that looks at every character agrees with the one that jumps over stars |
| Acl.SplitPrivileges | services/sandbox_poc/catalog_skeleton.py:223-231 | plain and grantable privileges in order, or a refusal exactly when a letter is unsupported |
| Acl.Rebuilt | services/sandbox_poc/catalog_skeleton.py:211-242 | the GRANT statements of a list, run on an object without grants, rebuild it as a map of grantee, privilege and grant option |
| ObjectFixes.TableDml | services/sandbox_poc/object_fixes.py:481-539 | exactly the offers of the eligible grantees of a table that no extension may own, sorted by grantee, without grant option first |
| ObjectFixes.OffersPartition | services/sandbox_poc/object_fixes.py:528-533 | the offers partition a grantee's write privileges by grant option |
| ObjectFixes.OfferIsReversible | services/sandbox_poc/object_fixes.py:481-539 | on the table's whole list an offered REVOKE never needs CASCADE, removes nothing else, and its GRANT restores the list with its grant options |
| ObjectFixes.ProposedIsReady | services/sandbox_poc/object_fixes.py:714-748 | where the recorded value or access list is found again, every offered fix, EXECUTE of PUBLIC included, finds what its statements and its rollback need |
| ObjectFixes.NoConflicts | services/sandbox_poc/batch.py:144-150 | accepts exactly the selections without a shared attribute |
| ObjectFixes.ConflictIsOverlap | services/sandbox_poc/batch.py:123-141 | textual attributes meet if and only if two fixes write the same component |
| ObjectFixes.AnyOrder | services/sandbox_poc/object_fixes.py:689-748 | accepted fixes succeed in every order, reach one state with every predicate true, and undoing them in any order restores every component, privilege and grant option |
| ObjectFixes.ApplyThenUndo | services/sandbox_poc/object_fixes.py:689-748 | a ready fix is not refused, its predicate then holds, and its undo restores every component, privilege and grant option |
| ObjectFixes.OtherStaysReady | services/sandbox_poc/batch.py:144-150 | a fix accepted together with another is as ready after the other one as before |
| ObjectNames.TargetKeysDiffer | services/sandbox_poc/catalog_skeleton.py:109-119 | different objects have different keys |
| Skeleton.ReadAcl | services/sandbox_poc/catalog_skeleton.py:211-232 | a list is read exactly when the owner granted all of it and every privilege is supported |
| Skeleton.MakePlan | services/sandbox_poc/catalog_skeleton.py:245-383 | accepted exactly when every target and its schema can be recreated: names, owners, lists, pinned settings, arguments, password types; exact and dependency roles stay disjoint, nothing existing is planned, and the plan holds exactly the targets, their schemas and the roles that own or use them |
| Skeleton.StandInIsExact | services/sandbox_poc/catalog_skeleton.py:388-432 | the script runs without error on a fresh sandbox, creates nothing twice and nothing else, and gives every target its source owner, flags and access list |
| Skeleton.TableOfferStandsIn | services/sandbox_poc/catalog_skeleton.py:403-413 | what was offered on a recreated table finds on the stand-in the grants its REVOKE and GRANT need |
| Skeleton.FunctionOfferStandsIn | services/sandbox_poc/catalog_skeleton.py:414-426 | the same for EXECUTE of PUBLIC on a recreated function, also when its list was left out as the default |
| Skeleton.PathReadsBack | services/sandbox_poc/catalog_skeleton.py:414-422 | the server reads the rendered search_path clause as the elements read from the source's stored text |
| Skeleton.RunTable | services/sandbox_poc/catalog_skeleton.py:403-413 | what the statements of one table leave |
| Skeleton.DefaultIsGranted | services/sandbox_poc/catalog_skeleton.py:354-358 | a function list left out as default is the one the server gives |
| Statement.IsOneStatement | services/sandbox_poc/workflow.py:321-347 | accepts exactly the texts with closed quotes, nothing forbidden outside them and their only unquoted semicolon last |
| Statement.AcceptsRendered | services/sandbox_poc/workflow.py:321-347 | every statement of safe text and delimited identifiers of arbitrary content with one final semicolon is accepted |
| Handoffs.HandoffStore.Put | services/sandbox_poc/upstream.py:167-177 | the oldest entry that is not running makes room, or the call is refused |
| Handoffs.OneStep | services/sandbox_poc/upstream.py:162-201 | each operation keeps the limit, never drops a running entry, never misses the key it ends, and moves each status along its path |
| Handoffs.AlwaysInvariant | services/sandbox_poc/upstream.py:162-201 | in every interleaving the limit holds and exactly the executing keys are running |
| Handoffs.AtMostOnce | services/sandbox_poc/router.py:136-152 | no key is handed to two runners |
| ProfileStore.ApprovedOnlyByApprove | backend/app/services/policy_profile_store.py:109-131 | a store profile is returned as approved only if an approve call by that name logged it, with the draft's content |
| ProfileStore.ReferenceIsContent | backend/app/services/policy_profile_store.py:112-131 | a reference means one profile: two successful reads agree, whatever happened to the files in between |
| ProfileStore.PolicyProfileStore.CreateDraft | backend/app/services/policy_profile_store.py:197-218 | refused without any change unless the profile it is based on can be read; otherwise one object and one log entry, no approval appears, stored objects never change, and a draft is never returned approved, at every crash point |
| ProfileStore.PolicyProfileStore.Approve | backend/app/services/policy_profile_store.py:220-237 | refused without any change, or one act by that name; stored objects never change, and a completed approval is readable |
| Chunker.SplitText | services/rag/rag_service.py:384-411 | the sliding window terminates and yields the overlapping pieces |
| Chunker.PieceSizes | services/rag/rag_service.py:393-409 | no piece is empty or longer than the size, all but the last are full, and each later one is longer than its overlap |
| Chunker.PiecesRebuild | services/rag/rag_service.py:384-411 | the first piece and the later ones without their overlap rebuild the text |
| Chunker.PieceCount | services/rag/rag_service.py:384-411 | the number of pieces is 1 + ceil((length - size) / (size - overlap)) |
| Chunker.ChunkDocument | services/rag/rag_service.py:295-359 | grouping cuts at headers without losing a line, at most 1000 chunks remain, numbered from 0 |
| Chunker.SectionsUnique | services/rag/rag_service.py:307-338 | there is only one way to cut a document at its headers |
| Chunker.SizedFit | services/rag/rag_service.py:341-347 | every chunk is non-empty and fits the chunk size |

## Left out

- Postgres.Reload: an ALTER SYSTEM value the server rejects does not occur.
- Postgres.DisposablePostgres.Activate: polling and time limits; a value either shows at once or never. A server that does not start again is an interrupted step.
- Evidence.SignatureOf: the sorted list of file rows is a multiset.
- ConfigFile.ScanValue: octal escapes, which the writer never produces.
- SettingFix.RenderAction: the SQL text of a statement; statements are values.
- PreloadList.Split: the list grammar of `parse_search_path` stands for `preload_items`, which is not part of this model; paths are taken as written.
- Batch.Proof: the sessions that the check of CIS 6.10 reads beside its settings are the same at every collection.
- Batch.Gate: functional checks and TLS handshakes only reject more; they are part of a step's failure input.
- BatchRun.RunFromEvidence: the individual runs before it, bundles and reports are plumbing; the stand-in's objects are given.
- BatchRun.Offered: a fix of a setting fixed at server start asks for another value than the running one, as its failing control implies.
- AttemptLoop.Runner.RunAttempt: the contents of the evidence record, and interrupts of the process.
- Adaptive.Loop.Revise: the feedback given to the reviser; comment and white-space removal in a template's identity.
- ObjectFixes.TableDml: the notes for what is not offered, and identifier checks.
- ObjectFixes.AnyOrder: connection limits, attributes, login and security flags are components with a value; their offers are not modelled.
- Skeleton.MakePlan: which identity-argument lists a stub can declare and which attribute values are readable are given with the evidence.
- Skeleton.StandInIsExact: statement text; membership cycles, which a real catalogue excludes; throwaway passwords.
- Handoffs.HandoffStore.Finish: deep copies and the shape of the saved result.
- ProfileStore.GetFrom: YAML and JSON text; a torn log line makes the log unreadable.
- Chunker.ChunkDocument: hashes and document metadata; surrounding white space of a section is dropped, and chunks after the first 1000 are.
- KeyboardInterrupt, HTTP routes, the language-model review, embeddings, individual CIS evaluators and value tables, `BundleStore` and history storage.
