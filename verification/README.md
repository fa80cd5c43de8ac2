# Launchplane verification model

This project models the parts of Launchplane where a wrong step cannot be undone, and proves what
those parts promise. It has five parts.

**Resource allocation with crash recovery** (`Allocation*.dfy`). A lease-fenced executor creates a
project, an environment, an application and a mount at a provider whose creates cannot be repeated.
`AllocationStore` holds the durable rows and what may be written to them, `AllocationResume` the
recovery decision, `AllocationRuns` every step of the protocol: leases expire and are taken over,
executors crash anywhere, the two halves of a checkpoint are separate steps, and a stale executor may
dispatch long after it lost its lease. `AllocationSafety` proves at-most-once dispatch and that
retention is final and replayable; `AllocationProvenance` that records are kept and that an outstanding
create is cleared only by an answer to it; `AllocationPlacement` that everything is created where it was
requested or where the provider named a place, and that a lane adopts only what was seen to match.

**Policy reconciliation** (`Fnmatch.dfy`, `Authz*.dfy`, `Agent*.dfy`). `AuthzReconcile` is the merge
of a desired managed rule set into a policy with six rule collections, and `AuthzMerge` is the same
merge as the program's loops, proved equal. Around it stand convergence and frame
(`AuthzConvergence`), uniqueness of identities (`AuthzUniqueness`), the meaning of workflow rules and
of glob selectors (`AuthzRules`, `Fnmatch`), when retirement and adoption only narrow
(`AuthzNarrowing`, `AuthzAdoption`), which unmanaged rules a merge takes (`AuthzReplacement`), the
audit history (`AuthzEvidence`), dependency evidence (`AuthzDependency`), the structural diff
(`AuthzDiff`), the recovery candidates (`AuthzRecovery`) and the agent product setup candidate with
its recogniser (`AgentProductSetup`, `AgentSetupClosure`).

**The rehearsal host program** (`Storage*.dfy`, `Rehearsal*.dfy`, `Disposal*.dfy`). Storage admission
is charged to backings that paths may share, and is compared with the storage each phase really takes,
step by step. The file protocol of markers, receipts and refusals is a plan of acts that may be cut
anywhere, and its runs include the disposals that take the same lock (`RehearsalEffects`, `RehearsalStarts`,
`RehearsalReasons`); the reviewed disposal itself is
such a plan too, and `DisposalProvider` says what it may stop and remove outside its files. Each plan comes with the imperative program that performs it (`RehearsalHost`,
`DisposalProgram`).

**The streaming COPY parser** (`Copy*.dfy`). `CopyTable` gives the outcome of a whole stream by lines
and tab-separated fields; `CopyReader` is the incremental reader with bounded buffers, proved equal to
it however the stream is cut; `CopyRoundTrip` reads printed tables back, value by value under its column,
and `CopyClean` shows that nothing else is read without failure.

**Transformations and graph searches** (`CanonicalJson.dfy`, `Schema*.dfy`, `FirstParentWalk.dfy`,
`CiSelection.dfy`). Schema normalisation through cyclic references forgets the order of unordered
lists and keys that are not part of a schema, and nothing else (`SchemaContent`); JSON values are those of section 3 of RFC 8259. The paged
first-parent walk reads a maximal prefix of the chain, and the affected-test worklist computes exactly
what a change reaches.

Assumptions. A fence stands for the (record, owner, attempt) triple of one lease acquisition and is
never reused. Rule and policy fingerprints, custody digests, case folding, identifier recognition and
manifest fingerprints are function parameters; no proof needs them injective except where its contract
says so. A crash stops a process between file operations; a completed file operation stays. Policies
are given as validation leaves them: six collections, stripped repositories, identifiers and instances,
unique managed identities. The other selectors of a stored rule may be unstripped; those of a desired set
are normalised before the merge.

Where the code does more or less than a reader may expect, a lemma shows it. Retirement narrows exactly
when the retired rule stores the event names, references and environments that the test reads in it
(`RetirementNarrowsExactly`), and so does adoption (`AdoptionNarrowsExactly`); an unstripped one widens
(`UncleanRetirementWidens`). Adopting asks for a
reviewed overlap before a workflow reference is dropped, yet a rule that names no job workflow, and so
lets in all, is adopted by one that names some without it: exactly then requests are lost to something
other than the desired identities (`AdoptionLosesOnlyIds`, `AdoptionMayDropJobs`). Host effects run at
most once only until a full disposal removes their marker; it also removes receipts and refusals, and a
call that passes its checks then runs again (`RepeatsFollowRemoval`, `RunsAgain`). A refusal file does not
mean that nothing ran: `emit_refusal` calls its creation a complete no-effect proof, yet a rebuild may
prepare its generation and then be refused, exactly as `RefusalMayFollowPreparation` says.
The simulated final phase is charged for an extraction that is gone when it takes its snapshot
(`ChargeIsTight`). `$defs` is no schema key, yet adding it changes the normal form (`DefinitionsMatter`).

## Model

| member | source | states |
|---|---|---|
| CopyReader.GrammarAgrees | control_plane/_odoo_rehearsal_capture_comparison.py:87-143 | feeding a whole stream byte by byte gives the outcome of the line and field grammar |
| CopyReader.FeedConcat | control_plane/_odoo_rehearsal_capture_comparison.py:98-141 | reading one piece and then the next is reading their concatenation |
| CopyReader.CapturedAttachmentRows | control_plane/_odoo_rehearsal_capture_comparison.py:87-143 | for every cut into chunks the rows yielded and the failure raised are those of the grammar on the concatenation, with the 65536 and 64 byte bounds |
| CopyRoundTrip.HeaderReads | control_plane/_odoo_rehearsal_capture_comparison.py:100-115 | a printed COPY header gives back its column list |
| CopyRoundTrip.RowReads | control_plane/_odoo_rehearsal_capture_comparison.py:117-141 | a printed row of separator-free fields reads as the projection of the row to the three keys |
| CopyRoundTrip.RoundTrip | control_plane/_odoo_rehearsal_capture_comparison.py:87-143 | a printed table among other lines reads without failure as one row for each of its rows, in order, with the field of every store_fname, checksum and file_size column under that name |
| CopyRoundTrip.ReferencePresent | control_plane/_odoo_rehearsal_capture_comparison.py:146-153 | a stream holds the reference exactly when one row read equals it; in a printed table, exactly when some row carries its three values in the columns of those names |
| CopyClean.CleanIsPrinted | control_plane/_odoo_rehearsal_capture_comparison.py:87-143 | a stream is read without failure exactly when it is a printed table among other lines, so every other stream is refused |
| AllocationResume.ResumePhase | control_plane/application_state_volume.py:837-947 | the in-place edit of the decoded checkpoint starts with the requested environment or else the requested project and nothing more, owes nothing afterwards, keeps every recorded identity, records what was covered, recovers an outstanding create from its only match and records nothing that one complete look does not confirm; every refusal is the recovery function's |
| AllocationResume.SettledResumes | control_plane/application_state_volume.py:837-947 | a settled allocation resumes, unchanged, exactly when one complete look at the bound host shows its project, environment and application as the only planned ones and, if verified, matching |
| AllocationResume.ResumeKeeps | control_plane/application_state_volume.py:837-947 | recovery owes nothing afterwards, changes no recorded identity, and records whatever was outstanding |
| AllocationResume.PendingNeedsUniqueMatch | control_plane/application_state_volume.py:837-947 | an outstanding create is recovered only from the one provider resource that matches the plan |
| AllocationStore.Database.CheckpointEffect | control_plane/application_state_volume.py:822-835 | the reservation row takes the phase exactly when the current unexpired lease asks, and nothing else changes |
| AllocationStore.Database.CheckpointProgress | control_plane/application_state_volume_retention.py:131-214 | the progress row is written exactly when the lease is current, the reservation holds the same phase, and the row is this key's and not retained |
| AllocationStore.Database.RetainAllocation | control_plane/application_state_volume_retention.py:217-415 | retention in place: a first grant is given exactly for the reviewed row, expired, with the reviewed digest, its own progress, a known owner and an application the lane does not track; it completes the row and freezes progress; a replay returns the first receipt and changes nothing; no other row changes, and a refusal changes nothing |
| AllocationStore.ReplayAgrees | control_plane/application_state_volume_retention.py:277-330 | a replay with the reviewed digest returns the first receipt and changes nothing, exactly when owner and target still allow retention |
| AllocationSafety.StepInv | control_plane/application_state_volume.py:1074-1289 | every step of executors, leases, clock, reconciliation and retention keeps the protocol invariant |
| AllocationSafety.StepSteady | control_plane/application_state_volume.py:1120-1207 | no step changes a recorded identity, forgets an outstanding create or reopens a retained allocation |
| AllocationSafety.SentAtMostOnce | control_plane/application_state_volume.py:1116-1207 | over every run with crashes, takeovers and late sends each create is dispatched at most once, and a dispatched create is on record |
| AllocationSafety.OnlyHolderWrites | control_plane/application_state_volume.py:822-835 | a phase on record changes only by a checkpoint of an executor whose own row is running under its fence and unexpired; the progress row then takes that row's phase, and was its own or nobody's and not retained |
| AllocationSafety.CheckpointsExactly | control_plane/application_state_volume.py:822-835 | each half of a checkpoint is possible exactly at its point in the executor, under the current unexpired lease, the second with the phase just written and on a row that is nobody else's and not retained |
| AllocationSafety.UnexpiredLeaseStands | control_plane/storage/postgres.py:10303-10321 | no step takes over a running row before it expires, except its own executor's giving up or completing it, and none deletes a row that records a phase |
| AllocationSafety.AtMostOneHeld | control_plane/storage/postgres.py:4778-4787 | over every run at most one reservation of the lane may still act |
| AllocationProvenance.RecordsAreKept | control_plane/application_state_volume.py:822-947 | between any two moments of a run recorded identities stay, and pending is cleared only by the write of an executor that was answered while the create was outstanding, by the acknowledgement, the mount read back or the only match; what is on record is that answer |
| AllocationPlacement.RequestedPlaceIsKept | control_plane/application_state_volume.py:847-855 | over every run every phase on record, and what every executor goes by, is in the requested environment, or in the requested project when no environment was requested |
| AllocationPlacement.CreatesAreInPlace | control_plane/application_state_volume.py:1116-1155 | over every run a project is created only if none was requested, an environment only in a project that was requested or that the provider named, and an application only in the requested environment or one that the provider named in such a project |
| AllocationPlacement.AdoptedIsMatched | control_plane/application_state_volume.py:1155-1270 | over every run a lane is given, and an allocation completed as adopted with, only an application that the provider named in a known environment and that an earlier step had seen to match |
| AllocationSafety.RetentionIsFinal | control_plane/application_state_volume_retention.py:166-198 | after retention no step writes the progress row or brings a further create to dispatch, under any key |
| AllocationSafety.RetentionReplays | control_plane/application_state_volume_retention.py:277-415 | at any later moment of any run the reviewed digest gets the first answer and changes nothing, unless the lane adopted the application or lost its owner |
| Fnmatch.StarMatches | control_plane/authz_diagnostics.py:190-191 | the single star matches every text |
| Fnmatch.StarSplits | control_plane/authz_diagnostics.py:190-191 | a star in front stands for every text, so the rest may match anywhere |
| Fnmatch.ClassMatches | control_plane/authz_diagnostics.py:190-191 | a plain class stands for one character in it, a negated one for one that is not |
| Fnmatch.LiteralMatches | control_plane/authz_grant_service.py:976-977 | a selector without glob characters matches exactly itself |
| AuthzNarrowing.GlobNarrows | control_plane/authz_grant_service.py:1540-1557 | whatever value a covered selector list matches, the covering list matches, for all patterns |
| AuthzNarrowing.TargetNarrows | control_plane/authz_grant_service.py:1570-1579 | an instance selector that covers another allows every target the other allows |
| AuthzNarrowing.RetirementNarrows | control_plane/authz_grant_service.py:1582-1634 | if the retirement test holds and the retired rule's exact selectors are faithful, every request the retained rule allows was allowed by the retired one |
| AuthzNarrowing.RetirementNarrowsExactly | control_plane/authz_grant_service.py:1582-1634 | for every retired rule with clean glob, action and instance selectors: every rule that may retire it only narrows exactly when each non-blank stripped event name, reference and environment is stored as such and no list is all blank, or when nothing passes the rule as the test reads it |
| AuthzNarrowing.UncleanRetirementWidens | control_plane/authz_grant_service.py:1582-1634 | an event name stored with a leading space: the test holds and the retained rule allows more |
| AuthzAdoption.AdoptableExactly | control_plane/authz_grant_service.py:1508-1537 | for clean workflow rules the adoption test holds exactly when the unmanaged rule has the same repository and the same sets of selectors, asks for no other repository or owner identity and names no other job workflow |
| AuthzAdoption.AdoptionNarrows | control_plane/authz_grant_service.py:1508-1537 | whatever the desired rule allows to a job workflow that the adopted rule lets in, the adopted rule allowed, if its exact selectors are faithful; if they are clean, the desired rule loses of what that allowed exactly what its identities and job workflows shut out |
| AuthzAdoption.AdoptionNarrowsExactly | control_plane/authz_grant_service.py:1508-1537 | for every unmanaged workflow rule with clean glob, action and instance selectors: no clean rule that may adopt it allows anything new to its job workflows exactly when its exact selectors are faithful, or when nothing passes it as the test reads it |
| AuthzAdoption.AdoptionLosesOnlyIds | control_plane/authz_grant_service.py:1804-1833 | nothing is lost but to the desired identities exactly when the adopted rule names job workflows, or the desired rule lets in every one, or the adopted rule allowed nothing to those identities |
| AuthzAdoption.AdoptionMayDropJobs | control_plane/authz_grant_service.py:1815-1833 | a rule for all job workflows is adopted, without a conflict, by a rule for one, and the others lose what it allowed |
| AuthzReplacement.AdoptKeepsOthers | control_plane/authz_grant_service.py:1798-1944 | an adopting merge keeps the unmanaged rules of every collection, in order, less exactly one for each adopted change and one for each retirement; adopted pairs narrow as AdoptionNarrows says or agree in normal form, retired rules with clean scopes and faithful exact selectors allowed whatever the clean managed rule in place allows, and none that could be adopted or retired is passed over |
| AuthzReplacement.ChangesAreExact | control_plane/authz_grant_service.py:1960-1998 | the change list names, once each, exactly the identities whose rule differs between the policy before and after the merge, with both rules, as added or adopted, removed, or updated |
| AuthzReplacement.AddedMeetsNoOverlap | control_plane/authz_grant_service.py:1815-1833 | a workflow rule is added only if no clean unmanaged rule selects alike under its identities: that one is adopted, or the merge is refused until its job workflows are among the desired ones |
| AuthzReplacement.NamelessIsRefused | control_plane/authz_grant_service.py:1915-1919 | a merge is refused as long as a rule of its set has no identity |
| AuthzReplacement.CandidatesAreRetired | control_plane/authz_grant_service.py:1875-1882 | an adopting merge retires every retirement candidate that it counts |
| AuthzReplacement.RejectAdoptsNone | control_plane/authz_grant_service.py:1834-1838 | without the adopting mode no merge succeeds in which a new desired rule could adopt an unmanaged one |
| AuthzMerge.ManagedRulesById | control_plane/authz_grant_service.py:1637-1649 | the loop over six collections builds the entries of the set by identity |
| AuthzMerge.Adopt | control_plane/authz_grant_service.py:1798-1847 | the adoption loop computes the adoption decision, with each of its conflicts |
| AuthzMerge.DecideRetirements | control_plane/authz_grant_service.py:1849-1905 | the retirement pass finds the same ambiguity, conflict and retired rules as the decision |
| AuthzMerge.RebuildAll | control_plane/authz_grant_service.py:1907-1955 | the rebuild loops give the new collections and the retirement list |
| AuthzMerge.ListChanges | control_plane/authz_grant_service.py:1960-1998 | the change list names every identity that was added, adopted, removed or updated, and counts the rest |
| AuthzMerge.ReconcileManagedPolicy | control_plane/authz_grant_service.py:1777-2005 | the program's merge, loop by loop, is the merge function, refusals included |
| AuthzConvergence.ReconcileSettles | control_plane/authz_grant_service.py:1907-1951 | after a merge the set's rules are exactly the desired ones in their collections, whatever was there before |
| AuthzConvergence.RejectConverges | control_plane/authz_grant_service.py:1777-2005 | rejecting adoption, a second merge succeeds, returns its input and lists no change |
| AuthzConvergence.AdoptConverges | control_plane/authz_grant_service.py:1777-2005 | adopting, the second merge never fails and the third returns exactly the second's policy |
| AuthzConvergence.OtherSetsUntouched | control_plane/authz_grant_service.py:1907-1944 | a merge leaves every rule of every other set in place and in order |
| AuthzConvergence.RejectKeepsUnmanaged | control_plane/authz_grant_service.py:1907-1944 | rejecting adoption also leaves every unmanaged rule in place and in order |
| AuthzUniqueness.ReconcileKeepsUnique | control_plane/authz_grant_service.py:1907-1951 | a merge keeps every managed identity of every set in at most one place |
| AuthzUniqueness.OwnedAfterMerge | control_plane/authz_grant_service.py:1907-1951 | the merged set owns exactly the desired rules, each of them once |
| AuthzEvidence.RetiringKeepsSets | control_plane/authz_grant_service.py:2325-2487 | removing selected unmanaged workflow rules leaves every managed set as it was |
| AuthzEvidence.RetiringRemovesSelected | control_plane/authz_rule_retirement.py:50-82 | retiring a selection removes exactly one unmanaged workflow rule for each selected fingerprint and keeps everything else, in order |
| AuthzEvidence.AuditIsComplete | control_plane/authz_retirement_evidence.py:36-83 | between adjacent records a set's rules differ exactly when maintenance returns an observation for it |
| AuthzEvidence.NoUnboundChange | control_plane/authz_retirement_evidence.py:165-175 | over a whole history of applied writes no change of any set escapes observation |
| AuthzDependency.UnmanagedWorkflow | control_plane/authz_retirement_evidence.py:86-130 | the scan with its flags gives the verdict, the fingerprints of exactly the matched rules and both reason codes of the selector readings |
| AuthzDependency.VerdictIsExact | control_plane/authz_retirement_evidence.py:86-130 | the matched fingerprints are those of exactly the unmanaged rules of the repository without selectors or with a well-formed one whose path matches; no_matching_rule is the verdict exactly when every rule is for a repository of another name or names only plain, well-formed paths of other files in any case |
| AuthzDependency.NoMatchingRuleIsSound | control_plane/authz_retirement_evidence.py:86-130 | no_matching_rule means that every unmanaged rule of the repository has selectors and none matches the path at any reference, even if a glob could take in the at sign |
| AuthzDependency.NoUnmanagedRuleAllows | control_plane/authz_diagnostics.py:134-173 | so no unmanaged rule allows any request of a run of that workflow file, and evaluating one of the repository reports a failed category |
| AuthzDiff.StructuralDiff | control_plane/authz_grant_service.py:1139-1229 | the counting loops give the counts, the changed flag and the changed collections of the two policies |
| AuthzDiff.DiffCounters | control_plane/authz_grant_service.py:1180-1193 | comparing fingerprint counters counts both multiset differences and the intersection |
| AuthzDiff.Conservation | control_plane/authz_grant_service.py:1139-1229 | the diff neither loses nor invents a rule: each side is kept plus updated plus its own remainder |
| AuthzDiff.Reversal | control_plane/authz_grant_service.py:1139-1229 | swapping the policies swaps added and removed |
| AuthzDiff.UnchangedExactly | control_plane/authz_grant_service.py:1195-1200 | nothing counts as changed exactly when managed rules and unmanaged multisets agree |
| AuthzRecovery.ActionCardinality | control_plane/authz_policy_recovery.py:329-358 | the counting loops give the action cardinalities of the activation and bootstrap sets |
| AuthzRecovery.AfterRetirement | control_plane/authz_policy_recovery.py:203-235 | merging a bootstrap retirement leaves the activation set as it was and the bootstrap set with at most one human rule without recovery actions |
| AuthzRecovery.RetirementKeepsTheRest | control_plane/authz_policy_recovery.py:203-235 | merging a bootstrap retirement leaves of that set the human rule less exactly its recovery actions, otherwise the same, or nothing if it had no others |
| AuthzRecovery.CandidatesReachTheirState | control_plane/authz_policy_recovery.py:238-326 | every recovery candidate that is built and merged reaches the state its safety check demands |
| AgentProductSetup.AgentProductSetupGrants | control_plane/authz_candidate_preparation.py:604-638 | grouping by product and checking each group computes the recogniser function |
| AgentProductSetup.GrantsInvertSetup | control_plane/authz_candidate_preparation.py:578-638 | the recogniser returns some grants exactly when the rules are the prepared rules of those grants, in any order of rules and of actions |
| AgentSetupClosure.MergedSetup | control_plane/authz_candidate_preparation.py:641-661 | merging a planned policy leaves the set with exactly the planned rules |
| AgentSetupClosure.AddCloses | control_plane/authz_candidate_preparation.py:767-836 | after an added candidate is merged the set grants exactly the selected products to the identity, and compiling it again is already satisfied |
| AgentSetupClosure.RemoveCloses | control_plane/authz_candidate_preparation.py:767-836 | after a removal is merged the set is absent, and compiling it again is already satisfied |
| StorageAccounts.Accounts.Charge | control_plane/_odoo_testing_storage_program.py:138-146 | one demand is booked on its backing, and the books keep totals and the least free space seen |
| StorageAccounts.Accounts.HasRoom | control_plane/_odoo_testing_storage_program.py:184-185 | the books have room exactly when wherever something is demanded the free space covers all demands of that backing and the reserve |
| StorageAccounts.StorageCapacity | control_plane/_odoo_testing_storage_program.py:115-185 | admission is decided by fitting exactly the demands of the request, and is refused as unobserved exactly when a needed path cannot be read |
| RehearsalStorage.RehearsalStorageCapacity | control_plane/_odoo_upgrade_rehearsal_program.py:544-568 | the phase is admitted exactly when its own demands fit |
| RehearsalStorage.PeakOfExecute | control_plane/_odoo_upgrade_rehearsal_program.py:485-541 | the exact peak at every place of capture, snapshot, clone and discard in sequence |
| RehearsalStorage.PeakOfSimulateFinal | control_plane/_odoo_upgrade_rehearsal_program.py:251-281 | the exact peak at every place of a restore, a snapshot and a clone in sequence |
| RehearsalStorage.PeakOfRebuildFinal | control_plane/_odoo_upgrade_rehearsal_program.py:903-921 | the exact peak at every place of two restores, one at a time, and a clone |
| RehearsalStorage.PeakOfVerify | control_plane/_odoo_upgrade_rehearsal_program.py:205-235 | the exact peak at every place of a snapshot |
| RehearsalStorage.WithinCharge | control_plane/_odoo_upgrade_rehearsal_program.py:544-568 | no instant of a phase, partial writes included, uses more of a place than it was charged for |
| RehearsalStorage.ChargeIsTight | control_plane/_odoo_upgrade_rehearsal_program.py:544-568 | the charge equals the peak of full-size artifacts, except that a simulated final phase overcharges the host by one filestore |
| RehearsalStorage.AdmissionKeepsReserve | control_plane/_odoo_upgrade_rehearsal_program.py:544-568 | at every instant of an admitted phase every charged place keeps the reserve free on its backing, however places share backings |
| RehearsalEffects.InvokeKeeps | control_plane/_odoo_upgrade_rehearsal_program.py:924-1095 | any invocation, disposals under the same lock included, cut after any act, keeps the custody invariant |
| RehearsalEffects.RepeatsFollowRemoval | control_plane/_odoo_upgrade_rehearsal_program.py:924-1095 | over every sequence of locked, possibly dying invocations, disposals of every kind included, a receipt action or preparation that begins twice has had its marker removed in between by a full disposal that listed it |
| RehearsalEffects.EffectsRunAtMostOnce | control_plane/_odoo_upgrade_rehearsal_program.py:924-1095 | so without a full disposal each receipt action begins its effect at most once and each generation is prepared at most once |
| RehearsalEffects.ReceiptsHaveMarkers | control_plane/_odoo_upgrade_rehearsal_program.py:1077-1095 | a receipt exists only after its effect began, and with its started marker unless a full disposal has removed that |
| RehearsalEffects.RefusedNeverRuns | control_plane/_odoo_upgrade_rehearsal_program.py:571-626 | from the moment an attempt and binding have a refusal file, the effect begins only after a full disposal has removed that file; without one it never ran, never will, and the file stays |
| RehearsalEffects.RefusedOnce | control_plane/_odoo_upgrade_rehearsal_program.py:610-626 | one attempt is refused for one reason only, so reading refusals never meets two |
| RehearsalReasons.FilesHaveReasons | control_plane/_odoo_upgrade_rehearsal_program.py:571-626 | over every run a refusal file was written by a call of its own action, attempt and binding whose checks gave exactly its kind of reason, and the receipt of a validation by a call that had its business check confirmed |
| RehearsalStarts.BeginsExactly | control_plane/_odoo_upgrade_rehearsal_program.py:959-1038 | an uncut invocation begins its effect exactly when no receipt, marker or refusal is there and the checks of its action pass |
| RehearsalStarts.PreparesExactly | control_plane/_odoo_upgrade_rehearsal_program.py:833-867 | an uncut invocation prepares a generation exactly when it is an unclaimed rebuild under a current abandonment, no rebuild is uncertain and nothing of that generation is there |
| RehearsalStarts.RefusalMayFollowPreparation | control_plane/_odoo_upgrade_rehearsal_program.py:592-609 | over every custody, an uncut invocation that writes a refusal has begun a preparation exactly when it is a rebuild under a current abandonment of a digest generation, no rebuild is uncertain and nothing of the generation was there before |
| RehearsalStarts.PreparedThenRefused | control_plane/_odoo_upgrade_rehearsal_program.py:985-1003 | over every custody such invocations exist: the generation is prepared and the rebuild refused for capacity |
| RehearsalStarts.FullDisposalForgets | control_plane/_odoo_incomplete_rehearsal_retirement.py:336-346 | after an uncut full disposal of any custody, any call that passes its checks begins its effect, refused or not before |
| RehearsalStarts.RunsAgain | control_plane/_odoo_incomplete_rehearsal_retirement.py:336-346 | after any run that began an effect, a full disposal and the same call begin it again |
| RehearsalStarts.ReceiptOutlivesMarker | control_plane/_odoo_incomplete_rehearsal_retirement.py:341-346 | a full disposal killed right after a marker leaves the receipt without it |
| RehearsalStarts.RebuildStartsAlone | control_plane/_odoo_upgrade_rehearsal_program.py:833-867 | a rebuild begins only when every other started rebuild has its receipt or was abandoned, and never on a preparation whose marker alone is there |
| RehearsalHost.Host.RunLocked | control_plane/_odoo_upgrade_rehearsal_program.py:924-1095 | the program, disposals included, performs the acts of the invocation one by one and, dying early, exactly a prefix of them |
| RehearsalHost.Host.DeleteListed | control_plane/_odoo_incomplete_rehearsal_retirement.py:341-346 | a full disposal deletes the listed files that are there, one by one, in order |
| RehearsalHost.Host.RunPrepareRebuild | control_plane/_odoo_upgrade_rehearsal_program.py:833-867 | preparing or reusing the rebuild runtime performs its planned acts |
| DisposalSafety.SnapshotsAreKept | control_plane/_odoo_incomplete_rehearsal_retirement.py:336-346 | preserving keeps every recovery snapshot undamaged, retaining all but the initial source |
| DisposalSafety.DisposalKeeps | control_plane/_odoo_incomplete_rehearsal_retirement.py:336-346 | a session touches only the files its kind of disposal is about, wherever it dies |
| DisposalSafety.ManifestIsFixed | control_plane/_odoo_incomplete_rehearsal_retirement.py:227-232 | a saved manifest never changes: a full or retaining one for good, an abandonment's until a full disposal removes it |
| DisposalSafety.RefusalsAreKept | control_plane/_odoo_incomplete_rehearsal_retirement.py:209-215 | a refused review stays refused over all sessions, those of an abandonment until a full disposal removes them |
| DisposalSafety.RefusedIsNeverAdmitted | control_plane/_odoo_incomplete_rehearsal_retirement.py:209-215 | over all sessions no refused review is the admitted one |
| DisposalSafety.CustodyGoesLast | control_plane/_odoo_incomplete_rehearsal_retirement.py:314-346 | over all crashes, resumptions and foreign steps, a session destroys only what its kind is about, and only after its own look at the provider showed no container, volume or network of a manifest admitted under its own prefix and no container of its namespace |
| DisposalSafety.UncertainEffectRetainsCustody | control_plane/_odoo_incomplete_rehearsal_retirement.py:142-153 | while some started effect is neither abandoned, archived nor receipted, no new disposal of recorded copies is admitted and no file is touched |
| DisposalSafety.DisposalCompletes | control_plane/_odoo_incomplete_rehearsal_retirement.py:336-358 | a session that sees everything absent and is not cut short leaves nothing of what it disposes |
| DisposalProvider.ProviderKeepsOthers | control_plane/_odoo_incomplete_rehearsal_retirement.py:277-327 | over every run a session stops and removes only containers of the manifest admitted before under its own prefix that it saw in its own namespace, volumes of it with the recorded backing that nothing else mounts, and its network; nothing in sight holds the custody or is busy, and volumes and network go after every container it saw |
| DisposalProvider.SessionClears | control_plane/_odoo_incomplete_rehearsal_retirement.py:322-327 | a session that proceeds and is not cut short stops and removes every container of the manifest that it saw, then every volume that it saw, then the network |
| DisposalProvider.AdmissionIsGrounded | control_plane/_odoo_incomplete_rehearsal_retirement.py:109-161 | over every run a manifest is admitted exactly as inspected, under its review, and only on a settled custody: recorded copies present and verified, no capture pending, every started effect settled |
| DisposalProgram.Disposer.CheckLaterPhase | control_plane/_odoo_incomplete_rehearsal_retirement.py:109-161 | the branches and loops over copies, snapshots and markers find exactly a settled later phase |
| DisposalProgram.Disposer.CheckOwnership | control_plane/_odoo_incomplete_rehearsal_retirement.py:277-303 | the loops over containers and volumes find exactly that what is left belongs to the manifest and nothing else uses it |
| DisposalProgram.Disposer.DecideSession | control_plane/_odoo_incomplete_rehearsal_retirement.py:183-321 | the checks, one branch or loop at a time, lead to the decision: stop, refuse the review, or proceed under an admitted manifest |
| DisposalProgram.Disposer.IncompleteRetirementLocked | control_plane/_odoo_incomplete_rehearsal_retirement.py:183-375 | the program makes its checks and performs the steps of the session one by one and, dying early, exactly a prefix of them |
| DisposalProgram.Disposer.DeleteListed | control_plane/_odoo_incomplete_rehearsal_retirement.py:336-346 | the deletion loop removes the listed files that exist and belong to the disposal, in order |
| CanonicalJson.TextIsInjective | control_plane/agent_operator_contract.py:573-574 | values with the same canonical JSON text are the same value |
| SchemaOrder.SortingForgetsOrder | control_plane/agent_operator_contract.py:670-681 | sorting by canonical text depends only on which values there are and how often |
| SchemaOrder.OrderIsForgotten | control_plane/agent_operator_contract.py:591-684 | schemas, components and definitions that differ in unordered lists and foreign keys at any depth, and in definitions that no reference can read, have the same normal form or none, on all cyclic references |
| SchemaContent.NormalFormDecides | control_plane/agent_operator_contract.py:656-684 | two schemas without references, one of which has a normal form, have the same one exactly when they differ in nothing but order and foreign keys, beside any components and definitions |
| SchemaContent.SiblingsAreKept | control_plane/agent_operator_contract.py:644-655 | a reference with schema keys beside it normalises as one allOf of the bare reference and all the rest |
| SchemaContent.ReferenceIsInlined | control_plane/agent_operator_contract.py:599-637 | a reference to a component or definition that has no references of its own normalises as what it names, and one to nothing has no normal form |
| SchemaContent.CycleIsMarked | control_plane/agent_operator_contract.py:612-616 | a component that refers to itself normalises with the inner reference marked as recursive under its own text |
| SchemaOrder.ListOrderIsIgnored | control_plane/agent_operator_contract.py:670-681 | permuting one anyOf, oneOf, allOf, enum or required list changes nothing |
| SchemaOrder.OtherKeysAreIgnored | control_plane/agent_operator_contract.py:56-86 | a key outside the schema keys other than the reference and the definitions changes nothing, beside a reference too |
| SchemaOrder.SiblingsAreTheKeys | control_plane/agent_operator_contract.py:644-655 | normalising what stands beside a reference is normalising the schema keys of the object |
| SchemaOrder.DefinitionsMatter | control_plane/agent_operator_contract.py:591-596 | adding definitions can make a failing reference resolve |
| FirstParentWalk.FirstParentHistory | control_plane/build_provenance.py:662-690 | the paged walk yields the first-parent chain of the tip within the pages read, and stops at a root, a short page or the page limit |
| FirstParentWalk.ReadChainIsMaximalPrefix | control_plane/build_provenance.py:662-690 | what was read of the chain is its longest prefix among the commits read |
| FirstParentWalk.ChainHasNoRepeats | control_plane/build_provenance.py:686-688 | no commit is yielded twice |
| FirstParentWalk.RootedChainIsWhole | control_plane/build_provenance.py:689-690 | a walk that ended at a root has read the whole chain |
| FirstParentWalk.RequireFirstParent | control_plane/build_provenance.py:622-646 | a commit is accepted exactly when it is on the chain read, so only if it is on the tip's first-parent chain |
| CiSelection.Closure | control_plane/ci_selection.py:109-116 | the worklist ends on every import graph and finds exactly the modules that transitively consume the start |
| CiSelection.TestsOf | control_plane/ci_selection.py:97-126 | a path gives its affected tests exactly when it is selectable, reaches no script and no native test, and reaches some test |
| CiSelection.SelectModules | control_plane/ci_selection.py:95-127 | a selection is the sorted list of exactly the affected tests within the bound; without one, some path does not narrow or the affected tests exceed the bound |

## Left out

- The provider, containers, volumes, file trees and SQL are not executed: their answers are parameters of each step, with crashes in between.
- Allocation: `apply` and `mutate` are a step relation rather than one method, since a crash may fall between any two durable writes; the recovery edit and the durable writes are methods.
- Allocation: the lane lock and the observation guard before a retry are omitted, which only adds runs; checks that merely stop an executor are omitted for the same reason.
- Allocation: qualification of an adopted testing lane, request validation and naming are not modelled.
- Policy: schema migration, administrator quorum checks, readiness blockers and request validation can only refuse a write; in histories they are one admission flag.
- Policy: validation of rules is a precondition (unique identities, stripped repositories, identifiers and instances), and stripping covers ASCII white space.
- AuthzNarrowing.RetirementNarrows: takes the glob and action selectors of the retired rule as stripped; what an unstripped glob matches is not compared with what the test reads in it.
- AuthzDiff.StructuralDiff: leaves out the counts of managed sets and of rules by collection, which are sizes of the policies it is given.
- AuthzRecovery.CandidatesReachTheirState: leaves out the two administrator checks of the safety test, whose functions in service_auth are not part of this model.
- AgentSetupClosure.AddCloses: takes the selected products with their lane contexts as given; reading product profiles is not part of this model.
- The administrator evidence, policy proposer and terminal enrollment candidates are fixed rule shapes and would only add easy members.
- RehearsalStorage.AdmissionKeepsReserve: assumes artifacts within their reviewed bounds and no other consumer of the backings; places that are charged nothing are not claimed.
- Storage: probing filestore clones only records decisions beside the demand and is not modelled.
- Rehearsal: among the calls of the file protocol a disposal is its kind and its listing; its checks and its provider steps are modelled in the disposal part.
- Rehearsal: timing stamps, log scopes, attachment diagnostics and observation output change no custody file; the checks they rest on are answers.
- Rehearsal: an unsupported action name fails after its marker and is not modelled; power loss between a file operation and its flush is not modelled.
- Disposal: bytes and witnesses of snapshots are answers; the temporary file of a receipt save is not modelled, since every save removes an old one first.
- AuthzAdoption.AdoptionNarrows: takes the glob and action selectors of the adopted rule as stripped, and for the second half its exact selectors too.
- AllocationResume.SettledResumes: when an unfinished phase resumes is given by the recovery function; what such a resumption must have seen is proved.
- SchemaContent.NormalFormDecides: for schemas with references only the direction from variants to equal normal forms holds in general, since a reference and what it names may be written for each other.
- COPY: choosing and reading the table stream, tar extraction and attachment hashing are input and output around the parser.
- Schema: a dictionary is a map, so the text order of its keys is not modelled; error texts are one failure.
- First-parent walk: the history is assumed acyclic and shown consistently by every page.
- CI selection: extracting imports from Python syntax trees is not modelled; the consumers map is given.
