# Verification of the topology registry

The registry keeps facilities, sites, resource groups, resources, support centers, projects and
virtual organizations (VOs) in tables, and changes them only through change proposals that are
drafted, revised, approved and applied. It can be filled from, and written back to, a tree of YAML
files, and its history can be reconstructed from the commits of a repository of such files. This
project models that logic in Dafny and proves what it is meant to guarantee.

`dafny verify dfyconfig.toml` checks everything.

## How to read it

Each operation is a function of what it finds (`Apply`, `Step`, `CheckDoc`, `Imported`, ...); the
code, which updates tables and fields statement by statement, is a method or a class whose contract
says that it does what the function says. What the operation is for is then proved of the function,
for every input and, where it matters, every run.

- **Proposals.** `Tables` has the rows and statements, `Registry` what one proposal does to them,
  `Applier` the code that does it in a transaction, `Admission` which operations are carried out and why
  others are refused, `WrittenContent`, `AppliedState`, `RegistrySafety` and `References` what they leave
  and keep, `Operations` and `Repetition` proposals as lists of operations and what doing them again
  does. `Workflow` is the life of proposals, `WorkflowSafety`, `WorkflowStatus` and `ProposalContent` what
  holds in every run of requests, `WorkflowLimits` where the stale-base guard does not reach.
  `Contacts` and `ContactSlots` are the contact lists.
- **Payloads.** `Merge` is the merging of submissions, `Json` the values they carry.
- **VOs.** `VODocument` edits a file in place, `VOParents` is the parent relation, `VOProposals` the
  checks and writes, `VOContent`, `VOSafety`, `VOReferences` and `VOEditing` what they leave and guarantee.
- **History.** `RawDiff` parses git's output, `Classify` and `Identity` say which entity a path is,
  `Decompose` splits a commit, `HistoryImport` is the two-pass run, `HistoryReplay` what its rows say,
  `Resume` stopping and resuming.
- **Files and backup.** `Dedupe` repairs repeated keys, `Persist` is import and export, `Preservation`
  what they keep, `TreeFiles` and `TreeRoundTrip` the directory tree.
- **Reading.** `EffectiveContacts` is the inheritance of contacts.

Modelling decisions:

- A row's `version` stands for its `updated_at`; every request happens at its own moment, later than
  the ones before. Approvals, and the snapshot together with the version read at creation, are atomic.
- The unique indexes on live names are errors of the writing statements, and `Sound` says that they
  hold. Row ids the database draws itself are numbered; minted resource ids come from outside and may
  collide.
- `Applier.ApplyEntityProposal` covers facilities, sites and resource groups, whose three functions
  differ in the institution check and in which parent they look up.
- `submissions` of a proposal is a record kept for the proofs; the program stores only the merged
  revisions.
- Go maps are visited in no particular order; the loops over them choose the next key freely.
- Strings are compared character by character, as Go's `sort.Strings` does for the names in use.
- A VO file is the ordered list of its top-level entries, each with its decoded value and, opaquely,
  with its comments and layout.

## Where the code does less than it may seem

- A proposal is guarded only if its target was live when it was created (`GuardedIffTargetLive`). One
  that is not, a bundle for example, can be applied, re-submitted and applied again: exactly when its
  operations can be carried out on the tables they left (`CommitsAgainIff`, `OneOperationAgain`,
  `BundleAgain`).
- Handing a contact over does not change the version of its entity (`HandOffMovesNoVersion`), so a
  proposal that was pending meanwhile can undo it; `AcceptedHandOffIsLost` and
  `AcceptedResourceHandOffIsLost` say exactly when. One of the cases is a create that gives a live entity
  as its target: it strips that entity of its contacts (`CreateStripsItsTarget`).
- Deleting a facility, site or group leaves its contacts live; one created later under the name can have
  doubly held slots (`OrphanedContactsCollide`; `RecreatedAmongOldContacts` says exactly when).
- Renaming a resource strands its waiting hand-offs (`ResourceHandOffsDoNotFollow`).
- A VO whose file has a `ParentVO` that names nobody - a null, a string, a block without a name - cannot
  be edited without naming a parent (`UnmentionedParentIsRefused`, `NamelessParentBlocks`).
- A lineage of which the remaining history shows only the deletion gets no name unless its path is still
  tracked (`DeletedOnlyLosesItsName`, `NameOfDeleted`). That is where a resumed import can differ from
  one run (`ResumedRun`, `ResumingIsOneRun`).
- The rename heuristic described at `internal/githistory/decompose.go:175-180` is not in the code:
  resources are matched by their key alone. Enabling or disabling a group is the one edit of its file
  that leaves no trace (`OnlyDisableGoesUnseen`).
- Revisions do not merge associatively when a service is dropped and added again
  (`MergeAssociatesUnlessReadded`, `MergeAssociatesUnlessRestarted`).
- A resource group that moves to a site of the same name in another facility is classified as before
  (`SameEntityIffSameFile`).

## Model

| member | source | states |
|---|---|---|
| WorkflowSafety.OneCommitPerVersion | internal/handlers/proposals.go:434-442 | in every run, re-submissions and crashes included, at most one update or delete that branched from a given version of a row ever changes the tables, and at most once, whatever name or spelling of its id the row was addressed by |
| WorkflowSafety.CommitOverwritesItsBase | internal/handlers/proposals.go:119-122 | a guarded update or delete that commits finds exactly the row, content and version, that was live when it was created |
| WorkflowSafety.GuardedIffTargetLive | internal/handlers/proposal_stale.go:34-88 | a new proposal carries a version to be checked exactly when it updates or deletes something live |
| WorkflowSafety.CommitLeavesVersionBehind | internal/handlers/proposals.go:434-442 | after a guarded commit whatever is live under the target's name is newer than the version the proposal branched from, or nothing is |
| WorkflowSafety.StaysPast | internal/handlers/proposal_stale.go:34-88 | no request brings a version that was left behind back under its name |
| WorkflowSafety.EveryStateIsGood | internal/handlers/proposals.go:298-307 | in every reachable state live sites, groups and resources have live parents, live names are unique, VO parents are acyclic, VO ids agree with their documents |
| WorkflowSafety.RevisionsAreFolds | internal/db/queries_proposals.go:95-119 | revision n of an update is its snapshot, or the first submission if there was none, with the submissions so far merged on in turn; of any other proposal it is the n-th submission; the head is the last revision |
| WorkflowSafety.OnlyApprovalsChangeRows | internal/handlers/proposals.go:272-310 | rows and VOs change only by approving a pending proposal without open invites |
| WorkflowSafety.ClosedIsFrozen | internal/handlers/proposals.go:183-186 | no request changes what an applied or rejected proposal holds |
| WorkflowSafety.OriginStays | internal/db/queries_proposals.go:122-128 | kind, operation, snapshot and base version of a proposal, and the target of an update or delete, never change |
| WorkflowSafety.UnmentionedEntriesReachTheCommit | internal/handlers/proposals.go:119-125 | from submission to commit, whatever happened in between, a VO update that applies leaves in the live file every entry whose key none of its submissions mentioned, unchanged and in order |
| WorkflowSafety.VOParentsStayLive | internal/handlers/vos.go:128-178 | in every run, bundles included, VO parents that are all live at the start stay live |
| WorkflowSafety.VOIDNeverChanges | internal/handlers/vos.go:85-100 | in every run, bundles included, a VO that no approval deletes keeps its id |
| WorkflowStatus.StatusIsLastWritten | internal/handlers/proposals.go:232-307 | in every run a proposal has the status that the last request to write it wrote: the one it was submitted with, the one a user moved it to, or applied when an approval could be applied and did not break down before the write |
| WorkflowStatus.AppliedExactlyWhen | internal/handlers/proposals.go:298-307 | applied exactly when approved while pending and without open invites, applicable, not broken down before the status was written, and not moved since |
| WorkflowStatus.PendingExactlyWhen | internal/handlers/proposals.go:232-307 | pending exactly when submitted or moved to pending and neither moved nor fully applied since, so after an approval that broke down it still is |
| WorkflowStatus.DraftExactlyWhen | internal/handlers/proposals.go:139-147 | a draft exactly when submitted as one and not moved since |
| WorkflowStatus.WithdrawnOrRejectedExactlyWhen | internal/handlers/proposals.go:217-268 | withdrawn or rejected exactly when that is where a user moved it last |
| WorkflowStatus.ApprovalOutcome | internal/handlers/proposals.go:284-307 | an approval makes the whole change exactly when it may and can, writes the status unless it breaks down before, and otherwise changes nothing; no other proposal is touched |
| WorkflowStatus.CreationPointsAtItsResource | internal/handlers/proposals.go:964-979 | the target of an approved creation of a resource names the resource it created, by the id it asked for if it did |
| WorkflowStatus.DecisionsAreFinal | internal/handlers/replacements.go:113-116 | a hand-off that was decided never changes again |
| WorkflowStatus.DecidedExactlyWhen | internal/handlers/replacements.go:104-142 | a hand-off is accepted, or refused, exactly when a request that found it waiting, and could grant it, decided it so |
| WorkflowStatus.DecisionChangesOneSlot | internal/db/queries_replacements.go:61-68 | deciding a hand-off changes the slot it is about when it is accepted, and no row, other slot or other hand-off |
| WorkflowStatus.ResourceDecisionChangesOneSlot | internal/db/queries_replacements.go:46-60 | the same for a slot of a resource |
| ProposalContent.SubmissionOutcome | internal/handlers/proposals.go:119-154 | a submission becomes a proposal exactly when it is a deletion or what it leads to is valid; the proposal holds what was asked for, the snapshot and the version of its target as they are then |
| ProposalContent.SubmissionsAreThoseSaved | internal/handlers/proposals.go:183-207 | the submissions of a proposal are those of its creation and of every revision that found it open and left it valid, in order |
| ProposalContent.HeldStatesAreValid | internal/handlers/proposals.go:127-137 | no proposal of a creation or update ever holds or has saved an invalid state |
| WorkflowLimits.ContactIsLost | internal/db/queries_contacts.go:38-62 | applying a proposal, a bundle or not, retires a contact exactly when one of its operations creates or updates a facility, site or group with the contact's entity as its target; no other contact changes |
| WorkflowLimits.CreateStripsItsTarget | internal/db/queries_contacts.go:38-62 | a create whose target names a live entity leaves that entity without contacts and its row and version as they were |
| WorkflowLimits.HandOffMovesNoVersion | internal/db/queries_replacements.go:46-69 | accepting a hand-off changes no version, so it makes no pending proposal stale |
| WorkflowLimits.HandOffIsNotSeen | internal/handlers/replacements.go:104-142 | a proposal can be applied after a hand-off exactly when it could before, unless it is a bundle or waits for an id |
| WorkflowLimits.AcceptedHandOffIsLost | internal/handlers/replacements.go:104-142 | approving a proposal that was pending while a hand-off was accepted takes the slot from the new holder exactly when one of its operations creates or updates with that entity as its target |
| WorkflowLimits.PendingUpdateDisplacesHandOff | internal/db/queries_replacements.go:46-69 | an update of the entity that was pending meanwhile still applies and displaces the new holder |
| WorkflowLimits.AcceptedResourceHandOffIsLost | internal/topology/persist.go:239-256 | the same for a resource: exactly when the last operation to update that resource has somebody else in the slot, or nobody |
| WorkflowLimits.CommitsAgainIff | internal/handlers/proposals.go:232-268 | an applied proposal that is re-submitted and approved changes the tables again exactly when it has no version to be checked and its operations can be carried out on the tables they left |
| WorkflowLimits.OneOperationAgain | internal/handlers/proposals.go:284-307 | for one operation: exactly when it is unguarded and a deletion, the creation of a project, or an update that does not need the name it took away |
| WorkflowLimits.BundleAgain | internal/handlers/proposals.go:511-517 | a bundle with a creation other than of a project whose name it does not free itself changes the tables once; a bundle of deletions can be applied again and then changes nothing |
| WorkflowLimits.EmptyIsGood | internal/db/queries_topology.go:163-168 | empty tables satisfy what every run is started from |
| Repetition.CarriedOutTwice | internal/handlers/proposals.go:729-779 | which operations can be carried out again on the tables they left: an exact condition for every kind and operation; a repeated deletion changes nothing |
| Repetition.VOUpdatedTwice | internal/handlers/vos.go:56-100 | a VO update can be repeated exactly when the contacts it asks for pass the check against those it wrote |
| Repetition.CreatingBundleRunsOnce | internal/handlers/proposals.go:511-517 | a bundle that creates something other than a project, and does not free its name itself, fails when it is run again |
| Repetition.DeletingBundleRunsTwice | internal/handlers/proposals.go:511-517 | a bundle of deletions run again succeeds and changes nothing |
| Operations.ApplyIsOps | internal/handlers/proposals.go:499-523 | a proposal that applies does what its operations do one after the other |
| Workflow.Workflow.CreateProposal | internal/handlers/proposals.go:119-154 | snapshot, base version, merge for updates, validation, draft or pending; nothing else changes |
| Workflow.Workflow.ReviseProposal | internal/handlers/proposals.go:183-207 | closed proposals are left alone; an update merges onto what the proposal holds; the revision is appended |
| Workflow.Workflow.Transition | internal/handlers/proposals.go:232-268 | the status is written whatever it was before |
| Workflow.Workflow.ApproveProposal | internal/handlers/proposals.go:284-307 | exactly a pending proposal without open invites that can be applied is; then the tables hold its change, and its status is applied unless the process dies in between; otherwise nothing changes |
| Workflow.Workflow.DecideReplacement | internal/handlers/replacements.go:104-142 | a waiting hand-off is decided once; accepting it gives the slot away, and fails for a resource that is gone |
| Applier.Applier.ApplyInTx | internal/db/db.go:67-77 | a proposal that fails, at whatever operation of a bundle, leaves every table as it was; one that applies leaves healthy tables |
| Applier.Applier.ApplyProposal | internal/handlers/proposals.go:425-479 | stale base refused first, then dispatch by kind |
| Applier.Applier.ApplyBundleProposal | internal/handlers/proposals.go:499-523 | operations in order on each other's results, the first failure ends it, no nesting, no empty bundle |
| Applier.Applier.ApplyEntityProposal | internal/handlers/proposals.go:729-779 | delete guard, contact check, parent lookup, write, contacts, hand-offs, for resource groups, sites and facilities |
| Applier.Applier.CheckInstitution | internal/handlers/proposals.go:875-892 | an institution is required and registered, except for an existing facility that has none and keeps none |
| Applier.Applier.ApplyResourceProposal | internal/handlers/proposals.go:929-980 | a resource is targeted by id, checked, placed in a live group, and created under an explicit or minted id |
| Applier.Applier.UpdateResourceFromProposal | internal/topology/persist.go:239-256 | an update by id with children replaced; an id without a live row changes no row |
| Applier.Applier.ApplySupportCenterProposal | internal/handlers/support_centers.go:33-78 | guarded delete, update that keeps the id and carries groups along, create that reuses a deleted row of its id |
| Applier.Applier.ApplyProjectProposal | internal/handlers/proposals.go:618-641 | update by name, create that overwrites a live project of that name |
| Applier.Applier.FindUpdatedAt | internal/handlers/proposal_stale.go:34-88 | the version of the live target, none for bundles and what is gone |
| Applier.Applier.ReplaceContactSlot | internal/db/queries_replacements.go:46-69 | the slot's old holder is retired and the new one added, a resource being found by its live name |
| Applier.OpsFail | internal/handlers/proposals.go:517-520 | a bundle fails with the error of its first failing operation |
| WrittenContent.UpdateIsReadBack | internal/handlers/proposals.go:754-761 | an updated row of any kind says what the payload says in every field - parent by name, institution, center, uses, data - under its old key; no other row changes, but groups follow the new name of their center |
| WrittenContent.CreationIsReadBack | internal/handlers/proposals.go:761-771 | so does a created one, under a name that was free, with production and enabled as the only defaults, for groups; no other row changes |
| WrittenContent.DeletionTakesOneRow | internal/db/queries_browse.go:272-290 | a deletion takes away the live row of its target and leaves everything else |
| WrittenContent.NothingFoundNothingWritten | internal/db/queries_browse.go:555-596 | an update or deletion of what is not live changes no row |
| WrittenContent.ResourceChildrenAreReadBack | internal/topology/persist.go:239-256 | a created or updated resource has exactly the services and contact lists of the payload, other resources theirs |
| WrittenContent.OnlyTheirOwnTables | internal/handlers/proposals.go:425-479 | each kind of operation touches only the tables of its kind |
| WrittenContent.HandOffsFollowTheName | internal/db/queries_replacements.go:178-191 | an update of a facility, site or group takes along exactly the waiting hand-offs of its target |
| Admission.AdmittedExactlyWhen | internal/handlers/proposals.go:425-479 | which operations are carried out, for every kind, by the live rows: readable and complete payload, live parent, registered institution, known contacts, free name, nothing live that depends on what is deleted |
| Admission.ErrorsAreTrue | internal/handlers/proposals.go:425-479 | the error with which an operation is refused is true of it |
| Admission.VersionSeen | internal/handlers/proposal_stale.go:34-88 | the version an update or deletion is checked against is that of the live row or VO its target names |
| Admission.CarriedOutInOrder | internal/handlers/proposals.go:511-523 | the operations of a bundle are carried out in their order, each on what the one before left |
| Admission.AppliedExactlyWhen | internal/handlers/proposals.go:425-523 | a proposal applies exactly when its guarded target has the version it branched from and each of its operations can be carried out on what the ones before leave |
| Admission.IdsAreNeverReused | internal/db/queries_topology.go:172-220 | in every run the numbered tables give out ids that no row has, deleted ones included |
| RegistrySafety.ApplySteps | internal/handlers/proposals.go:425-479 | any proposal, a bundle of any length included, keeps the tables healthy and every live row it does not write as it was |
| RegistrySafety.ApplyConsumesVersion | internal/db/queries_browse.go:555-596 | after an update or delete that applies to a live target, the target is gone or has a version of its own |
| RegistrySafety.ApplyConsumesRow | internal/db/queries_browse.go:555-596 | and the row that was found under the target is gone or has a version of its own, under whatever name |
| RegistrySafety.EntityStep | internal/handlers/proposals.go:797-808 | creating, renaming, re-parenting and guarded deleting of facilities, sites and groups orphan nothing and keep names unique |
| RegistrySafety.ResourceStep | internal/handlers/proposals.go:929-980 | the same for resources |
| RegistrySafety.CenterStep | internal/handlers/support_centers.go:33-78 | the same for support centers, with the groups they carry along |
| RegistrySafety.TargetFrame | internal/handlers/proposal_stale.go:34-88 | what is live under a name and was not written now is the row that was live there before |
| RegistrySafety.SingleVOStep | internal/handlers/vos.go:37-116 | any proposal of any kind keeps the VO parents acyclic and the VO ids in agreement with the documents |
| References.CenterResolutionSurvives | internal/db/queries_support_centers.go:184-189 | through any run of proposals and bundles that neither update nor delete it, a live group whose support center resolved to an id keeps resolving to that id |
| References.LiveCenterStays | internal/handlers/support_centers.go:33-78 | through any run without an update or delete under its name, whatever is created, a live support center keeps id, name and content |
| References.RenamedAwayNameStaysTaken | internal/handlers/support_centers.go:69-76 | so after any such run a name the center was renamed away from cannot be created again |
| References.HandOffsFollowRenames | internal/db/queries_replacements.go:178-191 | through any run of proposals and bundles, a waiting hand-off for a facility, site or group that stays live keeps speaking of that same row |
| References.ResourceHandOffsDoNotFollow | internal/topology/persist.go:239-256 | after an update of a resource its waiting hand-off speaks of it exactly when the name was kept, and otherwise of nothing |
| AppliedState.UpdateKeepsIdentity | internal/db/queries_browse.go:555-596 | an update of a facility, site or group keeps its row under the new name, gives the old name up, and keeps everything below it |
| AppliedState.CreateAddsOneRow | internal/handlers/proposals.go:761-771 | a create adds one row under a free name and a live parent; a new group is in production and enabled by default |
| AppliedState.WrittenContactsAreSound | internal/db/queries_contacts.go:38-62 | the live contacts of the entity are then those listed, all known, and no slot has two holders unless contacts were filed under a name newly taken |
| AppliedState.RecreatedAmongOldContacts | internal/handlers/proposals.go:853-865 | an entity created under the name of a deleted one has every slot held once exactly when the contacts left behind were sound and are in other slots |
| AppliedState.InstitutionsAreKept | internal/handlers/proposals.go:875-892 | through any run no facility is created without a registered institution and none loses its own; only those that had none may have none |
| AppliedState.ResourceUpdate | internal/topology/persist.go:239-256 | a resource keeps its id through an update and has exactly the services and contacts submitted; no other row changes |
| Tables.GuardedBuryKeepsSound | internal/db/queries_browse.go:272-290 | deleting a row orphans nothing when no live row has a parent of that name |
| Tables.WriteKeepsSound | internal/db/queries_topology.go:172-220 | writing a row whose name is free and whose parent is live keeps names unique and parents live |
| Contacts.RequireResolved | internal/handlers/proposals.go:678-695 | the first thing wrong with a contact list, or nothing |
| Contacts.AcceptedLists | internal/handlers/proposals.go:678-695 | a list is accepted exactly when no type has more than three contacts and everyone on it is known |
| Contacts.ReplaceEntityContacts | internal/db/queries_contacts.go:38-62 | the old name's live contacts are retired and the list is written under the new name, ranks by position |
| Contacts.WrittenSlotsDistinct | internal/db/queries_contacts.go:10-15 | a list is written without two contacts in one slot exactly when no type has more than three |
| Contacts.RefusedOverTheFirst | internal/handlers/proposals.go:678-695 | a list is refused over its first contact that is the fourth of its type or unknown, and for that reason |
| Contacts.WrittenByPosition | internal/db/queries_contacts.go:38-62 | one row for each contact that is not blank, in order, with its name, id and the rank of its place among those of its type |
| ContactSlots.ReplaceKeepsOneHolder | internal/db/queries_contacts.go:38-62 | after a replacement no slot has two holders exactly when the list has at most three of each type and, under a new name, what is filed there already is sound and in other slots |
| ContactSlots.OrphanedContactsCollide | internal/handlers/proposals.go:865 | contacts left behind by a deleted entity and those of one created under its name share a slot |
| ContactSlots.ResubmittingIsFixed | internal/db/queries_contacts.go:76-95 | submitting a listing again changes nothing it shows exactly when its ranks have no gaps and nobody in it is blank |
| ContactSlots.SlotHasOneHolder | internal/db/queries_replacements.go:61-68 | after a hand-over the slot has the new holder alone and every other row is unchanged |
| Merge.MergeShallow | internal/handlers/proposal_snapshots.go:189-198 | every key of either side, the incoming value winning |
| Merge.MergeServiceEntries | internal/handlers/proposal_snapshots.go:274-294 | exactly the incoming service names; a service on both sides keeps fields that are not mentioned |
| Merge.MergeProposedState | internal/handlers/proposal_snapshots.go:212-256 | one level deeper for resources and VOs, two for services; the incoming payload when a side is no object |
| Merge.TopFieldsAreLastWritten | internal/handlers/proposal_snapshots.go:212-223 | after any revisions a field has the value of the last submission that mentions it, and no other |
| Merge.WrappedFieldsAreLastWritten | internal/handlers/proposal_snapshots.go:224-249 | the same for each field of a resource and of a VO document |
| Merge.ServicesSinceLastDropped | internal/handlers/proposal_snapshots.go:235-237 | the services are those of the last submission mentioning services; a service's fields are last-written since it was last absent |
| Merge.MergeAssociatesUnlessRestarted | internal/handlers/proposals.go:197-199 | for all JSON payloads: merging two revisions before or after makes no difference except exactly when the second begins again something the first had ended, without all that was there |
| Merge.MergeAssociatesUnlessReadded | internal/handlers/proposal_snapshots.go:235-237 | for payloads of the schemas' shape that is exactly a service dropped and re-added without a field it had |
| Merge.ReaddedServiceLosesItsField | internal/handlers/proposal_snapshots.go:274-294 | three payloads for which it does make a difference |
| Merge.OnlyObjectsAreMerged | internal/handlers/proposal_snapshots.go:212-256 | where one side is no object the incoming value replaces what was there, and what is not mentioned stays |
| Merge.OnlyObjectsAreMergedInside | internal/handlers/proposal_snapshots.go:235-294 | the same for a resource's services and for each of them |
| VODocument.PatchVOYAML | internal/topology/vo_edit.go:64-109 | an unreadable file or one that is no mapping is refused, an absent document is written anew, a mapping is patched |
| VODocument.OrderedNewKeys | internal/topology/vo_edit.go:137-154 | the new keys, those of the template in its order and then the others sorted |
| VODocument.PatchedSaysDoc | internal/topology/vo_edit.go:64-109 | a patched file has no repeated key, exactly the document's keys, and under each the document's value up to canonical JSON |
| VODocument.PatchedKeepsUntouched | internal/topology/vo_edit.go:81-99 | an entry whose value does not change keeps its node with comments and layout; kept entries stay in order, in front of new ones |
| VODocument.PatchIsIdempotent | internal/topology/vo_edit.go:64-109 | patching with the same document again changes nothing |
| VODocument.PatchIsDetermined | internal/topology/vo_edit.go:137-154 | the visiting order of the document's keys makes no difference |
| VODocument.ChangedEntryKeepsItsComments | internal/topology/vo_edit.go:86-95 | a changed entry stays in its place, under its key and with its comments; value and layout are new |
| VODocument.NewEntriesFollowTheTemplate | internal/topology/vo_edit.go:100-107 | new entries come last, without comments, those of the template in its order and then the others sorted |
| VODocument.PatchableExactlyWhen | internal/topology/vo_edit.go:64-80 | a file can be patched exactly when it has no document or a mapping without repeated keys |
| VOParents.WalkFindsCycles | internal/handlers/vos.go:155-174 | the walk up from a new parent stops, and refuses exactly the parents that would close a cycle |
| VOParents.NewParentStaysAcyclic | internal/handlers/vos.go:155-174 | a parent from which the VO is not reached closes no cycle, whoever already names the VO as parent |
| VOProposals.VOTable.Apply | internal/handlers/vos.go:37-116 | all of a VO proposal's checks in their order, ID and parent restored, the file patched; a failure changes nothing |
| VOProposals.VOTable.CheckVODoc | internal/handlers/vos.go:128-178 | parent named, unchanged parent restored, own and missing parents and cycles refused, contacts checked; the loop ends because it sees a new live VO each time |
| VOProposals.VOTable.DropNulls | internal/handlers/vos.go:67-75 | a null removes its key unless the file has that null |
| VOProposals.VOTable.Remove | internal/handlers/vos.go:238-289 | a VO is deleted exactly when nothing uses it and no VO names it as parent |
| VOContent.VOIsReadBack | internal/handlers/vos.go:56-115 | a VO's file reads back as submitted: every key that is not null and no other, the ID and an unchanged parent as stored, a new parent with its own id; the row's columns repeat the file; no other VO changes |
| VOContent.VOAcceptedExactlyWhen | internal/handlers/vos.go:37-178 | when a VO is created or updated: its name, its document, a parent that is unchanged or live and closes no cycle, contacts that pass |
| VOContent.VOErrorsAreTrue | internal/handlers/vos.go:37-178 | the error with which a creation or update is refused is true of it |
| VOReferences.DeletedExactlyWhenUnused | internal/handlers/vos.go:240-259 | a VO is deleted exactly when no live resource allows it, no live project is sponsored by it and no live VO has it as parent; then it alone goes |
| VOReferences.ReferredVOStays | internal/handlers/vos.go:240-259 | no run of proposals and bundles takes away a VO that a live resource or project refers to unless one of its operations rewrites that resource or project |
| VOReferences.VORunsLoseNoReference | internal/handlers/vos.go:240-259 | a run of VO proposals changes no row and leaves every live resource and project each VO it refers to |
| VOReferences.ReferredVOStaysInRuns | internal/handlers/vos.go:240-259 | the same in every state of every run of requests |
| VOSafety.ParentsStaySound | internal/handlers/vos.go:128-178 | every sequence of creates, updates and deletes keeps the parents acyclic, and live if they all were |
| VOSafety.RefusesExactlyCycles | internal/handlers/vos.go:155-174 | a new live parent is refused as a cycle exactly when writing it would close one |
| VOSafety.StoredIDNeverChanges | internal/handlers/vos.go:85-100 | a VO that is not deleted keeps its id through every sequence of proposals, whatever ID they submit |
| VOSafety.NewNamesAreValid | internal/handlers/vos.go:103-106 | a VO that was not there from the start has a name that can be a file name |
| VOSafety.WrittenContactsWereChecked | internal/handlers/vos.go:208-232 | the contacts read back from the file that a create or update wrote passed the check against the stored ones |
| VOSafety.CreateKeepsAcyclic | internal/handlers/vos.go:103-115 | creating a VO under a name that others already give as their parent closes no cycle |
| VOSafety.DeleteKeepsParentsLive | internal/handlers/vos.go:238-259 | the delete guard leaves no VO with a deleted parent |
| VOSafety.PatchKeepsID | internal/handlers/vos.go:87-93 | the ID in the file survives the patch |
| VOEditing.UntouchedEntriesSurvive | internal/handlers/vos.go:56-100 | a VO update that succeeds leaves every entry no submission mentions as it was, in order, through snapshot, merge, null filter, restoration and patch |
| VOEditing.EditSaysWhatWasAsked | internal/handlers/vos.go:48-91 | every other key says what its last mention says, a null removing it unless stored; what was never there or mentioned does not appear |
| VOEditing.UnmentionedParentIsRefused | internal/handlers/vos.go:133-138 | an update that does not mention ParentVO is refused over its parent exactly when the payload is well formed and the stored block names nobody |
| VOEditing.NamelessParentBlocks | internal/handlers/vos.go:133-138 | so a stored null, string or block without a name makes every update fail that does not mention ParentVO |
| Identity.PathIdentity.Touch | internal/githistory/identity.go:35-73 | the registry after one changed path, and the id given |
| Identity.PathIdentity.FinalName | internal/githistory/identity.go:84-86 | the last name recorded for an id, empty for none |
| Identity.CurrentStaysInjective | internal/githistory/identity.go:35-73 | no two tracked paths ever share an id |
| Identity.SameIdIffSameLineage | internal/githistory/identity.go:35-73 | two events get one id exactly when hand-overs of a path connect them |
| Identity.FinalNameIsLastNaming | internal/githistory/identity.go:35-86 | the final name is that of the last event of the lineage that is not a deletion |
| Identity.TrackedPathKeepsItsName | internal/githistory/identity.go:35-73 | a tracked entity path always carries the name it spells |
| Identity.LateStartAgrees | internal/githistory/identity.go:62-69 | a walk that starts late agrees on the final name of exactly the lineages it sees named; the others get no name |
| Identity.NameOfDeleted | internal/githistory/identity.go:62-69 | a lineage of which only the deletion is left has the name its path spells when the path was still tracked, and none otherwise |
| Identity.DeletedOnlyLosesItsName | internal/githistory/identity.go:62-69 | a lineage of which only the deletion is seen has no name |
| HistoryImport.History.Run | internal/githistory/importer.go:59-166 | the rows of every commit not imported yet, in order, up to the limit |
| HistoryImport.WalkHistory | internal/githistory/importer.go:82-108 | the first pass: the entity events of the commits not imported, and the identities they touch |
| HistoryImport.CollectCommit | internal/githistory/importer.go:119-152 | one group: the changes of one commit's events under their final names |
| HistoryReplay.RowsLeadAlong | internal/githistory/importer.go:233-293 | replaying the rows leads through the states of the files: a creation shows the later state, an update leads to it, a deletion removes the entity |
| HistoryReplay.RunLeadsAlongTheHistory | internal/githistory/importer.go:114-166 | so for the rows of a run, through the whole history; with a limit the run writes that many first rows and they lead through all of it up to a commit |
| HistoryReplay.RowsAreWellFounded | internal/githistory/importer.go:234-293 | if the changes in the files start from what is there, each operation creates what is not there or changes what is, one operation makes a row of its own, and its base is the state it starts from |
| HistoryReplay.RunIsWellFounded | internal/githistory/importer.go:59-166 | so for the rows a run writes |
| HistoryReplay.OperationsTellTheChanges | internal/githistory/importer.go:240-293 | one operation for each change and in their order, of its kind, a resource's under its id; a deletion proposes the name the entity had |
| HistoryReplay.EventsAreEntityFiles | internal/githistory/importer.go:92-107 | the events of a commit are its changed entity files, in order, under the name the new path spells or else the old one |
| HistoryReplay.EventsAreOfNewCommits | internal/githistory/importer.go:83-107 | the history walked is that of the commits without a row, in order |
| Resume.StopsAtCommit | internal/githistory/importer.go:119-164 | wherever a run stops, it stops between two commits |
| Resume.NamesDiffer | internal/githistory/importer.go:82-108 | two walks with a common ending give an event of it different names exactly when its lineage shows only a deletion there and one walk had lost the path |
| Resume.RowsAlike | internal/githistory/importer.go:142-150 | the rows of the same events under other names are the same exactly when every name that differs is of a file in which only resources changed |
| Resume.ResumedRun | internal/githistory/importer.go:82-164 | a stopped and resumed run writes its rows from the same events as one run; names differ exactly where only a deletion is left and one of the walks had lost the path, and one of the two is then empty |
| Resume.ResumingIsOneRun | internal/githistory/importer.go:59-166 | stopping after any number of rows and resuming writes exactly the rows of one run if and only if every event whose name is lost changed nothing but resources |
| Resume.FiledUnderTodaysName | internal/githistory/importer.go:93-107 | an event whose entity is still there at the end is filed under the name its path spells then |
| RawDiff.ParseRawDiffTree | internal/githistory/walk.go:127-178 | the parse of the fields, error cases included |
| RawDiff.ParseInvertsPrint | internal/githistory/walk.go:127-178 | parsing any printed list of entries gives it back without symbolic links, type changes read as modifications |
| RawDiff.ParsedAreShaped | internal/githistory/walk.go:162-174 | only statuses the identity registry knows come out, additions without an old path and deletions without a new one |
| RawDiff.MissingPathIsRefused | internal/githistory/walk.go:143-147 | output that ends after a header is refused for the missing path |
| RawDiff.MissingNewPathIsRefused | internal/githistory/walk.go:153-167 | output that ends after the first path of a rename is refused for the second, unless the entry is passed over |
| RawDiff.BadHeaderIsRefused | internal/githistory/walk.go:135-138 | an entry whose header does not have five fields is refused and named |
| Classify.ClassifiedIffFileOf | internal/githistory/classify.go:27-42 | a path is classified exactly when it has one of the four shapes of an entity's file, and then as that entity |
| Classify.SameEntityIffSameFile | internal/githistory/classify.go:27-42 | two paths are classified alike exactly when they are one path, or files of a resource group in sites of one name in two facilities |
| Decompose.DecomposeResources | internal/githistory/decompose.go:262-316 | one change per resource that differs or moves with its group, in whatever order the maps are visited |
| Decompose.ChangesLeadToNew | internal/githistory/decompose.go:262-316 | replaying the changes on the old resources gives the new ones, each in its group |
| Decompose.OrderDoesNotMatter | internal/githistory/decompose.go:275-314 | two visiting orders give the same changes and the same result |
| Decompose.ChangesLeadBack | internal/githistory/decompose.go:262-316 | undone on the new resources they give the old ones |
| Decompose.ChangesCarryIds | internal/githistory/decompose.go:275-314 | each change is of the right operation and carries the id of the later version, of the earlier one for a deletion, or the hash of the name |
| Decompose.GroupChangeLeadsToNew | internal/githistory/decompose.go:217-248 | the group's own change leads from what its file showed to what it shows, and undone back |
| Decompose.UnchangedResources | internal/githistory/decompose.go:290-292 | a resource has no change exactly when it is in neither file, or the same in both under an unrenamed group |
| Decompose.TellingChangesLeadToNew | internal/githistory/payloads.go:97-115 | updates that show the same before and after may be left out: the others already lead to the new resources |
| Decompose.DecomposeResourceGroup | internal/githistory/decompose.go:181-255 | the group's own change first, if it has one, then those of its resources |
| Decompose.OnlyDisableGoesUnseen | internal/githistory/decompose.go:204-216 | an edit of a group's file yields no change exactly when the group stays in place under its name and nothing but Disable differs |
| Dedupe.DedupeMappingKeys | internal/topology/reader.go:165-192 | the repaired tree |
| Dedupe.Rebuild | internal/topology/reader.go:169-187 | one mapping: last values at the places of first occurrences |
| Dedupe.RepairedIsClean | internal/topology/reader.go:165-192 | no mapping at any depth has a repeated key |
| Dedupe.PathsResolveAsLastWins | internal/topology/reader.go:165-192 | every path leads to the repair of what it leads to in the original when the last of equal keys counts |
| Dedupe.FirstOccurrenceOrder | internal/topology/reader.go:170-180 | the same keys, in the order of their first occurrence |
| Dedupe.RepairIsIdempotent | internal/topology/reader.go:165-192 | repairing twice is repairing once |
| Dedupe.CleanIsUnchanged | internal/topology/reader.go:181-187 | a tree without repeated keys is left alone |
| Persist.Import | internal/topology/persist.go:16-95 | the rows of a topology, exactly when every parent and downtime group exists and no two resources share a name or id |
| Persist.Export | internal/topology/persist.go:343-452 | the topology the rows stand for |
| Persist.ExportContacts | internal/topology/persist.go:415-427 | contact rows put back under type and rank |
| Persist.ExportInvertsImport | internal/topology/persist.go:16-95 | export after import gives the topology in normal form, explicit ids explicit, absent ids absent, downtimes in order |
| Persist.DowntimesRoundTrip | internal/topology/persist.go:73-89 | a group's downtimes come back complete and in order from any listing by ordinal |
| Persist.DowntimesAreLinked | internal/topology/persist.go:73-89 | an imported downtime is linked to the resource of its name, and to none exactly when there is none |
| Persist.SecondRoundTripIsExact | internal/topology/persist.go:343-452 | what an export wrote can be imported again and comes out unchanged |
| Preservation.ExportLosesNothing | internal/topology/persist.go:343-452 | an exported topology has the same entities in the same places with the same ids, columns, services, contacts and other keys, and the same downtimes in order without the keys that have no column |
| Preservation.ImportedRowsAreIdentified | internal/topology/persist.go:16-71 | every row has the id of its file or the hash of its name, and the parent the directories give |
| Preservation.ImportableExactlyWhen | internal/topology/persist.go:16-95 | which topologies can be imported, by their places, names and ids |
| TreeFiles.WriteTree | internal/topology/writer.go:14-57 | the directories and files of a tree, written unless a site is called FACILITY.yaml |
| TreeFiles.ReadTree | internal/topology/reader.go:15-93 | everything read comes from a file and every file is read; a tree of readable files is always read |
| TreeRoundTrip.ReadInvertsWrite | internal/topology/reader.go:15-93 | reading back gives the tree itself exactly when no group is called SITE or ends in _downtime, downtimes are listed only for groups that have some, and the encoding gives back the tree's own values |
| TreeRoundTrip.WrittenIsReadable | internal/topology/reader.go:57-90 | a written tree can be read exactly when each of its values can be decoded |
| TreeRoundTrip.FileIsAsNamed | internal/topology/writer.go:38-55 | no two entities share a path, and the name of a file says what was written to it |
| TreeRoundTrip.FilesAreInTheirPlaces | internal/topology/writer.go:14-57 | each entity's file, by its full path, and a downtime file beside a group's exactly when it has downtimes |
| EffectiveContacts.EffectiveResourceContacts | internal/handlers/detail.go:167-208 | the contacts level by level, nearest first: exactly those that no nearer list hides |
| EffectiveContacts.NearestLevelWins | internal/handlers/detail.go:167-208 | of each type exactly the contacts of the nearest level that has any, all of them and in order |
| EffectiveContacts.NothingFromNowhere | internal/handlers/detail.go:167-208 | a type no level has does not appear |
| EffectiveContacts.ShowsTheNearest | internal/handlers/detail.go:167-208 | exactly the contacts that no nearer list hides, once each: the resource's own first and under no origin, then those of the named ancestors, nearest first, under their labels |
| EffectiveContacts.OwnContactsComeFirst | internal/handlers/detail.go:171-178 | the list begins with all own contacts, and shows nobody else of a type the resource has |
| EffectiveContacts.InheritedFromTheNearest | internal/handlers/detail.go:179-207 | any other type comes whole from the first named ancestor that has it, under its label |

## Left out

- HTTP, sessions, permissions (`canDecideProposal`), audit log, invites beyond the count that blocks an approval: decided outside the modelled calls.
- SQL text, isolation levels and interleaving inside a transaction: each statement is modelled by its effect.
- Downtimes as proposals: single-statement updates keyed by an id; they appear only in import, export and the tree.
- JSON decoding of payloads other than VOs, and their snapshots and schema validation: functions of `Env`; the upgrade chains are empty in the source.
- Columns without bearing on the rules (addresses, descriptions, flags): carried as opaque `data` or `columns`.
- Generated ids of facilities, sites and groups in the public feeds: fixed at creation and never read by a proposal.
- Authorship and times of history rows, git subprocesses, blob reading and read errors that abort a run.
- The decomposition of facility, site and project files: case distinctions without a keyed diff; `HistoryImport` takes what is found in a changed file as given.
- YAML and JSON text: documents are trees of values; numbers fit their Go types, and YAML's lenient booleans are not read as booleans.
- VO contact resolution: one predicate on the new and the stored contact block.
- XML feeds, browse lists, projects' sponsor decoding, support-center and VO files of a backup.
- Dedupe.DedupeMappingKeys: works on values, so it does not model that an alias sees its anchor's node change in place.
- WorkflowLimits.HandOffIsNotSeen: not stated for bundles, nor for creations of resources, which may be given another id at another time; no hand-off makes either stale (`HandOffMovesNoVersion`).
- WorkflowLimits.BundleAgain: bundles that mix other operations can or cannot be applied again as `CommitsAgainIff` says, in terms of running their operations.
- TreeFiles.WriteTree: requires valid parents and names that are single path components; a missing parent name would be dropped from the path.
- Persist.Import: rows of the services and contacts of a resource are kept with its own row, and no contact row is linked to a user.
- Nil resource entries in a resource group file: the source dereferences them.
