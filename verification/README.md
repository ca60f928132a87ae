# Verification models of the Coder Kubernetes operator

The operator keeps Kubernetes objects, coderd and coderd's Postgres database in step, and serves
Coder templates through an aggregated API. This project models the parts of it that keep state
across failures, and proves what they promise over every input, every schedule and every run.

| file | part of the system |
|---|---|
| `KeyTable`, `TagsHash`, `ProvisionerRotation` | provisioner keys: status baseline, key Secret and coderd's key table, rotated together |
| `RateLimitBackoff` | requeue delays after HTTP 429 (section 4 of RFC 6585) |
| `StatusCommit` | the control plane's status write: per-field three-way merge, retried on conflict |
| `WorkspaceNames`, `WorkspaceRbac`, `WorkspaceRbacRuns` | Roles and RoleBindings in workspace namespaces, kept and removed under a finalizer |
| `LicenseUpload` | license upload, on top of the status commit |
| `TemplatePaths`, `TemplateArchive`, `TemplateBuild`, `TemplateMerge` | template source archives: path rules, reader, builder, merger that keeps binary files |
| `BuildWait`, `TemplateUpdates` | waiting for a template version build, and the file update that it gates |
| `WatchQueue` | the drop-oldest watch queue |
| `OperatorTokens` | the operator's user and API token in Postgres |
| `Results`, `Text`, `Ordering`, `Utf8` | shared types, trimming and cutting, sorted listings, UTF-8 (section 4 of RFC 3629) |

How the models are built:

- A remote party (coderd, the API server, Postgres, a template backend) is a plain state. Each call
  on it has an explicit outcome, and a failing call may fail before or after taking effect.
- What differs between executions is a parameter that every statement quantifies over: the
  outcome of each call, crashes, the order in which Go iterates a map, jitter, random bytes, the
  answers of a build backend, what other writers do in between.
- Hashes, the zip compressor, Postgres' `lower` and the rounding of stored times are function
  parameters. A property assumes something of them only where it says so.
- Code that updates state is a class or a method with the loop of the original, proved equal to a
  specification function; the lemmas are then about that function and about runs of it.

## Findings

These follow from the code as it is; each has a lemma.

- A revert of the spec in the middle of a rotation makes the old baseline match again over a Secret
  whose key is gone (`RevertMidRotationBreaks`). Which edits are safe is stated exactly
  (`EditSafeIsExact`).
- When the status write is lost after a Secret was recovered, `status.provisionerKeyID` names a
  deleted key, and steady reconciles keep it so (`LostStatusWriteStrandsKeyId`). A reconcile that
  touches the key again sets it right (`CleanReconcileConverges` has the exact condition).
- A refused delete of the old key during a rotation to another identity is only logged, and the
  reconcile goes on (`RefusedDeleteLeaks`). A completed reconcile loses sight of a key exactly in that
  case (`LeaksExactlyWhenAbandoning`). The key then stays in coderd until an edit returns to its
  identity (`AbandonedKeyStays`), and the next clean reconcile reclaims it (`ReturningReclaims`).
- Deleting the object after a rotation to another identity whose status write was lost leaves the new
  key in coderd (`DeletionAfterLostStatusWriteLeaks`). The finalizer also goes when the control
  plane or its token is missing or the delete is refused; deletion leaves nothing exactly when the
  recorded key is the only one there and its delete took effect, or there is none (`DeletionIsExact`).
- Editing to a third identity before the rotation to the second has been recorded leaves the second
  key in coderd (`EditBeforeCompletionLeaks`). Which edits lose sight of no key is stated exactly
  (`EditTracksIsExact`).
- A license that coderd lost while it holds some other license is reported as applied and not
  uploaded again (`ReplacedLicenseGoesUnnoticed`; the exact condition is in `PresentAfterReconcile`).
- The text hashed for tags is shared by no other tag map exactly when there is at most one tag and no
  NUL character in it (`TextIsUniqueIff`): two tags can always be folded into one whose value holds
  NULs (`NulMakesTextAmbiguous`). Among tag maps without NULs the text determines the tags
  (`TextDeterminesTags`).
- The last check of the path validator can never reject (`ParentCheckNeverFires`).

## Model

| member | source | states |
|---|---|---|
| `KeyTable.EnsureKeyMeaning` | internal/coderbootstrap/provisionerkeys.go:35-102 | An ensure call, however it ends, touches no other key and never overwrites an existing one; plaintext in the answer is that of the key now stored, with the requested tags. |
| `KeyTable.FindKey` | internal/coderbootstrap/provisionerkeys.go:220-238 | The scan answers "none" iff no row has the name, "one" iff exactly one has, and otherwise an error. |
| `KeyTable.LookUp` | internal/coderbootstrap/provisionerkeys.go:220-238 | On a faithful listing the scan is exactly the table lookup and never ambiguous. |
| `TagsHash.TagsText` | internal/controller/coderprovisioner_controller.go:1377-1389 | The hashed text does not depend on the map's iteration order. |
| `TagsHash.TextDeterminesTags` | internal/controller/coderprovisioner_controller.go:1377-1389 | Among tag maps without NUL characters, equal texts iff equal tags. |
| `TagsHash.TextIsUniqueIff` | internal/controller/coderprovisioner_controller.go:1377-1389 | Among all tag maps, no other one has the same text iff there is at most one tag and no NUL in it. |
| `TagsHash.FoldKeepsText` | internal/controller/coderprovisioner_controller.go:1377-1389 | Folding the first two tags of any map into one leaves the text as it is. |
| `TagsHash.NulMakesTextAmbiguous` | internal/controller/coderprovisioner_controller.go:1377-1389 | Any two tags can be folded into one tag, with NULs in its value, that has the same text. |
| `ProvisionerRotation.Cluster.EnsureProvisionerKey` | internal/coderbootstrap/provisionerkeys.go:35-102 | Refines the table's ensure operation, including creation that still ends in an error. |
| `ProvisionerRotation.Cluster.DeleteProvisionerKey` | internal/coderbootstrap/provisionerkeys.go:106-139 | Refines the table's delete operation; a missing key counts as deleted. |
| `ProvisionerRotation.Cluster.EnsureProvisionerKeySecret` | internal/controller/coderprovisioner_controller.go:895-928 | Without new plaintext the Secret keeps its value, and the write is refused if that leaves the key empty. |
| `ProvisionerRotation.Cluster.ObtainKey` | internal/controller/coderprovisioner_controller.go:365-441 | Create, or delete and recreate when coderd already has the key, with the number of calls made. |
| `ProvisionerRotation.Cluster.PersistKey` | internal/controller/coderprovisioner_controller.go:536-581 | Secret first, then status, each possibly failing after taking effect. |
| `ProvisionerRotation.Cluster.Reconcile` | internal/controller/coderprovisioner_controller.go:218-581 | The whole key part of a reconcile (drift, unusable Secret, backfill, steady) equals the specification used by the run lemmas. |
| `ProvisionerRotation.Cluster.ReconcileDeletion` | internal/controller/coderprovisioner_controller.go:630-707 | Best-effort delete of the recorded identity, then of the finalizer. |
| `ProvisionerRotation.ObtainMeaning` | internal/controller/coderprovisioner_controller.go:284-356 | At most two ensure calls and one delete; other keys untouched; plaintext obtained belongs to the stored key. |
| `ProvisionerRotation.PersistMeaning` | internal/controller/coderprovisioner_controller.go:536-581 | The status moves only once the Secret holds the offered plaintext. |
| `ProvisionerRotation.KeyTouchMeaning` | internal/controller/coderprovisioner_controller.go:246-581 | A reconcile that touches the key moves the status only together with a Secret that holds the live key, within two ensure and two delete calls. |
| `ProvisionerRotation.ReconcileKeepsSecretLive` | internal/controller/coderprovisioner_controller.go:218-581 | One reconcile with any faults keeps: a complete, matching status over a usable Secret means the Secret holds the live key with the desired tags hash. |
| `ProvisionerRotation.RunsKeepSecretLive` | internal/controller/coderprovisioner_controller.go:218-581 | The same over every run of reconciles, crashes, Secret deletions and safe spec edits. |
| `ProvisionerRotation.EditSafeIsExact` | internal/controller/coderprovisioner_controller.go:218-255 | The condition on an edit is exact: it holds iff the edit keeps that invariant whatever coderd holds. |
| `ProvisionerRotation.SettledEditsAreSafe` | internal/controller/coderprovisioner_controller.go:218-255 | Editing after a completed reconcile, to a Secret key that is empty or the same, is safe. |
| `ProvisionerRotation.RevertMidRotationBreaks` | internal/controller/coderprovisioner_controller.go:246-299 | From every settled state, edit, crash after the delete and revert breaks the invariant. |
| `ProvisionerRotation.CleanReconcileConverges` | internal/controller/coderprovisioner_controller.go:246-581 | One failure-free reconcile from the invariant makes status, Secret and coderd key agree, within two ensure and two delete calls; the recorded key id is right iff the key was touched or it was right before. |
| `ProvisionerRotation.SettledIsQuiet` | internal/controller/coderprovisioner_controller.go:449-581 | A settled state with a usable Secret is not changed by any reconcile, whatever fails, and no key call is made. |
| `ProvisionerRotation.ConvergesThenQuiet` | internal/controller/coderprovisioner_controller.go:246-581 | The reconcile after a failure-free one makes no key call and changes none of the three stores. |
| `ProvisionerRotation.ConvergesFromAnywhere` | internal/controller/coderprovisioner_controller.go:144-581 | From every state that satisfies the invariant, a new object without the finalizer included, two failure-free reconciles make the three stores agree under the finalizer. |
| `ProvisionerRotation.GatesComeFirst` | internal/controller/coderprovisioner_controller.go:144-216 | A reconcile without the finalizer adds it and makes no key call; one stopped by an earlier gate changes nothing. |
| `ProvisionerRotation.DeletedSecretIsReplaced` | internal/controller/coderprovisioner_controller.go:364-448 | After the Secret is deleted the next failure-free reconcile deletes and recreates the key, and the three stores agree again. |
| `ProvisionerRotation.ReconcileKeepsOtherData` | internal/controller/coderprovisioner_controller.go:895-928 | Other Secrets, and the other data keys of its own Secret, stay as they are. |
| `ProvisionerRotation.LostStatusWriteStrandsKeyId` | internal/controller/coderprovisioner_controller.go:364-581 | After a recovery whose status write is lost, the recorded key id is stale and steady reconciles keep it so. |
| `ProvisionerRotation.ReconcileLeaksNothing` | internal/controller/coderprovisioner_controller.go:255-363 | One reconcile keeps this provisioner's keys within its recorded and desired identity, under the finalizer, unless it abandons the old key. |
| `ProvisionerRotation.RunsLeakNothing` | internal/controller/coderprovisioner_controller.go:255-363 | The same over every run whose edits keep track of the keys, or come while there is none, and none of whose reconciles abandons a key. |
| `ProvisionerRotation.EditTracksIsExact` | internal/controller/coderprovisioner_controller.go:218-283 | The condition on an edit is exact: it holds iff the edit keeps the keys within the recorded and desired identity whatever coderd holds. |
| `ProvisionerRotation.SettledEditsTrack` | internal/controller/coderprovisioner_controller.go:218-283 | Editing after a completed reconcile meets it. |
| `ProvisionerRotation.EditBeforeCompletionLeaks` | internal/controller/coderprovisioner_controller.go:255-581 | From every settled state: edit, rotate with the status write lost, edit to a third identity, and the second key is outside both identities. |
| `ProvisionerRotation.CompletedOwnsExactlyDesired` | internal/controller/coderprovisioner_controller.go:255-581 | After a completed reconcile that abandons no key the provisioner owns exactly the desired key. |
| `ProvisionerRotation.LeaksExactlyWhenAbandoning` | internal/controller/coderprovisioner_controller.go:255-581 | A completed reconcile keeps the keys within the recorded and desired identity iff it is not a rotation away from an existing key of another identity whose delete is refused; one that does not complete, iff in that case its status write had no effect. |
| `ProvisionerRotation.AbandonedKeyStays` | internal/controller/coderprovisioner_controller.go:255-581 | An abandoned key stays through every run whose edits do not return to its identity. |
| `ProvisionerRotation.ReturningReclaims` | internal/controller/coderprovisioner_controller.go:255-581 | After an edit back to its identity one clean reconcile replaces it, and the provisioner owns nothing else. |
| `ProvisionerRotation.DeletionIsExact` | internal/controller/coderprovisioner_controller.go:630-707 | For every combination of missing prerequisites and failing calls: none of the provisioner's keys is left iff it owned at most the recorded key and that was deleted, or owned none; the finalizer goes unless the process dies in the delete or the write has no effect. |
| `ProvisionerRotation.DeletionAfterLostStatusWriteLeaks` | internal/controller/coderprovisioner_controller.go:536-707 | After a rotation to another identity whose status write was lost, deletion leaves the new key. |
| `ProvisionerRotation.DeletionLeavesNothing` | internal/controller/coderprovisioner_controller.go:630-707 | Deletion after such a reconcile leaves no key, even when the spec was edited since. |
| `ProvisionerRotation.RefusedDeleteLeaks` | internal/controller/coderprovisioner_controller.go:268-283 | A refused delete during a rotation to another identity leaks the old key. |
| `RateLimitBackoff.Doubling` | internal/controller/coderprovisioner_controller.go:1397-1434 | The loop with early exit computes min(base * 2^(n-1), cap) for every n. |
| `RateLimitBackoff.DelaysGrowUntilCap` | internal/controller/coderprovisioner_controller.go:1397-1456 | For every pair of jitters the delay is within [floor, cap] and strictly grows until the cap. |
| `RateLimitBackoff.DelayFollowsJitter` | internal/controller/coderprovisioner_controller.go:1397-1456 | The delay is the nominal one times the jitter, rounded down, wherever that is within floor and cap. |
| `RateLimitBackoff.CounterCountsSinceReset` | internal/controller/coderprovisioner_controller.go:89-124 | The counter of an object is the number of its rate-limited endings since the last resetting one; success with a requeue does not reset. |
| `RateLimitBackoff.Limiter.NextBackoff` | internal/controller/coderprovisioner_controller.go:1397-1434 | Counts the attempt and returns the jittered, clamped delay for it. |
| `RateLimitBackoff.Limiter.Finish` | internal/controller/coderprovisioner_controller.go:89-124 | How each ending of a reconcile changes the counter and the result; a rate-limited one is requeued after the delay of its attempt. |
| `StatusCommit.MergeIsPerField` | internal/controller/codercontrolplane_controller.go:2765-2810 | Every field of the merge is the wanted value where the reconcile changed it and the latest value elsewhere. |
| `StatusCommit.SameFields` | internal/controller/codercontrolplane_controller.go:2765-2810 | The fields the merge treats are all there are: statuses are equal iff all of them agree. |
| `StatusCommit.FoldIsLastWritten` | internal/controller/codercontrolplane_controller.go:2765-2810 | Folding deltas in commit order leaves each field with the last value that touched it. |
| `StatusCommit.CommitObservesGeneration` | internal/controller/codercontrolplane_controller.go:2829-2890 | A commit is the merge with the current status and observes the current generation, also when base and wanted status agreed on it. |
| `StatusCommit.NextKeepsInv` | internal/controller/codercontrolplane_controller.go:2829-2890 | Every step of any writer, and every spec edit, keeps the invariant and never lowers the observed generation. |
| `StatusCommit.EveryFieldIsLastWritten` | internal/controller/codercontrolplane_controller.go:2765-2890 | Over every interleaving with stale bases, conflicts and edits, each stored field is the one written by the last commit that touched it. |
| `StatusCommit.ObservedGenerationIsSound` | internal/controller/codercontrolplane_controller.go:2829-2890 | Over the same runs the observed generation never decreases, never exceeds the generation and equals it right after every commit. |
| `StatusCommit.AttemptMeaning` | internal/controller/codercontrolplane_controller.go:2865-2879 | An update is attempted iff the reconcile worked on the current generation and some field it changed is not in place; it then puts exactly those fields in place. |
| `StatusCommit.RoundMeaning` | internal/controller/codercontrolplane_controller.go:2850-2890 | A round is repeated iff there was something to write and someone else wrote between its read and its write; otherwise it writes exactly its own changes, or nothing if there is nothing to write. |
| `StatusCommit.UndisturbedRoundLands` | internal/controller/codercontrolplane_controller.go:2850-2890 | In every reachable state a timely round that nobody disturbs ends with all changes of the reconcile stored. |
| `StatusCommit.UndisturbedReconcileStores` | internal/controller/codercontrolplane_controller.go:2829-2890 | A reconcile that starts from the current object and meets nobody stores exactly the status it wants, for the current generation. |
| `StatusCommit.ReconcileStatus` | internal/controller/codercontrolplane_controller.go:2829-2890 | The retry loop repeats only when disturbed, at most five times, does nothing but steps of the system, and lands its changes when the last round is timely and undisturbed. |
| `WorkspaceNames.ScopedNameMeaning` | internal/controller/codercontrolplane_controller.go:324-358 | A name exists iff the base is not blank; it fits 253 bytes and is the trimmed base, hash and suffix; a base that is too long is cut to what fits, without outer dashes and dots. |
| `WorkspaceNames.ScopesDoNotMeet` | internal/controller/codercontrolplane_controller.go:305-358 | Different scope hashes never give the same object name. |
| `WorkspaceRbac.JoinedKeyIsInjective` | internal/controller/codercontrolplane_controller.go:779-781 | The joined keys of the keep sets identify objects in slash-free namespaces. |
| `WorkspaceRbac.DeleteManaged` | internal/controller/codercontrolplane_controller.go:808-825 | The cleanup loop deletes only listed, managed, unkept objects, and all of them when it succeeds. |
| `WorkspaceRbac.CreateOrUpdate` | internal/controller/codercontrolplane_controller.go:723-741 | One write: refused under another controller, otherwise the desired object or nothing new. |
| `WorkspaceRbac.WriteTarget` | internal/controller/codercontrolplane_controller.go:710-774 | One write of the loop keeps the loop's record of what is written and kept. |
| `WorkspaceRbac.OursIsManaged` | internal/controller/codercontrolplane_controller.go:434-475 | What the control plane writes it later finds by labels and recognises by UID. |
| `WorkspaceRbac.Cluster.CleanupManaged` | internal/controller/codercontrolplane_controller.go:783-847 | Exactly the managed objects outside the keep sets go away; on failure only some of them. |
| `WorkspaceRbac.Cluster.WriteTargets` | internal/controller/codercontrolplane_controller.go:706-774 | The loop over trimmed, de-duplicated namespaces writes exactly the desired objects and their keep keys; on failure only desired objects were written. |
| `WorkspaceRbac.Cluster.ReconcileWorkspaceRBAC` | internal/controller/codercontrolplane_controller.go:659-777 | Success means converged; failure leaves something in between; and it succeeds whenever the calls work and nothing in the request or the cluster stands in the way. |
| `WorkspaceRbac.SuccessIsExact` | internal/controller/codercontrolplane_controller.go:477-534 | After success the managed objects are exactly one Role and one RoleBinding per distinct trimmed target namespace (none when disabled); every object that was not managed before is untouched unless it stands at a target key. |
| `WorkspaceRbac.WantedNamespacesMeaning` | internal/controller/codercontrolplane_controller.go:706-718 | The target namespaces are the own one and the listed ones, trimmed; none iff the permissions are switched off. |
| `WorkspaceRbac.RemovalIsExact` | internal/controller/codercontrolplane_controller.go:477-534 | An object outside the target keys is removed iff it is found by labels and is controlled by this control plane, carries its UID, or stands elsewhere under the expected name (and, for a RoleBinding, with the expected content). |
| `WorkspaceRbac.WantedObjectsStand` | internal/controller/codercontrolplane_controller.go:720-774 | At every target key stands the desired object, with labels and UID, controlled by the control plane exactly in its own namespace. |
| `WorkspaceRbac.RulesGrant` | internal/controller/codercontrolplane_controller.go:686-704 | The Role grants exactly full access to pods and volume claims, to deployments unless switched off, and what the extra rules grant. |
| `WorkspaceRbac.AccountHasExactlyItsAccess` | internal/controller/codercontrolplane_controller.go:686-777 | After success the service account, and no other subject, has exactly that access through the RoleBinding of each target namespace. |
| `WorkspaceRbac.NamesCarryTheHash` | internal/controller/codercontrolplane_controller.go:305-377 | Both object names end in the hash of the control plane's namespace and name. |
| `WorkspaceRbac.ConvergedRolesAreExact` | internal/controller/codercontrolplane_controller.go:477-496 | The Roles judged managed after convergence are exactly those at the target keys. |
| `WorkspaceRbac.ConvergedBindingsAreExact` | internal/controller/codercontrolplane_controller.go:498-534 | The same for RoleBindings. |
| `WorkspaceRbac.CleanupNamesAgree` | internal/controller/codercontrolplane_controller.go:793-804 | Cleanup works with the very names the write loop used, although it trims the account name and the loop does not. |
| `WorkspaceRbac.Cluster.EnsureFinalizer` | internal/controller/codercontrolplane_controller.go:536-561 | Success means the finalizer is stored; nothing else of the control plane changes. |
| `WorkspaceRbac.Cluster.FinalizeWorkspaceRBAC` | internal/controller/codercontrolplane_controller.go:563-585 | The finalizer goes only when no object with this control plane's stamp is left. |
| `WorkspaceRbac.Cluster.Reconcile` | internal/controller/codercontrolplane_controller.go:216-250 | One reconcile is a step of the run model; its success is the converged state under the finalizer or, under deletion, the finalizer gone and nothing left; and it succeeds whenever the calls work and nothing stands in the way. |
| `WorkspaceRbacRuns.NextKeepsInv` | internal/controller/codercontrolplane_controller.go:237-250 | Every step keeps: each stamped object belongs to an existing control plane that carries the finalizer. |
| `WorkspaceRbacRuns.ReconcileKeepsBacked` | internal/controller/codercontrolplane_controller.go:459-585 | The reconcile step of that, for one kind of object and any mix of failures. |
| `WorkspaceRbacRuns.ObjectsOnlyUnderFinalizer` | internal/controller/codercontrolplane_controller.go:237-250 | In every run over any number of control planes, with changing accounts, namespaces and switches and failures anywhere, no object of a control plane exists once its finalizer is gone. |
| `WorkspaceRbacRuns.DeletedPlaneVanishes` | internal/controller/codercontrolplane_controller.go:237-238 | After a deletion one successful reconcile enables the removal of the control plane, with no object of its UID left. |
| `LicenseUpload.Coderd.ReconcileLicense` | internal/controller/codercontrolplane_controller.go:1704-1997 | The branches of the license stage compute the specified status, requeue and change to coderd. |
| `LicenseUpload.SetThenFind` | internal/controller/codercontrolplane_controller.go:2514-2541 | Setting a condition replaces the one of its kind and no other. |
| `LicenseUpload.UploadsOnlyWhenNeeded` | internal/controller/codercontrolplane_controller.go:1863-1922 | An upload is attempted iff all preconditions hold and no upload of this hash is recorded or coderd reports no license. |
| `LicenseUpload.ClaimsAreBacked` | internal/controller/codercontrolplane_controller.go:1843-1996 | The new status says True only after a confirmation in this call or for an existing record; the record changes iff coderd confirmed; no other condition and no other field changes. |
| `LicenseUpload.DuplicateIsToldByPhrase` | internal/controller/codercontrolplane_controller.go:2741-2763 | An upload error counts as "already there" iff it is coderd's own and one of three phrases stands in its lower-cased text. |
| `LicenseUpload.FailuresAreReported` | internal/controller/codercontrolplane_controller.go:1864-1984 | Which reason each failure gets, and that exactly the failures other than an unsupported API are retried. |
| `LicenseUpload.LostWriteHeals` | internal/controller/codercontrolplane_controller.go:1863-1940 | With the license in coderd and any status at all, one undisturbed reconcile reports and records it without adding anything, and the next makes no upload. |
| `LicenseUpload.RunHeals` | internal/controller/codercontrolplane_controller.go:1843-1996 | The same as a run: an undisturbed start and commit leave a stored status that reports and records the license. |
| `LicenseUpload.PresentAfterReconcile` | internal/controller/codercontrolplane_controller.go:1863-1922 | After an undisturbed reconcile coderd has the license iff it had it before or the upload was not skipped. |
| `LicenseUpload.ReplacedLicenseGoesUnnoticed` | internal/controller/codercontrolplane_controller.go:1863-1920 | The remaining case exists. |
| `LicenseUpload.MergeIsSound` | internal/controller/codercontrolplane_controller.go:2765-2810 | Merging the license fields and conditions separately, from a stale base, keeps a True condition backed by a confirmed record. |
| `LicenseUpload.NextKeepsInv` | internal/controller/codercontrolplane_controller.go:1843-1996 | Every start, commit, loss and administrator change keeps that. |
| `LicenseUpload.PersistedClaimIsBacked` | internal/controller/codercontrolplane_controller.go:1843-1996 | In every run a persisted True records the hash of a license that coderd accepted or reported as duplicate. |
| `TemplatePaths.AcceptedIffStaysInside` | internal/aggregated/storage/template_files.go:467-493 | A path is accepted iff it has no backslash, is relative, never leaves the directory it is walked from and ends below it; the result joins the directories walked into. |
| `TemplatePaths.AcceptedIsNormalForm` | internal/aggregated/storage/template_files.go:467-493 | An accepted path is a non-empty join of components none of which is empty, "." or "..", and validation gives it back. |
| `TemplatePaths.ParentCheckNeverFires` | internal/aggregated/storage/template_files.go:483-490 | The final ".." component check never rejects. |
| `Utf8.ValidIffEncoding` | internal/aggregated/storage/template_files.go:420-422 | What counts as text: a byte sequence is valid iff it is the concatenation of encodings of scalar values, as in section 3 of RFC 3629. |
| `Utf8.EncodingIsUnique` | internal/aggregated/storage/template_files.go:420-422 | The encoded sequence of scalar values is unique. |
| `TemplateArchive.ScanMeaning` | internal/aggregated/storage/template_files.go:97-166 | The extraction loop's early exits reject exactly the archives that break a rule as a whole. |
| `TemplateArchive.ScanEntries` | internal/aggregated/storage/template_files.go:109-164 | The loop computes that scan. |
| `TemplateArchive.ReadSourceFiles` | internal/aggregated/storage/template_files.go:81-167 | Accepts exactly the readable archives and returns their text files by normalised path. |
| `TemplateArchive.ViewMeaning` | internal/aggregated/storage/template_files.go:109-164 | The view holds every file of the chosen kind under its normalised path and nothing else. |
| `TemplateArchive.DirectoriesDoNotCount` | internal/aggregated/storage/template_files.go:109-116 | Entries with the directory bit or a trailing slash make no difference to the reader. |
| `TemplateArchive.FilesAreSeen` | internal/aggregated/storage/template_files.go:109-164 | Every other entry of a readable archive is seen, as text or binary, under its normalised path. |
| `TemplateBuild.NormalizeFileKeys` | internal/aggregated/storage/template_files.go:170-188 | For every iteration order: accepts iff all paths are valid and stay distinct, with the same map. |
| `TemplateBuild.NormalMeaning` | internal/aggregated/storage/template_files.go:170-188 | The normalised map is the only one with each file under its normalised path and nothing else. |
| `TemplateBuild.NormalIsNormal` | internal/aggregated/storage/template_files.go:170-188 | Normalising twice is normalising once. |
| `TemplateBuild.CheckFiles` | internal/aggregated/storage/template_files.go:408-438 | For every iteration order the checking loop with its running total accepts exactly the buildable requests. |
| `TemplateBuild.BuildSourceZip` | internal/aggregated/storage/template_files.go:400-465 | For every iteration order: same decision, the zip writer's limit on names included, and the same sorted archive. |
| `TemplateBuild.PackedReadsBack` | internal/aggregated/storage/template_files.go:440-465 | Whatever is packed is readable and reads back, text and binary, as what was packed. |
| `TemplateBuild.BuiltReadsBack` | internal/aggregated/storage/template_files.go:400-465 | The reader accepts whatever the builder accepts and reads the normalised files. |
| `TemplateBuild.BuildableIffReadable` | internal/aggregated/storage/template_files.go:400-465 | The builder's limits are the reader's: a normalisable request is accepted iff all of it is text and the reader would accept the archive of it. |
| `TemplateMerge.ScanOriginal` | internal/aggregated/storage/template_files.go:221-290 | The loop over the original archive computes headers, surviving binary files and the running total, or rejects. |
| `TemplateMerge.MergeScanMeaning` | internal/aggregated/storage/template_files.go:221-290 | Its early exits reject exactly the originals that break a rule as a whole. |
| `TemplateMerge.CheckDesired` | internal/aggregated/storage/template_files.go:292-308 | For every iteration order, accepts iff every requested file is valid text within its limit and the total fits. |
| `TemplateMerge.CheckMerge` | internal/aggregated/storage/template_files.go:191-317 | All checks before writing accept exactly the mergeable pairs. |
| `TemplateMerge.WriteMerged` | internal/aggregated/storage/template_files.go:318-397 | The written entries are the sorted union of requested and surviving files, unless a name is too long for the zip writer. |
| `TemplateMerge.BuildMergedSourceZip` | internal/aggregated/storage/template_files.go:191-397 | Decision, the zip writer's limit on names included, and archive, for every iteration order. |
| `TemplateMerge.MergedReadsBack` | internal/aggregated/storage/template_files.go:191-397 | The reader accepts every merge; its text is exactly the request, its binary files exactly the original ones at other paths, byte for byte. |
| `TemplateMerge.HeadersSurvive` | internal/aggregated/storage/template_files.go:333-385 | A merged entry keeps the header its path had before; a new path gets the default one. |
| `TemplateMerge.MergeableWhenItFits` | internal/aggregated/storage/template_files.go:191-317 | A readable archive merges with every valid request that together with it keeps within the limits. |
| `BuildWait.LoadWaitConfig` | internal/aggregated/storage/template.go:1095-1178 | Accepts exactly the configurations within the bounds. |
| `BuildWait.DoubledSaturates` | internal/aggregated/storage/template.go:1044-1050 | The doubled interval is min(2 * interval, max) even where the int64 product wraps. |
| `BuildWait.WaitsGrowOnceBackingOff` | internal/aggregated/storage/template.go:1044-1050 | Once the backoff has begun every wait is min(twice the last, max); until then the interval stays. |
| `BuildWait.SettledInTimeIsSeen` | internal/aggregated/storage/template.go:990-1068 | If poll k is the first that settles the build, and every wake-up before it comes before the context is done, it is the last poll and decides the verdict. |
| `BuildWait.LastPollIsEarly` | internal/aggregated/storage/template.go:990-1068 | There is one last poll, it comes within done/initial + 2, and a timeout after a poll that asked to wait comes only once the clock has reached the deadline. |
| `BuildWait.ClockIsSteady` | internal/aggregated/storage/template.go:990-1068 | The intervals of the clock never shrink and stay within [initial, max]. |
| `BuildWait.WaitForBuild` | internal/aggregated/storage/template.go:963-1068 | For every backend and schedule: ends with the last poll of the clock of the run and the verdict of that poll, polls at most done/initial + 2 times, waits in non-decreasing intervals within [initial, max], and its verdict is the one the last poll allows; a timeout reports the last status seen. |
| `BuildWait.WaitForVersion` | internal/aggregated/storage/template.go:963-1068 | With configuration check and effective timeout: polls are bounded by the effective timeout over the initial interval plus two, and success is reported iff the last poll saw the build succeeded after polls that only asked to wait. |
| `BuildWait.DoneAt` | internal/aggregated/storage/template.go:979-988 | The wait ends at the earliest of the configured timeout, the request's deadline and its cancellation. |
| `TemplateUpdates.UpdateMeaning` | internal/aggregated/storage/template.go:645-724 | After an accepted update the text is the request, the binary files are the earlier ones not mentioned, and repeating it changes nothing. |
| `TemplateUpdates.UpdatesCompose` | internal/aggregated/storage/template.go:621-724 | Over any sequence F1..Fn: text is normalised Fn, surviving binary files are the original ones in no Fi, repeating Fn makes no new version. |
| `TemplateUpdates.TextIsNotBinary` | internal/aggregated/storage/template_files.go:97-166 | In a readable archive no path is both text and binary. |
| `TemplateUpdates.Prepare` | internal/aggregated/storage/template.go:621-673 | Refuse, leave unchanged or build the specified archive, before anything changes remotely. |
| `TemplateUpdates.Template.Publish` | internal/aggregated/storage/template.go:675-722 | A version becomes active only after its build was observed to succeed; success is reported iff every step worked and the promotion took effect. |
| `TemplateUpdates.Template.Update` | internal/aggregated/storage/template.go:621-724 | Refused and unchanged requests change nothing; success means the active archive is the specified one, and follows iff the request is accepted and nothing needs to change or every call works and the build is seen to succeed. |
| `WatchQueue.NextKeepsInv` | internal/aggregated/storage/template.go:810-846 | Every channel operation of any producer or the dispatcher keeps capacity, order and accounting. |
| `WatchQueue.StepMeaning` | internal/aggregated/storage/template.go:810-846 | A send to a queue with room is accepted and drops nothing; only a full queue makes a producer make room, which takes out at most the oldest event. |
| `WatchQueue.DropsAreForced` | internal/aggregated/storage/template.go:818-846 | Over every run no more events are dropped than enqueue calls found the queue full. |
| `WatchQueue.EveryRun` | internal/aggregated/storage/template.go:810-846 | For every interleaving: within capacity, delivered then queued is an in-order subsequence of accepted, accepted = delivered + queued + dropped, and every lost event was overtaken. |
| `WatchQueue.LossLeavesNewerTail` | internal/aggregated/storage/template.go:836-845 | When an event is lost the newest queued event was accepted after the loser's own drop step. |
| `WatchQueue.LoneProducerLosesNothing` | internal/aggregated/storage/template.go:818-846 | A single producer never loses an event, whatever the dispatcher does. |
| `WatchQueue.Storage.EnqueueWatchEvent` | internal/aggregated/storage/template.go:818-846 | One call, with others acting between its operations: at most three operations, ending with its event at the tail or recorded as lost. |
| `WatchQueue.Storage.DispatchWatchEvent` | internal/aggregated/storage/template.go:810-816 | Delivers the head of the queue. |
| `OperatorTokens.SymbolsAreUniform` | internal/coderbootstrap/operator_access_postgres.go:655-671 | Each of the 62 symbols is drawn by exactly four of the bytes that are not rejected. |
| `OperatorTokens.SymbolsAreAlphanumeric` | internal/coderbootstrap/operator_access_postgres.go:20-20 | The symbols are exactly the digits and letters. |
| `OperatorTokens.RandomTokenPart` | internal/coderbootstrap/operator_access_postgres.go:647-674 | The loop returns the symbols drawn, of the requested length, and fails only when the source ends first. |
| `OperatorTokens.TokenSplits` | internal/coderbootstrap/operator_access_postgres.go:509-524 | A minted token splits back into its id and secret. |
| `OperatorTokens.Database.EnsureOperatorUser` | internal/coderbootstrap/operator_access_postgres.go:248-351 | The user found, or else inserted, is active under the name and has the operator's attributes; no other user changes. |
| `OperatorTokens.Database.EnsureOperatorMemberships` | internal/coderbootstrap/operator_access_postgres.go:353-425 | Success means administrator of every organization that is not deleted, of which there is at least one. |
| `OperatorTokens.Database.RotateOperatorToken` | internal/coderbootstrap/operator_access_postgres.go:526-618 | All rows of this user and name give way to one row that the returned token opens; id and secret are consecutive draws of the random source; when all statements work it fails only for a life under a second, a dry random source or a taken id. |
| `OperatorTokens.Database.EnsureToken` | internal/coderbootstrap/operator_access_postgres.go:427-507 | A live token is kept, otherwise rotated. |
| `OperatorTokens.Database.EnsureOperatorToken` | internal/coderbootstrap/operator_access_postgres.go:85-157 | The transaction: a returned token is the specified one; on failure nothing changed unless only the commit's answer was lost. |
| `OperatorTokens.Database.RevokeOperatorToken` | internal/coderbootstrap/operator_access_postgres.go:160-212 | The same for revocation. |
| `OperatorTokens.EnsuredTokenIsLive` | internal/coderbootstrap/operator_access_postgres.go:427-618 | A returned token splits into id and secret of an unexpired row of that user and name. |
| `OperatorTokens.LiveMeaning` | internal/coderbootstrap/operator_access_postgres.go:455-524 | A text is a live token iff, trimmed, it is id, dash and secret of an unexpired token row of that user and name with the hash of that secret. |
| `OperatorTokens.LiveTokenIsReused` | internal/coderbootstrap/operator_access_postgres.go:427-507 | Presenting it again while it lives returns it, for the same user, and leaves `api_keys` unchanged. |
| `OperatorTokens.MintedTokenLasts` | internal/coderbootstrap/operator_access_postgres.go:563-618 | A minted token lives for its lifetime and no longer, up to the rounding of stored times. |
| `OperatorTokens.RevokedTokenIsDead` | internal/coderbootstrap/operator_access_postgres.go:620-645 | After a revocation no token of that user and name is live. |
| `OperatorTokens.EffectKeepsRows` | internal/coderbootstrap/operator_access_postgres.go:526-645 | Every operation keeps at most one row per user and name and leaves rows of other names and users alone. |
| `OperatorTokens.OtherKeysStay` | internal/coderbootstrap/operator_access_postgres.go:526-645 | Keys that are not tokens, have another name, or belong to a user the operation does not address stay as they are. |
| `OperatorTokens.RunsKeepRows` | internal/coderbootstrap/operator_access_postgres.go:427-674 | The same over every run of ensures, revokes and rolled-back attempts. |
| `OperatorTokens.PresentedTokenIsStable` | internal/coderbootstrap/operator_access_postgres.go:427-507 | A caller that keeps presenting its token before the deadline gets that token from every ensure of the run, and its row is never touched. |

## Left out

- HTTP and SDK clients, URL parsing, logging, controller wiring, watches and field indexes.
- Construction of Deployments, Services, Ingresses, HTTPRoutes and ServiceAccounts, and the provisioner's own Role and RoleBinding: field copying.
- Status conditions, other than the license condition, and the organization id of a provisioner.
- Names of provisioner objects (`provisionerKeyConfig` and its neighbours): the key rotation takes the resolved names as given.
- FNV and SHA-256 themselves: hashes are parameters.
- The zip format: an archive is its sequence of entries, a header its directory bit, codec and an opaque rest, so the zip writer's limit on a header's extra field is not modelled. Paths are byte strings.
- Metadata updates, resource-version and immutability checks of a template update; a request without files does not reach the modelled part.
- The workspace storage's queue, which is the same code as the template one, and the rest of that storage.
- ProvisionerRotation.Cluster.Reconcile: the gates before the key logic (control plane, operator token, entitlement) are one switch, and what follows the status write is not modelled.
- ProvisionerRotation.RunsLeakNothing: assumes that no one else uses this provisioner's key identities; `LeaksExactlyWhenAbandoning` and `EditTracksIsExact` show that the excluded reconciles and edits are those that can leak.
- ProvisionerRotation.CleanReconcileConverges: a key of the desired identity that coderd already has must have a non-nil id, since the client treats a nil one as an error.
- ProvisionerRotation.Cluster.DeleteProvisionerKey: session tokens are not modelled. The old key is deleted at the old control plane's URL with the token of the newly referenced one, so a move to another coderd is an ordinary way to a refused delete.
- ProvisionerRotation.Cluster.EnsureProvisionerKey: coderd's listings are complete and current.
- RateLimitBackoff.Limiter.NextBackoff: jitter is a real number rather than a float64.
- WorkspaceRbacRuns.ObjectsOnlyUnderFinalizer: list calls see the stored objects (no stale informer cache), users do not put a control plane's UID on objects or take it off, and no one else removes the finalizer. A reconcile is one step with respect to other writers of RBAC objects.
- WorkspaceRbac.CreateOrUpdate: owner references other than the controller's are not modelled, and an API refusal to change a RoleBinding's roleRef is a failed call.
- OperatorTokens.Database.EnsureOperatorToken: transactions do not interleave; a clock that returns the zero time and the user's display name, password and login type are not modelled; the id of a key is unique, and a lifetime's seconds are not rounded through a float.
- OperatorTokens.RandomTokenPart: an endless source of rejected bytes is not modelled; the random source is a finite run of bytes that may end in a read error.
- OperatorTokens.LiveTokenIsReused: assumes that no two active users share a name up to case, as coderd's index demands.
- LicenseUpload.Coderd.ReconcileLicense: the text of the condition's message is any string.
- LicenseUpload.PersistedClaimIsBacked: "reported as duplicate" is what the operator reads out of the error text.
- BuildWait.WaitForBuild: the error text of a job and the cause attached to a timeout are not modelled.
- BuildWait.LoadWaitConfig: parsing of the environment variables is not modelled, only the bounds.
