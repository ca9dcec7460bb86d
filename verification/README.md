# A verified model of kustomize-controller

This project models the parts of kustomize-controller where correctness is about whole
runs, whole trees and whole graphs rather than single calls, and proves what the code and
its documentation promise about them. `dafny verify dfyconfig.toml` checks everything.

| file | component |
|---|---|
| `Journal.dfy`, `Controller.dfy` | the reconcile, prune and finalize state machine, run after run, with failures and crashes |
| `Inventory.dfy` | the inventory of tracked objects and the re-tracking of objects whose deletion was not confirmed |
| `Dependencies.dfy` | the dependsOn gate, with any number of Kustomizations reconciled concurrently |
| `Paths.dfy`, `Walk.dfy` | path resolution, the recursive walk over Kustomization files, and the decryption of source files in place |
| `Envelope.dfy` | the in-place decryption of enveloped values in a SOPS tree |
| `VaultTokens.dfy` | the Vault token cache and its lazily loaded login paths |
| `SourceRefs.dfy`, `Indexers.dfy` | source resolution, the watch index and the requests a new revision triggers |
| `Snapshot.dfy` | the v1beta1 snapshot of kinds by namespace |
| `AzureConfig.dfy` | the UTF-16 decoder for Azure configuration files |
| `Text.dfy` | separator-joined text, shared by ids, keys, additional data and paths |

## How the state machine is stated

`Controller.ApiServer` holds one stored Kustomization and a ghost journal of everything that
can be observed: reads, the artifact of the source, the opening of the dependency gate with what
was read of each dependency, applies, health probes, delete calls with what was asked and
answered, persisted statuses, and the finalizer's coming and going. Only the methods of
`ApiServer` write it, and they alone record, in `troubles`, the answers that a run does not get
past: `Controller.Ending` says how a run ends that meets one, and without any it succeeds. The server and the cluster are nondeterministic:
every call may fail, every call may be the last one of a crashing process, and users may edit
the spec, request deletion or strip the finalizer before each of them. `Journal.Good` says
which journals are allowed; `Controller.Reconcile` keeps the journal good in every run, so
`Controller.Life`, any number of runs and user actions, only ever produces good journals. The
theorems of `Journal` say what a good journal guarantees; `Journal.Safe` collects them, and
`Controller.Life` ensures it.

`hide` statements in bodies only keep the verifier from unfolding definitions it does not need.

## Assumptions about what surrounds the code

- A read of the object is fresh; a patch writes the finalizer, if it changed, and then the status,
  each atomically or not at all; only the controller writes status; no other controller's
  finalizer keeps the object alive.
- `ApplyAllStaged` returns an entry for each object, or an error.
- `DeleteAll` may reject or omit any subset, and returns no error only when every object has a
  Deleted or Skipped entry.
- `MarkReconciling` and `MarkStalled` each remove the other condition; `HasRevision` is equality.
- Object metadata contains no underscore; names and namespaces contain no slash.
- The library's sort orders (inventory entries, dependencies) are permutations in any order.
- The file system is finite and has no symlinks, so `SecureJoin` is a lexical clamp under root.
- The SOPS cipher is authenticated: an envelope opens under the additional data it was closed
  with and under no other, and the empty string is left as it is.
- CEL expressions, YAML parsing, remote URL detection and SOPS decryption are arbitrary functions.

## Where the code does less than one might expect

- Resolving `Join(path, ref)` depends on whether `path` is absolute or relative to root once a
  reference climbs above root: below `/a/b`, the reference `../../x` of directory `s` means
  `a/x` or `x` (`Paths.FormsDiffer`). `Paths.FormsAgree` gives the exact condition. The walk
  therefore reaches exactly the reference closure when the references of visited files stay below
  root; without that condition `KustomizationWalk.Walker.Recurse` still says what it marks and visits, in terms of
  the spelling each directory was first reached by.
- With `spec.prune` false an id leaves the inventory although nothing was deleted
  (`Journal.PruneIsNeeded`). `Controller.Reconcile` says which ids every such run drops, and
  `Journal.TrackingConservation` that there is no other way.
- A little-endian UTF-16 file whose text starts with U+0000 is taken for UTF-32 and returned
  undecoded (`AzureConfig.DecodeMarkedUtf16` states both cases).
- Keys with colons share additional data with longer paths (`Envelope.ColonsCollide`), exactly
  when the pieces between the colons agree (`Envelope.AdditionalDataDetermines`).
- The index lists a Kustomization under its source even when access control will refuse the
  lookup (`Indexers.IndexedButDenied`; `Indexers.LookupAgrees` gives the exact condition).

## Model

| member | source | states |
|---|---|---|
| `Inventory.ParseOfPrint` | api/v1/inventory_types.go:28-30 | the id of underscore-free metadata parses back to that metadata |
| `Inventory.PrintOfParse` | api/v1/inventory_types.go:28-30 | an id that parses prints back to itself, and its fields are underscore-free |
| `Inventory.IdLayout` | api/v1/inventory_types.go:28-30 | an id is namespace, name, group and kind, in this order, between underscores |
| `Inventory.AddChangeSet` | internal/inventory/inventory.go:39-52 | appends one entry per change set entry, in order; a missing change set changes nothing |
| `Inventory.Merge` | internal/inventory/inventory.go:58-77 | updates the inventory in place to `Merged`, also for a nil inventory or no objects |
| `Inventory.List` | internal/inventory/inventory.go:80-106 | fails exactly when some id does not parse, otherwise gives the object of every entry, as often as it occurs, in any order |
| `Inventory.ListMetadata` | internal/inventory/inventory.go:109-120 | fails exactly when some id does not parse, otherwise gives the parse of each entry |
| `Inventory.Diff` | internal/inventory/inventory.go:123-159 | fails exactly when an id of either inventory does not parse; otherwise one object per id that is only in the old inventory, with the version of its last entry |
| `Inventory.VersionMap` | internal/inventory/inventory.go:124-127 | maps every id to the version of its last entry |
| `Inventory.LastVersionIsLast` | internal/inventory/inventory.go:124-127 | the version that counts is that of the entry after which the id does not occur again |
| `Inventory.ObjectsOf` | internal/inventory/inventory.go:145-155 | one object per remaining metadata, none twice, whatever the order |
| `Inventory.PruneSurvivors` | internal/controller/kustomization_controller.go:1213-1234 | an object survives exactly when the change set has no Deleted or Skipped entry for it, in the order of the objects, for every change set including none |
| `Inventory.SettledEntries` | internal/controller/kustomization_controller.go:1217-1225 | collects exactly the ids with a Deleted or Skipped entry |
| `Inventory.MergedFacts` | internal/inventory/inventory.go:58-77 | a merge keeps the entries as a prefix, adds exactly the missing ids, each once and from some object |
| `Inventory.MergedIdempotent` | internal/inventory/inventory.go:66-70 | merging objects that are all tracked changes nothing |
| `Inventory.SurvivorsFacts` | internal/controller/kustomization_controller.go:1226-1233 | an object survives if and only if its id is not settled |
| `Inventory.RetrackSurvivors` | internal/controller/kustomization_controller.go:528-537 | after a failed prune the ids are the new ones plus the unsettled old ones; new entries stay a prefix, re-tracked ones keep their last version, none repeats, and a second merge changes nothing; for all inventories, duplicates included |
| `Inventory.MergedWellFormed` | internal/inventory/inventory.go:66-76 | merging parsed objects keeps every id parseable |
| `Inventory.EntriesWellFormed` | internal/inventory/inventory.go:44-49 | ids taken from a change set parse |
| `Journal.OwedIsTracked` | internal/controller/kustomization_controller.go:517-537 | in every good journal the persisted inventory tracks everything owed, parses, and a Ready status names the revision that was attempted |
| `Journal.OwedUntilDone` | internal/controller/kustomization_controller.go:1176-1207 | an id that is owed stays owed until it is settled, or abandoned |
| `Journal.AbandonedNeedsNoPrune` | internal/controller/kustomization_controller.go:1183-1185 | ids are abandoned only by a run that read spec.prune false |
| `Journal.DeletionIsWarranted` | internal/controller/kustomization_controller.go:1176-1207 | only ids the persisted inventory tracks are ever deleted, and only by a run that read spec.prune true and has applied, or that read a deleted object whose policy deletes |
| `Journal.TrackingConservation` | internal/controller/kustomization_controller.go:500-537 | over all runs, failures and crashes, an id in one persisted inventory and not in a later one has a Deleted or Skipped entry of a delete call in between, unless a run read spec.prune false |
| `Journal.PlainRunIsGood` | internal/controller/kustomization_controller.go:325-578 | a successful run without dependencies or health checks, written out event by event with its progress patches, is allowed, whether it settles or abandons what it no longer tracks |
| `Journal.PruneIsNeeded` | internal/controller/kustomization_controller.go:1183-1185 | for any two objects, three such runs with spec.prune false, adding the finalizer, applying both and then only one, drop the other's id with nothing ever deleted |
| `Journal.WholeLifeRelease` | internal/controller/kustomization_controller.go:1266-1352 | when the releasing run read a deleting policy and had an account to impersonate, every id any persisted inventory ever held is settled after that snapshot and before the finalizer is removed |
| `Journal.PolicyTable` | internal/controller/kustomization_controller.go:1239-1258 | the policies one by one: MirrorPrune is the default, Orphan and anything unknown delete nothing, nor does a suspended object |
| `Journal.StatusAtEverySnapshot` | internal/controller/kustomization_controller.go:1385-1411 | in every persisted snapshot Ready=True means applied equals attempted, no Reconciling, no Stalled, Healthy absent or True, and the generation its own run read |
| `Journal.ReadyIsEarned` | internal/controller/kustomization_controller.go:539-577 | a status that newly says Ready=True comes from a run that applied the recorded revision without an error and, if there was anything to check, found it healthy |
| `Journal.AppliedRevisionWasApplied` | internal/controller/kustomization_controller.go:562-564 | the applied revision only ever moves to one that the same run applied without an error |
| `Journal.AppliedIsTracked` | internal/controller/kustomization_controller.go:500-518 | everything a run applied without an error is tracked by every status that run persists afterwards |
| `Journal.ApplyIsGuarded` | internal/controller/kustomization_controller.go:189-276 | every apply belongs to a run that read the object with the finalizer, not deleting and not suspended; it applies the revision of the source's artifact, and that run first read every dependency and found it to meet the documented criteria for it |
| `Journal.PersistedIdsParse` | internal/inventory/inventory.go:87-91 | every id of every persisted inventory parses and prints back to itself |
| `Journal.GoodIsSafe` | internal/controller/kustomization_controller.go:139-323 | all of this at once, in terms of observable events: tracking is conserved, release is settled, what was applied stays tracked, and every snapshot, apply and deletion is sound |
| `Controller.Kustomization.FinalizeStatus` | internal/controller/kustomization_controller.go:1385-1407 | turns a status whose Ready is earned into a consistent one, observes the generation only when Ready, marks a failed run as retrying, and changes nothing else |
| `Controller.ApiServer.Patch` | internal/controller/kustomization_controller.go:1413-1443 | writes the finalizer and then the status, failing or crashing anywhere; success persists the whole status or releases the object, failure persists nothing; needs a writable, consistent status, and permission to release when the finalizer goes |
| `Controller.ApiServer.ApplyAllStaged` | internal/controller/kustomization_controller.go:1038-1066 | an entry for each object or an error; needs the finalizer on the object read and an open dependency gate |
| `Controller.ApiServer.DependenciesReady` | internal/controller/kustomization_controller.go:252-273 | reads each dependency at its own moment and runs `CheckDependencies` on the answers: the gate of the run opens for the revision exactly when all of them meet the documented criteria |
| `Controller.ApiServer.Artifact` | internal/controller/kustomization_controller.go:335-336 | the revision and origin of the source's artifact, on record |
| `Controller.ApiServer.WaitForSet` | internal/controller/kustomization_controller.go:1140-1154 | any verdict on health, superseded or not, which is what the journal remembers |
| `Controller.ApiServer.CanImpersonate` | internal/controller/kustomization_controller.go:1289 | any verdict; only a refusal lets a finalizer go with something unsettled |
| `Controller.ApiServer.DeleteAll` | internal/controller/kustomization_controller.go:1494-1512 | needs tracked objects and a warrant; answers with any change set, and without an error only if every object has a Deleted or Skipped entry; what was asked and answered is on record |
| `Controller.Prune` | internal/controller/kustomization_controller.go:1176-1207 | without spec.prune it succeeds, deletes nothing and abandons exactly the stale ids; otherwise success settles all of them and failure returns exactly the unsettled ones |
| `Controller.CollectGarbage` | internal/controller/kustomization_controller.go:517-537 | the error exit after Diff is unreachable, and afterwards the inventory covers what is owed; success leaves one event that settles the ids only in the old inventory, or abandons exactly those without spec.prune; after a failed prune it tracks the new ids plus the unsettled old ones |
| `Controller.NewInventory` | internal/controller/kustomization_controller.go:508-518 | the new inventory tracks exactly the ids of the applied objects, and parses |
| `Controller.ApplyAndPrune` | internal/controller/kustomization_controller.go:499-537 | success tracks exactly what was built, after exactly one apply and one event that settles, or without spec.prune abandons, what is no longer tracked; a failed apply keeps the inventory; a failed prune keeps every unsettled old id; at every exit the status may be persisted |
| `Controller.ApplyRevision` | internal/controller/kustomization_controller.go:499-577 | the same up to the end of the health checks, and exactly these events when there are none |
| `Controller.CheckHealth` | internal/controller/kustomization_controller.go:1077-1168 | succeeds exactly when no answer fails, and then leaves Healthy True after a passed probe: with spec.wait exactly when something applied was not skipped, without it exactly when there are health checks; otherwise absent; revisions are never touched and Ready is never True in between |
| `Controller.Probe` | internal/controller/kustomization_controller.go:1129-1165 | the checks proper: success is exactly an unknown health persisted, a passed wait and a True health persisted; failure leaves Ready False or the run canceled |
| `Controller.AwaitHealth` | internal/controller/kustomization_controller.go:1140-1165 | the wait and the second patch: an unhealthy set leaves Ready and Healthy False, unless a newer event interrupted the wait |
| `Controller.PatchHealth` | internal/controller/kustomization_controller.go:1134-1138 | sets the Healthy condition, persists it or fails, and changes nothing else |
| `Controller.ConcludeRevision` | internal/controller/kustomization_controller.go:539-577 | success records the applied and origin revision with Ready=True; any other exit keeps the applied revision and is not Ready |
| `Controller.Prepare` | internal/controller/kustomization_controller.go:350-398 | the outcome and condition each failing answer before the build leads to |
| `Controller.Build` | internal/controller/kustomization_controller.go:408-482 | the outcome and condition each failing answer of the build leads to |
| `Controller.FetchAndBuild` | internal/controller/kustomization_controller.go:350-497 | the attempted revision is persisted, then the end of the build, and Stalled cleared before an apply; the applied revision and inventory do not move |
| `Controller.Advance` | internal/controller/kustomization_controller.go:334-342 | reports progress: the whole status in memory is persisted, or the run ends as not updated or crashed |
| `Controller.StartRevision` | internal/controller/kustomization_controller.go:334-497 | progress is announced before anything else; success has persisted exactly three statuses, remembers the inventory and has built everything |
| `Controller.ReconcileRevision` | internal/controller/kustomization_controller.go:325-578 | it succeeds exactly when no answer fails, and the first failing answer decides any other outcome; progress is announced first; success means the revision was applied in this run, everything built is tracked and nothing else is, and the ids no longer tracked were asked for and settled, or exactly abandoned without spec.prune; every other exit keeps the applied revision, early exits keep the inventory, and a failed prune keeps every unsettled id |
| `Controller.FinalizerShouldDeleteResources` | internal/controller/kustomization_controller.go:1239-1258 | true exactly when something is tracked and the spec's policy deletes: not suspended, Delete or WaitForTermination, or MirrorPrune with prune |
| `Controller.Finalize` | internal/controller/kustomization_controller.go:1266-1352 | the discarded List error is unreachable; it fails only if the client could not be made or the deletion of everything tracked was answered with an error, and otherwise takes the finalizer off; nothing is deleted when the policy does not delete or nothing is tracked |
| `Controller.DeleteTracked` | internal/controller/kustomization_controller.go:1291-1331 | asks for the deletion of exactly what is tracked; success settles all of it |
| `Controller.Resolve` | internal/controller/kustomization_controller.go:209-273 | the outcome and conditions each failing answer before reconcile leads to; revisions are untouched, the run goes on with the artifact's revision, and with dependencies only through a gate opened for it |
| `Controller.PassGate` | internal/controller/kustomization_controller.go:252-273 | a closed gate leaves Ready False, a terminal one also Stalled and the generation observed; without dependencies it changes nothing |
| `Controller.RunRevision` | internal/controller/kustomization_controller.go:275-319 | how errors of reconcile are reported: artifact not ready, canceled, failed |
| `Controller.RunBody` | internal/controller/kustomization_controller.go:189-322 | the object read and the first failing answer, if any, decide the outcome: deletion finalizes, a missing finalizer is only added, exactly a suspended object is left alone, and anything else is reconciled; only success moves the applied revision |
| `Controller.FinalPatch` | internal/controller/kustomization_controller.go:157-160 | the deferred patch keeps Ready and the revisions, marks a failed run as retrying, and persists the consistent status or releases the finalizer |
| `Controller.Reconcile` | internal/controller/kustomization_controller.go:139-323 | wherever a run fails or crashes the journal stays good; a run that reads an unsuspended, undeleted object with the finalizer and meets no failing answer reconciles it, and a deleted one is finalized; the final patch persists what the outcome says; a successful run applied the artifact's revision, settled the ids it dropped, or abandoned exactly those without spec.prune, and a plain one is `PlainRun` event by event |
| `Controller.Life` | internal/controller/kustomization_controller.go:139-323 | any sequence of runs and user actions yields a good journal, hence a safe one |
| `Dependencies.CheckDependencies` | internal/controller/kustomization_controller.go:587-659 | the gate opens exactly when every dependency, as read at its moment, meets the documented criteria; otherwise it reports the first that does not, as terminal exactly when its expression fails for good |
| `Dependencies.MeetsUnless` | internal/controller/kustomization_controller.go:597-655 | the reasons that hold the gate closed, one by one: not found, an expression that does not hold or fails, and, unless an expression replaces them, no conditions, an unobserved generation, not ready, or another revision of the same source |
| `Dependencies.ReadClears` | internal/controller/kustomization_controller.go:630-655 | a same-source dependency that passes the built-in check has succeeded on the revision |
| `Dependencies.StepKeepsInv` | internal/controller/kustomization_controller.go:252-276 | every step of every Kustomization keeps readiness and progress backed by the history |
| `Dependencies.InvAlways` | internal/controller/kustomization_controller.go:252-276 | so does every interleaving |
| `Dependencies.DependencyOrder` | internal/controller/kustomization_controller.go:597-656 | in every interleaving each success on a revision strictly follows a success on it by every transitive same-source, built-in-checked dependency |
| `Dependencies.CycleNeverApplies` | internal/controller/kustomization_controller.go:632-655 | a Kustomization on such a cycle, self-loops included, never becomes ready nor records an applied revision |
| `Dependencies.GateLetsThrough` | internal/controller/kustomization_controller.go:252-276 | when the source has an artifact and every dependency meets its criteria as it stands, a run can go through and succeed on the revision |
| `Paths.StripRootMeaning` | internal/decryptor/decryptor.go:1119-1131 | stripRoot removes root exactly when it is a component prefix, and gives a clean relative path |
| `Paths.PrefixMeaning` | internal/decryptor/decryptor.go:1127-1128 | the textual prefix test agrees with the component prefix |
| `Paths.SecurePathsMeaning` | internal/decryptor/decryptor.go:1108-1117 | for every path whatsoever both results lie at or below root |
| `Paths.SecurePathsFixedPoint` | internal/decryptor/decryptor.go:1108-1117 | securePaths is a fixed point on its absolute and on its relative result |
| `Paths.FormsAgree` | internal/decryptor/decryptor.go:1060-1064 | joining a reference to the absolute and to the relative form of a directory resolves alike if and only if it never climbs above root, or climbs past all of root and does not land in a path that starts like root |
| `Paths.FormsDiffer` | internal/decryptor/decryptor.go:1060-1064 | below root `/a/b`, the reference `../../x` resolves differently from the two forms of directory `s` |
| `Paths.JoinSpells` | internal/decryptor/decryptor.go:1060-1064 | a reference that stays below root leads to the same directory from every spelling of a directory |
| `Paths.StaysBelowMeans` | internal/decryptor/decryptor.go:1060-1064 | a reference stays below root exactly when no leading part of it leads above root |
| `Paths.ClimbsUnlessBelow` | internal/decryptor/decryptor.go:1060-1064 | which is exactly when its walk never climbs out of a root that is not the file system's |
| `Paths.SecureJoinSpells` | internal/controller/kustomization_controller.go:388 | the directory a walk starts in is such a spelling |
| `KustomizationWalk.Walker.SopsDecryptFile` | internal/decryptor/decryptor.go:833-865 | success leaves the file as it was, or decrypted if it contains the marker of the format; it fails exactly for a missing, irregular, oversized or undecryptable file, or when the write was lost |
| `KustomizationWalk.Walker.VisitRef` | internal/decryptor/decryptor.go:753-771 | decrypts a file at its first reference and never again; an error means the original file is refused or its write was lost |
| `KustomizationWalk.Walker.VisitSources` | internal/decryptor/decryptor.go:773-820 | processes all references of a Kustomization file in order; an error names one of them |
| `KustomizationWalk.ReferencesAreFields` | internal/decryptor/decryptor.go:773-820 | these are exactly what the fields say: every file source with or without a key, every environment source, and every patch that is neither empty nor remote, each with its format |
| `KustomizationWalk.ReferencesInOrder` | internal/decryptor/decryptor.go:773-820 | generator by generator, file sources before environment sources, and all patches last |
| `KustomizationWalk.MarkerForPath` | internal/decryptor/decryptor.go:1147-1154 | which marker each suffix leads to |
| `KustomizationWalk.LoadMeaning` | internal/decryptor/decryptor.go:938-985 | a directory loads exactly when one of the three recognized names is a regular file that parses and the others do not exist |
| `KustomizationWalk.Walker.Recurse` | internal/decryptor/decryptor.go:1017-1077 | terminates on every finite file system; exactly unmarked targets that are missing or not directories are ignored; without an error everything newly marked is the path itself or a child of a new visit, every marked directory was visited, and all children of new visits are marked; an error is to blame on a path the walk came to: through a file, without a loadable Kustomization file, or with a source that is refused or was not written |
| `KustomizationWalk.Walker.RecurseAll` | internal/decryptor/decryptor.go:1054-1076 | walks all resources and components, ignoring missing and non-directory targets |
| `KustomizationWalk.DecryptSources` | internal/decryptor/decryptor.go:736-744 | does nothing unless SOPS decryption is asked for; success is a completed walk from the path, and every error has a path to blame |
| `KustomizationWalk.DecryptExactlyOnce` | internal/decryptor/decryptor.go:751-771 | after success a file that any field of a visited Kustomization file refers to holds its original content, or the single decryption of it if the marker of its first reference's format occurs in it; no file appears or disappears |
| `KustomizationWalk.OtherFilesUntouched` | internal/decryptor/decryptor.go:751-822 | a file no field of a visited Kustomization file refers to, by any spelling, is unchanged |
| `KustomizationWalk.GraphStable` | internal/decryptor/decryptor.go:1043-1052 | when no visited Kustomization file has a Kustomization file as a source, decrypting does not change what is walked |
| `KustomizationWalk.KnownBeforehand` | internal/decryptor/decryptor.go:1017-1077 | that, and references staying below root, can be read off the files before the walk: they need only hold in some closed set with the start, such as the reachable directories |
| `KustomizationWalk.VisitedIsClosed` | internal/decryptor/decryptor.go:1017-1077 | what the walk marked holds the start and is closed under resources and components |
| `KustomizationWalk.VisitedIsLeast` | internal/decryptor/decryptor.go:1017-1077 | and is contained in every such closed set: it is the reachability closure |
| `KustomizationWalk.VisitedExactlyOnce` | internal/decryptor/decryptor.go:1024-1052 | every marked directory was visited, exactly once |
| `Envelope.DecryptPointwise` | internal/decryptor/decryptor.go:617-659 | the walk does to each leaf what the leaf's own key path asks for, and keeps keys, order and shape |
| `Envelope.DecryptFailsAtLeaf` | internal/decryptor/decryptor.go:640-643 | it fails only if some leaf's envelope does not open under its own key path |
| `Envelope.RoundTrip` | internal/decryptor/decryptor.go:611-659 | for every tree and every choice of leaves, encrypting them under their key paths and running the walk gives back the tree, if no other string looks like an envelope |
| `Envelope.PathBinding` | internal/decryptor/decryptor.go:617-655 | for non-empty paths of colon-free keys, additional data is equal exactly when the key paths are |
| `Envelope.AdditionalDataDetermines` | internal/decryptor/decryptor.go:640 | for all key paths, additional data is equal exactly when cutting the keys at their colons gives the same pieces |
| `Envelope.AdditionalDataLayout` | internal/decryptor/decryptor.go:640 | every key is followed by a colon, and so is no key at all |
| `Envelope.ColonsCollide` | internal/decryptor/decryptor.go:640 | two pairs of different key paths that share additional data |
| `Envelope.MovedEnvelopeFails` | internal/decryptor/decryptor.go:640-643 | an envelope opens exactly below keys with the same pieces as those it was made for; colon-free keys must be the same keys |
| `Envelope.Clone` | internal/decryptor/decryptor.go:623 | a slice with the same keys in a buffer of its own |
| `Envelope.Append` | internal/decryptor/decryptor.go:623 | adds a key, in place when there is room and in a new buffer otherwise; the original slice keeps its keys |
| `Envelope.AppendsCollide` | internal/decryptor/decryptor.go:623 | two appends to one slice with room leave both with the second key, which the clone prevents |
| `Envelope.ChildSlice` | internal/decryptor/decryptor.go:617-655 | a child of a branch sees exactly the parent's keys and its own, in a fresh buffer; a list element shares the list's path |
| `Envelope.DecryptValue` | internal/decryptor/decryptor.go:634-659 | the walk over the tree in memory succeeds exactly when the pure walk does, leaves the pure walk's tree in the same arrays, and leaves the caller's whole path buffer unchanged |
| `Envelope.DecryptCells` | internal/decryptor/decryptor.go:617-630 | the same for the loop over one branch or list, each item walked with its own slice |
| `Envelope.DecryptCell` | internal/decryptor/decryptor.go:627 | one in-place assignment changes its own cell and no sibling |
| `VaultTokens.LoadVaultLoginPaths` | internal/decryptor/transit_engine.go:202-206 | maps each configured address to the path of its last instance |
| `VaultTokens.TokenCache.Token` | internal/decryptor/transit_engine.go:131-143 | a cached address returns its token without a fetch; otherwise only a configured address gets one, by a login under its own path; success stores the token, failure stores nothing |
| `VaultTokens.TokenCache.Fetch` | internal/decryptor/transit_engine.go:95-123 | loads the login paths only if they were never loaded, logs in exactly when the address has one, under that path, and fails only if the load or the login did or the address has none |
| `VaultTokens.StepKeepsInv` | internal/decryptor/transit_engine.go:131-143 | every step of every caller keeps mutual exclusion and the agreement of cache and fetches |
| `VaultTokens.OneFetchPerAddress` | internal/decryptor/transit_engine.go:128-144 | in every interleaving an address has at most one successful fetch, and successful calls return its token |
| `VaultTokens.ReturnsAreFetched` | internal/decryptor/transit_engine.go:137-142 | a successful call always follows the fetch of its token: failures are never stored |
| `VaultTokens.LoadedOnce` | internal/decryptor/transit_engine.go:97-104 | the login paths are loaded successfully at most once |
| `VaultTokens.LoginsAreListed` | internal/decryptor/transit_engine.go:106-112 | in every interleaving no login is attempted but at an address of the loaded list, with the path of its last instance |
| `VaultTokens.FailuresAreExplained` | internal/decryptor/transit_engine.go:95-123 | in every interleaving a call fails only if its load or login just failed or the loaded list has no path for its address |
| `Indexers.KeyStringInjective` | internal/controller/kustomization_indexers.go:53 | index keys of slash-free names determine the object |
| `Indexers.IndexAgrees` | internal/controller/kustomization_indexers.go:77-94 | a source's key is in the index of its kind exactly when the reference resolves to that source |
| `Indexers.LookupAgrees` | internal/controller/kustomization_controller.go:696-774 | getSource reads a source exactly for the Kustomizations indexed under it, if the kind is supported, cross-namespace references are allowed or not needed, and external artifacts are allowed or not meant |
| `Indexers.IndexedButDenied` | internal/controller/kustomization_controller.go:709-713 | a Kustomization that is indexed under a source and may not read it |
| `Indexers.Update` | internal/controller/source_predicate.go:45-54 | passes exactly the updates that bring an artifact with another revision |
| `Indexers.SortAndEnqueue` | internal/controller/kustomization_indexers.go:134-145 | exactly what the sort returns, one request per dependent in its order, or its error |
| `Indexers.RequestsForRevisionChangeOf` | internal/controller/kustomization_indexers.go:46-73 | requests exactly the listed objects that are unaware of the revision; nothing without an artifact, a list or a sort |
| `Indexers.NoLostRevision` | internal/controller/kustomization_indexers.go:59-67 | when the sort succeeds, a revision-changing update requests a Kustomization if and only if its reference resolves to the source and it is not Ready or Reconciling with that revision attempted |
| `Snapshots.ParseOfGvkString` | api/v1beta1/snapshot_types.go:110-114 | the listings parse the text of a group-version-kind back to it |
| `Snapshots.GvkStringInjective` | api/v1beta1/snapshot_types.go:89 | different kinds never share a key |
| `Snapshots.Snapshot.constructor` | api/v1beta1/snapshot_types.go:54-83 | one entry per occurring namespace, holding exactly the kinds added there |
| `Snapshots.Snapshot.AddEntry` | api/v1beta1/snapshot_types.go:85-102 | keeps that grouping for one more item |
| `Snapshots.Snapshot.NonNamespacedKinds` | api/v1beta1/snapshot_types.go:104-120 | lists exactly the kinds added without a namespace, each once |
| `Snapshots.Snapshot.NamespacedKinds` | api/v1beta1/snapshot_types.go:122-139 | lists exactly the occurring namespaces, and for each exactly the kinds added there, each once |
| `AzureConfig.Utf16RoundTrip` | internal/sops/azkv/config.go:144 | decoding the UTF-16 encoding of any text gives the text |
| `AzureConfig.ReadUnits` | internal/sops/azkv/config.go:139-143 | the buffer is filled exactly from the bytes after the mark, leaving at most an odd last byte |
| `AzureConfig.Decode` | internal/sops/azkv/config.go:135-154 | computes `Decoded`, whatever the mark |
| `AzureConfig.DetectMarked` | internal/sops/azkv/config.go:136-146 | a marked UTF-16 text is recognized in either byte order, except a little-endian one that starts with U+0000 |
| `AzureConfig.DecodeMarkedUtf16` | internal/sops/azkv/config.go:135-154 | decoding a mark and the UTF-16 encoding of any other text gives its UTF-8 encoding; the exception comes back undecoded |
| `AzureConfig.DecodeOtherwise` | internal/sops/azkv/config.go:153 | a file without a mark comes back as it is, and one marked as UTF-8 without the mark |
| `AzureConfig.RuneUnitsMeaning` | internal/sops/azkv/config.go:144 | one unit, or a high and a low surrogate that carry ten bits each |
| `AzureConfig.MarkIsFeff` | internal/sops/azkv/config.go:136 | the mark is U+FEFF in its own byte order |
| `AzureConfig.Utf8Injective` | internal/sops/azkv/config.go:144 | the UTF-8 encoding determines the text |

## Left out

- Artifact download, temporary directories, YAML parsing, the kustomize build and variable substitution: they appear as calls that may fail.
- Server-side apply, field managers, drift ignore rules, staged order and object sorting: library behaviour, used through the contracts above.
- Impersonation, kubeconfig, cloud and SPIFFE credentials, the Vault login exchange and key service dispatch: calls that may fail.
- CEL evaluation: an arbitrary verdict or error.
- Events, logs, metrics, history entries, `lastHandledReconcileAt`, jitter and time: no property of this model depends on them.
- Tracking of objects created by a partly failed apply: the code does not track them.
- Stalled cleared by every later run: the code keeps it on some early exits.
- The wait for termination while finalizing: it changes neither the status nor the finalizer.
- Error redaction and error texts: only which exit is taken is modelled.
- Whole-file decryption and MAC verification of `SopsDecryptWithFormat` and `DecryptResource`: SOPS itself is an abstract function.
- Controller.ApiServer.ReadDependency: does not tie what is read to other Kustomizations' runs, because one object's life must hold in any company; `Dependencies` runs them together.
- Controller.ApiServer.Patch: does not split the status write into its conditions and the rest, because each status patch is assumed to be atomic.
- Inventory.Print: does not model the library's escaping of colons in RBAC names, because the documented id format is used with underscore-free fields.
