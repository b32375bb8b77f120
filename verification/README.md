# Machine pre-terminate hook reconciler, modelled in Dafny

The load-balancer operator (AKO operator) watches Cluster API Machines. For every Machine
of a Cluster with AVI load balancing enabled, it keeps a pre-terminate deletion-hook annotation,
`pre-terminate.delete.hook.machine.cluster.x-k8s.io/avi-cleanup: ako-operator`. The hook stops
Cluster API from finishing a Machine's termination until the operator's AVI clean-up for the
Cluster is done. The operator signals that the clean-up is done by removing its finalizer from
the Cluster. While the Cluster lives, the hook is added. While the Cluster is being deleted, the
hook stays as long as the finalizer does, and is removed once the finalizer is gone.

The model is functional. It has these modules:

- `Annotations` (annotations.dfy): annotation and label maps, Go's `strings.HasPrefix`, and
  Cluster API's `annotations.HasWithPrefix`. The last is given both as a predicate and as the
  library's key scan, proved equivalent.
- `Resources` (resources.dfy): the Machine and Cluster records, object keys, API errors, the
  outcome of a store read, the well-known names, and `ContainsFinalizer`.
- `Patch` (patch.dfy): the patch helper's merge patch on the annotation map. `Diff` computes it
  from a snapshot and the mutated map; `Apply` is what the API server does with it.
- `MachineController` (machine_controller.dfy): the reconcile. This covers the two branches that
  decide the annotations, the body that reads the Cluster, the deferred patch with its error
  precedence, and `Reconcile` itself.
- `MachineControllerProperties` (machine_controller_properties.dfy): each branch's effect,
  idempotence, and the hook's state table. It also shows how the stored hook tracks the
  Cluster's clean-up over any run of reconciles. Such a run may include out-of-scope Clusters,
  failed reads, and failed helper creation or patches.

The API server is not modelled as a process. `Reconcile` takes the outcome of each interaction
as a parameter:

- the Machine read, as a `Lookup`;
- whether creating the patch helper fails;
- the Cluster store, as a function from object key to `Lookup`;
- whether the final patch fails.

Either patch failure may happen nondeterministically.

The library calls are modelled by their assumed meaning:

- `annotations.HasWithPrefix(prefix, m)` holds when some key of `m` starts with `prefix`.
- `ContainsFinalizer(cluster, f)` holds when `f` is one of the Cluster's finalizers.
- `apierrors.IsNotFound` holds exactly for the `NotFound` error.
- `patchHelper.Patch` sends the merge patch between the snapshot taken when the helper was
  created and the final object. Only the annotations change.

## The hook's intended state table, and where the code departs from it

The model states the intended behaviour as a state table, `ExpectedHookAfter`. It gives the hook
afterwards from three inputs: whether the Cluster is being deleted, whether its finalizer is
there, and whether the hook was there before.

- A live Cluster gets the hook.
- A deleting Cluster whose finalizer is still there leaves the hook as it was.
- A deleting Cluster whose finalizer is gone loses the hook.

The add branch (controllers/machine_controller.go:140) does not quite follow this table. It tests
for an annotation whose key is exactly the prefix `pre-terminate.delete.hook.machine.cluster.x-k8s.io`,
not for the hook key it then writes. The model follows the code:

- `StateTableConformance` proves the table holds whenever no bare-prefix key is present.
- `BarePrefixKeySuppressesHook` shows a Machine with such a key, on a live Cluster, that does
  not get the hook although the table says it should.

Whether the exact-key test is deliberate cannot be told from the code, so it is not listed as a
finding.

In the other direction, the remove branch (line 167) tests whether any key has the prefix. The
hook key itself has the prefix, so this test never keeps the hook in place.
`ReconcileMachineDeletionHook` states the result as "the annotations minus the hook" whenever
the finalizer is gone.

The deferred patch runs on every exit after the helper exists (lines 69-76), whether or not the
diff is empty. The model therefore lets the patch step fail even when the diff is empty. A
failed patch writes nothing, so `Committed` (the annotations stored after a reconcile) is the
snapshot whenever the reconcile returns an error.

## Model

| member | source | states |
|---|---|---|
| Annotations.HasWithPrefixScan | controllers/machine_controller.go:167 | scanning the keys finds a key with the prefix exactly when some key has it |
| Resources.ContainsFinalizer | controllers/machine_controller.go:162 | the finalizer test is membership in the Cluster's finalizer list |
| Resources.ListContains | controllers/machine_controller.go:162 | the linear search of a finalizer list answers membership |
| Patch.Diff | controllers/machine_controller.go:69-70 | the patch holds only new or changed keys and vanished keys, and is empty exactly when snapshot and final annotations are equal |
| Patch.Apply | controllers/machine_controller.go:69-70 | applying a merge patch sets its keys, removes its removals and keeps every other annotation |
| Patch.ApplyDiff | controllers/machine_controller.go:69-70 | applying the diff to the snapshot yields the final annotations (the commit reflects the decided state) |
| MachineController.PreTerminateAnnotation | controllers/machine_controller.go:176-178 | the hook key carries the hook prefix and differs from the bare prefix |
| MachineController.ReconcileNormal | controllers/machine_controller.go:131-148 | without a bare-prefix key the hook ends up with value `ako-operator`; with one nothing changes; every other key and value is kept |
| MachineController.ReconcileMachineDeletionHook | controllers/machine_controller.go:152-174 | with the Cluster finalizer present nothing changes; without it the result is the annotations minus the hook key |
| MachineController.ReconcileClusterDelete | controllers/machine_controller.go:119-127 | the deletion branch does what the hook removal does: with the Cluster finalizer nothing changes, without it the result is the annotations minus the hook key |
| MachineController.AnnotationDecision | controllers/machine_controller.go:101-116 | a live Cluster gets the hook when no bare-prefix key is present, and with one the annotations are unchanged; a deleting Cluster without finalizer loses the hook; with finalizer nothing changes; other keys are kept |
| MachineController.Decide | controllers/machine_controller.go:78-116 | no cluster-name label or no AVI label leaves the annotations as they were; the only error is the Cluster read's, returned unchanged; the Cluster is read at the Machine's namespace and labelled name |
| MachineController.PatchOnExit | controllers/machine_controller.go:69-76 | the deferred patch commits the diff of snapshot and final annotations; a patch error is the result only when the body returned none |
| MachineController.Reconcile | controllers/machine_controller.go:48-117 | NotFound on the Machine is success with no patch; any other read error is returned unchanged with no patch; a helper failure returns the wrapped error with no patch; otherwise the patch always runs, sends the decided annotations and is empty exactly when nothing changed, and the result is the Cluster read error if there was one, else the patch's error |
| MachineControllerProperties.OutOfScopeLeavesAnnotations | controllers/machine_controller.go:79-83 | no cluster-name label, or a Cluster without the AVI label: empty patch, annotations unchanged, error only from the patch |
| MachineControllerProperties.ClusterReadErrorWins | controllers/machine_controller.go:87-92 | a failed Cluster read is the result whatever the patch does, and the patch still runs and is empty |
| MachineControllerProperties.NormalAddsHook | controllers/machine_controller.go:139-145 | on a live in-scope Cluster with no bare-prefix key, the patch turns the annotations into the old ones with the hook set to `ako-operator`; they are stored so if the patch succeeds and stay as they were if it fails, and the error is the patch's |
| MachineControllerProperties.DeletingWithFinalizerWaits | controllers/machine_controller.go:162-165 | a deleting Cluster that still has the finalizer leaves the annotations unchanged with an empty patch |
| MachineControllerProperties.DeletingWithoutFinalizerRemovesHook | controllers/machine_controller.go:167-171 | a deleting Cluster without the finalizer: the patch removes the hook and keeps all other keys, other hooks included, and is empty when no key has the prefix; the removal is stored only if the patch succeeds |
| MachineControllerProperties.AnnotationDecisionIdempotent | controllers/machine_controller.go:131-174 | deciding twice against the same Cluster equals deciding once |
| MachineControllerProperties.ReconcileIdempotent | controllers/machine_controller.go:48-117 | a second reconcile on the stored result of a successful first, with the Cluster unchanged, sends an empty patch and leaves the stored annotations as they were |
| MachineControllerProperties.StateTableConformance | controllers/machine_controller.go:101-174 | without a bare-prefix key, the hook afterwards is what the state table prescribes for every deleting/finalizer/hook-before combination |
| MachineControllerProperties.BarePrefixKeySuppressesHook | controllers/machine_controller.go:140 | a bare-prefix key keeps the hook off a Machine of a live Cluster, where the state table expects it |
| MachineControllerProperties.RepeatedDecisionSettles | controllers/machine_controller.go:131-174 | any number of re-triggered decisions with the Cluster unchanged gives the result of the first |
| MachineControllerProperties.LastDecisive | controllers/machine_controller.go:162-165 | finds the last Cluster state that is not a deletion still waiting for its finalizer, or reports that there is none |
| MachineControllerProperties.HookTracksCleanup | controllers/machine_controller.go:101-174 | for annotations with no key equal to the bare prefix, over any run of annotation decisions against in-scope Cluster states, no such key appears and the hook is present exactly when the last state acted on was a live Cluster; if every state was waiting, nothing changed |
| MachineControllerProperties.AttemptEffect | controllers/machine_controller.go:48-117 | one reconcile stores the annotation decision when the helper is created, the Cluster is in scope and not waiting, and the patch succeeds; otherwise the stored annotations are unchanged; labels and namespace never change |
| MachineControllerProperties.LastActing | controllers/machine_controller.go:63-76 | finds the last reconcile of a run that changes what is stored (helper created, in-scope Cluster not waiting, patch succeeded), or reports that none does |
| MachineControllerProperties.HookTracksCleanupAcrossReconciles | controllers/machine_controller.go:48-178 | for a Machine with no bare-prefix key, over any run of reconciles (including out-of-scope Clusters, failed reads, failed helper creation and failed patches), the stored hook is present exactly when the last reconcile that acted saw a live Cluster; if none acted, the stored annotations never changed |
| MachineControllerProperties.HookLifecycleScenario | controllers/machine_controller.go:48-178 | live Cluster adds the hook, deleting Cluster with finalizer keeps it with an empty patch, finalizer removal removes it |

## Left out

- `SetupWithManager` and the watch that maps Cluster events to Machine requests
  (controllers/machine_controller.go:29-40). This is controller-runtime wiring, and re-triggering
  is the scheduler's job.
- Logging, `context`, and the `ctrl.Result`. Every return path yields the zero `ctrl.Result`,
  meaning no requeue, so the model returns only the error.
- The patch helper's internals and the rest of the Machine object. The helper diffs the whole
  object, but the reconciler changes only annotations, so only the annotation map is diffed.
  Failures of the diff or of the request are one nondeterministic `patchFault`. A failure to
  create the helper is one nondeterministic `helperFault`.
- The message text of `errors.Wrapf`. `PatchHelperInitFailed` keeps the request key and the
  cause, not the formatted group-version-kind.
- Go's nil map. It is identified with the empty map, because reads from the two agree and their
  `omitempty` serialisations agree. The allocation at lines 141-143 therefore has no counterpart.
- The values of `AviClusterLabel` and `ClusterFinalizer`. They come from the operator's
  `api/v1alpha1` package, which is not part of this model. The values written here are
  placeholders, and no proof depends on them.
- `ConvertToAKODeploymentYaml`, the manifest rendering and its CIDR validation. Only a test that
  calls them is available
  (controllers/akodeploymentconfig/bootstrap-cluster/bootstrap_cluster_controller_unit_test.go:71-79).
  The renderer and its template are not part of this model. The environment variable that test
  sets (line 23) is process state.
- Concurrency, retries and backoff. These belong to controller-runtime, which serialises
  reconciles of one key.
