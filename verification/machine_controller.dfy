/**
 The Machine reconciler: it keeps the pre-terminate deletion-hook annotation
 on a Cluster API Machine in step with the AVI clean-up state of the
 Machine's Cluster.

 A reconcile reads the Machine, opens a patch helper on it, reads the
 Cluster, decides the annotations, and on every exit after the helper was
 opened commits the difference between the snapshot and the decided
 annotations. Reads and the commit are abstract outcomes passed in.
 */
module MachineController {
  import opened Annotations
  import opened Resources
  import opened Patch

  /** The value of the hook annotation: the owner of the hook. */
  const HookOwner: string := "ako-operator"

  /** The key of the operator's pre-terminate hook annotation. */
  function PreTerminateAnnotation(): (key: string)
    ensures HasPrefix(key, PreTerminateDeleteHookAnnotationPrefix)
    ensures key != PreTerminateDeleteHookAnnotationPrefix
  {
    PreTerminateDeleteHookAnnotationPrefix + "/avi-cleanup"
  }

  /** The hook is on the Machine, with the operator's value. */
  predicate HookPresent(annotations: StringMap) {
    PreTerminateAnnotation() in annotations && annotations[PreTerminateAnnotation()] == HookOwner
  }

  /** The Cluster is not being deleted: add the hook unless an annotation
      whose key is exactly the hook prefix is already there. */
  function ReconcileNormal(annotations: StringMap): (r: StringMap)
    ensures PreTerminateDeleteHookAnnotationPrefix !in annotations ==> HookPresent(r)
    ensures PreTerminateDeleteHookAnnotationPrefix in annotations ==> r == annotations
    ensures forall k :: k != PreTerminateAnnotation() ==> (k in r <==> k in annotations)
    ensures forall k :: k in annotations && k != PreTerminateAnnotation() ==> r[k] == annotations[k]
  {
    if PreTerminateDeleteHookAnnotationPrefix in annotations then annotations
    else annotations[PreTerminateAnnotation() := HookOwner]
  }

  /** The Cluster is being deleted: once its finalizer is gone, remove the
      hook if any annotation carries the hook prefix. Since the hook key has
      that prefix, the guard never keeps the hook in place. */
  function ReconcileMachineDeletionHook(annotations: StringMap, cluster: Cluster): (r: StringMap)
    ensures ContainsFinalizer(cluster, ClusterFinalizer) ==> r == annotations
    ensures !ContainsFinalizer(cluster, ClusterFinalizer) ==> r == annotations - {PreTerminateAnnotation()}
  {
    if ContainsFinalizer(cluster, ClusterFinalizer) then annotations
    else if HasWithPrefix(PreTerminateDeleteHookAnnotationPrefix, annotations) then
      annotations - {PreTerminateAnnotation()}
    else annotations
  }

  /** The deleting-Cluster branch: it waits while the Cluster's finalizer is
      there and takes the hook off once it is gone. */
  function ReconcileClusterDelete(annotations: StringMap, cluster: Cluster): (r: StringMap)
    ensures ContainsFinalizer(cluster, ClusterFinalizer) ==> r == annotations
    ensures !ContainsFinalizer(cluster, ClusterFinalizer) ==> r == annotations - {PreTerminateAnnotation()}
  {
    ReconcileMachineDeletionHook(annotations, cluster)
  }

  /** The annotation decision for an in-scope Machine, by the Cluster's deletion state. */
  function AnnotationDecision(annotations: StringMap, cluster: Cluster): (r: StringMap)
    ensures !cluster.deleting && PreTerminateDeleteHookAnnotationPrefix !in annotations ==> HookPresent(r)
    ensures !cluster.deleting && PreTerminateDeleteHookAnnotationPrefix in annotations ==> r == annotations
    ensures cluster.deleting && !ContainsFinalizer(cluster, ClusterFinalizer) ==> PreTerminateAnnotation() !in r
    ensures cluster.deleting && ContainsFinalizer(cluster, ClusterFinalizer) ==> r == annotations
    ensures forall k :: k != PreTerminateAnnotation() ==> (k in r <==> k in annotations)
    ensures forall k :: k in r && k != PreTerminateAnnotation() ==> r[k] == annotations[k]
  {
    if cluster.deleting then ReconcileClusterDelete(annotations, cluster)
    else ReconcileNormal(annotations)
  }

  /** The key of the Machine's Cluster: the Machine's namespace and the value of its cluster-name label. */
  function ClusterKey(machine: Machine): ObjectKey
    requires ClusterLabelName in machine.labels
  {
    ObjectKey(machine.namespace, machine.labels[ClusterLabelName])
  }

  /** What the body of a reconcile returns after the patch helper exists:
      the error it returns and the annotations it leaves on the Machine. */
  datatype Decision = Decision(err: Option<Error>, annotations: StringMap)

  /** The body of a reconcile between opening the patch helper and returning. */
  function Decide(machine: Machine, getCluster: ObjectKey -> Lookup<Cluster>): (d: Decision)
    ensures ClusterLabelName !in machine.labels ==> d == Decision(None, machine.annotations)
    ensures d.err.Some? <==>
      ClusterLabelName in machine.labels && getCluster(ClusterKey(machine)).Failed?
    ensures d.err.Some? ==>
      getCluster(ClusterKey(machine)) == Failed(d.err.value) && d.annotations == machine.annotations
    ensures ClusterLabelName in machine.labels && getCluster(ClusterKey(machine)).Found? ==>
      var cluster := getCluster(ClusterKey(machine)).obj;
      d.err.None? &&
      (AviClusterLabel !in cluster.labels ==> d.annotations == machine.annotations) &&
      (AviClusterLabel in cluster.labels ==> d.annotations == AnnotationDecision(machine.annotations, cluster))
  {
    if ClusterLabelName !in machine.labels then
      Decision(None, machine.annotations)
    else
      match getCluster(ClusterKey(machine))
      case Failed(e) => Decision(Some(e), machine.annotations)
      case Found(cluster) =>
        if AviClusterLabel !in cluster.labels then Decision(None, machine.annotations)
        else Decision(None, AnnotationDecision(machine.annotations, cluster))
  }

  /** Whether the deferred patch ran, and with which patch. */
  datatype PatchStep = NotPatched | Patched(patch: AnnotationPatch)

  /** What a reconcile returns (its error) and what it sent to the API server. */
  datatype ReconcileResult = ReconcileResult(err: Option<Error>, step: PatchStep)

  /** The deferred patch: commit the diff between the snapshot and the final
      annotations, and let a commit failure become the result only when the
      body returned no error. */
  function PatchOnExit(snapshot: StringMap, final: StringMap, reterr: Option<Error>, patchFault: Option<Error>): (r: ReconcileResult)
    ensures r.step.Patched? && Apply(snapshot, r.step.patch) == final
    ensures IsEmpty(r.step.patch) <==> snapshot == final
    ensures reterr.Some? ==> r.err == reterr
    ensures reterr.None? ==> r.err == patchFault
  {
    ApplyDiff(snapshot, final);
    ReconcileResult(if reterr.Some? then reterr else patchFault, Patched(Diff(snapshot, final)))
  }

  /** One reconcile of the Machine named `req`. `machineRead` is the outcome
      of reading it, `helperFault` the failure (if any) of creating the patch
      helper, `getCluster` the store's answer to reading a Cluster, and
      `patchFault` the failure (if any) of the final patch. */
  function Reconcile(
    req: ObjectKey,
    machineRead: Lookup<Machine>,
    helperFault: Option<Error>,
    getCluster: ObjectKey -> Lookup<Cluster>,
    patchFault: Option<Error>): (r: ReconcileResult)
    ensures machineRead.Failed? ==> r.step.NotPatched?
    ensures machineRead.Failed? && IsNotFound(machineRead.err) ==> r.err.None?
    ensures machineRead.Failed? && !IsNotFound(machineRead.err) ==> r.err == Some(machineRead.err)
    ensures machineRead.Found? && helperFault.Some? ==>
      r == ReconcileResult(Some(PatchHelperInitFailed(req, helperFault.value)), NotPatched)
    ensures machineRead.Found? && helperFault.None? ==>
      r.step.Patched? &&
      Apply(machineRead.obj.annotations, r.step.patch) == Decide(machineRead.obj, getCluster).annotations
    ensures machineRead.Found? && helperFault.None? ==>
      (IsEmpty(r.step.patch) <==> machineRead.obj.annotations == Decide(machineRead.obj, getCluster).annotations)
    ensures machineRead.Found? && helperFault.None? ==>
      var d := Decide(machineRead.obj, getCluster);
      r.err == (if d.err.Some? then d.err else patchFault)
  {
    match machineRead
    case Failed(e) =>
      if IsNotFound(e) then ReconcileResult(None, NotPatched)
      else ReconcileResult(Some(e), NotPatched)
    case Found(machine) =>
      if helperFault.Some? then
        ReconcileResult(Some(PatchHelperInitFailed(req, helperFault.value)), NotPatched)
      else
        var d := Decide(machine, getCluster);
        PatchOnExit(machine.annotations, d.annotations, d.err, patchFault)
  }

  /** The Machine's annotations on the API server after a reconcile. A patch
      is written only when the reconcile returns no error: a returned error
      is either the patch's own failure or a Cluster read failure, and in the
      latter case the patch is empty. */
  function Committed(machine: Machine, r: ReconcileResult): StringMap {
    if r.step.Patched? && r.err.None? then Apply(machine.annotations, r.step.patch) else machine.annotations
  }
}
