/**
 Properties of the Machine reconciler: what each branch does to the
 annotations, the precedence of errors, idempotence, conformance to the
 hook's state table, and how the hook tracks the Cluster's clean-up over a
 run of reconciles.
 */
module MachineControllerProperties {
  import opened Annotations
  import opened Resources
  import opened Patch
  import opened MachineController

  /** A Machine with a cluster-name label whose Cluster reads back with the AVI label. */
  predicate ClusterInScope(machine: Machine, getCluster: ObjectKey -> Lookup<Cluster>) {
    && ClusterLabelName in machine.labels
    && getCluster(ClusterKey(machine)).Found?
    && AviClusterLabel in getCluster(ClusterKey(machine)).obj.labels
  }

  /** Out of scope (no cluster-name label, or a Cluster without the AVI
      label): the committed patch is empty, so the reconcile fails only if
      the patch itself fails. */
  lemma OutOfScopeLeavesAnnotations(
    req: ObjectKey, machine: Machine, getCluster: ObjectKey -> Lookup<Cluster>, patchFault: Option<Error>)
    requires ClusterLabelName !in machine.labels
          || (getCluster(ClusterKey(machine)).Found? && AviClusterLabel !in getCluster(ClusterKey(machine)).obj.labels)
    ensures var r := Reconcile(req, Found(machine), None, getCluster, patchFault);
      && r.step.Patched?
      && IsEmpty(r.step.patch)
      && Committed(machine, r) == machine.annotations
      && r.err == patchFault
  {
    ApplyDiff(machine.annotations, machine.annotations);
  }

  /** A Cluster read that fails is returned unchanged whatever the patch
      does; the deferred patch still runs and commits nothing. */
  lemma ClusterReadErrorWins(
    req: ObjectKey, machine: Machine, getCluster: ObjectKey -> Lookup<Cluster>, patchFault: Option<Error>)
    requires ClusterLabelName in machine.labels && getCluster(ClusterKey(machine)).Failed?
    ensures var r := Reconcile(req, Found(machine), None, getCluster, patchFault);
      && r.err == Some(getCluster(ClusterKey(machine)).err)
      && r.step.Patched?
      && IsEmpty(r.step.patch)
  {
  }

  /** Cluster not being deleted and no annotation keyed exactly by the hook
      prefix: the patch sets the hook to the operator's value and keeps every
      other annotation; the stored annotations change only if the patch succeeds. */
  lemma NormalAddsHook(
    req: ObjectKey, machine: Machine, getCluster: ObjectKey -> Lookup<Cluster>, patchFault: Option<Error>)
    requires ClusterInScope(machine, getCluster)
    requires !getCluster(ClusterKey(machine)).obj.deleting
    requires PreTerminateDeleteHookAnnotationPrefix !in machine.annotations
    ensures var r := Reconcile(req, Found(machine), None, getCluster, patchFault);
      && r.step.Patched?
      && Apply(machine.annotations, r.step.patch) == machine.annotations[PreTerminateAnnotation() := HookOwner]
      && (patchFault.None? ==> Committed(machine, r) == machine.annotations[PreTerminateAnnotation() := HookOwner])
      && (patchFault.Some? ==> Committed(machine, r) == machine.annotations)
      && r.err == patchFault
  {
  }

  /** Cluster being deleted while its finalizer is still there: nothing changes. */
  lemma DeletingWithFinalizerWaits(
    req: ObjectKey, machine: Machine, getCluster: ObjectKey -> Lookup<Cluster>, patchFault: Option<Error>)
    requires ClusterInScope(machine, getCluster)
    requires getCluster(ClusterKey(machine)).obj.deleting
    requires ContainsFinalizer(getCluster(ClusterKey(machine)).obj, ClusterFinalizer)
    ensures var r := Reconcile(req, Found(machine), None, getCluster, patchFault);
      && IsEmpty(r.step.patch)
      && Committed(machine, r) == machine.annotations
      && r.err == patchFault
  {
  }

  /** Cluster being deleted and its finalizer gone: the patch removes the
      operator's hook and keeps every other annotation, other hooks included;
      with no prefixed annotation at all the patch is empty. The stored
      annotations change only if the patch succeeds. */
  lemma DeletingWithoutFinalizerRemovesHook(
    req: ObjectKey, machine: Machine, getCluster: ObjectKey -> Lookup<Cluster>, patchFault: Option<Error>)
    requires ClusterInScope(machine, getCluster)
    requires getCluster(ClusterKey(machine)).obj.deleting
    requires !ContainsFinalizer(getCluster(ClusterKey(machine)).obj, ClusterFinalizer)
    ensures var r := Reconcile(req, Found(machine), None, getCluster, patchFault);
      && r.step.Patched?
      && Apply(machine.annotations, r.step.patch) == machine.annotations - {PreTerminateAnnotation()}
      && (patchFault.None? ==> Committed(machine, r) == machine.annotations - {PreTerminateAnnotation()})
      && (patchFault.Some? ==> Committed(machine, r) == machine.annotations)
      && (!HasWithPrefix(PreTerminateDeleteHookAnnotationPrefix, machine.annotations) ==> IsEmpty(r.step.patch))
      && r.err == patchFault
  {
  }

  /** Deciding twice against the same Cluster gives what deciding once gives. */
  lemma AnnotationDecisionIdempotent(annotations: StringMap, cluster: Cluster)
    ensures AnnotationDecision(AnnotationDecision(annotations, cluster), cluster) == AnnotationDecision(annotations, cluster)
  {
  }

  /** A second reconcile against the stored result of a first, with the
      Cluster unchanged, commits an empty patch and leaves the annotations
      as the first left them. */
  lemma ReconcileIdempotent(
    req: ObjectKey, machine: Machine, getCluster: ObjectKey -> Lookup<Cluster>, patchFault: Option<Error>)
    ensures
      var first := Reconcile(req, Found(machine), None, getCluster, None);
      var stored := machine.(annotations := Committed(machine, first));
      var second := Reconcile(req, Found(stored), None, getCluster, patchFault);
      && second.step.Patched?
      && IsEmpty(second.step.patch)
      && Committed(stored, second) == Committed(machine, first)
  {
  }

  /** The hook's state table: the hook afterwards, from whether the Cluster
      is being deleted, whether its finalizer is there, and the hook before. */
  function ExpectedHookAfter(deleting: bool, finalizerPresent: bool, hookBefore: bool): bool {
    if !deleting then true
    else if finalizerPresent then hookBefore
    else false
  }

  /** The decision follows the state table whenever no annotation is keyed
      exactly by the hook prefix. */
  lemma StateTableConformance(annotations: StringMap, cluster: Cluster)
    requires PreTerminateDeleteHookAnnotationPrefix !in annotations
    ensures HookPresent(AnnotationDecision(annotations, cluster))
        == ExpectedHookAfter(cluster.deleting, ContainsFinalizer(cluster, ClusterFinalizer), HookPresent(annotations))
  {
  }

  /** An annotation keyed exactly by the hook prefix keeps the hook from
      being added to a Machine of a live Cluster, against the state table. */
  lemma BarePrefixKeySuppressesHook()
    ensures
      var annotations := map[PreTerminateDeleteHookAnnotationPrefix := "other-controller"];
      var cluster := Cluster("default", "c", map[AviClusterLabel := ""], false, []);
      && !HookPresent(AnnotationDecision(annotations, cluster))
      && ExpectedHookAfter(cluster.deleting, ContainsFinalizer(cluster, ClusterFinalizer), HookPresent(annotations))
  {
  }

  /** The same decision made n times over. */
  function DecideRepeatedly(annotations: StringMap, cluster: Cluster, n: nat): StringMap
    decreases n
  {
    if n == 0 then annotations
    else DecideRepeatedly(AnnotationDecision(annotations, cluster), cluster, n - 1)
  }

  /** However often a reconcile is re-triggered with the Cluster unchanged,
      the annotations settle after the first. */
  lemma {:induction false} RepeatedDecisionSettles(annotations: StringMap, cluster: Cluster, n: nat)
    requires n >= 1
    ensures DecideRepeatedly(annotations, cluster, n) == AnnotationDecision(annotations, cluster)
    decreases n
  {
    if n > 1 {
      var once := AnnotationDecision(annotations, cluster);
      RepeatedDecisionSettles(once, cluster, n - 1);
      AnnotationDecisionIdempotent(annotations, cluster);
    }
  }

  /** The Cluster is being deleted and its clean-up has not finished: a reconcile waits. */
  predicate Waits(cluster: Cluster) {
    cluster.deleting && ContainsFinalizer(cluster, ClusterFinalizer)
  }

  /** The annotations after deciding against each in-scope Cluster state in turn. */
  function Replay(annotations: StringMap, clusters: seq<Cluster>): StringMap
    decreases |clusters|
  {
    if |clusters| == 0 then annotations
    else AnnotationDecision(Replay(annotations, clusters[..|clusters| - 1]), clusters[|clusters| - 1])
  }

  /** The index of the last Cluster state a decision acts on, if any. */
  function LastDecisive(clusters: seq<Cluster>): (r: Option<nat>)
    ensures r.Some? ==> r.value < |clusters| && !Waits(clusters[r.value])
    ensures r.Some? ==> forall j :: r.value < j < |clusters| ==> Waits(clusters[j])
    ensures r.None? ==> forall j :: 0 <= j < |clusters| ==> Waits(clusters[j])
    decreases |clusters|
  {
    if |clusters| == 0 then None
    else if !Waits(clusters[|clusters| - 1]) then Some(|clusters| - 1)
    else LastDecisive(clusters[..|clusters| - 1])
  }

  /** Over any run of annotation decisions against in-scope Cluster states,
      the hook is present exactly when the last state acted on was not a
      deletion; if every state was a deletion still waiting for clean-up,
      nothing changed. */
  lemma {:induction false} HookTracksCleanup(annotations: StringMap, clusters: seq<Cluster>)
    requires PreTerminateDeleteHookAnnotationPrefix !in annotations
    ensures PreTerminateDeleteHookAnnotationPrefix !in Replay(annotations, clusters)
    ensures match LastDecisive(clusters)
      case None => Replay(annotations, clusters) == annotations
      case Some(i) => HookPresent(Replay(annotations, clusters)) <==> !clusters[i].deleting
    decreases |clusters|
  {
    if |clusters| > 0 {
      var prefix := clusters[..|clusters| - 1];
      var last := clusters[|clusters| - 1];
      HookTracksCleanup(annotations, prefix);
      if Waits(last) {
        assert LastDecisive(clusters) == LastDecisive(prefix);
        match LastDecisive(prefix)
        case None =>
        case Some(i) =>
          assert clusters[i] == prefix[i];
      }
    }
  }

  /** The store's answers during one reconcile of the Machine: whether the
      patch helper can be created, what each Cluster read returns, and
      whether the final patch fails. */
  datatype Attempt = Attempt(
    helperFault: Option<Error>,
    getCluster: ObjectKey -> Lookup<Cluster>,
    patchFault: Option<Error>)

  /** The stored Machine after one reconcile of it. */
  function AfterAttempt(req: ObjectKey, machine: Machine, a: Attempt): Machine {
    var r := Reconcile(req, Found(machine), a.helperFault, a.getCluster, a.patchFault);
    machine.(annotations := Committed(machine, r))
  }

  /** The stored Machine after a run of reconciles, each reading what the previous one stored. */
  function ReconcileRun(req: ObjectKey, machine: Machine, attempts: seq<Attempt>): Machine
    decreases |attempts|
  {
    if |attempts| == 0 then machine
    else AfterAttempt(req, ReconcileRun(req, machine, attempts[..|attempts| - 1]), attempts[|attempts| - 1])
  }

  /** A reconcile that changes what is stored can: the helper is created, the
      Cluster reads back with the AVI label and is not waiting for clean-up,
      and the patch succeeds. */
  predicate Acts(machine: Machine, a: Attempt) {
    && a.helperFault.None?
    && a.patchFault.None?
    && ClusterInScope(machine, a.getCluster)
    && !Waits(a.getCluster(ClusterKey(machine)).obj)
  }

  /** One reconcile stores the annotation decision when it acts, and leaves
      the stored annotations alone otherwise: out of scope, a failed read, a
      failed helper or patch, or a Cluster still waiting for clean-up. */
  lemma AttemptEffect(req: ObjectKey, machine: Machine, a: Attempt)
    ensures AfterAttempt(req, machine, a).labels == machine.labels
    ensures AfterAttempt(req, machine, a).namespace == machine.namespace
    ensures Acts(machine, a) ==>
      AfterAttempt(req, machine, a).annotations == AnnotationDecision(machine.annotations, a.getCluster(ClusterKey(machine)).obj)
    ensures !Acts(machine, a) ==> AfterAttempt(req, machine, a).annotations == machine.annotations
  {
  }

  /** The index of the last reconcile of a run that acts, if any. */
  function LastActing(machine: Machine, attempts: seq<Attempt>): (r: Option<nat>)
    ensures r.Some? ==> r.value < |attempts| && Acts(machine, attempts[r.value])
    ensures r.Some? ==> forall j :: r.value < j < |attempts| ==> !Acts(machine, attempts[j])
    ensures r.None? ==> forall j :: 0 <= j < |attempts| ==> !Acts(machine, attempts[j])
    decreases |attempts|
  {
    if |attempts| == 0 then None
    else if Acts(machine, attempts[|attempts| - 1]) then Some(|attempts| - 1)
    else LastActing(machine, attempts[..|attempts| - 1])
  }

  /** Over any run of reconciles of a Machine with no bare-prefix key, the
      stored hook is present exactly when the last reconcile that acted saw
      a live Cluster; if none acted, the stored annotations never changed. */
  lemma {:induction false} HookTracksCleanupAcrossReconciles(req: ObjectKey, machine: Machine, attempts: seq<Attempt>)
    requires PreTerminateDeleteHookAnnotationPrefix !in machine.annotations
    ensures ReconcileRun(req, machine, attempts).labels == machine.labels
    ensures ReconcileRun(req, machine, attempts).namespace == machine.namespace
    ensures PreTerminateDeleteHookAnnotationPrefix !in ReconcileRun(req, machine, attempts).annotations
    ensures match LastActing(machine, attempts)
      case None => ReconcileRun(req, machine, attempts).annotations == machine.annotations
      case Some(i) =>
        var stored := ReconcileRun(req, machine, attempts).annotations;
        HookPresent(stored) <==> !attempts[i].getCluster(ClusterKey(machine)).obj.deleting
    decreases |attempts|
  {
    if |attempts| > 0 {
      var earlier := attempts[..|attempts| - 1];
      var last := attempts[|attempts| - 1];
      HookTracksCleanupAcrossReconciles(req, machine, earlier);
      var before := ReconcileRun(req, machine, earlier);
      AttemptEffect(req, before, last);
      assert Acts(before, last) == Acts(machine, last);
      if !Acts(machine, last) {
        assert LastActing(machine, attempts) == LastActing(machine, earlier);
        match LastActing(machine, earlier)
        case None =>
        case Some(i) =>
          assert attempts[i] == earlier[i];
      }
    }
  }

  /** The walk-through of the hook's life: a live Cluster gets the hook, a
      Cluster being deleted with its finalizer keeps it, and once the
      finalizer is gone the hook is removed. */
  lemma HookLifecycleScenario()
    ensures
      var req := ObjectKey("default", "worker-0");
      var machine := Machine("default", "worker-0", map[ClusterLabelName := "workload"], map[]);
      var live := Cluster("default", "workload", map[AviClusterLabel := ""], false, [ClusterFinalizer]);
      var draining := live.(deleting := true);
      var cleaned := draining.(finalizers := []);
      var r1 := Reconcile(req, Found(machine), None, k => Found(live), None);
      var m1 := machine.(annotations := Committed(machine, r1));
      var r2 := Reconcile(req, Found(m1), None, k => Found(draining), None);
      var m2 := m1.(annotations := Committed(m1, r2));
      var r3 := Reconcile(req, Found(m2), None, k => Found(cleaned), None);
      var m3 := m2.(annotations := Committed(m2, r3));
      && r1.err.None? && r2.err.None? && r3.err.None?
      && HookPresent(m1.annotations)
      && IsEmpty(r2.step.patch) && HookPresent(m2.annotations)
      && m3.annotations == map[]
  {
  }
}
