/**
 The Cluster API objects the machine controller reads (a Machine and its
 owning Cluster), the outcome of a read from the API server, and the
 well-known label, annotation and finalizer names.
 */
module Resources {
  import opened Annotations

  datatype Option<+T> = None | Some(value: T)

  /** A namespace/name pair, the key of a namespaced object. */
  datatype ObjectKey = ObjectKey(namespace: string, name: string)

  /** The errors a reconcile can return. The API server's errors are kept
      abstract apart from NotFound, the one the controller tells apart. */
  datatype Error =
    | NotFound(key: ObjectKey)
    | ApiError(reason: string)
      /** `errors.Wrapf` around a failure to create the patch helper. */
    | PatchHelperInitFailed(key: ObjectKey, cause: Error)

  /** `apierrors.IsNotFound`. */
  predicate IsNotFound(e: Error) {
    e.NotFound?
  }

  /** The outcome of `client.Get`: the object, or the error the store gave. */
  datatype Lookup<+T> = Found(obj: T) | Failed(err: Error)

  /** A Cluster API Machine, reduced to the metadata the controller reads or writes. */
  datatype Machine = Machine(
    namespace: string,
    name: string,
    labels: StringMap,
    annotations: StringMap)

  /** A Cluster API Cluster. `deleting` stands for a non-zero deletion timestamp. */
  datatype Cluster = Cluster(
    namespace: string,
    name: string,
    labels: StringMap,
    deleting: bool,
    finalizers: seq<string>)

  /** Cluster API's label naming the Cluster a Machine belongs to. */
  const ClusterLabelName: string := "cluster.x-k8s.io/cluster-name"

  /** Cluster API's prefix of the pre-terminate deletion-hook annotations. */
  const PreTerminateDeleteHookAnnotationPrefix: string := "pre-terminate.delete.hook.machine.cluster.x-k8s.io"

  /** The label that enables AVI load balancing on a Cluster. */
  const AviClusterLabel: string := "cluster-service.network.tkg.tanzu.vmware.com/avi"

  /** The finalizer the operator keeps on a Cluster until its AVI clean-up is done. */
  const ClusterFinalizer: string := "ako-operator.network.tkg.tanzu.vmware.com"

  /** Linear search of a finalizer list. */
  function ListContains(finalizers: seq<string>, finalizer: string): (r: bool)
    ensures r <==> finalizer in finalizers
  {
    if |finalizers| == 0 then false
    else finalizers[0] == finalizer || ListContains(finalizers[1..], finalizer)
  }

  /** The operator's `ContainsFinalizer`: the finalizer is one of the object's finalizers. */
  function ContainsFinalizer(cluster: Cluster, finalizer: string): (r: bool)
    ensures r <==> exists i :: 0 <= i < |cluster.finalizers| && cluster.finalizers[i] == finalizer
  {
    ListContains(cluster.finalizers, finalizer)
  }
}
