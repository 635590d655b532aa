/**
 * The pod registry of src/pod.rs: a `Manager` maps (namespace, name) to the
 * handle of a pod, and updates the status held by one handle in place.
 *
 * The status type is the parameter `S`; `Handle::new` and
 * `Handle::update_status` are not part of this model, so a fresh handle
 * starts from a status the caller supplies, and an update applies the
 * caller's function to the status it holds.
 */
module PodManager {
  import opened Wrappers

  /** The parts of a Kubernetes pod the registry reads. */
  datatype ObjectMeta = ObjectMeta(namespace: Option<string>, name: Option<string>)
  datatype KubePod = KubePod(metadata: Option<ObjectMeta>)

  /** The pod can be registered: `register_pod` unwraps its metadata, namespace and name. */
  predicate Registrable(pod: KubePod) {
    pod.metadata.Some? && pod.metadata.value.namespace.Some? && pod.metadata.value.name.Some?
  }

  /** The registry key of a pod, (namespace, name). */
  function KeyOf(pod: KubePod): (string, string)
    requires Registrable(pod)
  {
    (pod.metadata.value.namespace.value, pod.metadata.value.name.value)
  }

  /** One pod and its status. */
  class Handle<S> {
    const pod: KubePod
    var status: S

    constructor (pod: KubePod, status: S)
      ensures this.pod == pod && this.status == status
    {
      this.pod := pod;
      this.status := status;
    }

    /** Replaces the status by `f` of it. */
    method UpdateStatus(f: S -> S)
      modifies this
      ensures status == f(old(status))
    {
      status := f(status);
    }
  }

  class Manager<S> {
    var handles: map<(string, string), Handle<S>>

    /** Different keys hold different handles, so updating one handle leaves the others alone. */
    ghost predicate Valid()
      reads this
    {
      forall k, k' :: k in handles && k' in handles && k != k' ==> handles[k] != handles[k']
    }

    /** `Manager::new`: no pod is registered. */
    constructor ()
      ensures Valid() && handles == map[]
    {
      handles := map[];
    }

    /**
     * `register_pod`: stores a fresh handle for `pod` under its
     * (namespace, name), replacing any handle registered there before; the
     * other keys keep their handles.
     */
    method RegisterPod(pod: KubePod, initial: S)
      requires Valid() && Registrable(pod)
      modifies this
      ensures Valid()
      ensures handles.Keys == old(handles).Keys + {KeyOf(pod)}
      ensures fresh(handles[KeyOf(pod)])
      ensures handles[KeyOf(pod)].pod == pod && handles[KeyOf(pod)].status == initial
      ensures forall k :: k in old(handles) && k != KeyOf(pod) ==> handles[k] == old(handles)[k]
    {
      var handle := new Handle(pod, initial);
      handles := handles[KeyOf(pod) := handle];
    }

    /**
     * `update_status`: applies `f` to the status of the handle registered
     * under (namespace, name); the map and every other handle's status stay
     * as they were.
     */
    method UpdateStatus(namespace: string, name: string, f: S -> S)
      requires Valid() && (namespace, name) in handles
      modifies handles[(namespace, name)]
      ensures handles == old(handles) && Valid()
      ensures handles[(namespace, name)].status == f(old(handles[(namespace, name)].status))
      ensures forall k :: k in handles && k != (namespace, name) ==> handles[k].status == old(handles[k].status)
    {
      var handle := handles[(namespace, name)];
      handle.UpdateStatus(f);
    }
  }
}
