/**
 * The per-job pod inventory as an object: the nested table is a field that
 * AddPod, DeletePod and UpdatePod change in place.
 */
module JobInfos {
  import opened Wrappers
  import opened Pods
  import opened JobTable

  class JobInfo {
    /** The job's identity; no operation reads or changes it. */
    var namespace: string
    var name: string
    /** Task name to pod name to the latest pod snapshot. */
    var pods: Table

    ghost predicate Valid()
      reads this
    {
      JobTable.Valid(pods)
    }

    /** A job with an empty, valid inventory. */
    constructor(namespace: string, name: string)
      ensures this.namespace == namespace && this.name == name
      ensures pods == map[] && Valid()
    {
      this.namespace := namespace;
      this.name := name;
      pods := map[];
    }

    /**
     * Files the pod under its task-spec annotation and its name, creating the
     * task's bucket first when it is missing; a pod already filed there is
     * rejected as a duplicate and nothing changes.
     */
    method AddPod(pod: Pod) returns (status: Status)
      modifies this`pods
      ensures Step(pods, status) == Add(old(pods), pod)
      ensures status == Ok <==>
                Route(pod).Some? && Lookup(old(pods), Route(pod).value.task, pod.name).None?
      ensures status == Ok ==> Lookup(pods, Route(pod).value.task, pod.name) == Some(pod)
      ensures status != Ok ==> pods == old(pods)
      ensures old(Valid()) ==> Valid()
    {
      if old(Valid()) {
        AddKeepsValid(pods, pod);
      }
      var key := Route(pod);
      if key.None? {
        return Err(Unroutable(pod.name));
      }
      var task := key.value.task;
      if task !in pods {
        pods := pods[task := map[]];
      }
      if pod.name in pods[task] {
        return Err(DuplicatedPod(task, pod.name));
      }
      pods := pods[task := pods[task][pod.name := pod]];
      return Ok;
    }

    /**
     * Removes the pod from its task's bucket and drops the bucket once it is
     * empty; deleting a pod that is not tracked succeeds and changes nothing.
     */
    method DeletePod(pod: Pod) returns (status: Status)
      modifies this`pods
      ensures Step(pods, status) == Delete(old(pods), pod)
      ensures status == Ok <==> Route(pod).Some?
      ensures status == Ok ==> Lookup(pods, Route(pod).value.task, pod.name).None?
      ensures status == Ok && Lookup(old(pods), Route(pod).value.task, pod.name).None? ==>
                pods == old(pods)
      ensures old(Valid()) ==> Valid()
    {
      if old(Valid()) {
        DeleteKeepsValid(pods, pod);
      }
      var key := Route(pod);
      if key.None? {
        return Err(Unroutable(pod.name));
      }
      var task := key.value.task;
      if task in pods && pod.name in pods[task] {
        if pods[task].Keys == {pod.name} {
          pods := pods - {task};
        } else {
          pods := pods[task := pods[task] - {pod.name}];
        }
      }
      return Ok;
    }

    /**
     * Replaces the record of a tracked pod wholesale by the given snapshot;
     * a missing bucket or a missing pod is reported and nothing changes.
     */
    method UpdatePod(pod: Pod) returns (status: Status)
      modifies this`pods
      ensures Step(pods, status) == Update(old(pods), pod)
      ensures status == Ok <==>
                Route(pod).Some? && Lookup(old(pods), Route(pod).value.task, pod.name).Some?
      ensures status == Ok ==> Lookup(pods, Route(pod).value.task, pod.name) == Some(pod)
      ensures status != Ok ==> pods == old(pods)
      ensures old(Valid()) ==> Valid()
    {
      if old(Valid()) {
        UpdateKeepsValid(pods, pod);
      }
      var key := Route(pod);
      if key.None? {
        return Err(Unroutable(pod.name));
      }
      var task := key.value.task;
      if task !in pods {
        return Err(TaskNotFound(task));
      }
      if pod.name !in pods[task] {
        return Err(PodNotFound(task, pod.name));
      }
      pods := pods[task := pods[task][pod.name := pod]];
      return Ok;
    }
  }
}
