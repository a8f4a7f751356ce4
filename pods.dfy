/**
 * A pod as the job bookkeeping sees it: its name, its annotation map and its
 * phase. The three annotations that route a pod into a job's inventory are
 * the job name, the job version and the task spec.
 */
module Pods {
  import opened Wrappers

  /** The lifecycle phase a pod reports in its status. */
  datatype Phase = Pending | Running | Succeeded | Failed | Unknown

  /** One snapshot of a cluster pod; an update replaces the whole value. */
  datatype Pod = Pod(name: string, annotations: map<string, string>, phase: Phase)

  /** Annotation naming the job that owns the pod. */
  const JobNameKey: string := "volcano.sh/job-name"
  /** Annotation carrying the job generation the pod was created for. */
  const JobVersionKey: string := "volcano.sh/job-version"
  /** Annotation naming the task (pod template) the pod was created from. */
  const TaskSpecKey: string := "volcano.sh/task-spec"

  /** The annotations a pod must carry to be managed by a job. */
  function RequiredKeys(): set<string> {
    {JobNameKey, JobVersionKey, TaskSpecKey}
  }

  /** The routing triple read from a pod's annotations. */
  datatype RoutingKey = RoutingKey(job: string, version: string, task: string)

  /**
   * Reads the routing triple of a pod. A pod that lacks any of the three
   * annotations is not routable and yields None.
   */
  function Route(pod: Pod): (r: Option<RoutingKey>)
    ensures r.Some? <==> RequiredKeys() <= pod.annotations.Keys
    ensures r.Some? ==> r.value.job == pod.annotations[JobNameKey]
    ensures r.Some? ==> r.value.version == pod.annotations[JobVersionKey]
    ensures r.Some? ==> r.value.task == pod.annotations[TaskSpecKey]
  {
    if JobNameKey !in pod.annotations then None
    else if JobVersionKey !in pod.annotations then None
    else if TaskSpecKey !in pod.annotations then None
    else
      Some(RoutingKey(pod.annotations[JobNameKey],
                      pod.annotations[JobVersionKey],
                      pod.annotations[TaskSpecKey]))
  }

  /** Annotations other than the three routing keys play no part in routing. */
  lemma RouteIgnoresOtherAnnotations(pod: Pod, key: string, value: string)
    requires key !in RequiredKeys()
    ensures Route(pod.(annotations := pod.annotations[key := value])) == Route(pod)
  {
  }
}
