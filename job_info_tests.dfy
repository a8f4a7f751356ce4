/**
 * The three unit-test scenarios for the inventory, as client code of the
 * JobInfo class: each builds an inventory, drives it through the methods and
 * returns what the test inspects; the ensures clauses are the test's
 * expectations, carried a step further where the inventory's policy says
 * what a replayed event does.
 */
module JobInfoTests {
  import opened Wrappers
  import opened Pods
  import opened JobTable
  import opened JobInfos

  /** The test pod "pod1" of job "job1", version "0", task "task1". */
  function TestPod(phase: Phase): (p: Pod)
    ensures Route(p) == Some(RoutingKey("job1", "0", "task1"))
    ensures p.name == "pod1" && p.phase == phase
  {
    Pod("pod1", map[JobNameKey := "job1", JobVersionKey := "0", TaskSpecKey := "task1"], phase)
  }

  /**
   * Adding the running pod to an empty inventory succeeds and files it under
   * "task1"; adding it again reports a duplicate and leaves the bucket holding
   * the one running record. The inventory's own name is left empty, as in the
   * test, so the pod's job-name annotation is not compared with it.
   */
  method AddPodScenario() returns (first: Status, tracked: bool, second: Status, bucket: Bucket)
    ensures first == Ok && tracked
    ensures second == Err(DuplicatedPod("task1", "pod1"))
    ensures bucket == map["pod1" := TestPod(Running)]
  {
    var ji := new JobInfo("", "");
    var pod := TestPod(Running);
    first := ji.AddPod(pod);
    tracked := "task1" in ji.pods && pod.name in ji.pods["task1"];
    second := ji.AddPod(pod);
    bucket := ji.pods["task1"];
  }

  /**
   * With the running pod seeded into bucket "task1", deleting it succeeds and
   * it is no longer found there; deleting it a second time also succeeds.
   */
  method DeletePodScenario() returns (first: Status, tracked: bool, second: Status)
    ensures first == Ok && !tracked
    ensures second == Ok
  {
    var ji := new JobInfo("", "");
    var pod := TestPod(Running);
    ji.pods := ji.pods["task1" := map[]];
    ji.pods := ji.pods["task1" := ji.pods["task1"][pod.name := pod]];
    first := ji.DeletePod(pod);
    tracked := "task1" in ji.pods && pod.name in ji.pods["task1"];
    second := ji.DeletePod(pod);
  }

  /**
   * With the running pod seeded into bucket "task1", updating it with the
   * succeeded snapshot succeeds, the pod is still found and its phase is now
   * Succeeded.
   */
  method UpdatePodScenario() returns (status: Status, tracked: bool, phase: Phase)
    ensures status == Ok && tracked
    ensures phase == Succeeded
  {
    var ji := new JobInfo("", "");
    var oldPod := TestPod(Running);
    var newPod := TestPod(Succeeded);
    ji.pods := ji.pods["task1" := map[]];
    ji.pods := ji.pods["task1" := ji.pods["task1"][oldPod.name := oldPod]];
    status := ji.UpdatePod(newPod);
    tracked := "task1" in ji.pods && newPod.name in ji.pods["task1"];
    phase := if tracked then ji.pods["task1"][newPod.name].phase else Unknown;
  }
}
