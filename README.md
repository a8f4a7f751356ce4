# Volcano job pod inventory in Dafny

This project models the per-job pod inventory of the Volcano batch scheduler's
job controller: the `JobInfo` record and its `Pods` table, keyed first by task
name and then by pod name. The model covers the three operations that change
the table in place:

- `AddPod` files a newly seen pod under the task named by its task-spec
  annotation. It creates the task's bucket when it is missing and rejects a pod
  that is already filed there as a duplicate.
- `DeletePod` removes a pod from its bucket.
- `UpdatePod` replaces a tracked pod's record wholesale with a newer snapshot.

A pod is reduced to its name, its annotation map and its phase (Pending,
Running, Succeeded, Failed, Unknown). It is routed by three annotations: job
name, job version and task spec.

The implementation file of `JobInfo` is not part of this model. What the model
does is fixed by the unit tests in `pkg/controllers/apis/job_info_test.go`.
Where those tests are silent, the model follows an explicit policy, listed
below.

Layout:

- `wrappers.dfy`: `Option`.
- `pods.dfy` (module `Pods`): the pod value, the annotation keys and `Route`,
  which reads the routing triple from a pod.
- `job_table.dfy` (module `JobTable`): the table as a value. `Add`, `Delete` and
  `Update` each give the new table and the returned status. This module also
  holds the inventory invariant `Valid` and the lemmas relating the operations.
- `job_info.dfy` (module `JobInfos`): class `JobInfo`, whose `pods` field is
  changed in place by `AddPod`, `DeletePod` and `UpdatePod`. Each method is
  proved equal to the matching `JobTable` function.
- `job_info_tests.dfy` (module `JobInfoTests`): the three test scenarios as
  client methods. Their `ensures` clauses are the tests' expectations.

Modelling choices for the cases the tests leave open:

- A pod missing any of the three routing annotations is answered with
  `Err(Unroutable)`, and the table is left unchanged.
- `UpdatePod` of a pod whose task has no bucket returns `Err(TaskNotFound)`. If
  the bucket exists but the pod is not in it, the result is `Err(PodNotFound)`.
  In both cases nothing changes.
- `DeletePod` of a pod that is not tracked returns `Ok` and leaves the table
  exactly as it was.
- A bucket is dropped when a deletion empties it. Because of this, a valid
  table never holds an empty bucket, and an add followed by a delete gives back
  the original table.
- The pod's job-name annotation is not compared with the inventory's own
  identity. The test's `JobInfo` has no name set, yet its first `AddPod` of a
  pod annotated with job `job1` must succeed
  (`pkg/controllers/apis/job_info_test.go:64-76`).
- Duplicates are detected per (task name, pod name) only. A snapshot of a
  filed pod whose task-spec annotation names another task is accepted into
  that task's bucket, so the pod name is then tracked under both tasks
  (`JobTable.ReannotatedPodFiledTwice`).
- The annotation key strings are written as `volcano.sh/job-name`,
  `volcano.sh/job-version` and `volcano.sh/task-spec`. Their definitions in
  the batch API package are not part of this model. The proofs rely only on
  the three keys being distinct.

## Model

| member | source | states |
|---|---|---|
| `Pods.Route` | pkg/controllers/apis/job_info_test.go:48-50 | a pod is routable exactly when it carries the job-name, job-version and task-spec annotations, and the routing triple is their values |
| `Pods.RouteIgnoresOtherAnnotations` | pkg/controllers/apis/job_info_test.go:44-50 | annotations other than the three routing keys do not change how a pod is routed |
| `JobTable.Add` | pkg/controllers/apis/job_info_test.go:73-86 | an unroutable pod is an error; a pod already filed under its task and name is a duplicate error with the table unchanged; otherwise the call succeeds, the pod is found under (task-spec annotation, name), and every other slot is unchanged |
| `JobTable.Delete` | pkg/controllers/apis/job_info_test.go:137-143 | a routable pod's deletion succeeds, the pod is no longer found under its task, every other slot is unchanged, and deleting an untracked pod leaves the table unchanged |
| `JobTable.Update` | pkg/controllers/apis/job_info_test.go:216-224 | updating a tracked pod succeeds, keeps the set of tasks, makes the lookup yield the new snapshot, and leaves every other slot unchanged; a missing task or pod is an error with the table unchanged |
| `JobTable.AddKeepsValid` | pkg/controllers/apis/job_info_test.go:73-80 | Add keeps every record filed under its own task annotation and name, with no empty bucket |
| `JobTable.DeleteKeepsValid` | pkg/controllers/apis/job_info_test.go:137-143 | Delete keeps the inventory invariant; a bucket it empties is dropped |
| `JobTable.UpdateKeepsValid` | pkg/controllers/apis/job_info_test.go:216-224 | Update keeps the inventory invariant |
| `JobTable.AddTwiceRejected` | pkg/controllers/apis/job_info_test.go:82-86 | a second Add of a pod that the first Add filed fails with a duplicated-pod error and leaves the table as the first Add left it |
| `JobTable.AddGrowsBucket` | pkg/controllers/apis/job_info_test.go:73-80 | a successful Add creates the task's bucket if needed and grows it by exactly one record |
| `JobTable.DeleteShrinksBucket` | pkg/controllers/apis/job_info_test.go:137-143 | deleting a tracked pod shrinks its bucket by exactly one record, counting a dropped bucket as empty |
| `JobTable.AddThenDelete` | pkg/controllers/apis/job_info_test.go:134-143 | on a valid table, Delete undoes a successful Add exactly, returning the original table |
| `JobTable.DeleteIdempotent` | pkg/controllers/apis/job_info_test.go:137-143 | replaying a delete gives the same table and status as the first delete |
| `JobTable.AddUpdateDeleteRestores` | pkg/controllers/apis/job_info_test.go:211-224 | the event order add, update, delete for one pod succeeds at every step and returns a valid table to its original state |
| `JobTable.ReannotatedPodFiledTwice` | pkg/controllers/apis/job_info_test.go:82-86 | duplicate detection is per (task, name): after a pod is filed, a same-named snapshot annotated with another, unoccupied task is also accepted, and the name is then tracked under both tasks |
| `JobInfos.JobInfo.constructor` | pkg/controllers/apis/job_info_test.go:64-66 | a new inventory has an empty, valid table |
| `JobInfos.JobInfo.AddPod` | pkg/controllers/apis/job_info_test.go:72-86 | the in-place update equals `JobTable.Add`; it succeeds iff the pod is routable and not yet filed, and then the pod is found under its task and name; on error nothing changes; validity is kept |
| `JobInfos.JobInfo.DeletePod` | pkg/controllers/apis/job_info_test.go:132-143 | the in-place update equals `JobTable.Delete`; it succeeds iff the pod is routable, the pod is then absent, an untracked pod leaves the table unchanged; validity is kept |
| `JobInfos.JobInfo.UpdatePod` | pkg/controllers/apis/job_info_test.go:211-224 | the in-place update equals `JobTable.Update`; it succeeds iff the pod is routable and tracked, and the record is then the new snapshot; on error nothing changes; validity is kept |
| `JobInfoTests.TestPod` | pkg/controllers/apis/job_info_test.go:40-63 | the test pod routes to job "job1", version "0", task "task1" |
| `JobInfoTests.AddPodScenario` | pkg/controllers/apis/job_info_test.go:29-89 | the first AddPod succeeds and files the pod under "task1", the second reports a duplicate, and the bucket still holds exactly the one running record |
| `JobInfoTests.DeletePodScenario` | pkg/controllers/apis/job_info_test.go:91-145 | deleting the seeded pod succeeds and it is no longer found under "task1"; a replayed delete also succeeds |
| `JobInfoTests.UpdatePodScenario` | pkg/controllers/apis/job_info_test.go:147-226 | updating the seeded running pod with its succeeded snapshot succeeds, and the pod is still found with phase Succeeded |

## Left out

- Locking and concurrent access: the per-job lock, and readers that see only whole mutations, are not modelled. The model is sequential.
- The process-wide registry of inventories and the event dispatcher that routes pod events into it: no code for them is part of this model.
- The job specification reference, queue, min-available count and last-accepted job version of an inventory: no code for them is part of this model.
- Job-version semantics: the version annotation is required for routing but its value is never compared, as in the tests.
- Per-task phase counts and the other read-only queries for the scheduler: the tests do not exercise them.
- Aliasing of stored records: the Go table holds `*v1.Pod` pointers (`pkg/controllers/apis/job_info_test.go:65`), so a caller who changes a pod object after filing it also changes the stored record. The model stores `Pod` values, treating each record as an immutable snapshot that only `UpdatePod` replaces.
- Rejection of a pod filed under two tasks: duplicates are detected per (task, name) only, so a re-annotated snapshot of a filed pod is accepted into a second bucket (`JobTable.ReannotatedPodFiledTwice`).
- Pod fields other than name, annotations and phase (UID, namespace, labels, container specs): they play no part in the asserted behaviour. Error values carry the pod name without its namespace.
- `pkg/cli/job/resume.go`: command-line flag wiring, kube-config loading and a network submission call. Its only logic is a non-empty check on the job name.
