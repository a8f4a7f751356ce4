/**
 * The per-job pod inventory as a value: a table keyed first by task name and
 * then by pod name, and the three operations that change it, each giving the
 * new table and the status returned to the caller.
 */
module JobTable {
  import opened Wrappers
  import opened Pods

  /** The pods of one task, keyed by pod name. */
  type Bucket = map<string, Pod>
  /** The task buckets of one job, keyed by task name. */
  type Table = map<string, Bucket>

  datatype Error =
    | Unroutable(pod: string)
    | DuplicatedPod(task: string, pod: string)
    | TaskNotFound(task: string)
    | PodNotFound(task: string, pod: string)

  /** What an operation returns: nil, or an error. */
  datatype Status = Ok | Err(error: Error)

  /** The table after an operation, and the status it returned. */
  datatype Step = Step(table: Table, status: Status)

  /** The record filed under (task, name), if any; a missing bucket holds nothing. */
  function Lookup(t: Table, task: string, name: string): Option<Pod> {
    if task in t && name in t[task] then Some(t[task][name]) else None
  }

  /** The tables agree on every slot other than (task, name). */
  ghost predicate SameElsewhere(t: Table, t': Table, task: string, name: string) {
    forall tk, nm :: (tk != task || nm != name) ==> Lookup(t', tk, nm) == Lookup(t, tk, nm)
  }

  /** The record p sits where its own name and task-spec annotation say. */
  predicate FiledAt(p: Pod, task: string, name: string) {
    p.name == name && Route(p).Some? && Route(p).value.task == task
  }

  /**
   * The inventory invariant: every record is filed under its own task and
   * name, and no bucket is empty.
   */
  predicate Valid(t: Table) {
    (forall task, name :: task in t && name in t[task] ==> FiledAt(t[task][name], task, name)) &&
    (forall task :: task in t ==> t[task] != map[])
  }

  /**
   * Registers a pod under the task its annotations name, creating the bucket
   * when it is missing; a pod already filed there is a duplicate.
   */
  function Add(t: Table, pod: Pod): (s: Step)
    ensures Route(pod).None? ==> s == Step(t, Err(Unroutable(pod.name)))
    ensures Route(pod).Some? && Lookup(t, Route(pod).value.task, pod.name).Some? ==>
              s == Step(t, Err(DuplicatedPod(Route(pod).value.task, pod.name)))
    ensures Route(pod).Some? && Lookup(t, Route(pod).value.task, pod.name).None? ==>
              s.status == Ok &&
              Lookup(s.table, Route(pod).value.task, pod.name) == Some(pod) &&
              SameElsewhere(t, s.table, Route(pod).value.task, pod.name)
  {
    match Route(pod)
    case None => Step(t, Err(Unroutable(pod.name)))
    case Some(key) =>
      var bucket := if key.task in t then t[key.task] else map[];
      if pod.name in bucket then Step(t, Err(DuplicatedPod(key.task, pod.name)))
      else Step(t[key.task := bucket[pod.name := pod]], Ok)
  }

  /**
   * Removes a pod from its task's bucket, dropping the bucket when that
   * removal empties it. Removing a pod that is not tracked is not an error.
   */
  function Delete(t: Table, pod: Pod): (s: Step)
    ensures Route(pod).None? ==> s == Step(t, Err(Unroutable(pod.name)))
    ensures Route(pod).Some? ==>
              s.status == Ok &&
              Lookup(s.table, Route(pod).value.task, pod.name).None? &&
              SameElsewhere(t, s.table, Route(pod).value.task, pod.name)
    ensures Route(pod).Some? && Lookup(t, Route(pod).value.task, pod.name).None? ==> s.table == t
  {
    match Route(pod)
    case None => Step(t, Err(Unroutable(pod.name)))
    case Some(key) =>
      if key.task in t && pod.name in t[key.task] then
        if t[key.task].Keys == {pod.name} then Step(t - {key.task}, Ok)
        else Step(t[key.task := t[key.task] - {pod.name}], Ok)
      else Step(t, Ok)
  }

  /**
   * Replaces the record of a tracked pod by a newer snapshot; a missing
   * bucket or a missing pod is an error.
   */
  function Update(t: Table, pod: Pod): (s: Step)
    ensures Route(pod).None? ==> s == Step(t, Err(Unroutable(pod.name)))
    ensures Route(pod).Some? && Route(pod).value.task !in t ==>
              s == Step(t, Err(TaskNotFound(Route(pod).value.task)))
    ensures Route(pod).Some? && Route(pod).value.task in t &&
            Lookup(t, Route(pod).value.task, pod.name).None? ==>
              s == Step(t, Err(PodNotFound(Route(pod).value.task, pod.name)))
    ensures Route(pod).Some? && Lookup(t, Route(pod).value.task, pod.name).Some? ==>
              s.status == Ok &&
              s.table.Keys == t.Keys &&
              Lookup(s.table, Route(pod).value.task, pod.name) == Some(pod) &&
              SameElsewhere(t, s.table, Route(pod).value.task, pod.name)
  {
    match Route(pod)
    case None => Step(t, Err(Unroutable(pod.name)))
    case Some(key) =>
      if key.task !in t then Step(t, Err(TaskNotFound(key.task)))
      else if pod.name !in t[key.task] then Step(t, Err(PodNotFound(key.task, pod.name)))
      else Step(t[key.task := t[key.task][pod.name := pod]], Ok)
  }

  lemma AddKeepsValid(t: Table, pod: Pod)
    requires Valid(t)
    ensures Valid(Add(t, pod).table)
  {
  }

  lemma DeleteKeepsValid(t: Table, pod: Pod)
    requires Valid(t)
    ensures Valid(Delete(t, pod).table)
  {
    if Route(pod).Some? {
      var task := Route(pod).value.task;
      if task in t && pod.name in t[task] && t[task].Keys != {pod.name} {
        var other :| other in t[task].Keys && other != pod.name;
        assert other in (t[task] - {pod.name});
      }
    }
  }

  lemma UpdateKeepsValid(t: Table, pod: Pod)
    requires Valid(t)
    ensures Valid(Update(t, pod).table)
  {
  }

  /**
   * Adding the same pod twice: the second call reports a duplicate and
   * leaves the table as the first call left it.
   */
  lemma AddTwiceRejected(t: Table, pod: Pod)
    requires Add(t, pod).status == Ok
    ensures Route(pod).Some?
    ensures Add(Add(t, pod).table, pod) ==
              Step(Add(t, pod).table, Err(DuplicatedPod(Route(pod).value.task, pod.name)))
  {
  }

  /** Adding a pod grows its task's bucket by exactly one record. */
  lemma AddGrowsBucket(t: Table, pod: Pod)
    requires Add(t, pod).status == Ok
    ensures Route(pod).Some? && Route(pod).value.task in Add(t, pod).table
    ensures var task := Route(pod).value.task;
            |Add(t, pod).table[task]| == (if task in t then |t[task]| else 0) + 1
  {
  }

  /** Deleting a tracked pod shrinks its task's bucket by exactly one record. */
  lemma DeleteShrinksBucket(t: Table, pod: Pod)
    requires Route(pod).Some? && Lookup(t, Route(pod).value.task, pod.name).Some?
    ensures var task := Route(pod).value.task;
            var t' := Delete(t, pod).table;
            (if task in t' then |t'[task]| else 0) == |t[task]| - 1
  {
  }

  /**
   * In a valid table, deleting a pod that Add has just filed gives back the
   * table as it was before the Add: the bucket Add created is dropped again.
   */
  lemma AddThenDelete(t: Table, pod: Pod)
    requires Valid(t) && Add(t, pod).status == Ok
    ensures Delete(Add(t, pod).table, pod) == Step(t, Ok)
  {
    var task := Route(pod).value.task;
    var t1 := Add(t, pod).table;
    var t2 := Delete(t1, pod).table;
    if task in t {
      assert t[task] != map[];
      var some :| some in t[task];
      assert some != pod.name && some in t1[task];
      assert t2 == t1[task := t1[task] - {pod.name}];
      assert t2[task] == t[task];
    } else {
      assert t1[task].Keys == {pod.name};
      assert t2 == t1 - {task};
    }
    assert t2.Keys == t.Keys;
  }

  /** Replaying a delete changes nothing further. */
  lemma DeleteIdempotent(t: Table, pod: Pod)
    ensures Delete(Delete(t, pod).table, pod) == Delete(t, pod)
  {
  }

  /**
   * The event order the dispatcher guarantees for one pod, an add, an update
   * and a delete, all succeed and leave a valid table as it was.
   */
  lemma AddUpdateDeleteRestores(t: Table, pod: Pod, newer: Pod)
    requires Valid(t) && Add(t, pod).status == Ok
    requires newer.name == pod.name
    requires Route(newer).Some? && Route(newer).value.task == Route(pod).value.task
    ensures var t1 := Add(t, pod).table;
            var t2 := Update(t1, newer).table;
            Update(t1, newer).status == Ok && Delete(t2, newer) == Step(t, Ok)
  {
    var task := Route(pod).value.task;
    var t1 := Add(t, pod).table;
    var t2 := Update(t1, newer).table;
    var before: Bucket := if task in t then t[task] else map[];
    assert t1 == t[task := before[pod.name := pod]];
    assert t2 == t1[task := t1[task][pod.name := newer]];
    assert t1[task][pod.name := newer] == before[pod.name := newer];
    assert t2 == Add(t, newer).table;
    AddThenDelete(t, newer);
  }

  /**
   * Duplicates are detected per (task, name) only: once a pod is filed, a
   * snapshot of it whose task-spec annotation names another task, with no
   * pod of that name there yet, is accepted as well, and the pod name is
   * then tracked under both tasks.
   */
  lemma ReannotatedPodFiledTwice(t: Table, pod: Pod, moved: Pod)
    requires Add(t, pod).status == Ok
    requires moved.name == pod.name
    requires Route(moved).Some? && Route(moved).value.task != Route(pod).value.task
    requires Lookup(t, Route(moved).value.task, pod.name).None?
    ensures var t2 := Add(Add(t, pod).table, moved);
            t2.status == Ok &&
            Lookup(t2.table, Route(pod).value.task, pod.name) == Some(pod) &&
            Lookup(t2.table, Route(moved).value.task, pod.name) == Some(moved)
  {
  }
}
