/**
 * `TaskService`: the in-memory task list, loaded cache-first from the upstream
 * source and changed by create (next id appended), update (wholesale
 * replacement by id) and delete (filter by id).
 */
module Tasks {
  import opened JsValues

  /** A task record. Apart from `id`, attributes may be missing (an update stores whatever the patch holds). */
  datatype Task = Task(id: int, title: Option<string>, completed: Option<bool>, projectId: Option<int>)

  /** A `Partial<Task>`: every attribute may be missing, `id` included. */
  datatype TaskPatch = TaskPatch(id: Option<int>, title: Option<string>, completed: Option<bool>, projectId: Option<int>)

  /** The largest id in a non-empty list (`Math.max(...ids)`). */
  function MaxId(ts: seq<Task>): (m: int)
    requires ts != []
    ensures forall i | 0 <= i < |ts| :: ts[i].id <= m
    ensures exists i | 0 <= i < |ts| :: ts[i].id == m
  {
    if |ts| == 1 then ts[0].id
    else
      var m := MaxId(ts[1..]);
      assert forall i | 1 <= i < |ts| :: ts[i] == ts[1..][i - 1];
      if ts[0].id >= m then ts[0].id else m
  }

  /** The id a created task receives: one more than the largest id, or 1 for an empty list. */
  function NextId(ts: seq<Task>): (n: int)
    ensures ts == [] ==> n == 1
    ensures ts != [] ==> n == MaxId(ts) + 1
    ensures forall i | 0 <= i < |ts| :: ts[i].id < n
  {
    if |ts| > 0 then MaxId(ts) + 1 else 1
  }

  /** `{ ...updated, id: taskId }`: the patch as a whole, with its id forced whatever id the patch carries. */
  function PatchedTask(taskId: int, p: TaskPatch): (t: Task)
    ensures t.id == taskId
    ensures t.title == p.title && t.completed == p.completed && t.projectId == p.projectId
  {
    Task(taskId, p.title, p.completed, p.projectId)
  }

  /** `tasks.map(t => t.id === id ? rec : t)`. */
  function Replaced(ts: seq<Task>, id: int, rec: Task): (r: seq<Task>)
    ensures |r| == |ts|
    ensures forall i | 0 <= i < |ts| :: r[i] == (if ts[i].id == id then rec else ts[i])
  {
    if ts == [] then []
    else
      var rest := Replaced(ts[1..], id, rec);
      [if ts[0].id == id then rec else ts[0]] + rest
  }

  /** `tasks.filter(t => t.id !== id)`. */
  function Without(ts: seq<Task>, id: int): (r: seq<Task>)
    ensures |r| <= |ts|
    ensures forall t :: t in r <==> t in ts && t.id != id
  {
    if ts == [] then []
    else
      var rest := Without(ts[1..], id);
      if ts[0].id == id then rest else [ts[0]] + rest
  }

  class TaskService {
    /** The published task list. */
    var tasks: seq<Task>
    /** Load requests whose response has not yet arrived. */
    ghost var pendingLoads: nat

    constructor ()
      ensures tasks == [] && pendingLoads == 0
    {
      tasks := [];
      pendingLoads := 0;
    }

    /**
     * `loadTasks`: cache-first. A non-empty list is left as it is and nothing is
     * requested; otherwise a request for the project's tasks is issued, whose
     * outcome arrives later through `ReceiveTasks`.
     */
    method LoadTasks(projectId: int) returns (requested: bool)
      modifies this`pendingLoads
      ensures requested <==> tasks == []
      ensures pendingLoads == old(pendingLoads) + (if requested then 1 else 0)
    {
      if |tasks| > 0 {
        return false;
      }
      pendingLoads := pendingLoads + 1;
      requested := true;
    }

    /** The response to a load: the fetched list is published, or the empty list on failure. */
    method ReceiveTasks(outcome: Fetch<seq<Task>>)
      requires pendingLoads > 0
      modifies this
      ensures pendingLoads == old(pendingLoads) - 1
      ensures outcome.Fetched? ==> tasks == outcome.data
      ensures outcome.FetchFailed? ==> tasks == []
    {
      pendingLoads := pendingLoads - 1;
      match outcome
      case Fetched(data) => tasks := data;
      case FetchFailed => tasks := [];
    }

    /** `createTask`: the task with the next id is appended and returned. */
    method CreateTask(task: Task) returns (created: Task)
      modifies this`tasks
      ensures created == task.(id := NextId(old(tasks)))
      ensures tasks == old(tasks) + [created]
    {
      var newTask := task.(id := if |tasks| > 0 then MaxId(tasks) + 1 else 1);
      tasks := tasks + [newTask];
      created := newTask;
    }

    /** `updateTask`: every task with the id is replaced by the patch with that id; the replacement is returned. */
    method UpdateTask(taskId: int, updated: TaskPatch) returns (updatedTask: Task)
      modifies this`tasks
      ensures updatedTask == PatchedTask(taskId, updated)
      ensures tasks == Replaced(old(tasks), taskId, updatedTask)
    {
      updatedTask := PatchedTask(taskId, updated);
      tasks := Replaced(tasks, taskId, updatedTask);
    }

    /** `deleteTask`: every task with the id is removed. */
    method DeleteTask(taskId: int)
      modifies this`tasks
      ensures tasks == Without(old(tasks), taskId)
    {
      tasks := Without(tasks, taskId);
    }
  }

  // ---------------------------------------------------------------------------
  // Properties
  // ---------------------------------------------------------------------------

  /** Creation appends exactly one task carrying a fresh id and the input's other attributes. */
  lemma CreateAppendsFresh(ts: seq<Task>, task: Task)
    ensures var created := task.(id := NextId(ts));
      && |ts + [created]| == |ts| + 1
      && (ts + [created])[..|ts|] == ts
      && (forall i | 0 <= i < |ts| :: ts[i].id != created.id)
      && created.title == task.title && created.completed == task.completed && created.projectId == task.projectId
  {
  }

  /** An update keeps the length, and leaves the list unchanged when no task has the id. */
  lemma {:induction false} ReplacedAbsentIsIdentity(ts: seq<Task>, id: int, rec: Task)
    requires forall i | 0 <= i < |ts| :: ts[i].id != id
    ensures Replaced(ts, id, rec) == ts
  {
    if ts != [] {
      ReplacedAbsentIsIdentity(ts[1..], id, rec);
    }
  }

  /** An update replaces wholesale: an attribute missing from the patch is missing afterwards, even if the task had it. */
  lemma UpdateIsNotMerge(ts: seq<Task>, i: int, p: TaskPatch)
    requires 0 <= i < |ts| && p.title.None?
    ensures Replaced(ts, ts[i].id, PatchedTask(ts[i].id, p))[i].title.None?
    ensures Replaced(ts, ts[i].id, PatchedTask(ts[i].id, p))[i].id == ts[i].id
  {
  }

  /** The id inside a patch is ignored: patches that differ only in their id give the same record. */
  lemma PatchIdIgnored(taskId: int, p: TaskPatch, otherId: Option<int>)
    ensures PatchedTask(taskId, p.(id := otherId)) == PatchedTask(taskId, p)
  {
  }

  /** Deleting an id nobody has leaves the list as it was. */
  lemma {:induction false} WithoutAbsentIsIdentity(ts: seq<Task>, id: int)
    requires forall i | 0 <= i < |ts| :: ts[i].id != id
    ensures Without(ts, id) == ts
  {
    if ts != [] {
      WithoutAbsentIsIdentity(ts[1..], id);
    }
  }

  /** Filtering distributes over concatenation: the kept tasks stay in their relative order. */
  lemma {:induction false} WithoutConcat(a: seq<Task>, b: seq<Task>, id: int)
    ensures Without(a + b, id) == Without(a, id) + Without(b, id)
  {
    if a == [] {
      assert a + b == b;
    } else {
      assert (a + b)[1..] == a[1..] + b;
      WithoutConcat(a[1..], b, id);
    }
  }

  /** Deleting twice is deleting once. */
  lemma {:induction false} WithoutIdempotent(ts: seq<Task>, id: int)
    ensures Without(Without(ts, id), id) == Without(ts, id)
  {
    if ts != [] {
      WithoutIdempotent(ts[1..], id);
    }
  }

  /** Creating a task and then deleting the id it received restores the original list. */
  lemma CreateThenDeleteRestores(ts: seq<Task>, task: Task)
    ensures Without(ts + [task.(id := NextId(ts))], NextId(ts)) == ts
  {
    var created := task.(id := NextId(ts));
    WithoutConcat(ts, [created], created.id);
    WithoutAbsentIsIdentity(ts, created.id);
    assert Without([created], created.id) == [];
  }

  /** Deleting id 3 from the tasks with ids 1, 2, 3 leaves those with ids 1 and 2. */
  lemma DeleteLastOfThree(t1: Task, t2: Task, t3: Task)
    requires t1.id == 1 && t2.id == 2 && t3.id == 3
    ensures Without([t1, t2, t3], 3) == [t1, t2]
  {
    assert [t1, t2, t3][1..] == [t2, t3];
    assert [t2, t3][1..] == [t3];
    assert Without([t3], 3) == [];
    assert Without([t2, t3], 3) == [t2];
  }

  /** The service's own operations: a create followed by a delete of the created id restores the list. */
  method CreateDeleteRoundTrip(service: TaskService, task: Task)
    modifies service
  {
    var before := service.tasks;
    var created := service.CreateTask(task);
    service.DeleteTask(created.id);
    CreateThenDeleteRestores(before, task);
    assert service.tasks == before;
  }
}
