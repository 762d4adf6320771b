/** api/task.go: the task records, the collection of fetched tasks in
    `GetTasks`, and the pairing of tasks with their tasklist in
    `GetTasksWithTasklist`.

    The source fetches every task id in its own goroutine and lets each one
    send its response into a channel buffered to the number of ids; after
    `wg.Wait()` the channel holds exactly one response per id, in an order the
    scheduler decides. Here the fetch of one id is the function `fetch`, and
    the order in which the responses are drained is the sequence `arrived`,
    of which only one thing is known: it is a reordering of the fetches in
    id order. */
module ApiTask {
  import opened Seqs
  import opened ApiTasklist

  /** A member of a task: a user id and whether that user is an assignee. */
  datatype TaskMember = TaskMember(id: string, isAssignee: bool)

  datatype Task = Task(
    id: string,
    ownerId: string,
    spaceId: string,
    title: string,
    members: seq<TaskMember>,
    tags: seq<string>,
    points: int,
    status: int,
    isDeleted: bool)

  /** The decoded answer of one `/task.get` request. */
  datatype GetTaskResponse = GetTaskResponse(ok: bool, task: Task)

  /** A task together with the tasklist it was fetched for. */
  datatype TaskWithTasklist = TaskWithTasklist(task: Task, list: Tasklist)

  function TaskOf(r: GetTaskResponse): Task { r.task }

  /** The tasks carried by a sequence of responses, in the same order. */
  function TasksOf(rs: seq<GetTaskResponse>): seq<Task>
  {
    Map(TaskOf, rs)
  }

  /** The tasks of the tasklist's ids, fetched one by one in id order. */
  function FetchedTasks(fetch: string -> GetTaskResponse, ids: seq<string>): seq<Task>
  {
    TasksOf(Map(fetch, ids))
  }

  /** The responses that the barrier guarantees are in the channel: one per
      task id, in some order. */
  predicate DrainedAfterBarrier(fetch: string -> GetTaskResponse, ids: seq<string>, arrived: seq<GetTaskResponse>)
  {
    multiset(arrived) == multiset(Map(fetch, ids))
  }

  /** `GetTasks`: drains the channel, appending the task of every response.
      Nothing is filtered: neither the `ok` flag nor the task's own
      `isDeleted` flag is looked at. */
  method GetTasks(tasklist: Tasklist, fetch: string -> GetTaskResponse, arrived: seq<GetTaskResponse>)
    returns (tasks: seq<Task>)
    requires DrainedAfterBarrier(fetch, tasklist.tasks, arrived)
    ensures |tasks| == |arrived| == |tasklist.tasks|
    ensures forall i :: 0 <= i < |tasks| ==> tasks[i] == arrived[i].task
    ensures multiset(tasks) == multiset(FetchedTasks(fetch, tasklist.tasks))
  {
    tasks := [];
    var i := 0;
    while i < |arrived|
      invariant 0 <= i <= |arrived|
      invariant |tasks| == i
      invariant forall k :: 0 <= k < i ==> tasks[k] == arrived[k].task
    {
      tasks := tasks + [arrived[i].task];
      i := i + 1;
    }
    assert tasks == TasksOf(arrived);
    CollectedTasksArePermutation(tasklist.tasks, fetch, arrived);
  }

  /** A reordering of the fetched tasks holds the task of every id, and only
      those: in particular a task whose own `isDeleted` flag is set is kept. */
  lemma FetchedMembership(ids: seq<string>, fetch: string -> GetTaskResponse, tasks: seq<Task>)
    requires multiset(tasks) == multiset(FetchedTasks(fetch, ids))
    ensures forall id :: id in ids ==> fetch(id).task in tasks
    ensures forall t :: t in tasks ==> exists id :: id in ids && fetch(id).task == t
  {
    var fetched := FetchedTasks(fetch, ids);
    forall id | id in ids ensures fetch(id).task in tasks {
      var k :| 0 <= k < |ids| && ids[k] == id;
      assert fetched[k] == fetch(id).task;
      assert fetch(id).task in multiset(fetched);
    }
    forall t | t in tasks ensures exists id :: id in ids && fetch(id).task == t {
      assert t in multiset(fetched);
      var k :| 0 <= k < |ids| && fetched[k] == t;
      assert ids[k] in ids;
    }
  }

  /** Whatever order the responses arrive in, the collected tasks are a
      reordering of the tasks fetched in id order. */
  lemma CollectedTasksArePermutation(ids: seq<string>, fetch: string -> GetTaskResponse, arrived: seq<GetTaskResponse>)
    requires DrainedAfterBarrier(fetch, ids, arrived)
    ensures |TasksOf(arrived)| == |ids|
    ensures multiset(TasksOf(arrived)) == multiset(FetchedTasks(fetch, ids))
  {
    MapPreservesMultiset(TaskOf, arrived, Map(fetch, ids));
    assert |arrived| == |multiset(arrived)| == |Map(fetch, ids)|;
  }

  /** A tasklist without task ids yields no tasks. */
  lemma NoIdsNoTasks(tasklist: Tasklist, fetch: string -> GetTaskResponse, arrived: seq<GetTaskResponse>)
    requires tasklist.tasks == []
    requires DrainedAfterBarrier(fetch, tasklist.tasks, arrived)
    ensures TasksOf(arrived) == []
  {
    assert |arrived| == |multiset(arrived)| == 0;
  }

  function PairTask(p: TaskWithTasklist): Task { p.task }

  /** The pairing loop of `GetTasksWithTasklist`: every task, in order, with a
      copy of the same tasklist. */
  method PairWithTasklist(tasks: seq<Task>, tasklist: Tasklist) returns (t: seq<TaskWithTasklist>)
    ensures |t| == |tasks|
    ensures forall i :: 0 <= i < |t| ==> t[i].task == tasks[i]
    ensures forall i :: 0 <= i < |t| ==> t[i].list == tasklist
  {
    t := [];
    var i := 0;
    while i < |tasks|
      invariant 0 <= i <= |tasks|
      invariant |t| == i
      invariant forall k :: 0 <= k < i ==> t[k] == TaskWithTasklist(tasks[k], tasklist)
    {
      t := t + [TaskWithTasklist(tasks[i], tasklist)];
      i := i + 1;
    }
  }

  /** A Go channel seen from the sending side: the values sent so far. */
  class Channel<T> {
    var sent: seq<T>

    constructor ()
      ensures sent == []
    {
      sent := [];
    }

    method Send(x: T)
      modifies this
      ensures sent == old(sent) + [x]
    {
      sent := sent + [x];
    }
  }

  /** `GetTasksWithTasklist`: collects the tasklist's tasks, pairs each with
      the tasklist and sends the whole slice into `ch`, exactly once. */
  method GetTasksWithTasklist(tasklist: Tasklist, fetch: string -> GetTaskResponse, arrived: seq<GetTaskResponse>,
                              ch: Channel<seq<TaskWithTasklist>>)
    requires DrainedAfterBarrier(fetch, tasklist.tasks, arrived)
    modifies ch
    ensures |ch.sent| == |old(ch.sent)| + 1
    ensures ch.sent[..|old(ch.sent)|] == old(ch.sent)
    ensures var t := ch.sent[|ch.sent| - 1];
      && |t| == |arrived| == |tasklist.tasks|
      && (forall i :: 0 <= i < |t| ==> t[i] == TaskWithTasklist(arrived[i].task, tasklist))
      && multiset(Map(PairTask, t)) == multiset(FetchedTasks(fetch, tasklist.tasks))
  {
    var tasks := GetTasks(tasklist, fetch, arrived);
    var t := PairWithTasklist(tasks, tasklist);
    assert Map(PairTask, t) == tasks;
    ch.Send(t);
  }
}
