/** cmd/report.go: the `report` command. It fetches the active tasklists,
    then for each of them, in order, fetches its tasks and appends one row
    (tasklist title, task title, points) per task to the table it hands to
    the renderer.

    The command package carries its own copies of the `Tasklist` and `Task`
    records and of the `getTasklists` and `getTasks` functions. Apart from
    JSON tags, the task id field being called `TaskId` rather than `ID`, and
    network and logging differences that the model does not capture (no
    check of the `http.Post` error in `getTasklists`, no `resp.Body.Close`
    in either function, an extra print loop), they compute the same values
    as the api package's, so the model shares their definitions. */
module Report {
  import opened Seqs
  import opened Text
  import opened ApiTasklist
  import opened ApiTask

  /** `getTasklists` after the response is decoded: the active tasklists in
      server order. */
  method GetTasklists(response: seq<Tasklist>) returns (active: seq<Tasklist>)
    ensures active == Active(response)
    ensures forall i :: 0 <= i < |active| ==> !active[i].isDeleted
    ensures forall t :: t in active <==> t in response && !t.isDeleted
    ensures IsSubsequence(active, response)
  {
    active := ApiTasklist.GetTasklists(response);
  }

  /** `getTasks` after the barrier: one task per received response, in the
      order received, unfiltered. */
  method GetTasks(tasklist: Tasklist, fetch: string -> GetTaskResponse, arrived: seq<GetTaskResponse>)
    returns (tasks: seq<Task>)
    requires DrainedAfterBarrier(fetch, tasklist.tasks, arrived)
    ensures |tasks| == |arrived| == |tasklist.tasks|
    ensures forall i :: 0 <= i < |tasks| ==> tasks[i] == arrived[i].task
    ensures multiset(tasks) == multiset(FetchedTasks(fetch, tasklist.tasks))
  {
    tasks := ApiTask.GetTasks(tasklist, fetch, arrived);
  }

  /** The row of one task: tasklist title, task title, points in decimal. */
  function Row(list: Tasklist, task: Task): seq<string>
  {
    [list.title, task.title, Itoa(task.points)]
  }

  /** The rows of one tasklist, one per task, in task order. */
  function Block(list: Tasklist, tasks: seq<Task>): seq<seq<string>>
  {
    Map((t: Task) => Row(list, t), tasks)
  }

  /** The table: the blocks of the tasklists, in tasklist order. `tasks[i]`
      holds the tasks received for `lists[i]`. */
  function Rows(lists: seq<Tasklist>, tasks: seq<seq<Task>>): seq<seq<string>>
    requires |lists| == |tasks|
  {
    if lists == [] then []
    else
      var n := |lists| - 1;
      Rows(lists[..n], tasks[..n]) + Block(lists[n], tasks[n])
  }

  /** The total number of tasks in `tasks`. */
  function TotalRows(tasks: seq<seq<Task>>): nat
  {
    if tasks == [] then 0 else TotalRows(tasks[..|tasks| - 1]) + |tasks[|tasks| - 1]|
  }

  /** The position of the first row of group `g`. */
  function Offset(tasks: seq<seq<Task>>, g: nat): nat
    requires g <= |tasks|
  {
    TotalRows(tasks[..g])
  }

  /** The total number of task ids over the tasklists. */
  function TaskIdCount(lists: seq<Tasklist>): nat
  {
    if lists == [] then 0 else TaskIdCount(lists[..|lists| - 1]) + |lists[|lists| - 1].tasks|
  }

  /** For each tasklist, its tasks fetched in id order. */
  function IdOrderTasks(fetch: string -> GetTaskResponse, lists: seq<Tasklist>): (r: seq<seq<Task>>)
    ensures |r| == |lists|
  {
    seq(|lists|, i requires 0 <= i < |lists| => FetchedTasks(fetch, lists[i].tasks))
  }

  /** What the barrier guarantees for every active tasklist's fetch. */
  predicate AllDrained(fetch: string -> GetTaskResponse, lists: seq<Tasklist>, arrivals: seq<seq<GetTaskResponse>>)
  {
    && |arrivals| == |lists|
    && forall i :: 0 <= i < |lists| ==> DrainedAfterBarrier(fetch, lists[i].tasks, arrivals[i])
  }

  /** The `Run` body of `reportCmd` up to rendering. `response` is the
      decoded `/tasklist.get-all` answer, `fetch` the `/task.get` answer for
      one id, and `arrivals[i]` the order in which the responses for the
      i-th active tasklist were drained. */
  method Run(response: seq<Tasklist>, fetch: string -> GetTaskResponse, arrivals: seq<seq<GetTaskResponse>>)
    returns (tableData: seq<seq<string>>)
    requires AllDrained(fetch, Active(response), arrivals)
    ensures tableData == Rows(Active(response), Map(TasksOf, arrivals))
    ensures |tableData| == TaskIdCount(Active(response))
    ensures forall k :: 0 <= k < |tableData| ==> |tableData[k]| == 3
    ensures multiset(tableData) == multiset(Rows(Active(response), IdOrderTasks(fetch, Active(response))))
  {
    var tasklists := GetTasklists(response);
    tableData := BuildTable(tasklists, fetch, arrivals);
    TableFacts(fetch, tasklists, arrivals);
  }

  /** The nested loop of `Run`: for every tasklist, fetch its tasks and
      append one row per task. */
  method BuildTable(tasklists: seq<Tasklist>, fetch: string -> GetTaskResponse, arrivals: seq<seq<GetTaskResponse>>)
    returns (tableData: seq<seq<string>>)
    requires AllDrained(fetch, tasklists, arrivals)
    ensures tableData == Rows(tasklists, Map(TasksOf, arrivals))
  {
    ghost var received := Map(TasksOf, arrivals);
    tableData := [];
    var i := 0;
    while i < |tasklists|
      invariant 0 <= i <= |tasklists|
      invariant tableData == Rows(tasklists[..i], received[..i])
    {
      var tasklist := tasklists[i];
      var tasks := GetTasks(tasklist, fetch, arrivals[i]);
      assert tasks == received[i];
      tableData := AppendTaskRows(tableData, tasklist, tasks);
      RowsStep(tasklists, received, i);
      i := i + 1;
    }
    assert tasklists[..i] == tasklists;
    assert received[..i] == received;
  }

  /** The inner loop of `Run`: appends the row of every task of `tasklist`,
      in task order. */
  method AppendTaskRows(tableData: seq<seq<string>>, tasklist: Tasklist, tasks: seq<Task>)
    returns (extended: seq<seq<string>>)
    ensures extended == tableData + Block(tasklist, tasks)
  {
    extended := tableData;
    var j := 0;
    while j < |tasks|
      invariant 0 <= j <= |tasks|
      invariant extended == tableData + Block(tasklist, tasks[..j])
    {
      var row := [tasklist.title, tasks[j].title, Itoa(tasks[j].points)];
      BlockStep(tasklist, tasks, j);
      extended := extended + [row];
      j := j + 1;
    }
    assert tasks[..j] == tasks;
  }

  /** One more task appends its row. */
  lemma BlockStep(list: Tasklist, tasks: seq<Task>, j: nat)
    requires j < |tasks|
    ensures Block(list, tasks[..j + 1]) == Block(list, tasks[..j]) + [Row(list, tasks[j])]
  {
    assert tasks[..j + 1][..j] == tasks[..j];
  }

  /** One more tasklist appends its block. */
  lemma RowsStep(lists: seq<Tasklist>, tasks: seq<seq<Task>>, i: nat)
    requires |lists| == |tasks| && i < |lists|
    ensures Rows(lists[..i + 1], tasks[..i + 1]) == Rows(lists[..i], tasks[..i]) + Block(lists[i], tasks[i])
  {
    assert lists[..i + 1][..i] == lists[..i];
    assert tasks[..i + 1][..i] == tasks[..i];
  }

  /** What the finished table satisfies, gathered for `Run`. */
  lemma TableFacts(fetch: string -> GetTaskResponse, lists: seq<Tasklist>, arrivals: seq<seq<GetTaskResponse>>)
    requires AllDrained(fetch, lists, arrivals)
    ensures var table := Rows(lists, Map(TasksOf, arrivals));
      && |table| == TaskIdCount(lists)
      && (forall k :: 0 <= k < |table| ==> |table[k]| == 3)
      && multiset(table) == multiset(Rows(lists, IdOrderTasks(fetch, lists)))
  {
    var received := Map(TasksOf, arrivals);
    RowCount(lists, received);
    ReceivedCount(fetch, lists, arrivals);
    RowsHaveThreeCells(lists, received);
    ReceivedMatchesIdOrder(fetch, lists, arrivals);
    RowsPermutation(lists, received, IdOrderTasks(fetch, lists));
  }

  /** The table has one row per task. */
  lemma {:induction false} RowCount(lists: seq<Tasklist>, tasks: seq<seq<Task>>)
    requires |lists| == |tasks|
    ensures |Rows(lists, tasks)| == TotalRows(tasks)
  {
    if lists != [] {
      var n := |lists| - 1;
      RowCount(lists[..n], tasks[..n]);
    }
  }

  /** Every tasklist contributes as many tasks as it has task ids. */
  lemma {:induction false} ReceivedCount(fetch: string -> GetTaskResponse, lists: seq<Tasklist>,
                                         arrivals: seq<seq<GetTaskResponse>>)
    requires AllDrained(fetch, lists, arrivals)
    ensures TotalRows(Map(TasksOf, arrivals)) == TaskIdCount(lists)
  {
    if lists != [] {
      var n := |lists| - 1;
      ReceivedCount(fetch, lists[..n], arrivals[..n]);
      assert Map(TasksOf, arrivals)[..n] == Map(TasksOf, arrivals[..n]);
      CollectedTasksArePermutation(lists[n].tasks, fetch, arrivals[n]);
    }
  }

  /** Every row has three cells. */
  lemma {:induction false} RowsHaveThreeCells(lists: seq<Tasklist>, tasks: seq<seq<Task>>)
    requires |lists| == |tasks|
    ensures forall k :: 0 <= k < |Rows(lists, tasks)| ==> |Rows(lists, tasks)[k]| == 3
  {
    if lists != [] {
      var n := |lists| - 1;
      RowsHaveThreeCells(lists[..n], tasks[..n]);
    }
  }

  /** Row `Offset(tasks, g) + j` is the row of task `j` of tasklist `g`: its
      cells are the tasklist's title, the task's title and a numeral that
      parses back to the task's points. */
  lemma {:induction false} RowAt(lists: seq<Tasklist>, tasks: seq<seq<Task>>, g: nat, j: nat)
    requires |lists| == |tasks|
    requires g < |lists| && j < |tasks[g]|
    ensures Offset(tasks, g) + j < |Rows(lists, tasks)|
    ensures Rows(lists, tasks)[Offset(tasks, g) + j] == [lists[g].title, tasks[g][j].title, Itoa(tasks[g][j].points)]
    ensures ParseInt(Rows(lists, tasks)[Offset(tasks, g) + j][2]) == Some(tasks[g][j].points)
  {
    var n := |lists| - 1;
    RowCount(lists[..n], tasks[..n]);
    if g < n {
      RowAt(lists[..n], tasks[..n], g, j);
      assert tasks[..n][..g] == tasks[..g];
    }
    ParseItoa(tasks[g][j].points);
  }

  /** The block of group `g` ends where the block of group `g + 1` starts. */
  lemma OffsetStep(tasks: seq<seq<Task>>, g: nat)
    requires g < |tasks|
    ensures Offset(tasks, g + 1) == Offset(tasks, g) + |tasks[g]|
  {
    assert tasks[..g + 1][..g] == tasks[..g];
  }

  /** Rows are grouped by tasklist in tasklist order: every row of an earlier
      tasklist comes before every row of a later one. */
  lemma {:induction false} GroupsInOrder(tasks: seq<seq<Task>>, g1: nat, j1: nat, g2: nat, j2: nat)
    requires g1 < g2 < |tasks|
    requires j1 < |tasks[g1]| && j2 < |tasks[g2]|
    ensures Offset(tasks, g1) + j1 < Offset(tasks, g2) + j2
    decreases g2 - g1
  {
    OffsetStep(tasks, g1);
    if g1 + 1 < g2 {
      OffsetsGrow(tasks, g1 + 1, g2);
    }
  }

  /** Offsets never decrease. */
  lemma {:induction false} OffsetsGrow(tasks: seq<seq<Task>>, g1: nat, g2: nat)
    requires g1 <= g2 <= |tasks|
    ensures Offset(tasks, g1) <= Offset(tasks, g2)
    decreases g2 - g1
  {
    if g1 < g2 {
      OffsetStep(tasks, g1);
      OffsetsGrow(tasks, g1 + 1, g2);
    }
  }

  /** The received tasks of every tasklist are a reordering of its tasks
      fetched in id order. */
  lemma ReceivedMatchesIdOrder(fetch: string -> GetTaskResponse, lists: seq<Tasklist>,
                               arrivals: seq<seq<GetTaskResponse>>)
    requires AllDrained(fetch, lists, arrivals)
    ensures forall i :: 0 <= i < |lists| ==>
      multiset(Map(TasksOf, arrivals)[i]) == multiset(IdOrderTasks(fetch, lists)[i])
  {
    forall i | 0 <= i < |lists|
      ensures multiset(Map(TasksOf, arrivals)[i]) == multiset(IdOrderTasks(fetch, lists)[i])
    {
      CollectedTasksArePermutation(lists[i].tasks, fetch, arrivals[i]);
    }
  }

  /** Reordering the tasks within each tasklist reorders the table and
      nothing more: the same rows, as many times each. */
  lemma {:induction false} RowsPermutation(lists: seq<Tasklist>, tasks1: seq<seq<Task>>, tasks2: seq<seq<Task>>)
    requires |lists| == |tasks1| == |tasks2|
    requires forall i :: 0 <= i < |lists| ==> multiset(tasks1[i]) == multiset(tasks2[i])
    ensures multiset(Rows(lists, tasks1)) == multiset(Rows(lists, tasks2))
  {
    if lists != [] {
      var n := |lists| - 1;
      RowsPermutation(lists[..n], tasks1[..n], tasks2[..n]);
      MapPreservesMultiset((t: Task) => Row(lists[n], t), tasks1[n], tasks2[n]);
    }
  }

  /** Running the report twice on the same snapshot gives the same rows
      whatever order the task fetches complete in. */
  lemma FetchOrderIrrelevant(response: seq<Tasklist>, fetch: string -> GetTaskResponse,
                             arrivals1: seq<seq<GetTaskResponse>>, arrivals2: seq<seq<GetTaskResponse>>)
    requires AllDrained(fetch, Active(response), arrivals1)
    requires AllDrained(fetch, Active(response), arrivals2)
    ensures multiset(Rows(Active(response), Map(TasksOf, arrivals1)))
         == multiset(Rows(Active(response), Map(TasksOf, arrivals2)))
  {
    var lists := Active(response);
    ReceivedMatchesIdOrder(fetch, lists, arrivals1);
    ReceivedMatchesIdOrder(fetch, lists, arrivals2);
    RowsPermutation(lists, Map(TasksOf, arrivals1), IdOrderTasks(fetch, lists));
    RowsPermutation(lists, Map(TasksOf, arrivals2), IdOrderTasks(fetch, lists));
  }

  // A worked scenario: "Archive" is soft-deleted; T2 is a task that is
  // itself marked deleted.

  function Sprint1(): Tasklist { Tasklist("L1", "s", "p", "Sprint1", false, ["T1", "T2"]) }
  function Archive(): Tasklist { Tasklist("L2", "s", "p", "Archive", true, ["T9"]) }
  function Sprint2(): Tasklist { Tasklist("L3", "s", "p", "Sprint2", false, ["T3"]) }

  /** The scenario's task fetch: title = id, 3 points, T2 marked deleted. */
  function ScenarioFetch(id: string): GetTaskResponse
  {
    GetTaskResponse(true, Task(id, "u1", "s", id, [], [], 3, 0, id == "T2"))
  }

  /** The deleted tasklist is dropped from the server's answer. */
  lemma ArchiveDropped()
    ensures Active([Sprint1(), Archive(), Sprint2()]) == [Sprint1(), Sprint2()]
  {
    var response := [Sprint1(), Archive(), Sprint2()];
    assert response[..2] == [Sprint1(), Archive()];
    assert [Sprint1(), Archive()][..1] == [Sprint1()] && [Sprint1()][..0] == [];
  }

  /** The rows of the scenario: none for "Archive", and one for the deleted
      task T2. */
  lemma ArchiveScenario()
    ensures Rows(Active([Sprint1(), Archive(), Sprint2()]),
                 IdOrderTasks(ScenarioFetch, Active([Sprint1(), Archive(), Sprint2()]))) == [
      ["Sprint1", "T1", "3"],
      ["Sprint1", "T2", "3"],
      ["Sprint2", "T3", "3"]]
  {
    ArchiveDropped();
    ScenarioRows();
  }

  /** The table of the two active tasklists, built in id order. */
  lemma ScenarioRows()
    ensures Rows([Sprint1(), Sprint2()], IdOrderTasks(ScenarioFetch, [Sprint1(), Sprint2()])) == [
      ["Sprint1", "T1", "3"],
      ["Sprint1", "T2", "3"],
      ["Sprint2", "T3", "3"]]
  {
    var t: seq<seq<Task>> := IdOrderTasks(ScenarioFetch, [Sprint1(), Sprint2()]);
    ScenarioBlocks(t);
    assert t == [t[0], t[1]];
    RowsOfTwo(Sprint1(), Sprint2(), t[0], t[1]);
  }

  /** The table of two tasklists is the first block followed by the second. */
  lemma RowsOfTwo(a: Tasklist, b: Tasklist, ta: seq<Task>, tb: seq<Task>)
    ensures Rows([a, b], [ta, tb]) == Block(a, ta) + Block(b, tb)
  {
    assert [a, b][..1] == [a] && [ta, tb][..1] == [ta];
    assert [a][..0] == [] && [ta][..0] == [];
    assert Rows([a], [ta]) == Rows([], []) + Block(a, ta);
  }

  lemma ScenarioBlocks(t: seq<seq<Task>>)
    requires t == IdOrderTasks(ScenarioFetch, [Sprint1(), Sprint2()])
    ensures Block(Sprint1(), t[0]) == [["Sprint1", "T1", "3"], ["Sprint1", "T2", "3"]]
    ensures Block(Sprint2(), t[1]) == [["Sprint2", "T3", "3"]]
  {
    assert Itoa(3) == "3";
    assert |t[0]| == 2 && t[0][0].title == "T1" && t[0][1].title == "T2";
    assert |t[1]| == 1 && t[1][0].title == "T3";
  }

  /** Whatever order the scenario's task fetches are drained in, the table
      holds exactly the three rows of `ArchiveScenario`, once each. */
  lemma ArchiveAnyArrival(arrivals: seq<seq<GetTaskResponse>>)
    requires AllDrained(ScenarioFetch, Active([Sprint1(), Archive(), Sprint2()]), arrivals)
    ensures multiset(Rows(Active([Sprint1(), Archive(), Sprint2()]), Map(TasksOf, arrivals))) == multiset([
      ["Sprint1", "T1", "3"],
      ["Sprint1", "T2", "3"],
      ["Sprint2", "T3", "3"]])
  {
    var lists := Active([Sprint1(), Archive(), Sprint2()]);
    ReceivedMatchesIdOrder(ScenarioFetch, lists, arrivals);
    RowsPermutation(lists, Map(TasksOf, arrivals), IdOrderTasks(ScenarioFetch, lists));
    ArchiveScenario();
  }
}
