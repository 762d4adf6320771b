# tw-report-cli: the data transforms of the report pipeline

`tw-report-cli` is a command-line tool that queries a project-management service. It fetches a workspace's users, a project's tasklists and the tasks of each tasklist, then prints a table. This Dafny project models the sequential steps between the network calls and proves what they compute:

- **Soft-delete filtering** (`GetTasklists`, and its copy `getTasklists` in the command package). It keeps the tasklists whose `isDeleted` flag is false, in server order.
- **Task collection** (`GetTasks` / `getTasks`). Every task id is fetched in its own goroutine. Each goroutine sends one response into a channel buffered to the number of ids. After the wait-group barrier, the channel is drained into a slice.
  - The model does not run goroutines. The fetch of one id is a function `fetch: string -> GetTaskResponse`.
  - The drain order is a sequence `arrived`. The only thing known about it (`DrainedAfterBarrier`) is that it is a reordering of `fetch` applied to the ids in order.
- **Pairing** (`GetTasksWithTasklist`). Every collected task is paired with its tasklist, and the slice is sent once into a channel. The channel is modelled as a small class, `Channel`, that records what was sent.
- **Assignee resolution** (`GetTaskAssignees`). It builds an id → first-name map from the users, where the last user with a given id wins. It looks up the assignee members in member order, with a missing id giving `""`. It joins the names with `","`.
- **Report rows** (`reportCmd.Run`). One row of three cells per (active tasklist, task): the tasklist title, the task title and `strconv.Itoa(points)`.

Modules follow the source files:

| module | file | source |
|---|---|---|
| `ApiWorkspace` | workspace.dfy | api/workspace.go (the `User` record) |
| `ApiTasklist` | tasklist.dfy | api/tasklist.go |
| `ApiTask` | task.dfy | api/task.go |
| `ApiUtils` | utils.dfy | api/utils.go |
| `Report` | report.dfy | cmd/report.go |
| `Text` | text.dfy | Go's `strings.Join` and `strconv.Itoa`, with `Split` and an `Atoi`-style parser as their inverses |
| `Seqs` | seqs.dfy | generic `Map` over sequences and the lemma that mapping preserves permutations |

Each loop in the source is a method with a `while` loop. Its `ensures` ties the result to a specification function (`Active`, `TasksOf`, `FirstNames`/`AssigneeNames`, `Rows`). Lemmas prove the promised properties about those functions.

`cmd/report.go` redeclares `Tasklist`, `Task`, `TaskMember`, `getTasklists`, `getTasks` and `getTask`. The copies compute the same values as the api package's. They differ only in JSON tags, in the `TaskId` field name, and in the network and logging details listed under "## Left out". The model defines each record once. `Report.GetTasklists` and `Report.GetTasks` call the api versions.

Two facts of the code fix the shape of the model:

- `cmd/report.go` builds three cells per row: tasklist title, task title and points. There is no assignee column.
- `Points` is a Go `int`, so `Itoa` is modelled for negative values too.

## Model

| member | source | states |
|---|---|---|
| `ApiTasklist.GetTasklists` | api/tasklist.go:57-65 | the filter loop returns `Active(response)`; no returned tasklist is deleted; a tasklist is returned iff it is in the response and not deleted; the result is a subsequence of the response |
| `ApiTasklist.ActiveNeverDeleted` | api/tasklist.go:59-63 | no element of the filtered list has `isDeleted` set |
| `ApiTasklist.ActiveMembership` | api/tasklist.go:59-63 | `t` is in the output iff `t` is in the input and not deleted; kept values are the input's values, field for field |
| `ApiTasklist.ActiveCounts` | api/tasklist.go:57-65 | each non-deleted value occurs in the output exactly as often as in the input, and each deleted value never does, so the output length is the number of non-deleted inputs |
| `ApiTasklist.ActiveIsSubsequence` | api/tasklist.go:59-63 | the output is a subsequence of the input, so server order is preserved |
| `ApiTasklist.ActiveLength` | api/tasklist.go:57-65 | the output is no longer than the input; it is exactly as long iff nothing is deleted; it is empty when every tasklist is deleted |
| `ApiTasklist.ActiveIdempotent` | api/tasklist.go:59-63 | filtering the filtered list changes nothing |
| `ApiTasklist.ActiveOfUndeleted` | api/tasklist.go:59-63 | a list with no deleted tasklist passes through unchanged |
| `ApiTask.GetTasks` | api/task.go:86-105 | after the barrier the drain loop returns one task per response, in arrival order: as many tasks as the tasklist has ids, and a permutation of the tasks fetched in id order |
| `ApiTask.CollectedTasksArePermutation` | api/task.go:88-104 | whatever the arrival order, the collected tasks are a permutation of `fetch(id).task` over the ids and have the same count |
| `ApiTask.FetchedMembership` | api/task.go:99-102 | every id's fetched task is in the result, including tasks whose own `isDeleted` flag is set, and every result task is some id's fetched task |
| `ApiTask.NoIdsNoTasks` | api/task.go:88-104 | a tasklist with no task ids yields no tasks |
| `ApiTask.PairWithTasklist` | api/task.go:74-81 | the output has one pair per task; pair `i` holds `tasks[i]`, and every pair holds the same tasklist |
| `ApiTask.GetTasksWithTasklist` | api/task.go:68-84 | exactly one slice is appended to the channel and earlier sends are untouched; the slice has one pair per task id, with pair `i` holding the i-th received task and the tasklist, and its tasks are a permutation of the fetched ones |
| `ApiTask.Channel.Send` | api/task.go:83 | a send appends exactly one value to what the channel has received |
| `ApiUtils.GetTaskAssignees` | api/utils.go:7-24 | the two loops compute the comma-join of the looked-up first names of the assignee members, in member order; when no member is an assignee the result is `""` |
| `ApiUtils.FirstNamesKeys` | api/utils.go:9-13 | the id → first-name map has exactly the users' ids as keys |
| `ApiUtils.LastUserWins` | api/utils.go:11-13 | when several users share an id, the first name of the last of them is looked up |
| `ApiUtils.UnknownIdIsEmpty` | api/utils.go:17 | an id that no user has looks up as `""`, Go's zero value for a missing map key |
| `ApiUtils.AssigneeNamesConcat` | api/utils.go:15-20 | the names for `a + b` are the names for `a` followed by the names for `b`: each member contributes in its own position, with no deduplication |
| `ApiUtils.OneMember` | api/utils.go:16-19 | a single member contributes its looked-up name if it is an assignee and nothing otherwise |
| `ApiUtils.NoAssigneesNoNames` | api/utils.go:15-22 | with no assignee member there are no names and the joined result is `""` |
| `ApiUtils.NonAssigneeIgnored` | api/utils.go:16 | inserting a non-assignee member anywhere leaves the names unchanged |
| `ApiUtils.DistinctLookup` | api/utils.go:11-13 | with distinct user ids, every user's first name is found under its id |
| `ApiUtils.PairDistinct` | api/utils.go:11-13 | two users that occur as two separate entries of a list with distinct ids have different ids |
| `ApiUtils.DistinctIdsPermutation` | api/utils.go:11-13 | any reordering of users with distinct ids still has distinct ids |
| `ApiUtils.UserOrderIrrelevant` | api/utils.go:11-13 | for users with distinct ids, any reordering of `users` gives the same result |
| `ApiUtils.UnknownAssigneeExample` | api/utils.go:15-22 | assignees `[u1, unknown]` with user u1 = Ann give `"Ann,"`: the unknown id yields an empty entry rather than being skipped |
| `ApiUtils.RepeatedAssigneeExample` | api/utils.go:15-22 | the same assignee listed twice appears twice: `"Ann,Ann"` |
| `Text.Join` | api/utils.go:22 | `strings.Join`: no elements join to `""`, one element joins to itself, and a joined result starts with the first element |
| `Text.Itoa` | cmd/report.go:49 | `strconv.Itoa`: a non-empty string that starts with `-` iff `n < 0` (that the rest is decimal digits is `Text.ItoaShape`) |
| `Text.SplitJoin` | api/utils.go:22 | splitting a `strings.Join` result on the separator recovers the names, when none of them contains the separator |
| `Text.JoinConcat` | api/utils.go:22 | joining `a + b` puts exactly one separator between the joins of `a` and `b` |
| `Text.ItoaShape` | cmd/report.go:49 | `Itoa(n)` starts with `-` iff `n < 0`; the rest is decimal digits with no leading zero unless the string is `"0"` |
| `Text.ParseItoa` | cmd/report.go:49 | parsing `Itoa(n)` gives back `n` for every integer, negatives included |
| `Report.GetTasklists` | cmd/report.go:100-109 | `getTasklists` keeps exactly the non-deleted tasklists, none of them deleted, in server order |
| `Report.GetTasks` | cmd/report.go:159-182 | `getTasks` returns one task per received response, in arrival order and unfiltered: a permutation of the fetched tasks, one per id |
| `Report.Run` | cmd/report.go:40-52 | the table is `Rows` of the active tasklists and their received tasks; it has one row per task id over the active tasklists and three cells per row; it is a permutation of the table built from the tasks in id order |
| `Report.BuildTable` | cmd/report.go:42-52 | the outer loop fetches each tasklist's tasks and appends its block, in tasklist order |
| `Report.AppendTaskRows` | cmd/report.go:48-51 | the inner loop appends one `[tasklist title, task title, Itoa(points)]` row per task, in task order |
| `Report.BlockStep` | cmd/report.go:48-51 | one more task appends exactly its row to the tasklist's block |
| `Report.RowsStep` | cmd/report.go:45-52 | one more tasklist appends exactly its block to the table |
| `Report.TableFacts` | cmd/report.go:45-52 | the finished table has one row per task id, three cells per row, and is a permutation of the id-order table |
| `Report.RowCount` | cmd/report.go:45-52 | the row count is the sum over tasklists of the tasks received for each |
| `Report.ReceivedCount` | cmd/report.go:159-175 | each tasklist contributes as many tasks as it has task ids |
| `Report.RowsHaveThreeCells` | cmd/report.go:49 | every row has exactly three cells |
| `Report.RowAt` | cmd/report.go:45-52 | row `Offset(g) + j` is the row of task `j` of tasklist `g`: its title, the task's title, and a cell that parses back to the task's points |
| `Report.OffsetStep` | cmd/report.go:45-52 | the rows of tasklist `g` end where those of `g + 1` begin |
| `Report.OffsetsGrow` | cmd/report.go:45-52 | group offsets never decrease along the tasklists |
| `Report.GroupsInOrder` | cmd/report.go:45-52 | every row of an earlier tasklist precedes every row of a later one |
| `Report.ReceivedMatchesIdOrder` | cmd/report.go:159-175 | for every tasklist, the received tasks are a permutation of its tasks fetched in id order |
| `Report.RowsPermutation` | cmd/report.go:45-52 | reordering the tasks within each tasklist only reorders the table: the same rows, the same number of times |
| `Report.FetchOrderIrrelevant` | cmd/report.go:40-52 | two runs on the same snapshot, with any two arrival orders, produce the same rows as a multiset |
| `Report.ArchiveDropped` | cmd/report.go:100-109 | a response `[Sprint1, Archive (deleted), Sprint2]` filters to `[Sprint1, Sprint2]` |
| `Report.ArchiveScenario` | cmd/report.go:40-52 | for that response the table built from the tasks in id order is exactly the Sprint1 rows T1 and T2, then the Sprint2 row T3; T2 keeps its row although the task itself is marked deleted |
| `Report.ScenarioBlocks` | cmd/report.go:48-51 | the blocks of the two active tasklists in the scenario, cell by cell |
| `Report.ScenarioRows` | cmd/report.go:45-52 | the id-order table of `[Sprint1, Sprint2]` is the three rows T1, T2, T3, in that order |
| `Report.RowsOfTwo` | cmd/report.go:45-52 | the table of two tasklists is the first one's block followed by the second one's |
| `Report.ArchiveAnyArrival` | cmd/report.go:40-52 | for that response and any drain order the barrier allows, the table holds exactly those three rows, once each |

## Left out

- HTTP requests, JSON encoding and decoding, and response bodies (api/task.go:36-61, api/tasklist.go:32-55, api/workspace.go:24-58, cmd/report.go:81-98, 134-157). These are network and foreign-library calls. The model starts from the decoded response: `response` for `/tasklist.get-all` and `fetch` for `/task.get`.
- Goroutines, `sync.WaitGroup` and the closing of the task channel (api/task.go:87-97, cmd/report.go:160-170). What the barrier guarantees is the requires `DrainedAfterBarrier`: one response per id, in an unknown order.
- `GetTasklistsCon` (api/tasklist.go:26-30) is a goroutine wrapper that sends `GetTasklists()` into a channel. It adds nothing beyond `ApiTask.Channel.Send`.
- `log.Fatal` on transport or decode errors exits the process. The model assumes every request delivers a decoded response. The `ok` flag of a response is carried but never checked, as in the source.
- `cmd/report.go:93` does not check the error returned by `http.Post` before reading `resp.Body`. This is part of the network layer and is not modelled.
- `resp.Body.Close`. `api/task.go:53` defers it. The command package's `getTasklists` (cmd/report.go:93-96) and `getTask` (cmd/report.go:146-152) never close the body. Resource release is part of the network layer and is not modelled.
- The field names of the task record. The command package calls the task id field `TaskId` (cmd/report.go:118), and the api package calls it `ID` (api/task.go:20). The model has one `Task` record with field `id`. Nothing in the modelled code reads the id, so the name makes no difference.
- `fmt.Printf` / `fmt.Println` debug output, including the extra print loop over the collected tasks (cmd/report.go:39, 105, 177-179; api/task.go:72).
- viper configuration, cobra command wiring and `tablewriter` rendering (cmd/report.go:34-37, 54-65). `Run` returns the `tableData` rows that would be handed to the renderer. The constant header row is not modelled.
- `Points`, `Status` and other integers are unbounded `int`, whereas Go's `int` is 64 bits. No arithmetic is done on them: `strconv.Itoa` renders any 64-bit value exactly, so the width never matters. `Text.ParseInt` stands for `strconv.Atoi` without its 64-bit range check.
- `Text.Split` models `strings.Split` only for a one-character separator, which is all the round trip needs.
