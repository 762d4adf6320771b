/** api/utils.go: `GetTaskAssignees`, which resolves the assignee members of
    a task to first names and joins them with commas. */
module ApiUtils {
  import opened Text
  import opened ApiWorkspace
  import opened ApiTask

  /** The id -> first-name map built from `users`; when several users share
      an id, the one that comes last wins. */
  function FirstNames(users: seq<User>): map<string, string>
  {
    if users == [] then map[]
    else FirstNames(users[..|users| - 1])[users[|users| - 1].id := users[|users| - 1].firstName]
  }

  /** Indexing a Go map: a missing key reads as the zero value "". */
  function Lookup(m: map<string, string>, id: string): string
  {
    if id in m then m[id] else ""
  }

  /** The looked-up names of the assignee members, in member order. */
  function AssigneeNamesIn(members: seq<TaskMember>, m: map<string, string>): seq<string>
  {
    if members == [] then []
    else
      var last := members[|members| - 1];
      AssigneeNamesIn(members[..|members| - 1], m) + (if last.isAssignee then [Lookup(m, last.id)] else [])
  }

  function AssigneeNames(members: seq<TaskMember>, users: seq<User>): seq<string>
  {
    AssigneeNamesIn(members, FirstNames(users))
  }

  /** What `GetTaskAssignees(task, users)` returns. */
  function Assignees(task: Task, users: seq<User>): string
  {
    Join(AssigneeNames(task.members, users), ",")
  }

  /** `GetTaskAssignees`: fills the id -> first-name map, collects the names
      of the assignee members and joins them with ",". */
  method GetTaskAssignees(task: Task, users: seq<User>) returns (assignees: string)
    ensures assignees == Assignees(task, users)
    ensures (forall k :: 0 <= k < |task.members| ==> !task.members[k].isAssignee) ==> assignees == ""
  {
    var taskAssignees: seq<string> := [];
    var userIdMapFirstName: map<string, string> := map[];
    var i := 0;
    while i < |users|
      invariant 0 <= i <= |users|
      invariant userIdMapFirstName == FirstNames(users[..i])
    {
      assert users[..i + 1][..i] == users[..i];
      userIdMapFirstName := userIdMapFirstName[users[i].id := users[i].firstName];
      i := i + 1;
    }
    assert users[..i] == users;
    var j := 0;
    while j < |task.members|
      invariant 0 <= j <= |task.members|
      invariant taskAssignees == AssigneeNamesIn(task.members[..j], userIdMapFirstName)
    {
      assert task.members[..j + 1][..j] == task.members[..j];
      var member := task.members[j];
      if member.isAssignee {
        var assignee := if member.id in userIdMapFirstName then userIdMapFirstName[member.id] else "";
        taskAssignees := taskAssignees + [assignee];
      }
      j := j + 1;
    }
    assert task.members[..j] == task.members;
    assignees := Join(taskAssignees, ",");
    if forall k :: 0 <= k < |task.members| ==> !task.members[k].isAssignee {
      NoAssigneesNoNames(task.members, users);
    }
  }

  /** The map's keys are exactly the users' ids. */
  lemma {:induction false} FirstNamesKeys(users: seq<User>)
    ensures forall id :: id in FirstNames(users) <==> exists k :: 0 <= k < |users| && users[k].id == id
  {
    if users != [] {
      var n := |users| - 1;
      FirstNamesKeys(users[..n]);
      forall id | id in FirstNames(users) ensures exists k :: 0 <= k < |users| && users[k].id == id {
        if id != users[n].id {
          assert id in FirstNames(users[..n]);
          var k :| 0 <= k < n && users[..n][k].id == id;
          assert users[k].id == id;
        }
      }
      forall id | exists k :: 0 <= k < |users| && users[k].id == id ensures id in FirstNames(users) {
        var k :| 0 <= k < |users| && users[k].id == id;
        if k < n {
          assert users[..n][k].id == id;
        }
      }
    }
  }

  /** For an id shared by several users, the first name of the last of them
      is the one looked up. */
  lemma {:induction false} LastUserWins(users: seq<User>, k: nat)
    requires k < |users|
    requires forall j :: k < j < |users| ==> users[j].id != users[k].id
    ensures Lookup(FirstNames(users), users[k].id) == users[k].firstName
  {
    var n := |users| - 1;
    if k < n {
      forall j | k < j < n ensures users[..n][j].id != users[..n][k].id {
        assert users[j].id != users[k].id;
      }
      LastUserWins(users[..n], k);
    }
  }

  /** An id that no user has looks up as "". */
  lemma UnknownIdIsEmpty(users: seq<User>, id: string)
    requires forall k :: 0 <= k < |users| ==> users[k].id != id
    ensures Lookup(FirstNames(users), id) == ""
  {
    FirstNamesKeys(users);
  }

  /** The names of a concatenation of member lists are the names of the first
      list followed by those of the second: every member contributes in its
      own position, and nothing is deduplicated. */
  lemma {:induction false} AssigneeNamesConcat(a: seq<TaskMember>, b: seq<TaskMember>, m: map<string, string>)
    ensures AssigneeNamesIn(a + b, m) == AssigneeNamesIn(a, m) + AssigneeNamesIn(b, m)
  {
    if b == [] {
      assert a + b == a;
    } else {
      var n := |b| - 1;
      assert (a + b)[..|a + b| - 1] == a + b[..n];
      assert (a + b)[|a + b| - 1] == b[n];
      AssigneeNamesConcat(a, b[..n], m);
    }
  }

  /** One member contributes its looked-up name if it is an assignee and
      nothing otherwise. */
  lemma OneMember(member: TaskMember, m: map<string, string>)
    ensures AssigneeNamesIn([member], m) == if member.isAssignee then [Lookup(m, member.id)] else []
  {
    assert [member][..0] == [];
  }

  /** Members that are not assignees contribute nothing. */
  lemma {:induction false} NoAssigneesNoNames(members: seq<TaskMember>, users: seq<User>)
    requires forall k :: 0 <= k < |members| ==> !members[k].isAssignee
    ensures AssigneeNames(members, users) == []
    ensures Join(AssigneeNames(members, users), ",") == ""
  {
    if members != [] {
      NoAssigneesNoNames(members[..|members| - 1], users);
    }
  }

  /** Removing a non-assignee member anywhere in the list changes nothing. */
  lemma NonAssigneeIgnored(a: seq<TaskMember>, member: TaskMember, b: seq<TaskMember>, users: seq<User>)
    requires !member.isAssignee
    ensures AssigneeNames(a + [member] + b, users) == AssigneeNames(a + b, users)
  {
    var m := FirstNames(users);
    AssigneeNamesConcat(a + [member], b, m);
    AssigneeNamesConcat(a, [member], m);
    AssigneeNamesConcat(a, b, m);
    OneMember(member, m);
  }

  /** The ids of `users` are pairwise distinct. */
  predicate DistinctIds(users: seq<User>)
  {
    forall i, j :: 0 <= i < j < |users| ==> users[i].id != users[j].id
  }

  /** With distinct ids every user's first name is found under its id. */
  lemma DistinctLookup(users: seq<User>, u: User)
    requires DistinctIds(users) && u in users
    ensures u.id in FirstNames(users) && FirstNames(users)[u.id] == u.firstName
  {
    var k :| 0 <= k < |users| && users[k] == u;
    LastUserWins(users, k);
    FirstNamesKeys(users);
  }

  /** Two copies drawn from a list with distinct ids have different ids. */
  lemma {:induction false} PairDistinct(users: seq<User>, x: User, y: User)
    requires DistinctIds(users)
    requires multiset{x, y} <= multiset(users)
    ensures x.id != y.id
  {
    assert x in multiset(users);
    var n := |users| - 1;
    var p, l := users[..n], users[n];
    assert users == p + [l];
    if l != x && l != y {
      assert multiset{x, y} <= multiset(p);
      PairDistinct(p, x, y);
    } else if l == x {
      assert y in multiset(p);
      var k :| 0 <= k < n && p[k] == y;
      assert users[k].id != users[n].id;
    } else {
      assert x in multiset(p);
      var k :| 0 <= k < n && p[k] == x;
      assert users[k].id != users[n].id;
    }
  }

  /** Reordering users keeps their ids distinct. */
  lemma DistinctIdsPermutation(users1: seq<User>, users2: seq<User>)
    requires DistinctIds(users1)
    requires multiset(users1) == multiset(users2)
    ensures DistinctIds(users2)
  {
    forall i, j | 0 <= i < j < |users2| ensures users2[i].id != users2[j].id {
      var x, y := users2[i], users2[j];
      assert users2 == users2[..i] + [x] + users2[i + 1..j] + [y] + users2[j + 1..];
      assert multiset{x, y} <= multiset(users2);
      PairDistinct(users1, x, y);
    }
  }

  /** For users with distinct ids, the order of `users` does not matter. */
  lemma UserOrderIrrelevant(task: Task, users1: seq<User>, users2: seq<User>)
    requires DistinctIds(users1)
    requires multiset(users1) == multiset(users2)
    ensures Assignees(task, users1) == Assignees(task, users2)
  {
    DistinctIdsPermutation(users1, users2);
    var m1, m2 := FirstNames(users1), FirstNames(users2);
    FirstNamesKeys(users1);
    FirstNamesKeys(users2);
    forall id | id in m1 ensures id in m2 && m1[id] == m2[id] {
      var k :| 0 <= k < |users1| && users1[k].id == id;
      var u := users1[k];
      assert u in multiset(users2);
      DistinctLookup(users1, u);
      DistinctLookup(users2, u);
    }
    forall id | id in m2 ensures id in m1 {
      var k :| 0 <= k < |users2| && users2[k].id == id;
      var u := users2[k];
      assert u in multiset(users1);
      var k1 :| 0 <= k1 < |users1| && users1[k1] == u;
    }
    assert m1 == m2;
  }

  /** Two assignees, one of them unknown: the unknown one gives an empty entry
      rather than being skipped, so the result is "Ann,". */
  lemma UnknownAssigneeExample()
    ensures Assignees(
      Task("t1", "u1", "s", "T1", [TaskMember("u1", true), TaskMember("nobody", true)], [], 1, 0, false),
      [User("u1", "ann@example.com", "Ann", "A")]) == "Ann,"
  {
    var members := [TaskMember("u1", true), TaskMember("nobody", true)];
    var users := [User("u1", "ann@example.com", "Ann", "A")];
    assert users[..0] == [];
    assert members[..1] == [TaskMember("u1", true)];
    assert [TaskMember("u1", true)][..0] == [];
  }

  /** The same assignee listed twice is named twice. */
  lemma RepeatedAssigneeExample()
    ensures Assignees(
      Task("t1", "u1", "s", "T1", [TaskMember("u1", true), TaskMember("u1", true)], [], 1, 0, false),
      [User("u1", "ann@example.com", "Ann", "A")]) == "Ann,Ann"
  {
    var members := [TaskMember("u1", true), TaskMember("u1", true)];
    var users := [User("u1", "ann@example.com", "Ann", "A")];
    assert users[..0] == [];
    assert members[..1] == [TaskMember("u1", true)];
    assert [TaskMember("u1", true)][..0] == [];
  }
}
