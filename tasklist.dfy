/** api/tasklist.go: the tasklist record and the soft-delete filter that
    `GetTasklists` applies to the server's answer. */
module ApiTasklist {

  /** A tasklist: its identifiers, title, soft-delete flag and the ids of the
      tasks it owns, in server order. */
  datatype Tasklist = Tasklist(
    id: string,
    spaceId: string,
    projectId: string,
    title: string,
    isDeleted: bool,
    tasks: seq<string>)

  /** The tasklists that are not soft-deleted, in their original order. */
  function Active(s: seq<Tasklist>): seq<Tasklist>
  {
    if s == [] then []
    else Active(s[..|s| - 1]) + (if s[|s| - 1].isDeleted then [] else [s[|s| - 1]])
  }

  /** `a` can be obtained from `b` by deleting elements. */
  predicate IsSubsequence<T(==)>(a: seq<T>, b: seq<T>)
  {
    if a == [] then true
    else if b == [] then false
    else
      || (a[|a| - 1] == b[|b| - 1] && IsSubsequence(a[..|a| - 1], b[..|b| - 1]))
      || IsSubsequence(a, b[..|b| - 1])
  }

  /** `GetTasklists` once the response is decoded: keeps the tasklists whose
      `isDeleted` flag is false. */
  method GetTasklists(response: seq<Tasklist>) returns (active: seq<Tasklist>)
    ensures active == Active(response)
    ensures forall i :: 0 <= i < |active| ==> !active[i].isDeleted
    ensures forall t :: t in active <==> t in response && !t.isDeleted
    ensures IsSubsequence(active, response)
  {
    active := [];
    var i := 0;
    while i < |response|
      invariant 0 <= i <= |response|
      invariant active == Active(response[..i])
    {
      assert response[..i + 1][..i] == response[..i];
      if !response[i].isDeleted {
        active := active + [response[i]];
      }
      i := i + 1;
    }
    assert response[..i] == response;
    ActiveNeverDeleted(response);
    ActiveMembership(response);
    ActiveIsSubsequence(response);
  }

  /** No kept tasklist is soft-deleted. */
  lemma {:induction false} ActiveNeverDeleted(s: seq<Tasklist>)
    ensures forall i :: 0 <= i < |Active(s)| ==> !Active(s)[i].isDeleted
  {
    if s != [] {
      ActiveNeverDeleted(s[..|s| - 1]);
    }
  }

  /** A tasklist is kept if and only if it is in the input and not deleted;
      kept tasklists are the input's values, field for field. */
  lemma {:induction false} ActiveMembership(s: seq<Tasklist>)
    ensures forall t :: t in Active(s) <==> t in s && !t.isDeleted
  {
    if s != [] {
      var n := |s| - 1;
      ActiveMembership(s[..n]);
      assert s == s[..n] + [s[n]];
    }
  }

  /** Exactly the non-deleted copies survive: each non-deleted value occurs as
      often as in the input, each deleted value not at all. */
  lemma {:induction false} ActiveCounts(s: seq<Tasklist>, t: Tasklist)
    ensures multiset(Active(s))[t] == if t.isDeleted then 0 else multiset(s)[t]
  {
    if s != [] {
      var n := |s| - 1;
      ActiveCounts(s[..n], t);
      assert s == s[..n] + [s[n]];
    }
  }

  /** The kept tasklists appear in server order: the output is a subsequence
      of the input. */
  lemma {:induction false} ActiveIsSubsequence(s: seq<Tasklist>)
    ensures IsSubsequence(Active(s), s)
  {
    if s != [] {
      var n := |s| - 1;
      ActiveIsSubsequence(s[..n]);
      if s[n].isDeleted {
        assert Active(s) == Active(s[..n]);
        SubsequenceOfPrefix(Active(s), s);
      } else {
        assert Active(s)[..|Active(s)| - 1] == Active(s[..n]);
      }
    }
  }

  /** A subsequence of `b` minus its last element is a subsequence of `b`. */
  lemma {:induction false} SubsequenceOfPrefix<T>(a: seq<T>, b: seq<T>)
    requires b != [] && IsSubsequence(a, b[..|b| - 1])
    ensures IsSubsequence(a, b)
  {
  }

  /** The length of the output: at most the input's, equal to it exactly when
      nothing is deleted, and zero when everything is. */
  lemma {:induction false} ActiveLength(s: seq<Tasklist>)
    ensures |Active(s)| <= |s|
    ensures |Active(s)| == |s| <==> forall i :: 0 <= i < |s| ==> !s[i].isDeleted
    ensures (forall i :: 0 <= i < |s| ==> s[i].isDeleted) ==> Active(s) == []
  {
    if s != [] {
      var n := |s| - 1;
      ActiveLength(s[..n]);
    }
  }

  /** Filtering twice is filtering once. */
  lemma {:induction false} ActiveIdempotent(s: seq<Tasklist>)
    ensures Active(Active(s)) == Active(s)
  {
    ActiveNeverDeleted(s);
    ActiveOfUndeleted(Active(s));
  }

  /** A list without deleted tasklists passes the filter unchanged. */
  lemma {:induction false} ActiveOfUndeleted(s: seq<Tasklist>)
    requires forall i :: 0 <= i < |s| ==> !s[i].isDeleted
    ensures Active(s) == s
  {
    if s != [] {
      var n := |s| - 1;
      ActiveOfUndeleted(s[..n]);
    }
  }
}
