/** Generic sequence helpers shared by the model: an element-wise map and the
    fact that mapping keeps two permuted sequences permuted. */
module Seqs {

  /** Applies `f` to every element, keeping the order. */
  function Map<A, B>(f: A -> B, s: seq<A>): (r: seq<B>)
    ensures |r| == |s|
    ensures forall i :: 0 <= i < |s| ==> r[i] == f(s[i])
  {
    if s == [] then [] else Map(f, s[..|s| - 1]) + [f(s[|s| - 1])]
  }

  /** Removing the element at `k` removes one copy of it from the multiset. */
  lemma RemoveAt<A>(b: seq<A>, k: nat)
    requires k < |b|
    ensures multiset(b) == multiset(b[..k] + b[k + 1..]) + multiset{b[k]}
  {
    assert b == b[..k] + [b[k]] + b[k + 1..];
  }

  /** Mapping after removing the element at `k` is removing its image. */
  lemma MapRemoveAt<A, B>(f: A -> B, b: seq<A>, k: nat)
    requires k < |b|
    ensures multiset(Map(f, b)) == multiset(Map(f, b[..k] + b[k + 1..])) + multiset{f(b[k])}
  {
    var mb := Map(f, b);
    var rest := b[..k] + b[k + 1..];
    var left := Map(f, rest);
    forall i | 0 <= i < |left| ensures left[i] == (mb[..k] + mb[k + 1..])[i] {
      if i < k {
        assert rest[i] == b[i];
      } else {
        assert rest[i] == b[i + 1];
      }
    }
    assert left == mb[..k] + mb[k + 1..];
    RemoveAt(mb, k);
  }

  /** If `b` is a reordering of `a`, then mapping `f` over `b` is a reordering
      of mapping `f` over `a`. */
  lemma {:induction false} MapPreservesMultiset<A, B>(f: A -> B, a: seq<A>, b: seq<A>)
    requires multiset(a) == multiset(b)
    ensures multiset(Map(f, a)) == multiset(Map(f, b))
  {
    if a == [] {
      assert |b| == |multiset(b)| == 0;
    } else {
      var n := |a| - 1;
      var x := a[n];
      assert x in multiset(b);
      var k :| 0 <= k < |b| && b[k] == x;
      var b' := b[..k] + b[k + 1..];
      RemoveAt(a, n);
      RemoveAt(b, k);
      assert a[..n] + a[n + 1..] == a[..n];
      assert multiset(a[..n]) == multiset(b') by {
        forall y ensures multiset(a[..n])[y] == multiset(b')[y] {
          assert (multiset(a[..n]) + multiset{x})[y] == (multiset(b') + multiset{x})[y];
        }
      }
      MapPreservesMultiset(f, a[..n], b');
      MapRemoveAt(f, a, n);
      MapRemoveAt(f, b, k);
    }
  }
}
