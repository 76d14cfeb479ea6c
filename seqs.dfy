/** Sequence helpers shared by the collection and emission models. */
module Seqs {

  /** The concatenation of `f(x)` for every `x` of `xs`, in order. */
  function ConcatMap<T, U>(f: T -> seq<U>, xs: seq<T>): seq<U>
  {
    if xs == [] then [] else f(xs[0]) + ConcatMap(f, xs[1..])
  }

  lemma {:induction false} ConcatMapAppend<T, U>(f: T -> seq<U>, xs: seq<T>, ys: seq<T>)
    ensures ConcatMap(f, xs + ys) == ConcatMap(f, xs) + ConcatMap(f, ys)
  {
    if xs == [] {
      assert xs + ys == ys;
    } else {
      assert (xs + ys)[1..] == xs[1..] + ys;
      ConcatMapAppend(f, xs[1..], ys);
    }
  }

  /** No element occurs twice. */
  predicate NoDup<T(==)>(xs: seq<T>)
  {
    forall i, j :: 0 <= i < j < |xs| ==> xs[i] != xs[j]
  }

  /** Taking out the element at `k` of a duplicate-free sequence removes exactly that value. */
  lemma RemoveAt<T>(ys: seq<T>, k: nat)
    requires NoDup(ys) && k < |ys|
    ensures NoDup(ys[..k] + ys[k + 1..])
    ensures forall y :: y in ys[..k] + ys[k + 1..] <==> y in ys && y != ys[k]
  {
    var rest := ys[..k] + ys[k + 1..];
    forall i | 0 <= i < |rest|
      ensures rest[i] == ys[if i < k then i else i + 1]
    {
    }
    forall y | y in ys && y != ys[k]
      ensures y in rest
    {
      var j :| 0 <= j < |ys| && ys[j] == y;
      assert rest[if j < k then j else j - 1] == y;
    }
  }

  lemma HeadIsMember<T>(ys: seq<T>)
    requires ys != []
    ensures ys[0] in ys
  {
  }

  /**
   * Two duplicate-free enumerations of the same elements yield the same multiset of
   * concatenated images, whatever order each enumerates them in.
   */
  lemma {:induction false} ConcatMapPermutation<T, U>(f: T -> seq<U>, xs: seq<T>, ys: seq<T>)
    requires NoDup(xs) && NoDup(ys)
    requires forall x :: x in xs <==> x in ys
    ensures multiset(ConcatMap(f, xs)) == multiset(ConcatMap(f, ys))
    decreases |xs|
  {
    if xs == [] {
      if ys != [] {
        HeadIsMember(ys);
        assert false;
      }
    } else {
      var x := xs[0];
      assert x in ys;
      var k :| 0 <= k < |ys| && ys[k] == x;
      var ys' := ys[..k] + ys[k + 1..];
      RemoveAt(ys, k);
      assert ys == ys[..k] + [x] + ys[k + 1..];
      ConcatMapAppend(f, ys[..k] + [x], ys[k + 1..]);
      ConcatMapAppend(f, ys[..k], [x]);
      ConcatMapAppend(f, ys[..k], ys[k + 1..]);
      assert ConcatMap(f, [x]) == f(x) by {
        assert [x][1..] == [];
      }
      forall y
        ensures y in xs[1..] <==> y in ys'
      {
        if y in xs[1..] {
          var j :| 1 <= j < |xs| && xs[j] == y;
          assert y in xs && xs[j] != xs[0];
        }
        if y in ys' && y != x {
          assert y in xs;
          var j :| 0 <= j < |xs| && xs[j] == y;
          assert xs[1..][j - 1] == y;
        }
      }
      ConcatMapPermutation(f, xs[1..], ys');
    }
  }
}
