/** Order-preserving list operations: the `filter`, `map` and `find` that
    the documentation builders apply to child lists and tag lists. */
module Seqs {
  import opened Wrappers

  /** The elements of `s` satisfying `p`, in their original order. */
  function Filter<T>(p: T -> bool, s: seq<T>): (r: seq<T>)
    ensures |r| <= |s|
    ensures forall x {:trigger x in r} :: x in r ==> x in s && p(x)
    ensures forall i :: 0 <= i < |s| && p(s[i]) ==> s[i] in r
    decreases |s|
  {
    if |s| == 0 then []
    else
      var rest := Filter(p, s[1..]);
      assert forall i :: 1 <= i < |s| ==> s[i] == s[1..][i - 1];
      if p(s[0]) then [s[0]] + rest else rest
  }

  /** `f` applied to every element of `s`, in order. */
  function Map<A, B>(f: A -> B, s: seq<A>): (r: seq<B>)
    ensures |r| == |s|
    ensures forall i :: 0 <= i < |s| ==> r[i] == f(s[i])
  {
    seq(|s|, i requires 0 <= i < |s| => f(s[i]))
  }

  /** The first element of `s` satisfying `p`, like `Array.prototype.find`. */
  function FindFirst<T>(p: T -> bool, s: seq<T>): (r: Option<T>)
    ensures r.None? <==> forall i :: 0 <= i < |s| ==> !p(s[i])
    ensures r.Some? ==> exists i :: 0 <= i < |s| && s[i] == r.value && p(s[i])
                          && forall j :: 0 <= j < i ==> !p(s[j])
    decreases |s|
  {
    if |s| == 0 then None
    else if p(s[0]) then Some(s[0])
    else
      var rest := FindFirst(p, s[1..]);
      assert forall i :: 1 <= i < |s| ==> s[i] == s[1..][i - 1];
      rest
  }

  /** Filtering distributes over concatenation: kept elements of `a` come
      before kept elements of `b`, which is what "source order is preserved"
      means. */
  lemma {:induction false} FilterAppend<T>(p: T -> bool, a: seq<T>, b: seq<T>)
    ensures Filter(p, a + b) == Filter(p, a) + Filter(p, b)
    decreases |a|
  {
    if |a| == 0 {
      assert a + b == b;
    } else {
      assert (a + b)[1..] == a[1..] + b;
      FilterAppend(p, a[1..], b);
    }
  }

  /** Filtering a one-element list keeps it exactly when `p` holds. */
  lemma FilterSingle<T>(p: T -> bool, x: T)
    ensures Filter(p, [x]) == if p(x) then [x] else []
  {
    assert [x][1..] == [];
  }

  /** Filtering then mapping a one-element list gives the image of the
      element when `p` holds, and nothing otherwise. */
  lemma MapFilterSingle<A, B>(f: A -> B, p: A -> bool, x: A)
    ensures Map(f, Filter(p, [x])) == if p(x) then [f(x)] else []
  {
    FilterSingle(p, x);
  }

  /** A filter is empty exactly when no element satisfies the predicate. */
  lemma FilterEmpty<T>(p: T -> bool, s: seq<T>)
    ensures Filter(p, s) == [] <==> forall i :: 0 <= i < |s| ==> !p(s[i])
  {
    if Filter(p, s) != [] {
      var x := Filter(p, s)[0];
      assert x in Filter(p, s);
    }
  }

  /** Mapping distributes over concatenation. */
  lemma MapAppend<A, B>(f: A -> B, a: seq<A>, b: seq<A>)
    ensures Map(f, a + b) == Map(f, a) + Map(f, b)
  {
  }

  /** Three filters by pairwise exclusive predicates together keep exactly as
      many elements as one filter by their disjunction `u`: no element is
      counted twice, so the total never exceeds `|s|`. */
  lemma {:induction false} FilterPartitionCount<T>(p: T -> bool, q: T -> bool, w: T -> bool, u: T -> bool, s: seq<T>)
    requires forall x :: !(p(x) && q(x)) && !(p(x) && w(x)) && !(q(x) && w(x))
    requires forall x :: u(x) <==> p(x) || q(x) || w(x)
    ensures |Filter(p, s)| + |Filter(q, s)| + |Filter(w, s)| == |Filter(u, s)| <= |s|
    decreases |s|
  {
    if |s| != 0 {
      FilterPartitionCount(p, q, w, u, s[1..]);
    }
  }
}
