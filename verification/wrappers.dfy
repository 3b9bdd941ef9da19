/** Optional values, standing in for TypeScript's `T | undefined`.

    A documentation record field that is `None` is omitted from the
    output; `Or` models the nullish-coalescing operator `a ?? b`, and
    `FirstSome` is the reference meaning of a whole `??` chain.
 */
module Wrappers {

  datatype Option<+T> = None | Some(value: T) {

    /** The value, or `default` when absent. */
    function GetOr(default: T): T {
      match this
      case Some(v) => v
      case None => default
    }

    /** `this ?? other`: keeps a present value, otherwise falls back. */
    function Or(other: Option<T>): Option<T> {
      match this
      case Some(_) => this
      case None => other
    }
  }

  /** The first present value of a fallback chain, or `None` when every
      candidate is absent. */
  function FirstSome<T>(candidates: seq<Option<T>>): (r: Option<T>)
    ensures r.None? <==> forall i :: 0 <= i < |candidates| ==> candidates[i].None?
    ensures r.Some? ==> exists i :: 0 <= i < |candidates| && candidates[i] == r
                          && forall j :: 0 <= j < i ==> candidates[j].None?
  {
    if |candidates| == 0 then None
    else if candidates[0].Some? then candidates[0]
    else
      var rest := FirstSome(candidates[1..]);
      assert forall i :: 1 <= i < |candidates| ==> candidates[i] == candidates[1..][i - 1];
      rest
  }

  /** A `??` chain evaluated left to right picks the first present value. */
  lemma {:induction false} OrChainIsFirstSome<T>(a: Option<T>, b: Option<T>, c: Option<T>, d: Option<T>)
    ensures a.Or(b).Or(c).Or(d) == FirstSome([a, b, c, d])
  {
    var cs := [a, b, c, d];
    assert cs[1..] == [b, c, d];
    assert cs[1..][1..] == [c, d];
    assert cs[1..][1..][1..] == [d];
    assert cs[1..][1..][1..][1..] == [];
    if a.None? {
      assert FirstSome(cs) == FirstSome([b, c, d]);
      if b.None? {
        assert FirstSome([b, c, d]) == FirstSome([c, d]);
        if c.None? {
          assert FirstSome([c, d]) == FirstSome([d]);
        }
      }
    }
  }
}
