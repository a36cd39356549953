/** Optional values, used wherever the source stores a value that may be
    missing (a dictionary key that may be absent, a nullable column). */
module Wrappers {

  datatype Option<+T> = None | Some(value: T) {

    /** The contained value, or `default` when there is none. */
    function GetOr(default: T): T {
      match this
      case Some(v) => v
      case None => default
    }
  }

  /** `f` applied to every element, or None as soon as one application is. */
  function All<A, B>(xs: seq<A>, f: A -> Option<B>): Option<seq<B>> {
    if |xs| == 0 then Some([])
    else
      var head, tail := f(xs[0]), All(xs[1..], f);
      if head.Some? && tail.Some? then Some([head.value] + tail.value) else None
  }

  /** The results are there exactly when every application succeeds, one
      result per element in order. */
  lemma {:induction false} AllSpec<A, B>(xs: seq<A>, f: A -> Option<B>)
    ensures All(xs, f).Some? <==> forall i :: 0 <= i < |xs| ==> f(xs[i]).Some?
    ensures All(xs, f).Some? ==>
              |All(xs, f).value| == |xs| && forall i :: 0 <= i < |xs| ==> f(xs[i]) == Some(All(xs, f).value[i])
  {
    if |xs| > 0 {
      var rest := xs[1..];
      AllSpec(rest, f);
      assert forall i :: 1 <= i < |xs| ==> xs[i] == rest[i - 1];
      if All(xs, f).Some? {
        var r, t := All(xs, f).value, All(rest, f).value;
        assert r == [f(xs[0]).value] + t;
        assert forall i :: 1 <= i < |xs| ==> r[i] == t[i - 1];
      }
    }
  }
}
