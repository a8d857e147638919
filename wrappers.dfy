/** Optional values: Python's `None` or a value. */
module Wrappers {

  datatype Option<+T> = None | Some(value: T) {

    /** The value, or `default` when there is none (Python's `x if x is not None else d`). */
    function GetOr(default: T): T {
      match this
      case Some(v) => v
      case None => default
    }
  }

  /** The first value present in `xs`, if any. */
  function FirstSome<T>(xs: seq<Option<T>>): (r: Option<T>)
    ensures r.None? <==> forall k :: 0 <= k < |xs| ==> xs[k].None?
    ensures r.Some? ==> exists k :: 0 <= k < |xs| && xs[k] == r && forall j :: 0 <= j < k ==> xs[j].None?
  {
    if xs == [] then None
    else if xs[0].Some? then xs[0]
    else
      var r := FirstSome(xs[1..]);
      assert r.Some? ==> exists k :: 1 <= k < |xs| && xs[k] == r && forall j :: 1 <= j < k ==> xs[j].None? by {
        if r.Some? {
          var k :| 0 <= k < |xs[1..]| && xs[1..][k] == r && forall j :: 0 <= j < k ==> xs[1..][j].None?;
          assert forall j :: 1 <= j < k + 1 ==> xs[j] == xs[1..][j - 1];
        }
      }
      r
  }

  /** The first value is the head's, or else the first of the rest. */
  lemma FirstSomeStep<T>(xs: seq<Option<T>>)
    requires xs != []
    ensures FirstSome(xs) == if xs[0].Some? then xs[0] else FirstSome(xs[1..])
  {
  }
}
