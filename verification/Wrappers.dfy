/** Failure-compatible values and linear searches, shared by the whole model. */
module Wrappers {
  datatype Option<+T> = None | Some(value: T) {
    function GetOr(fallback: T): (r: T) {
      if Some? then value else fallback
    }
  }

  /** `x` is the first element of `s` that a search with this test stops at. */
  ghost predicate FirstIs<T>(s: seq<T>, stop: T -> bool, x: T) {
    exists i :: 0 <= i < |s| && s[i] == x && stop(x) && forall k :: 0 <= k < i ==> !stop(s[k])
  }

  /** A search looks at the first element, and goes on with the rest unless it stops there. */
  lemma FirstOfRest<T>(s: seq<T>, stop: T -> bool, x: T)
    requires s != []
    ensures FirstIs(s, stop, x) <==> if stop(s[0]) then x == s[0] else FirstIs(s[1..], stop, x)
  {
    var rest := s[1..];
    if !stop(s[0]) && FirstIs(rest, stop, x) {
      var i :| 0 <= i < |rest| && rest[i] == x && stop(x) && forall k :: 0 <= k < i ==> !stop(rest[k]);
      assert s[i + 1] == x;
      assert forall k :: 0 < k < i + 1 ==> s[k] == rest[k - 1];
    }
    if !stop(s[0]) && FirstIs(s, stop, x) {
      var i :| 0 <= i < |s| && s[i] == x && stop(x) && forall k :: 0 <= k < i ==> !stop(s[k]);
      assert rest[i - 1] == x;
      assert forall k :: 0 <= k < i - 1 ==> rest[k] == s[k + 1];
    }
  }
}
