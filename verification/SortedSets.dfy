/** Sets of timestamps as sorted lists. */
module SortedSets {
  lemma Member<T>(ts: set<T>) returns (x: T)
    requires ts != {}
    ensures x in ts
  {
    x :| x in ts;
  }

  function Earliest(ts: set<int>): (t: int)
    requires ts != {}
    ensures t in ts && forall u :: u in ts ==> t <= u
  {
    HasEarliest(ts);
    var t :| t in ts && forall u :: u in ts ==> t <= u;
    t
  }

  lemma {:induction false} HasEarliest(ts: set<int>)
    requires ts != {}
    ensures exists t :: t in ts && forall u :: u in ts ==> t <= u
  {
    var x := Member(ts);
    var others := ts - {x};
    if others == {} {
      assert forall u :: u in ts ==> u == x || u in others;
    } else {
      HasEarliest(others);
      var y :| y in others && forall u :: u in others ==> y <= u;
      var z := if x <= y then x else y;
      assert forall u :: u in ts ==> u == x || u in others;
      assert z in ts && forall u :: u in ts ==> z <= u;
    }
  }

  function SortedKeys(ts: set<int>): (s: seq<int>)
    ensures forall i, j :: 0 <= i < j < |s| ==> s[i] < s[j]
    ensures |s| == |ts| && forall t :: t in s <==> t in ts
    decreases |ts|
  {
    if ts == {} then []
    else
      var first := Earliest(ts);
      var rest := SortedKeys(ts - {first});
      assert forall k :: 0 <= k < |rest| ==> rest[k] in ts - {first};
      [first] + rest
  }
}
