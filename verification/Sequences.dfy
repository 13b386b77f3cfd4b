/** Places in a list. */
module Sequences {
  /** Places in a list of `n`, one after another. */
  predicate Rising(from: seq<nat>, n: nat) {
    && (forall k :: 0 <= k < |from| ==> from[k] < n)
    && forall k, l :: 0 <= k < l < |from| ==> from[k] < from[l]
  }

  /** The places where nothing has gone. */
  function StayPlaces<T>(list: seq<T>, gone: T -> bool): (from: seq<nat>) {
    if list == [] then []
    else StayPlaces(list[..|list| - 1], gone) + if gone(list[|list| - 1]) then [] else [|list| - 1]
  }

  lemma {:induction false} PlacesRise<T>(list: seq<T>, gone: T -> bool)
    ensures Rising(StayPlaces(list, gone), |list|)
    decreases |list|
  {
    if list != [] { PlacesRise(list[..|list| - 1], gone); }
  }

  lemma {:induction false} PlacesAre<T>(list: seq<T>, gone: T -> bool, i: nat)
    requires i < |list|
    ensures i in StayPlaces(list, gone) <==> !gone(list[i])
    decreases |list|
  {
    var n := |list| - 1;
    var less := StayPlaces(list[..n], gone);
    PlacesRise(list[..n], gone);
    if i < n {
      PlacesAre(list[..n], gone, i);
    } else {
      assert i !in less by { assert forall k :: 0 <= k < |less| ==> less[k] < n; }
    }
  }
}
