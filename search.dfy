/**
 * The linear "first acceptable entry of a preference list" search the
 * library writes out for present modes, surface formats and depth formats.
 */
module Search {
  import opened Outcomes

  /** `x` is the earliest entry of `preferences` that `accept` admits. */
  ghost predicate IsFirstAccepted<T>(preferences: seq<T>, accept: T -> bool, x: T) {
    exists i :: 0 <= i < |preferences| && preferences[i] == x && accept(x)
      && forall j :: 0 <= j < i ==> !accept(preferences[j])
  }

  /** The position of the first accepted entry at or after `from`. */
  function FirstAcceptedFrom<T>(preferences: seq<T>, accept: T -> bool, from: nat): (r: Option<nat>)
    requires from <= |preferences|
    ensures r.Some? ==> from <= r.value < |preferences| && accept(preferences[r.value])
    ensures r.Some? ==> forall j :: from <= j < r.value ==> !accept(preferences[j])
    ensures r.None? ==> forall j :: from <= j < |preferences| ==> !accept(preferences[j])
    decreases |preferences| - from
  {
    if from == |preferences| then None
    else if accept(preferences[from]) then Some(from)
    else FirstAcceptedFrom(preferences, accept, from + 1)
  }

  /** The range-for with an early `return`: the first accepted preference, or none. */
  function FirstAccepted<T>(preferences: seq<T>, accept: T -> bool): (r: Option<T>)
    ensures r.Some? ==> IsFirstAccepted(preferences, accept, r.value)
    ensures r.None? <==> forall x :: x in preferences ==> !accept(x)
  {
    match FirstAcceptedFrom(preferences, accept, 0)
    case None => None
    case Some(i) => Some(preferences[i])
  }

  /** The first accepted entry is unique: no other entry is both accepted and first. */
  lemma {:induction false} FirstAcceptedUnique<T>(preferences: seq<T>, accept: T -> bool, x: T, y: T)
    requires IsFirstAccepted(preferences, accept, x) && IsFirstAccepted(preferences, accept, y)
    ensures x == y
  {
    var i :| 0 <= i < |preferences| && preferences[i] == x && accept(x) && forall j :: 0 <= j < i ==> !accept(preferences[j]);
    var k :| 0 <= k < |preferences| && preferences[k] == y && accept(y) && forall j :: 0 <= j < k ==> !accept(preferences[j]);
    assert i <= k && k <= i;
  }

  /** Only what the filter says about the preferences matters. */
  lemma FirstAcceptedSameFilter<T>(preferences: seq<T>, a: T -> bool, b: T -> bool, x: T)
    requires forall y :: y in preferences ==> a(y) == b(y)
    requires IsFirstAccepted(preferences, a, x)
    ensures IsFirstAccepted(preferences, b, x)
  {
    var i :| 0 <= i < |preferences| && preferences[i] == x && a(x) && forall j :: 0 <= j < i ==> !a(preferences[j]);
    assert forall j :: 0 <= j < i ==> !b(preferences[j]);
  }
}
