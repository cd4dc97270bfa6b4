/** Picking items of a list in their order. */
module Selections {

  /** The places below `n` that are wanted. */
  function Places(n: nat, wanted: nat -> bool): (r: seq<nat>)
    ensures forall k | 0 <= k < |r| :: r[k] < n
  {
    if n == 0 then [] else Places(n - 1, wanted) + (if wanted(n - 1) then [n - 1] else [])
  }

  /** They are all of them, in order. */
  lemma {:induction false} PlacesExact(n: nat, wanted: nat -> bool)
    ensures forall i: nat :: i in Places(n, wanted) <==> i < n && wanted(i)
    ensures forall a, c | 0 <= a < c < |Places(n, wanted)| :: Places(n, wanted)[a] < Places(n, wanted)[c]
  {
    if n > 0 { PlacesExact(n - 1, wanted); }
  }

  function Picked<T>(items: seq<T>, places: seq<nat>): (r: seq<T>)
    requires forall k | 0 <= k < |places| :: places[k] < |items|
    ensures |r| == |places| && forall k | 0 <= k < |r| :: r[k] == items[places[k]]
  {
    seq(|places|, k requires 0 <= k < |places| => items[places[k]])
  }

  lemma PickedPush<T>(items: seq<T>, n: nat, wanted: nat -> bool)
    requires n < |items|
    ensures Picked(items, Places(n + 1, wanted)) ==
            Picked(items, Places(n, wanted)) + (if wanted(n) then [items[n]] else [])
  {
    assert Places(n + 1, wanted) == Places(n, wanted) + (if wanted(n) then [n] else []);
  }
}
