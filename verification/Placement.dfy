/**
 * Handing out places one after the other: each comer picks a place that none
 * before it holds.
 */
module Placement {
  import opened Sequences

  /** The comers' places, each picked from what is taken by then */
  function Places<C, P>(comers: seq<C>, pick: (C, set<P>) -> P): (places: seq<P>)
    ensures |places| == |comers|
  {
    if comers == [] then []
    else
      var n := |comers| - 1;
      var before := Places(comers[..n], pick);
      before + [pick(comers[n], Elements(before))]
  }

  lemma {:induction false} PlacesOfPrefix<C, P>(comers: seq<C>, pick: (C, set<P>) -> P, k: nat)
    requires k <= |comers|
    ensures Places(comers[..k], pick) == Places(comers, pick)[..k]
  {
    var n := |comers| - 1;
    if k <= n {
      PlacesOfPrefix(comers[..n], pick, k);
      assert comers[..n][..k] == comers[..k];
    } else {
      assert comers[..k] == comers;
    }
  }

  /** A place is picked once, from what was taken before. */
  lemma PlaceAt<C, P>(comers: seq<C>, pick: (C, set<P>) -> P, k: nat)
    requires k < |comers|
    ensures Places(comers, pick)[k] == pick(comers[k], Elements(Places(comers, pick)[..k]))
  {
    PlacesOfPrefix(comers, pick, k);
    PlacesOfPrefix(comers, pick, k + 1);
    assert comers[..k + 1][..k] == comers[..k];
  }

  /** No place is handed out twice. */
  lemma PlacesAreDistinct<C(!new), P(!new)>(comers: seq<C>, pick: (C, set<P>) -> P, j: nat, k: nat)
    requires forall comer, taken :: pick(comer, taken) !in taken
    requires j < k < |comers|
    ensures Places(comers, pick)[j] != Places(comers, pick)[k]
  {}

  /** Among comers with first choices of their own, each gets its own. */
  lemma {:induction false} FirstChoice<C(!new), P(!new)>(comers: seq<C>, pick: (C, set<P>) -> P, own: C -> P, k: nat)
    requires forall comer, taken | own(comer) !in taken :: pick(comer, taken) == own(comer)
    requires k < |comers|
    requires forall i, j | 0 <= i < j <= k :: own(comers[i]) != own(comers[j])
    ensures Places(comers, pick)[k] == own(comers[k])
  {
    var taken := Places(comers, pick)[..k];
    forall j: nat | j < k ensures taken[j] != own(comers[k]) {
      FirstChoice(comers, pick, own, j);
    }
    PlaceAt(comers, pick, k);
  }
}
