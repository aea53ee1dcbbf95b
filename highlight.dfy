/** defaultCallback: the visual feedback the selector applies when no callback is given.
    The box-shadow style of each element is modelled as a map from element identity to
    the shadow last assigned; an identity outside the map has its initial style. */
module Highlight {
  import opened Wrappers
  import opened Dom
  import opened Sequences

  datatype Shadow = Glow | NoShadow

  function Ids(s: seq<Element>): set<ElemId>
  {
    set e | e in s :: e.id
  }

  function NotIn(results: seq<Element>): Element -> bool
  {
    (e: Element) => e !in results
  }

  /** `diff`: the candidates that are not among the results. */
  function Unselected(results: seq<Element>, candidates: seq<Element>): (diff: seq<Element>)
    ensures forall e :: e in diff <==> e in candidates && e !in results
    ensures IsSubsequence(diff, candidates)
  {
    Filter(candidates, NotIn(results))
  }

  /** The identities the second loop of defaultCallback resets: none without the candidate list. */
  function ResetIds(results: seq<Element>, candidates: Option<seq<Element>>): set<ElemId>
  {
    if candidates.None? then {} else Ids(Unselected(results, candidates.value))
  }

  lemma IdsOfPrefix(s: seq<Element>, i: nat)
    requires i < |s|
    ensures Ids(s[..i + 1]) == Ids(s[..i]) + {s[i].id}
  {
    assert s[..i + 1] == s[..i] + [s[i]];
  }

  /** Highlight every result; then, when the candidate list is given, clear the shadow of every
      candidate that is not a result. Nothing else is touched. */
  method DefaultCallback(results: seq<Element>, candidates: Option<seq<Element>>, shadow: map<ElemId, Shadow>)
    returns (after: map<ElemId, Shadow>)
    ensures after.Keys == shadow.Keys + Ids(results) + ResetIds(results, candidates)
    ensures forall k :: k in ResetIds(results, candidates) ==> after[k] == NoShadow
    ensures forall k :: k in Ids(results) && k !in ResetIds(results, candidates) ==> after[k] == Glow
    ensures forall k :: k in shadow && k !in Ids(results) && k !in ResetIds(results, candidates) ==> after[k] == shadow[k]
  {
    after := shadow;
    var i := 0;
    while i < |results|
      invariant 0 <= i <= |results|
      invariant after.Keys == shadow.Keys + Ids(results[..i])
      invariant forall k :: k in Ids(results[..i]) ==> after[k] == Glow
      invariant forall k :: k in shadow && k !in Ids(results[..i]) ==> after[k] == shadow[k]
    {
      IdsOfPrefix(results, i);
      after := after[results[i].id := Glow];
      i := i + 1;
    }
    assert results[..i] == results;
    if candidates.None? {
      return;
    }
    var diff := Unselected(results, candidates.value);
    var highlighted := after;
    var j := 0;
    while j < |diff|
      invariant 0 <= j <= |diff|
      invariant after.Keys == highlighted.Keys + Ids(diff[..j])
      invariant forall k :: k in Ids(diff[..j]) ==> after[k] == NoShadow
      invariant forall k :: k in highlighted && k !in Ids(diff[..j]) ==> after[k] == highlighted[k]
    {
      IdsOfPrefix(diff, j);
      after := after[diff[j].id := NoShadow];
      j := j + 1;
    }
    assert diff[..j] == diff;
  }

  /** When identities tell elements apart, defaultCallback leaves every result highlighted. */
  lemma DistinctIdsKeepResultsHighlighted(results: seq<Element>, candidates: seq<Element>)
    requires forall a, b :: a in results && b in candidates && a.id == b.id ==> a == b
    ensures Ids(results) !! ResetIds(results, Some(candidates))
  {
    forall b | b in Unselected(results, candidates) ensures b.id !in Ids(results) {
      assert forall a :: a in results ==> a != b;
    }
  }
}
