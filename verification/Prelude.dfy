/** What the modules share: optional and failing values, and the places of a list that something keeps. */
module Prelude {
  datatype Option<+T> = None | Some(value: T)

  datatype Result<+T, +E> = Ok(value: T) | Err(error: E)

  // ----- Which places of a list something keeps -----

  /** These places, each once and from the front to the back. */
  ghost predicate ArePlaces(at: seq<nat>, places: set<nat>) {
    && (forall i, j :: 0 <= i < j < |at| ==> at[i] < at[j])
    && (forall place :: place in at <==> place in places)
  }

  lemma OneMorePlace(at: seq<nat>, places: set<nat>, next: nat)
    requires ArePlaces(at, places) && forall place <- places :: place < next
    ensures ArePlaces(at + [next], places + {next})
  {
    assert forall i :: 0 <= i < |at| ==> at[i] in places;
  }
}
