/** A pool as whoever keeps records on it sees it: the states it has been in, and the oldest of them a
    crash can still bring back. That the anchor protocol keeps to this, and that an anchor call which
    returns has raised the floor to where it began, is proved in `AnchorPools`. */
module Pools {
  datatype Pool<T> = Pool(history: seq<T>, floor: nat)

  /** The state in use. */
  function Current<T>(p: Pool<T>): T
    requires p.history != []
  {
    p.history[|p.history| - 1]
  }

  function Changed<T>(p: Pool<T>, state: T): Pool<T> {
    p.(history := p.history + [state])
  }

  /** An anchor that covers state `upto` has returned. */
  function Anchored<T>(p: Pool<T>, upto: nat): Pool<T> {
    p.(floor := if upto > p.floor then upto else p.floor)
  }

  predicate Revealable<T>(p: Pool<T>, i: nat) {
    p.floor <= i < |p.history|
  }
}
