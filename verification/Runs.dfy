/** A run is the list of its events; what happened last is at the end. */
module Runs {
  function Init<E>(events: seq<E>): seq<E>
    requires events != []
  {
    events[..|events| - 1]
  }

  function Last<E>(events: seq<E>): E
    requires events != []
  {
    events[|events| - 1]
  }
}
