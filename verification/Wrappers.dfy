/** What the other modules share. */
module Wrappers {
  datatype Option<+T> = None | Some(value: T)

  function Least(a: nat, b: nat): nat {
    if a <= b then a else b
  }

  /** The positions, in ascending order, of exactly the rows that `holds` is true of. */
  ghost predicate Lists(positions: seq<nat>, size: nat, holds: nat -> bool) {
    && (forall x, y :: 0 <= x < y < |positions| ==> positions[x] < positions[y])
    && (forall x :: 0 <= x < |positions| ==> positions[x] < size && holds(positions[x]))
    && (forall k: nat :: k < size && holds(k) ==> k in positions)
  }

  lemma ListsOneMore(positions: seq<nat>, size: nat, holds: nat -> bool)
    requires Lists(positions, size, holds)
    ensures Lists(if holds(size) then positions + [size] else positions, size + 1, holds)
  {
    var more := if holds(size) then positions + [size] else positions;
    forall k: nat | k < size + 1 && holds(k)
      ensures k in more
    {
      assert k < size ==> k in positions;
    }
  }

  lemma Associate<T>(first: seq<T>, second: seq<T>, third: seq<T>)
    ensures (first + second) + third == first + (second + third)
  {
  }
}
