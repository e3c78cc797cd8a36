/** Lists of IDs, as std::find and erase work on them. */
module Sequences {

  /** Without the first occurrence of x, if there is one. */
  function EraseFirst<T(==)>(xs: seq<T>, x: T): seq<T> {
    if xs == [] then []
    else if xs[0] == x then xs[1..]
    else [xs[0]] + EraseFirst(xs[1..], x)
  }

  /** std::find, then erase what was found. */
  method FindAndErase<T(==)>(xs: seq<T>, x: T) returns (rest: seq<T>)
    ensures rest == EraseFirst(xs, x)
  {
    var i := 0;
    while i < |xs| && xs[i] != x
      invariant i <= |xs|
      invariant EraseFirst(xs, x) == xs[..i] + EraseFirst(xs[i..], x)
    {
      assert xs[i..][1..] == xs[i + 1..];
      i := i + 1;
    }
    if i < |xs| {
      assert xs[i..][1..] == xs[i + 1..];
      rest := xs[..i] + xs[i + 1..];
    } else {
      rest := xs;
    }
  }
}
