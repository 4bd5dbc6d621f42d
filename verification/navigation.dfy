/**
 One navigation step over the tile list. The index goes up or down by one;
 stepping past either end is reported as a tagged outcome instead of the
 exception the scanner raises and catches, and no new index is committed.
 */
module Navigation {

  /** Scan direction; the scanner starts going forward. */
  datatype Direction = Forward | Backward

  /** Outcome of one step over a list of `n` tiles. */
  datatype Step = Moved(index: int) | StartReached | EndReached

  /** The tentative change of the index for one step in direction `d`. */
  function Delta(d: Direction): int {
    if d == Forward then 1 else -1
  }

  /** Steps from index `i` over `n` tiles in direction `d`: the tentative
      index `i + Delta(d)` is checked against the end first, then against the
      start. */
  function Move(i: int, n: int, d: Direction): (r: Step)
    ensures r.Moved? ==> 0 <= r.index < n
    ensures 0 <= i < n && d == Forward ==> r == if i < n - 1 then Moved(i + 1) else EndReached
    ensures 0 <= i < n && d == Backward ==> r == if i > 0 then Moved(i - 1) else StartReached
  {
    var next := i + Delta(d);
    if next >= n then EndReached
    else if next < 0 then StartReached
    else Moved(next)
  }

  /** A step forward is undone by a step backward. */
  lemma ForwardThenBackward(i: int, n: int)
    requires 0 <= i
    requires Move(i, n, Forward).Moved?
    ensures Move(Move(i, n, Forward).index, n, Backward) == Moved(i)
  {
  }

  /** A step backward is undone by a step forward. */
  lemma BackwardThenForward(i: int, n: int)
    requires i < n
    requires Move(i, n, Backward).Moved?
    ensures Move(Move(i, n, Backward).index, n, Forward) == Moved(i)
  {
  }

  /** From a valid index, a step fails exactly at the boundary it runs into:
      the end when going forward from the last tile, the start when going
      backward from the first. */
  lemma BoundarySignals(i: int, n: int)
    requires 0 <= i < n
    ensures Move(i, n, Forward) == EndReached <==> i == n - 1
    ensures Move(i, n, Backward) == StartReached <==> i == 0
    ensures Move(i, n, Forward) != StartReached && Move(i, n, Backward) != EndReached
  {
  }

  /** With an empty tile list every step fails: forward reports the end,
      backward the start. The scanner itself never steps over an empty list,
      since reading the current tile of an empty list fails first; this
      states only the order of the two boundary checks in a step. */
  lemma EmptyListSignals()
    ensures Move(0, 0, Forward) == EndReached
    ensures Move(0, 0, Backward) == StartReached
  {
  }
}
