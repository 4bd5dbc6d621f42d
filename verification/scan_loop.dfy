/**
 The interactive scan loop as a state machine. One call of `Iterate` is one
 pass of the loop body: read the current tile, skip it if it is blank or
 empty while auto-advance is on, otherwise record its candidate count as the
 tile's sticky annotation, apply the trackbar changes made while the loop
 waits for a key, and dispatch on the key. Reaching either end of the tile
 list, or the quit key, ends the session.

 The tile image, the contours found in it and the operator's input are
 parameters of a pass (`Visit`): image reading, the colour pipeline and the
 window system are outside the model.
 */
module ScanLoop {
  import opened TileGrid
  import opened Navigation
  import opened DetectorConfig
  import opened ShapeFilter

  /** Escape: quit the session. */
  const QuitKey := 27
  /** The '1' key: scan backward with auto-advance. */
  const BackwardKey := 49
  /** The '2' key: scan forward with auto-advance. */
  const ForwardKey := 50

  /** The scanner's state: the tile list with its annotations, the current
      tile, the scan direction, the auto-advance flag and the detector
      parameters. */
  datatype Scanner = Scanner(
    tiles: seq<Origin>,
    colors: seq<Color>,
    index: int,
    direction: Direction,
    auto: bool,
    config: Config)

  /** The current tile exists and every tile has an annotation. */
  predicate Valid(s: Scanner) {
    |s.colors| == |s.tiles| && 0 <= s.index < |s.tiles|
  }

  /** One trackbar callback: parameter name and new position. */
  datatype ConfigChange = ConfigChange(param: string, value: int)

  /** What one pass of the loop observes: whether the tile image is entirely
      blank, the measured contours of its mask, the trackbar changes made
      while waiting for a key, and the key code (-1 when none was pressed). */
  datatype Visit = Visit(blank: bool, contours: seq<Contour>, changes: seq<ConfigChange>, key: int)

  datatype EndReason = AtStart | AtEnd | Quit

  /** Result of a pass: the loop goes on, or the session ends. An ended
      session carries the state it ended in. */
  datatype Transition = Running(state: Scanner) | Ended(reason: EndReason, state: Scanner)

  /** The scanner as the session sets it up: the row-major tile list with
      black annotations, the first tile, going forward with auto-advance on,
      default detector parameters. */
  function Start(minx: int, miny: int, sizex: int, sizey: int): (s: Scanner)
    ensures RowMajor(s.tiles, minx, miny, Columns(sizex), RowCount(sizey))
    ensures |s.colors| == |s.tiles| && forall i :: 0 <= i < |s.colors| ==> s.colors[i] == Black
    ensures s.index == 0 && s.direction == Forward && s.auto && s.config == Default
    ensures Valid(s) <==> sizex > 0 && sizey > 0
  {
    TilesRowMajor(minx, miny, sizex, sizey);
    var tiles := Tiles(minx, miny, sizex, sizey);
    ProductPositive(RowCount(sizey), Columns(sizex));
    Scanner(tiles, seq(|tiles|, _ => Black), 0, Forward, true, Default)
  }

  lemma ProductPositive(a: nat, b: nat)
    ensures a * b > 0 <==> a > 0 && b > 0
  {
    if a > 0 && b > 0 {
      assert a * b >= b;
    }
  }

  /** One step in the current direction. At a boundary the session ends and
      the index stays where it was. */
  function Advance(s: Scanner): (r: Transition)
    requires Valid(s)
    ensures Valid(r.state)
    ensures r.state == s.(index := r.state.index)
    ensures r.Ended? <==>
              (s.direction == Forward && s.index == |s.tiles| - 1) || (s.direction == Backward && s.index == 0)
    ensures r.Ended? ==> r.state == s && r.reason == if s.direction == Forward then AtEnd else AtStart
    ensures r.Running? ==> r.state.index == s.index + Delta(s.direction)
  {
    match Move(s.index, |s.tiles|, s.direction)
    case Moved(j) => Running(s.(index := j))
    case StartReached => Ended(AtStart, s)
    case EndReached => Ended(AtEnd, s)
  }

  /** The value the last change naming `q` set, if any change names it. */
  function LastValue(changes: seq<ConfigChange>, q: string): Option<int> {
    if changes == [] then None
    else if changes[|changes| - 1].param == q then Some(changes[|changes| - 1].value)
    else LastValue(changes[..|changes| - 1], q)
  }

  /** The reading parameter `q` has after `changes` are applied to `cfg`:
      the value of the last change naming it, otherwise its old reading. */
  function ReadingAfter(cfg: Config, changes: seq<ConfigChange>, q: string): Option<real> {
    match LastValue(changes, q)
    case Some(value) => Some(value as real)
    case None => Reading(cfg, q)
  }

  /** Applies trackbar changes in order. Every change switches auto-advance
      off; nothing but the configuration and that flag changes. The last two
      ensures follow from the per-parameter one and are kept as corollaries
      for callers that reason about a single change. */
  function ApplyChanges(s: Scanner, changes: seq<ConfigChange>): (r: Scanner)
    ensures r.tiles == s.tiles && r.colors == s.colors && r.index == s.index && r.direction == s.direction
    ensures r.auto == (s.auto && |changes| == 0)
    ensures forall q :: q in Parameters ==> Reading(r.config, q) == ReadingAfter(s.config, changes, q)
    ensures forall q :: (forall i :: 0 <= i < |changes| ==> changes[i].param != q) ==>
              Reading(r.config, q) == Reading(s.config, q)
    ensures |changes| > 0 && changes[|changes| - 1].param in Parameters ==>
              Reading(r.config, changes[|changes| - 1].param) == Some(changes[|changes| - 1].value as real)
  {
    if changes == [] then s
    else
      var last := changes[|changes| - 1];
      var t := ApplyChanges(s, changes[..|changes| - 1]);
      t.(config := Update(t.config, last.param, last.value), auto := false)
  }

  /** A change that a later change to another parameter follows still takes
      effect: moving the minimum-area trackbar to 7 and then the minimum-hue
      trackbar to 3 leaves both values in place. */
  lemma EarlierChangeKept(s: Scanner)
    ensures ApplyChanges(s, [ConfigChange("area_min", 7), ConfigChange("hue_min", 3)]).config.areaMin == 7
    ensures ApplyChanges(s, [ConfigChange("area_min", 7), ConfigChange("hue_min", 3)]).config.low.hue == 3
  {
    var changes := [ConfigChange("area_min", 7), ConfigChange("hue_min", 3)];
    assert changes[..1] == [ConfigChange("area_min", 7)];
    assert LastValue(changes, "area_min") == Some(7);
    assert Reading(ApplyChanges(s, changes).config, "area_min") == Some(7.0);
  }

  /** Key dispatch after a tile has been shown. */
  function Dispatch(s: Scanner, key: int): (r: Transition)
    requires Valid(s)
    ensures Valid(r.state)
    ensures r.state.tiles == s.tiles && r.state.colors == s.colors && r.state.config == s.config
    ensures key == QuitKey ==> r == Ended(Quit, s)
    ensures key == BackwardKey ==>
              && r.state.direction == Backward && r.state.auto
              && (r.Running? <==> s.index > 0)
              && (r.Running? ==> r.state.index == s.index - 1)
              && (r.Ended? ==> r.reason == AtStart && r.state.index == s.index)
    ensures key == ForwardKey ==>
              && r.state.direction == Forward && r.state.auto
              && (r.Running? <==> s.index < |s.tiles| - 1)
              && (r.Running? ==> r.state.index == s.index + 1)
              && (r.Ended? ==> r.reason == AtEnd && r.state.index == s.index)
    ensures key != QuitKey && key != BackwardKey && key != ForwardKey ==> r == Running(s)
  {
    if key == QuitKey then Ended(Quit, s)
    else if key == BackwardKey then Advance(s.(direction := Backward, auto := true))
    else if key == ForwardKey then Advance(s.(direction := Forward, auto := true))
    else Running(s)
  }

  /** A successful backward key press is undone by a forward key press,
      which leaves the scanner going forward with auto-advance on. */
  lemma BackwardKeyThenForwardKey(s: Scanner)
    requires Valid(s)
    requires Dispatch(s, BackwardKey).Running?
    ensures Dispatch(Dispatch(s, BackwardKey).state, ForwardKey) == Running(s.(direction := Forward, auto := true))
  {
  }

  /** A successful forward key press is undone by a backward key press. */
  lemma ForwardKeyThenBackwardKey(s: Scanner)
    requires Valid(s)
    requires Dispatch(s, ForwardKey).Running?
    ensures Dispatch(Dispatch(s, ForwardKey).state, BackwardKey) == Running(s.(direction := Backward, auto := true))
  {
  }

  /** Whether the pass runs the detector: it does unless the tile is blank
      and auto-advance is on. */
  predicate Evaluated(s: Scanner, v: Visit) {
    !(v.blank && s.auto)
  }

  /** Number of candidates among the visit's contours under parameters `cfg`. */
  function Found(v: Visit, cfg: Config): nat {
    |Candidates(v.contours, cfg)|
  }

  /** A visit that gives auto-advance nothing to stop for: a blank tile, or
      one without candidates. */
  predicate Idle(v: Visit, cfg: Config) {
    v.blank || Found(v, cfg) == 0
  }

  /** One pass of the scan loop. */
  function Iterate(s: Scanner, v: Visit): (r: Transition)
    requires Valid(s)
    ensures Valid(r.state) && r.state.tiles == s.tiles
    // the annotation of the current tile is set when candidates were found, others are untouched
    ensures forall j :: 0 <= j < |s.colors| && j != s.index ==> r.state.colors[j] == s.colors[j]
    ensures r.state.colors[s.index] ==
              if Evaluated(s, v) && Found(v, s.config) > 0 then CandidateColor(Found(v, s.config)) else s.colors[s.index]
    // no index is committed when the session ends
    ensures r.Ended? ==> r.state.index == s.index
    // auto-advance past a blank or empty tile: one step, no key, no parameter change
    ensures s.auto && Idle(v, s.config) ==>
              && r.state.config == s.config && r.state.auto && r.state.direction == s.direction
              && (r.Ended? <==>
                    (s.direction == Forward && s.index == |s.tiles| - 1) || (s.direction == Backward && s.index == 0))
              && (r.Running? ==> r.state.index == s.index + Delta(s.direction))
              && (r.Ended? ==> r.reason == if s.direction == Forward then AtEnd else AtStart)
    // otherwise the loop waits for a key
    ensures !(s.auto && Idle(v, s.config)) ==>
              && (v.key == QuitKey ==>
                    r.Ended? && r.reason == Quit && r.state.direction == s.direction &&
                    r.state.auto == (s.auto && |v.changes| == 0))
              && (v.key == BackwardKey ==>
                    r.state.direction == Backward && r.state.auto &&
                    (r.Running? <==> s.index > 0) && (r.Running? ==> r.state.index == s.index - 1) &&
                    (r.Ended? ==> r.reason == AtStart))
              && (v.key == ForwardKey ==>
                    r.state.direction == Forward && r.state.auto &&
                    (r.Running? <==> s.index < |s.tiles| - 1) && (r.Running? ==> r.state.index == s.index + 1) &&
                    (r.Ended? ==> r.reason == AtEnd))
              && (v.key != QuitKey && v.key != BackwardKey && v.key != ForwardKey ==>
                    r.Running? && r.state.index == s.index && r.state.direction == s.direction &&
                    r.state.auto == (s.auto && |v.changes| == 0))
    // the trackbar changes made while waiting take effect for the next tile
    ensures !(s.auto && Idle(v, s.config)) ==>
              forall q :: q in Parameters ==> Reading(r.state.config, q) == ReadingAfter(s.config, v.changes, q)
  {
    if v.blank && s.auto then Advance(s)
    else
      var found := Candidates(v.contours, s.config);
      if |found| == 0 && s.auto then Advance(s)
      else
        var marked := if |found| > 0 then s.(colors := s.colors[s.index := CandidateColor(|found|)]) else s;
        Dispatch(ApplyChanges(marked, v.changes), v.key)
  }

  /** A session driven by a sequence of visits, stopping at the first pass
      that ends it. */
  function Run(s: Scanner, visits: seq<Visit>): (r: Transition)
    requires Valid(s)
    ensures Valid(r.state) && r.state.tiles == s.tiles
    decreases |visits|
  {
    if visits == [] then Running(s)
    else
      match Iterate(s, visits[0])
      case Running(t) => Run(t, visits[1..])
      case Ended(reason, t) => Ended(reason, t)
  }

  /** Once a session has ended, later visits change nothing: the loop has
      returned, so the result of a run is decided by its first ending pass. */
  lemma {:induction false} RunStopsAtEnd(s: Scanner, vs: seq<Visit>, ws: seq<Visit>)
    requires Valid(s)
    requires Run(s, vs).Ended?
    ensures Run(s, vs + ws) == Run(s, vs)
    decreases |vs|
  {
    assert (vs + ws)[0] == vs[0];
    assert (vs + ws)[1..] == vs[1..] + ws;
    match Iterate(s, vs[0])
    case Running(t) => RunStopsAtEnd(t, vs[1..], ws);
    case Ended(_, _) =>
  }

  /** A run that is still going continues from the state it reached: running
      `vs` and then `ws` is the same as running `vs + ws`. */
  lemma {:induction false} RunConcat(s: Scanner, vs: seq<Visit>, ws: seq<Visit>)
    requires Valid(s)
    requires Run(s, vs).Running?
    ensures Run(s, vs + ws) == Run(Run(s, vs).state, ws)
    decreases |vs|
  {
    if vs == [] {
      assert vs + ws == ws;
    } else {
      assert (vs + ws)[0] == vs[0];
      var first := Iterate(s, vs[0]);
      if first.Ended? {
        assert false;
      }
      var rest := (vs + ws)[1..];
      assert rest == vs[1..] + ws;
      assert Run(s, vs + ws) == Run(first.state, rest);
      RunConcat(first.state, vs[1..], ws);
    }
  }

  /** Auto-advance forward over tiles that are all blank or empty runs to the
      last tile and then ends the session at the end of the list; the scan
      never wraps around, and no annotation changes on the way. */
  lemma {:induction false} AutoScanForwardEnds(s: Scanner, visits: seq<Visit>)
    requires Valid(s) && s.auto && s.direction == Forward
    requires |visits| == |s.tiles| - s.index
    requires forall i :: 0 <= i < |visits| ==> Idle(visits[i], s.config)
    ensures Run(s, visits) == Ended(AtEnd, s.(index := |s.tiles| - 1))
    decreases |visits|
  {
    assert Idle(visits[0], s.config);
    if s.index < |s.tiles| - 1 {
      var t := s.(index := s.index + 1);
      assert Iterate(s, visits[0]) == Running(t);
      forall i | 0 <= i < |visits[1..]|
        ensures Idle(visits[1..][i], t.config)
      {
        assert visits[1..][i] == visits[i + 1];
      }
      AutoScanForwardEnds(t, visits[1..]);
    }
  }

  /** The mirror image: auto-advance backward over blank or empty tiles ends
      the session at the start of the list, on the first tile. */
  lemma {:induction false} AutoScanBackwardEnds(s: Scanner, visits: seq<Visit>)
    requires Valid(s) && s.auto && s.direction == Backward
    requires |visits| == s.index + 1
    requires forall i :: 0 <= i < |visits| ==> Idle(visits[i], s.config)
    ensures Run(s, visits) == Ended(AtStart, s.(index := 0))
    decreases |visits|
  {
    assert Idle(visits[0], s.config);
    if s.index > 0 {
      var t := s.(index := s.index - 1);
      assert Iterate(s, visits[0]) == Running(t);
      forall i | 0 <= i < |visits[1..]|
        ensures Idle(visits[1..][i], t.config)
      {
        assert visits[1..][i] == visits[i + 1];
      }
      AutoScanBackwardEnds(t, visits[1..]);
    }
  }

  /** The two-tile example session: over a region of extent (2048, 1024) at
      the origin, an empty first tile is skipped to the second, and an empty
      second tile ends the session at the end of the list. */
  lemma TwoTileSession(v0: Visit, v1: Visit)
    requires Idle(v0, Default) && Idle(v1, Default)
    ensures Iterate(Start(0, 0, 2048, 1024), v0) == Running(Start(0, 0, 2048, 1024).(index := 1))
    ensures Run(Start(0, 0, 2048, 1024), [v0, v1]) == Ended(AtEnd, Start(0, 0, 2048, 1024).(index := 1))
  {
    TwoTileRegion();
    var s := Start(0, 0, 2048, 1024);
    assert |s.tiles| == 2;
    AutoScanForwardEnds(s, [v0, v1]);
  }
}
