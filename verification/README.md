# HEImmune scanner core in Dafny

HEImmune's `analyze.py` sweeps a whole-slide H&E image one 1024-pixel tile at
a time. On each tile it looks for round, dark objects (immune-cell
candidates) and lets the operator tune the detector while navigating. This
project models the control logic around the image and vision library calls
and proves properties of it:

- `TileGrid` (`tile_grid.dfy`) cuts the scan bounds into a row-major list of
  tile origins. Every tile starts with a black annotation. A tile with `k`
  candidates is annotated with the colour `(0, 2k, 0)`.
- `Navigation` (`navigation.dfy`) is the `move` step. Running past either end
  is a tagged outcome (`Moved(index) | StartReached | EndReached`), not an
  exception.
- `DetectorConfig` (`detector_config.dfy`) holds the HSV bounds, the area
  interval, the circularity threshold and the nine-parameter trackbar update.
- `ShapeFilter` (`shape_filter.dfy`) is the candidate test. It applies to
  contours whose area, perimeter and circularity are given.
- `ScanLoop` (`scan_loop.dfy`) models one pass of the main loop as a pure
  transition `Iterate(state, visit)`. A pass covers:
  - skipping a blank tile under auto-advance;
  - skipping a tile with no candidates under auto-advance;
  - the sticky annotation;
  - the trackbar changes made while the loop waits for a key;
  - key dispatch (27 quits, 49 scans backward, 50 scans forward).

  Reaching either end of the tile list, or pressing the quit key, ends the
  session. `Run` chains passes together.

A `Visit` carries everything the loop gets from outside in one pass: whether
the tile image is blank, the measured contours of its mask, the trackbar
changes and the key code.

Points where the scanner's behaviour is easy to misread:

- The tile annotation is `(0, 2k, 0)` and is not clamped to 255. The drawing
  library saturates it when the rectangle is drawn.
- Hitting a boundary ends the session whether the step came from
  auto-advance or from a direction key. The key handlers set auto-advance on
  before they step.
- A blank tile with auto-advance off is not skipped. It goes through the
  detector like any other tile.
- Trackbar callbacks run only inside the key wait (`cv.waitKey`). So a pass's
  configuration changes take effect after the current tile has been
  filtered and before the key is dispatched. A pass that auto-advances does
  not wait for a key, so no change happens in it. For the same reason the
  test `if(auto_forward): continue` at line 156 always succeeds.

## Model

| member | source | states |
|---|---|---|
| TileGrid.BuildGrid | analyze.py:37-40 | The nested loops produce the tile list row-major: tile (r, c) sits at index `r*cols + c` with origin `(minx + 1024*c, miny + 1024*r)`. There are `ceil(sizex/1024) * ceil(sizey/1024)` tiles, and none when either extent is not positive. The annotation list has the same length and is all black. |
| TileGrid.TilesRowMajor | analyze.py:37-39 | The tile list is a `ceil(sizey/1024)` by `ceil(sizex/1024)` row-major grid at stride 1024 from the region origin. |
| TileGrid.TwoTileRegion | analyze.py:37-39 | A region at (0, 0) of extent (2048, 1024) has exactly the tiles (0, 0) and (1024, 0), in that order. |
| Navigation.Move | analyze.py:49-60 | From a valid index, forward gives `i+1` below the last tile and signals the end on the last tile. Backward gives `i-1` above the first tile and signals the start on the first tile. A successful step always lands in `[0, n)`. |
| Navigation.ForwardThenBackward | analyze.py:49-60 | A successful forward step is undone by a backward step. |
| Navigation.BackwardThenForward | analyze.py:49-60 | A successful backward step is undone by a forward step. |
| Navigation.BoundarySignals | analyze.py:54-59 | From a valid index, forward signals the end exactly on the last tile and backward signals the start exactly on the first. Neither direction signals the other boundary. |
| Navigation.EmptyListSignals | analyze.py:54-59 | With no tiles, a forward step signals the end and a backward step signals the start: the end test comes first. The scanner never reaches this case, because reading the current tile of an empty list fails first. |
| DetectorConfig.Reading | analyze.py:72-89 | Exactly the nine trackbar names select a component of the configuration. |
| DetectorConfig.Update | analyze.py:69-89 | After an update, the named parameter reads back the new value; circularity reads back on the 0-100 scale. Every other parameter keeps its reading. An unknown name changes nothing. |
| DetectorConfig.UnknownParameterIgnored | analyze.py:72-89 | An update with a name outside the nine parameters leaves the configuration unchanged. |
| DetectorConfig.CircularityUpdate | analyze.py:88-89 | The circularity update sets the threshold to `value/100` and leaves the rest of the configuration unchanged. |
| DetectorConfig.UpdatesCommute | analyze.py:72-87 | Updates of two different parameters commute, because each one touches only its own component. This includes the two bounds of a pair. |
| DetectorConfig.LastUpdateWins | analyze.py:72-89 | A second update of the same parameter overrides the first. |
| DetectorConfig.AreaBoundsMayCross | analyze.py:84-85 | Nothing keeps `area_min <= area_max`: raising the lower bound past the upper bound is accepted. |
| ShapeFilter.Candidates | analyze.py:140-147 | A contour is kept iff it has non-zero perimeter, area strictly inside the area interval and circularity strictly above the threshold. Nothing else is kept. Each candidate is kept as many times as it occurs in the input, so contours with equal measurements are each counted. |
| ShapeFilter.FindCandidates | analyze.py:140-147 | The contour loop, which skips zero-perimeter contours, returns exactly the candidate list. No kept contour has zero perimeter. |
| ShapeFilter.AreaBoundsExcluded | analyze.py:146 | A contour whose area equals either bound is never a candidate. |
| ShapeFilter.CandidatesIdempotent | analyze.py:140-147 | Filtering the candidate list again keeps all of it. |
| ShapeFilter.RoundCellIsCandidate | analyze.py:143-147 | One round contour of area 200 and circularity 1.0 gives exactly one candidate under the default parameters (150, 250) and 0.5. |
| ScanLoop.Start | analyze.py:18-46 | The initial state has the row-major tile list with black annotations. It is on tile 0, going forward with auto-advance on and default parameters. It is valid iff the region has positive width and height. |
| ScanLoop.Advance | analyze.py:122-126 | A step in the current direction moves the index by one. At the last tile going forward, or the first tile going backward, the session ends with the state unchanged. |
| ScanLoop.ApplyChanges | analyze.py:69-89 | Trackbar changes switch auto-advance off iff there is at least one change. Each parameter reads back the value of the last change that names it, and a parameter no change names keeps its reading. Tiles, annotations, index and direction are untouched. |
| ScanLoop.EarlierChangeKept | analyze.py:72-85 | Moving the minimum-area trackbar and then the minimum-hue trackbar leaves both new values in place. The two changes go through the branches at lines 84-85 and 72-73. |
| ScanLoop.Dispatch | analyze.py:188-205 | Key 27 ends the session with nothing changed. Key 49 sets direction backward and auto-advance on, then steps back or ends at the start. Key 50 is the mirror image. Any other key changes nothing. |
| ScanLoop.BackwardKeyThenForwardKey | analyze.py:190-203 | A successful backward key press followed by a forward key press returns to the original tile, going forward with auto-advance on. |
| ScanLoop.ForwardKeyThenBackwardKey | analyze.py:190-203 | A successful forward key press followed by a backward key press returns to the original tile, going backward with auto-advance on. |
| ScanLoop.Iterate | analyze.py:115-205 | One pass keeps the state valid. It annotates the current tile `(0, 2k, 0)` iff it was evaluated with `k > 0` candidates and leaves every other annotation unchanged. When the session ends, no index is committed. A blank or empty tile under auto-advance costs exactly one step with no parameter change, and the session ends there iff the step runs past the last tile going forward or the first tile going backward. Otherwise the trackbar changes made during the key wait take effect: each parameter reads back the last value set for it. Then the key decides, as in `Dispatch`, including the end reason at a boundary. On quit, direction is unchanged and auto-advance is cleared iff a trackbar moved. A pass with no direction key clears auto-advance iff a trackbar moved. |
| ScanLoop.Run | analyze.py:115-205 | Any sequence of passes keeps the state valid and the tile list fixed. With `RunStopsAtEnd` and `RunConcat`, the session stops at the first pass that ends it, and a running session continues from the state it reached. |
| ScanLoop.RunStopsAtEnd | analyze.py:115-205 | Once a session has ended, any further visits leave the result unchanged: every way out of the loop is a `return`: a boundary under auto-advance at lines 126 and 155, quit at 189, and a boundary after a direction key at 196 and 203. |
| ScanLoop.RunConcat | analyze.py:115-205 | A session still running after some visits continues from the state it reached: running two visit lists one after the other equals running them joined. |
| ScanLoop.AutoScanForwardEnds | analyze.py:150-157 | Auto-advancing forward over blank or empty tiles visits each remaining tile once. It then ends the session at the end, on the last tile, with no annotation changed. The scan never wraps around. |
| ScanLoop.AutoScanBackwardEnds | analyze.py:121-127 | Auto-advancing backward over blank or empty tiles ends the session at the start, on tile 0. |
| ScanLoop.TwoTileSession | analyze.py:37-60 | On the two-tile region, an empty first tile advances to tile 1. An empty second tile then ends the session at the end of the list. |

## Left out

- The empty tile list: the source raises an uncaught IndexError at line 117 when it reads the first tile of an empty list. `Advance`, `Dispatch`, `Iterate` and `Run` therefore require a valid current index (`Valid`). `Start` states exactly when the initial state is valid.
- Slide access through OpenSlide (opening the file, the bounds properties, `read_region`, `level_downsamples`). The scan bounds are parameters of `Start`. Whether a tile is blank (`getbbox() == None`) is the `blank` field of a `Visit`.
- The OpenCV pipeline: HSV conversion, bilateral filter, `inRange`, `findContours`, `contourArea` and `arcLength`. These are foreign library calls; each contour's measurements are inputs.
- The circularity formula `4*pi*area/perimeter^2`. It is floating point with a transcendental constant, so circularity is a given real of each contour.
- DetectorConfig.Update: the circularity trackbar's `value/100` is modelled as exact real division, not IEEE floating point.
- The trackbar ranges (hue up to 190, saturation and value up to 255, area up to 1000, circularity up to 100) come from window set-up, which is not modelled. `DetectorConfig.Update` accepts any integer, as `update_config` itself does.
- Drawing and display: the mask, the outlined candidates and the overview rectangles. The rectangles use float division by the downsample factor and are a read-only view.
- Window and trackbar creation, including the initial trackbar positions such as `int(circularity_spec*100)`. Also left out: the 100 ms `waitKey` polling, the console messages for found cells and other keys, and process start-up and tear-down.
