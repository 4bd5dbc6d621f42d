/**
 The shape filter of the detection pipeline. Contour extraction and the
 measurements of each contour (area, perimeter and the circularity
 4*pi*area/perimeter^2) come from the image library and are taken here as
 given values; what is modelled is the decision which contours are kept as
 candidates.
 */
module ShapeFilter {
  import opened DetectorConfig

  /** The measurements of one contour. `circularity` is meaningful only when
      `perimeter` is non-zero. */
  datatype Contour = Contour(area: real, perimeter: real, circularity: real)

  /** A contour is a candidate when its perimeter is non-zero, its area lies
      strictly inside the area interval and its circularity strictly exceeds
      the threshold. */
  predicate IsCandidate(c: Contour, cfg: Config) {
    && c.perimeter != 0.0
    && (cfg.areaMin as real) < c.area < (cfg.areaMax as real)
    && c.circularity > cfg.circularityMin
  }

  /** The candidates among `cs`. Every candidate is kept as often as it
      occurs, so contours with equal measurements are each counted. */
  function Candidates(cs: seq<Contour>, cfg: Config): (r: seq<Contour>)
    ensures |r| <= |cs|
    ensures forall c :: c in r <==> c in cs && IsCandidate(c, cfg)
    ensures forall c {:trigger multiset(r)[c]} :: multiset(r)[c] == if IsCandidate(c, cfg) then multiset(cs)[c] else 0
  {
    if cs == [] then []
    else
      var last := cs[|cs| - 1];
      assert cs == cs[..|cs| - 1] + [last];
      Candidates(cs[..|cs| - 1], cfg) + (if IsCandidate(last, cfg) then [last] else [])
  }

  /** Filters the contours one by one, skipping degenerate ones, as the
      detection loop does. */
  method FindCandidates(contours: seq<Contour>, cfg: Config) returns (kept: seq<Contour>)
    ensures kept == Candidates(contours, cfg)
    ensures forall c :: c in kept ==> c.perimeter != 0.0
  {
    kept := [];
    var i := 0;
    while i < |contours|
      invariant 0 <= i <= |contours|
      invariant kept == Candidates(contours[..i], cfg)
    {
      var con := contours[i];
      assert contours[..i + 1] == contours[..i] + [con];
      CandidatesSnoc(contours[..i], con, cfg);
      if con.perimeter == 0.0 {
        i := i + 1;
        continue;
      }
      if (cfg.areaMin as real) < con.area < (cfg.areaMax as real) && con.circularity > cfg.circularityMin {
        kept := kept + [con];
      }
      i := i + 1;
    }
    assert contours[..i] == contours;
  }

  /** A contour whose area equals either bound of the area interval is never
      a candidate, whatever its circularity. */
  lemma AreaBoundsExcluded(cs: seq<Contour>, cfg: Config, c: Contour)
    requires c.area == cfg.areaMin as real || c.area == cfg.areaMax as real
    ensures c !in Candidates(cs, cfg)
  {
  }

  /** The candidate list is idempotent: filtering it again keeps all of it. */
  lemma {:induction false} CandidatesIdempotent(cs: seq<Contour>, cfg: Config)
    ensures Candidates(Candidates(cs, cfg), cfg) == Candidates(cs, cfg)
    decreases |cs|
  {
    if cs != [] {
      var init := cs[..|cs| - 1];
      var last := cs[|cs| - 1];
      var kept := Candidates(init, cfg);
      CandidatesIdempotent(init, cfg);
      assert Candidates(cs, cfg) == kept + (if IsCandidate(last, cfg) then [last] else []);
      if IsCandidate(last, cfg) {
        CandidatesSnoc(kept, last, cfg);
      } else {
        assert Candidates(cs, cfg) == kept;
      }
    }
  }

  /** Filtering a list with one more element at the end. */
  lemma CandidatesSnoc(cs: seq<Contour>, c: Contour, cfg: Config)
    ensures Candidates(cs + [c], cfg) == Candidates(cs, cfg) + (if IsCandidate(c, cfg) then [c] else [])
  {
    assert (cs + [c])[..|cs + [c]| - 1] == cs;
  }

  /** One round contour of area 200 and circularity 1.0 is exactly one
      candidate under the default parameters. */
  lemma RoundCellIsCandidate(perimeter: real)
    requires perimeter > 0.0
    ensures Candidates([Contour(200.0, perimeter, 1.0)], Default) == [Contour(200.0, perimeter, 1.0)]
  {
    assert [Contour(200.0, perimeter, 1.0)][..0] == [];
  }
}
