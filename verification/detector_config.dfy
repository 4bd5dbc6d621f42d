/**
 The live-tunable detector configuration: the HSV low and high bounds of the
 colour threshold, the open area interval and the circularity threshold, and
 the single update operation the nine trackbars call. Each trackbar is known
 by its parameter name; an update replaces exactly the component that name
 selects, with no check that a lower bound stays below its upper bound.
 */
module DetectorConfig {

  datatype Option<T> = None | Some(value: T)

  /** One corner of the HSV threshold box. */
  datatype Hsv = Hsv(hue: int, sat: int, val: int)

  /** The detector parameters. `circularityMin` is a fraction; the trackbar
      shows and sets it on a 0-100 scale. */
  datatype Config = Config(low: Hsv, high: Hsv, areaMin: int, areaMax: int, circularityMin: real)

  /** The parameters the scanner starts with. */
  const Default := Config(Hsv(0, 0, 10), Hsv(140, 255, 70), 150, 250, 0.5)

  /** The nine parameter names the trackbars report. */
  const Parameters: set<string> :=
    {"hue_min", "sat_min", "val_min", "hue_max", "sat_max", "val_max", "area_min", "area_max", "circularity"}

  /** The value parameter `p` currently has, on its trackbar's scale (the
      circularity threshold times 100); None for a name that is not a parameter. */
  function Reading(c: Config, p: string): (r: Option<real>)
    ensures r.Some? <==> p in Parameters
  {
    if p == "hue_min" then Some(c.low.hue as real)
    else if p == "sat_min" then Some(c.low.sat as real)
    else if p == "val_min" then Some(c.low.val as real)
    else if p == "hue_max" then Some(c.high.hue as real)
    else if p == "sat_max" then Some(c.high.sat as real)
    else if p == "val_max" then Some(c.high.val as real)
    else if p == "area_min" then Some(c.areaMin as real)
    else if p == "area_max" then Some(c.areaMax as real)
    else if p == "circularity" then Some(c.circularityMin * 100.0)
    else None
  }

  /** Two configurations with the same reading for every parameter are
      equal: the nine readings cover every component. Dafny proves this from
      the definition of `Reading` alone. */
  lemma ReadingsDetermine(a: Config, b: Config)
    requires forall p :: p in Parameters ==> Reading(a, p) == Reading(b, p)
    ensures a == b
  {
  }

  /** The trackbar callback for parameter `p` moved to `value`. The
      circularity trackbar sets the threshold to `value / 100`. */
  function Update(c: Config, p: string, value: int): (r: Config)
    ensures forall q :: Reading(r, q) == if q == p && q in Parameters then Some(value as real) else Reading(c, q)
  {
    if p == "hue_min" then c.(low := c.low.(hue := value))
    else if p == "sat_min" then c.(low := c.low.(sat := value))
    else if p == "val_min" then c.(low := c.low.(val := value))
    else if p == "hue_max" then c.(high := c.high.(hue := value))
    else if p == "sat_max" then c.(high := c.high.(sat := value))
    else if p == "val_max" then c.(high := c.high.(val := value))
    else if p == "area_min" then c.(areaMin := value)
    else if p == "area_max" then c.(areaMax := value)
    else if p == "circularity" then c.(circularityMin := value as real / 100.0)
    else c
  }

  /** A name that is not one of the nine parameters changes nothing. */
  lemma UnknownParameterIgnored(c: Config, p: string, value: int)
    requires p !in Parameters
    ensures Update(c, p, value) == c
  {
  }

  /** The circularity trackbar sets the threshold to `value / 100` and leaves
      every other component as it was. */
  lemma CircularityUpdate(c: Config, value: int)
    ensures Update(c, "circularity", value) == c.(circularityMin := value as real / 100.0)
  {
  }

  /** Updates of two different parameters commute. */
  lemma UpdatesCommute(c: Config, p: string, v: int, q: string, w: int)
    requires p != q
    ensures Update(Update(c, p, v), q, w) == Update(Update(c, q, w), p, v)
  {
  }

  /** A second update of the same parameter overrides the first. */
  lemma LastUpdateWins(c: Config, p: string, v: int, w: int)
    ensures Update(Update(c, p, v), p, w) == Update(c, p, w)
  {
  }

  /** No ordering between the bounds is enforced: raising the lower area bound
      of the default configuration past its upper bound is accepted. */
  lemma AreaBoundsMayCross()
    ensures Update(Default, "area_min", 300).areaMin > Update(Default, "area_min", 300).areaMax
  {
  }
}
