/** The eight query filters of the ship list and the ship count.

    Each filter is built from optional query parameters.  With every one of its
    parameters absent it imposes no constraint (the source's `null`
    specification); otherwise it is a substring test, an equality test or a
    range test on one column.  A ship whose column is absent (SQL NULL) fails
    every test, since a comparison with NULL is never true. */
module Filters {
  import opened Ships

  /** `part` occurs in `text` at some position (what LIKE '%part%' matches). */
  predicate Contains(text: string, part: string): (r: bool)
    ensures r <==> exists i :: OccursAt(text, part, i)
  {
    SliceIsPrefix(text, part);
    exists i :: 0 <= i <= |text| - |part| && part <= text[i..]
  }

  /** The characters of `text` from position `i` on spell `part`. */
  predicate OccursAt(text: string, part: string, i: int) {
    0 <= i <= |text| - |part| && text[i..i + |part|] == part
  }

  lemma SliceIsPrefix(text: string, part: string)
    ensures forall i :: 0 <= i <= |text| - |part| ==> (part <= text[i..] <==> OccursAt(text, part, i))
  {
    forall i | 0 <= i <= |text| - |part| ensures part <= text[i..] <==> OccursAt(text, part, i) {
      assert text[i..][..|part|] == text[i..i + |part|];
    }
  }

  /** The query parameters of the list and count endpoints. */
  datatype Criteria = Criteria(
    name: Option<string>,
    planet: Option<string>,
    shipType: Option<ShipType>,
    after: Option<int>,
    before: Option<int>,
    isUsed: Option<bool>,
    minSpeed: Option<real>,
    maxSpeed: Option<real>,
    minCrewSize: Option<int>,
    maxCrewSize: Option<int>,
    minRating: Option<real>,
    maxRating: Option<real>)

  /** A request with no query parameter at all. */
  const NoCriteria := Criteria(None, None, None, None, None, None, None, None, None, None, None, None)

  /** Every bound that is present holds of `v`. */
  predicate WithinInt(min: Option<int>, max: Option<int>, v: int) {
    (min.Some? ==> min.value <= v) && (max.Some? ==> v <= max.value)
  }

  predicate WithinReal(min: Option<real>, max: Option<real>, v: real) {
    (min.Some? ==> min.value <= v) && (max.Some? ==> v <= max.value)
  }

  /** The tri-state range test on an integer column: no bound, `<= max` only,
      `>= min` only, or BETWEEN min AND max. */
  function IntRange(min: Option<int>, max: Option<int>, column: Option<int>): (r: bool)
    ensures r <==> (min.None? && max.None?) || (column.Some? && WithinInt(min, max, column.value))
  {
    if min.None? && max.None? then true
    else if min.None? then column.Some? && column.value <= max.value
    else if max.None? then column.Some? && column.value >= min.value
    else column.Some? && min.value <= column.value <= max.value
  }

  /** The same tri-state range test on a real column. */
  function RealRange(min: Option<real>, max: Option<real>, column: Option<real>): (r: bool)
    ensures r <==> (min.None? && max.None?) || (column.Some? && WithinReal(min, max, column.value))
  {
    if min.None? && max.None? then true
    else if min.None? then column.Some? && column.value <= max.value
    else if max.None? then column.Some? && column.value >= min.value
    else column.Some? && min.value <= column.value <= max.value
  }

  /** LIKE '%text%' on the name column. */
  function FilterByName(text: Option<string>, s: Ship): (r: bool)
    ensures r <==> text.None? || (s.name.Some? && exists i :: OccursAt(s.name.value, text.value, i))
  {
    text.None? || (s.name.Some? && Contains(s.name.value, text.value))
  }

  /** LIKE '%text%' on the planet column. */
  function FilterByPlanet(text: Option<string>, s: Ship): (r: bool)
    ensures r <==> text.None? || (s.planet.Some? && exists i :: OccursAt(s.planet.value, text.value, i))
  {
    text.None? || (s.planet.Some? && Contains(s.planet.value, text.value))
  }

  /** Equality on the ship type column. */
  function FilterByShipType(kind: Option<ShipType>, s: Ship): (r: bool)
    ensures r <==> kind.None? || (s.shipType.Some? && s.shipType.value == kind.value)
  {
    kind.None? || s.shipType == kind
  }

  /** The production date range, both bounds inclusive. */
  function FilterByDate(after: Option<int>, before: Option<int>, s: Ship): (r: bool)
    ensures r <==>
      || (after.None? && before.None?)
      || (s.prodDate.Some? && (after.Some? ==> after.value <= s.prodDate.value) && (before.Some? ==> s.prodDate.value <= before.value))
  {
    IntRange(after, before, s.prodDate)
  }

  /** isTrue or isFalse on the usage column. */
  function FilterByUsage(isUsed: Option<bool>, s: Ship): (r: bool)
    ensures r <==> isUsed.None? || (s.used.Some? && s.used.value == isUsed.value)
  {
    isUsed.None? || s.used == isUsed
  }

  /** The speed range, both bounds inclusive. */
  function FilterBySpeed(min: Option<real>, max: Option<real>, s: Ship): (r: bool)
    ensures r <==>
      || (min.None? && max.None?)
      || (s.speed.Some? && (min.Some? ==> min.value <= s.speed.value) && (max.Some? ==> s.speed.value <= max.value))
  {
    RealRange(min, max, s.speed)
  }

  /** The crew size range, both bounds inclusive. */
  function FilterByCrewSize(min: Option<int>, max: Option<int>, s: Ship): (r: bool)
    ensures r <==>
      || (min.None? && max.None?)
      || (s.crewSize.Some? && (min.Some? ==> min.value <= s.crewSize.value) && (max.Some? ==> s.crewSize.value <= max.value))
  {
    IntRange(min, max, s.crewSize)
  }

  /** The rating range, both bounds inclusive. */
  function FilterByRating(min: Option<real>, max: Option<real>, s: Ship): (r: bool)
    ensures r <==>
      || (min.None? && max.None?)
      || (s.rating.Some? && (min.Some? ==> min.value <= s.rating.value) && (max.Some? ==> s.rating.value <= max.value))
  {
    RealRange(min, max, s.rating)
  }

  /** The eight filters joined with AND, as the list endpoint composes them:
      a ship matches when every criterion given holds of its column. */
  function Matches(f: Criteria, s: Ship): (r: bool)
    ensures r <==>
      && (f.name.Some? ==> s.name.Some? && Contains(s.name.value, f.name.value))
      && (f.planet.Some? ==> s.planet.Some? && Contains(s.planet.value, f.planet.value))
      && (f.shipType.Some? ==> s.shipType == f.shipType)
      && (f.after.Some? || f.before.Some? ==> s.prodDate.Some? && WithinInt(f.after, f.before, s.prodDate.value))
      && (f.isUsed.Some? ==> s.used == f.isUsed)
      && (f.minSpeed.Some? || f.maxSpeed.Some? ==> s.speed.Some? && WithinReal(f.minSpeed, f.maxSpeed, s.speed.value))
      && (f.minCrewSize.Some? || f.maxCrewSize.Some? ==> s.crewSize.Some? && WithinInt(f.minCrewSize, f.maxCrewSize, s.crewSize.value))
      && (f.minRating.Some? || f.maxRating.Some? ==> s.rating.Some? && WithinReal(f.minRating, f.maxRating, s.rating.value))
  {
    && FilterByName(f.name, s)
    && FilterByPlanet(f.planet, s)
    && FilterByShipType(f.shipType, s)
    && FilterByDate(f.after, f.before, s)
    && FilterByUsage(f.isUsed, s)
    && FilterBySpeed(f.minSpeed, f.maxSpeed, s)
    && FilterByCrewSize(f.minCrewSize, f.maxCrewSize, s)
    && FilterByRating(f.minRating, f.maxRating, s)
  }

  /** A filter whose parameters are all absent imposes no constraint, so the
      composition of absent filters matches every ship. */
  lemma AbsentFiltersMatchEverything(s: Ship)
    ensures FilterByName(None, s) && FilterByPlanet(None, s) && FilterByShipType(None, s)
    ensures FilterByDate(None, None, s) && FilterByUsage(None, s)
    ensures FilterBySpeed(None, None, s) && FilterByCrewSize(None, None, s) && FilterByRating(None, None, s)
    ensures Matches(NoCriteria, s)
  {
  }

  /** Name and planet are substring tests; ship type and usage are equality tests. */
  lemma TextAndEqualityFilters(s: Ship, text: string, t: ShipType, u: bool)
    ensures FilterByName(Some(text), s) <==> s.name.Some? && Contains(s.name.value, text)
    ensures FilterByPlanet(Some(text), s) <==> s.planet.Some? && Contains(s.planet.value, text)
    ensures FilterByShipType(Some(t), s) <==> s.shipType == Some(t)
    ensures FilterByUsage(Some(u), s) <==> s.used == Some(u)
  {
  }

  /** A name filter matches the whole name, and the empty text matches every name. */
  lemma ContainsItselfAndEmpty(text: string)
    ensures Contains(text, text)
    ensures Contains(text, "")
  {
    assert text <= text[0..];
  }

  /** The four shapes of a range filter: `>= min` alone, `<= max` alone, the
      inclusive range when both are given (nothing when min > max), and no
      constraint when neither is. */
  lemma RangeShapes(min: int, max: int, v: int)
    ensures IntRange(Some(min), None, Some(v)) <==> min <= v
    ensures IntRange(None, Some(max), Some(v)) <==> v <= max
    ensures IntRange(Some(min), Some(max), Some(v)) <==> min <= v <= max
    ensures min > max ==> !IntRange(Some(min), Some(max), Some(v))
    ensures IntRange(None, None, None)
    ensures !IntRange(Some(min), None, None) && !IntRange(None, Some(max), None)
  {
  }

  lemma RealRangeShapes(min: real, max: real, v: real)
    ensures RealRange(Some(min), None, Some(v)) <==> min <= v
    ensures RealRange(None, Some(max), Some(v)) <==> v <= max
    ensures RealRange(Some(min), Some(max), Some(v)) <==> min <= v <= max
    ensures min > max ==> !RealRange(Some(min), Some(max), Some(v))
    ensures RealRange(None, None, None)
    ensures !RealRange(Some(min), None, None) && !RealRange(None, Some(max), None)
  {
  }

  /** Adding a parameter can only narrow the result: a range filter with both
      bounds matches exactly what both one-sided filters match. */
  lemma RangeIsConjunctionOfBounds(min: Option<int>, max: Option<int>, column: Option<int>)
    requires min.Some? || max.Some?
    ensures IntRange(min, max, column) <==>
      (min.None? || IntRange(min, None, column)) && (max.None? || IntRange(None, max, column))
  {
  }
}
