/** The ship service: create, edit, look up and delete ships in the ship table.

    The table is a map from id to ship together with the next id its generator
    hands out.  The rating is computed by two collaborators fixed when the
    service is built: `yearOf`, the calendar year of an instant in the default
    time zone, and `rate`, the rating formula of (speed, used, year). */
module Service {
  import opened Ships
  import opened Validation
  import opened Ratings

  /** The edit merge: every field the patch carries replaces the stored one;
      id and rating are the stored ship's. */
  function Merged(stored: Ship, patch: Ship): (m: Ship)
    ensures m.id == stored.id && m.rating == stored.rating
    ensures (patch.name.Some? ==> m.name == patch.name) && (patch.name.None? ==> m.name == stored.name)
    ensures (patch.planet.Some? ==> m.planet == patch.planet) && (patch.planet.None? ==> m.planet == stored.planet)
    ensures (patch.shipType.Some? ==> m.shipType == patch.shipType) && (patch.shipType.None? ==> m.shipType == stored.shipType)
    ensures (patch.prodDate.Some? ==> m.prodDate == patch.prodDate) && (patch.prodDate.None? ==> m.prodDate == stored.prodDate)
    ensures (patch.speed.Some? ==> m.speed == patch.speed) && (patch.speed.None? ==> m.speed == stored.speed)
    ensures (patch.used.Some? ==> m.used == patch.used) && (patch.used.None? ==> m.used == stored.used)
    ensures (patch.crewSize.Some? ==> m.crewSize == patch.crewSize) && (patch.crewSize.None? ==> m.crewSize == stored.crewSize)
  {
    Ship(
      stored.id,
      if patch.name.Some? then patch.name else stored.name,
      if patch.planet.Some? then patch.planet else stored.planet,
      if patch.shipType.Some? then patch.shipType else stored.shipType,
      if patch.prodDate.Some? then patch.prodDate else stored.prodDate,
      if patch.speed.Some? then patch.speed else stored.speed,
      if patch.used.Some? then patch.used else stored.used,
      if patch.crewSize.Some? then patch.crewSize else stored.crewSize,
      stored.rating)
  }

  /** A patch carrying no field leaves the ship as it was. */
  lemma MergeEmptyPatch(stored: Ship)
    ensures Merged(stored, EmptyShip) == stored
  {
  }

  /** Applying the same patch twice is applying it once. */
  lemma MergeIdempotent(stored: Ship, patch: Ship)
    ensures Merged(Merged(stored, patch), patch) == Merged(stored, patch)
  {
  }

  /** Two successive edits are one edit with the later patch laid over the
      earlier one. */
  lemma MergeComposes(stored: Ship, first: Ship, second: Ship)
    ensures Merged(Merged(stored, first), second) == Merged(stored, Merged(first, second))
  {
  }

  /** The id and rating a client puts in a patch are never used. */
  lemma MergeIgnoresPatchIdAndRating(stored: Ship, patch: Ship, id: Option<int>, rating: Option<real>)
    ensures Merged(stored, patch.(id := id, rating := rating)) == Merged(stored, patch)
    ensures Merged(stored, patch).id == stored.id && Merged(stored, patch).rating == stored.rating
  {
  }

  /** Over a ship that passes the create check, a patch passes the edit check
      exactly when the merged ship still passes the create check: the edit
      check is the create check restricted to the fields the patch carries. */
  lemma EditCheckIsMergedCreateCheck(stored: Ship, patch: Ship)
    requires IsValidForAdd(stored)
    ensures ValidForEdit(patch) <==> IsValidForAdd(Merged(stored, patch))
  {
  }

  /** The merge as the service performs it: one setter call per field the
      patch carries. */
  method ApplyPatch(stored: Ship, patch: Ship) returns (edited: Ship)
    ensures edited == Merged(stored, patch)
  {
    edited := stored;
    if patch.name.Some? {
      edited := edited.(name := patch.name);
    }
    if patch.planet.Some? {
      edited := edited.(planet := patch.planet);
    }
    if patch.shipType.Some? {
      edited := edited.(shipType := patch.shipType);
    }
    if patch.prodDate.Some? {
      edited := edited.(prodDate := patch.prodDate);
    }
    if patch.speed.Some? {
      edited := edited.(speed := patch.speed);
    }
    if patch.used.Some? {
      edited := edited.(used := patch.used);
    }
    if patch.crewSize.Some? {
      edited := edited.(crewSize := patch.crewSize);
    }
  }

  class ShipService {
    /** The ship table, by id */
    var ships: map<int, Ship>
    /** The id the table's generator hands out next */
    var nextId: int
    const yearOf: int -> int
    const rate: (real, bool, int) -> real

    /** Every stored ship is under its own positive id, below the generator,
        passes the create check, has a usage flag and carries the rating of
        its own speed, usage and year. */
    ghost predicate Valid()
      reads this
    {
      1 <= nextId && forall k :: k in ships ==> 1 <= k < nextId && Persisted(k, ships[k])
    }

    predicate Rateable(s: Ship) {
      s.speed.Some? && s.used.Some? && s.prodDate.Some?
    }

    /** The rating of a ship's speed, usage and production year; with the
        source's collaborators, that of the rating formula. */
    function RatingOf(s: Ship): (r: real)
      requires Rateable(s)
      ensures FormulaRated() && IsValidForAdd(s) ==>
        r == Rating(s.speed.value, s.used.value, yearOf(s.prodDate.value))
    {
      rate(s.speed.value, s.used.value, yearOf(s.prodDate.value))
    }

    predicate Persisted(id: int, s: Ship) {
      s.id == Some(id) && IsValidForAdd(s) && s.used.Some? && s.rating == Some(RatingOf(s))
    }

    /** The collaborators are the source's, with a Gregorian default
        calendar: the year of every instant the date check accepts is at
        most 3019 (the last accepted instant is 3019-12-31T00:00Z, still 3019
        in every time zone of that calendar), and `rate` is the rating formula
        wherever that is defined. */
    ghost predicate FormulaRated() {
      && (forall t :: MinProdDate <= t <= MaxProdDate ==> yearOf(t) <= 3019)
      && (forall speed, used, year :: 0.0 <= speed && year < 3020 ==> rate(speed, used, year) == Rating(speed, used, year))
    }

    /** With the source's collaborators, every stored rating lies in 0 .. 79.2
        and is a whole number of hundredths. */
    lemma StoredRatingBounds(id: int)
      requires Valid() && FormulaRated() && id in ships
      ensures ships[id].rating.Some?
      ensures 0.0 <= ships[id].rating.value <= 79.2
      ensures (ships[id].rating.value * 100.0).Floor as real == ships[id].rating.value * 100.0
    {
      var s := ships[id];
      assert Persisted(id, s);
      assert yearOf(s.prodDate.value) <= 3019;
      RatingBounds(s.speed.value, s.used.value, yearOf(s.prodDate.value));
    }

    constructor (yearOf: int -> int, rate: (real, bool, int) -> real)
      ensures Valid() && ships == map[] && nextId == 1
      ensures this.yearOf == yearOf && this.rate == rate
    {
      this.yearOf := yearOf;
      this.rate := rate;
      ships := map[];
      nextId := 1;
    }

    /** Whether the table holds a ship under `id`; only positive ids below the
        generator can. */
    predicate IsShipExist(id: int): (r: bool)
      reads this
      ensures Valid() ==> (r ==> 1 <= id < nextId)
    {
      id in ships
    }

    /** The stored ship under `id`: it carries that id, passes the create
        check and is rated from its own fields. */
    function GetShip(id: int): (s: Ship)
      reads this
      requires id in ships
      ensures Valid() ==> s.id == Some(id) && IsValidForAdd(s) && s.used.Some? && s.rating == Some(RatingOf(s))
    {
      ships[id]
    }

    /** Stores a ship that passed the create check under a fresh id: usage
        defaults to false, the rating is computed, everything else is the
        client's. */
    method CreateShip(body: Ship) returns (saved: Ship)
      requires Valid() && IsValidForAdd(body)
      modifies this
      ensures Valid()
      ensures old(nextId) !in old(ships) && nextId == old(nextId) + 1
      ensures ships == old(ships)[old(nextId) := saved]
      ensures saved.id == Some(old(nextId))
      ensures saved.used == Some(body.used.GetOr(false))
      ensures Rateable(saved) && saved.rating == Some(RatingOf(saved))
      ensures saved.(id := body.id, used := body.used, rating := body.rating) == body
    {
      var ship := body;
      if ship.used.None? {
        ship := ship.(used := Some(false));
      }
      ship := ship.(rating := Some(RatingOf(ship)));
      saved := ship.(id := Some(nextId));
      ships := ships[nextId := saved];
      nextId := nextId + 1;
    }

    /** Overwrites the stored ship's fields with those the patch carries,
        recomputes the rating from the merged ship and stores it back under
        the same id. */
    method EditShip(id: int, patch: Ship) returns (saved: Ship)
      requires Valid() && id in ships && ValidForEdit(patch)
      modifies this
      ensures Valid() && nextId == old(nextId)
      ensures ships == old(ships)[id := saved]
      ensures saved.(rating := old(ships[id].rating)) == Merged(old(ships[id]), patch)
      ensures Rateable(saved) && saved.rating == Some(RatingOf(saved))
      ensures patch.speed.None? && patch.used.None? && patch.prodDate.None? ==>
        saved.rating == old(ships[id].rating)
      ensures Merged(old(ships[id]), patch) == old(ships[id]) ==> ships == old(ships)
    {
      var edited := ApplyPatch(ships[id], patch);
      MergedIsPersisted(id, patch);
      saved := edited.(rating := Some(RatingOf(edited)));
      ships := ships[id := saved];
    }

    /** The ship an accepted edit stores keeps the table's invariant. */
    lemma MergedIsPersisted(id: int, patch: Ship)
      requires Valid() && id in ships && ValidForEdit(patch)
      ensures var m := Merged(ships[id], patch); Rateable(m) && Persisted(id, m.(rating := Some(RatingOf(m))))
    {
      EditCheckIsMergedCreateCheck(ships[id], patch);
    }

    /** Removes the ship under `id` from the table. */
    method DeleteById(id: int)
      requires Valid()
      modifies this
      ensures Valid() && nextId == old(nextId)
      ensures ships == old(ships) - {id}
    {
      ships := ships - {id};
    }
  }
}
