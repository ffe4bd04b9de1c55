/** Field rules for a ship in a create request (every required field present
    and in range) and in an edit request (every present field in range). */
module Validation {
  import opened Ships

  /** 2800-01-01T00:00:00Z and 3019-12-31T00:00:00Z, in epoch milliseconds */
  const MinProdDate: int := 26192246400000
  const MaxProdDate: int := 33134659200000

  /** A name or planet is wrong when it is empty or longer than 50 characters. */
  predicate IsTextWrong(text: string): (r: bool)
    ensures r <==> !(1 <= |text| <= 50)
  {
    text == "" || |text| > 50
  }

  /** A speed is wrong outside 0.01 .. 0.99. */
  predicate IsSpeedWrong(speed: real): (r: bool)
    ensures r <==> !(0.01 <= speed <= 0.99)
  {
    speed < 0.01 || speed > 0.99
  }

  /** A crew size is wrong outside 1 .. 9999. */
  predicate IsCrewSizeWrong(crewSize: int): (r: bool)
    ensures r <==> !(1 <= crewSize <= 9999)
  {
    crewSize < 1 || crewSize > 9999
  }

  /** A production date is wrong when negative, before the minimum or after the maximum. */
  predicate IsDateWrong(millis: int): (r: bool)
    ensures r <==> !(MinProdDate <= millis <= MaxProdDate)
  {
    millis < 0 || millis < MinProdDate || millis > MaxProdDate
  }

  /** Each field rule accepts exactly an inclusive window; the date rule's test
      for a negative instant never decides anything, since the window starts
      far above zero. */
  lemma FieldRulesAreInclusiveWindows(text: string, speed: real, crewSize: int, millis: int)
    ensures !IsTextWrong(text) <==> 1 <= |text| <= 50
    ensures !IsSpeedWrong(speed) <==> 0.01 <= speed <= 0.99
    ensures !IsCrewSizeWrong(crewSize) <==> 1 <= crewSize <= 9999
    ensures !IsDateWrong(millis) <==> MinProdDate <= millis <= MaxProdDate
    ensures IsDateWrong(millis) <==> millis < MinProdDate || millis > MaxProdDate
  {
  }

  /** The six fields a create request must carry. */
  predicate RequiredPresent(s: Ship) {
    s.name.Some? && s.planet.Some? && s.shipType.Some?
    && s.prodDate.Some? && s.speed.Some? && s.crewSize.Some?
  }

  /** A create request is accepted iff the six required fields are present and
      each lies in its window; `used`, `rating` and `id` play no part. */
  predicate IsValidForAdd(s: Ship): (r: bool)
    ensures r <==>
      && RequiredPresent(s)
      && 1 <= |s.name.value| <= 50
      && 1 <= |s.planet.value| <= 50
      && MinProdDate <= s.prodDate.value <= MaxProdDate
      && 0.01 <= s.speed.value <= 0.99
      && 1 <= s.crewSize.value <= 9999
  {
    !(s.name.None?
      || s.planet.None?
      || s.shipType.None?
      || s.prodDate.None?
      || s.speed.None?
      || s.crewSize.None?
      || IsTextWrong(s.name.value)
      || IsTextWrong(s.planet.value)
      || IsDateWrong(s.prodDate.value)
      || IsSpeedWrong(s.speed.value)
      || IsCrewSizeWrong(s.crewSize.value))
  }

  /** An edit request is acceptable when every field it carries passes its rule;
      an absent field is not checked. */
  predicate ValidForEdit(p: Ship) {
    && (p.name.Some? ==> !IsTextWrong(p.name.value))
    && (p.planet.Some? ==> !IsTextWrong(p.planet.value))
    && (p.prodDate.Some? ==> !IsDateWrong(p.prodDate.value))
    && (p.speed.Some? ==> !IsSpeedWrong(p.speed.value))
    && (p.crewSize.Some? ==> !IsCrewSizeWrong(p.crewSize.value))
  }

  /** The edit check as the service runs it: a flag cleared by the first
      present field that fails its rule. */
  method IsValidForEdit(p: Ship) returns (flag: bool)
    ensures flag == ValidForEdit(p)
  {
    flag := true;
    if p.name.Some? {
      flag := flag && !IsTextWrong(p.name.value);
    }
    if p.planet.Some? {
      flag := flag && !IsTextWrong(p.planet.value);
    }
    if p.prodDate.Some? {
      flag := flag && !IsDateWrong(p.prodDate.value);
    }
    if p.speed.Some? {
      flag := flag && !IsSpeedWrong(p.speed.value);
    }
    if p.crewSize.Some? {
      flag := flag && !IsCrewSizeWrong(p.crewSize.value);
    }
  }

  /** An edit request carrying no field at all is accepted. */
  lemma EmptyPatchIsValidForEdit()
    ensures ValidForEdit(EmptyShip)
    ensures !IsValidForAdd(EmptyShip)
  {
  }

  /** The edit check never looks at ship type, usage, rating or id. */
  lemma EditIgnoresUncheckedFields(p: Ship, t: Option<ShipType>, u: Option<bool>, rating: Option<real>, id: Option<int>)
    ensures ValidForEdit(p) == ValidForEdit(p.(shipType := t, used := u, rating := rating, id := id))
  {
  }

  /** The create check never looks at usage, rating or id. */
  lemma AddIgnoresUnusedFields(s: Ship, u: Option<bool>, rating: Option<real>, id: Option<int>)
    ensures IsValidForAdd(s) == IsValidForAdd(s.(used := u, rating := rating, id := id))
  {
  }

  /** Every body accepted for a create is also accepted for an edit. */
  lemma ValidForAddIsValidForEdit(s: Ship)
    ensures IsValidForAdd(s) ==> ValidForEdit(s)
  {
  }
}
