/** The REST controller for ships: request parameters in, a status code and
    a body out.  Every endpoint answers 400 for a nonpositive id before it
    looks at the table, 404 for an id the table does not hold, 400 for a body
    that fails validation, and otherwise performs the action. */
module Controller {
  import opened Ships
  import opened Validation
  import opened Filters
  import opened Query
  import opened Service

  /** A response: status 200 with a body, 400 or 404. */
  datatype Response<T> = Ok(body: T) | BadRequest | NotFound

  /** The page the list endpoint returns when none is asked for, and its size */
  const DefaultPageNumber := 0
  const DefaultPageSize := 3

  class ShipRestController {
    const service: ShipService

    constructor (service: ShipService)
      ensures this.service == service
    {
      this.service := service;
    }

    ghost predicate Valid()
      reads service
    {
      service.Valid()
    }

    /** GET /ships: one page of the ships that pass all eight filters, in
        ascending id order. */
    function GetAllShips(f: Criteria, pageNumber: Option<int>, pageSize: Option<int>): (r: seq<Ship>)
      reads service
      requires pageNumber.GetOr(DefaultPageNumber) >= 0 && pageSize.GetOr(DefaultPageSize) >= 1
      ensures |r| <= pageSize.GetOr(DefaultPageSize)
      ensures forall i :: 0 <= i < |r| ==> Matches(f, r[i]) && r[i] in service.ships.Values
      ensures Valid() ==> IdsAscending(r)
      ensures var all := FindAll(service.ships, service.nextId, f);
        var start := pageNumber.GetOr(DefaultPageNumber) * pageSize.GetOr(DefaultPageSize);
        forall i :: start <= i < start + pageSize.GetOr(DefaultPageSize) && i < |all| ==> all[i] in r
      ensures var all := FindAll(service.ships, service.nextId, f);
        var start := pageNumber.GetOr(DefaultPageNumber) * pageSize.GetOr(DefaultPageSize);
        forall i :: 0 <= i < |r| ==> start + i < |all| && r[i] == all[start + i]
    {
      var number, size := pageNumber.GetOr(DefaultPageNumber), pageSize.GetOr(DefaultPageSize);
      var all := FindAll(service.ships, service.nextId, f);
      ListingPage(service.ships, service.nextId, f, number, size);
      WindowOnPage(all, number, size);
      Page(all, number, size)
    }

    /** GET /ships/count: the number of ships that pass every filter but the
        date range, which this endpoint does not apply. */
    function GetCount(f: Criteria): (n: int)
      reads service
      ensures n >= |FindAll(service.ships, service.nextId, f)|
      ensures f.after.None? && f.before.None? ==> n == |FindAll(service.ships, service.nextId, f)|
      ensures n == |FindAll(service.ships, service.nextId, f.(after := None, before := None))|
      ensures Valid() && f == NoCriteria ==> n == |service.ships|
    {
      CountBoundsListing(service.ships, service.nextId, f);
      CountOfEverything(service.ships, service.nextId);
      Count(service.ships, service.nextId, f)
    }

    /** POST /ships: 400 with the table untouched for a body that fails the
        create check; otherwise the ship is created and returned. */
    method AddShip(body: Ship) returns (r: Response<Ship>)
      requires Valid()
      modifies service
      ensures Valid()
      ensures r.Ok? <==> IsValidForAdd(body)
      ensures !r.Ok? ==> r == BadRequest
      ensures !r.Ok? ==> service.ships == old(service.ships) && service.nextId == old(service.nextId)
      ensures r.Ok? ==> service.nextId == old(service.nextId) + 1
      ensures r.Ok? ==>
        && old(service.nextId) !in old(service.ships)
        && r.body.id == Some(old(service.nextId))
        && service.ships == old(service.ships)[old(service.nextId) := r.body]
      ensures r.Ok? ==>
        && r.body.used == Some(body.used.GetOr(false))
        && r.body.(id := body.id, used := body.used, rating := body.rating) == body
        && service.Rateable(r.body) && r.body.rating == Some(service.RatingOf(r.body))
      ensures r.Ok? ==> GetShip(r.body.id.value) == Ok(r.body)
    {
      if IsValidForAdd(body) {
        var newShip := service.CreateShip(body);
        r := Ok(newShip);
      } else {
        r := BadRequest;
      }
    }

    /** GET /ships/{id}: 400 for a nonpositive id whatever the table holds,
        then the stored ship or 404. */
    function GetShip(id: int): (r: Response<Ship>)
      reads service
      ensures id <= 0 ==> r == BadRequest
      ensures id > 0 ==> (r.Ok? <==> id in service.ships)
      ensures id > 0 && id !in service.ships ==> r == NotFound
      ensures r.Ok? ==> r.body == service.ships[id]
      ensures Valid() && r.Ok? ==> r.body.id == Some(id) && IsValidForAdd(r.body)
    {
      if id <= 0 then BadRequest
      else if service.IsShipExist(id) then Ok(service.GetShip(id))
      else NotFound
    }

    /** POST /ships/{id}: the id is checked first, then existence, then the
        body; only when all three pass is the stored ship merged with the body
        and saved. */
    method EditShip(id: int, patch: Ship) returns (r: Response<Ship>)
      requires Valid()
      modifies service
      ensures Valid() && service.nextId == old(service.nextId)
      ensures id <= 0 ==> r == BadRequest
      ensures id > 0 && id !in old(service.ships) ==> r == NotFound
      ensures id > 0 && id in old(service.ships) && !ValidForEdit(patch) ==> r == BadRequest
      ensures r.Ok? <==> id > 0 && id in old(service.ships) && ValidForEdit(patch)
      ensures !r.Ok? ==> service.ships == old(service.ships)
      ensures r.Ok? ==>
        && service.ships == old(service.ships)[id := r.body]
        && r.body.(rating := old(service.ships[id].rating)) == Merged(old(service.ships[id]), patch)
        && service.Rateable(r.body) && r.body.rating == Some(service.RatingOf(r.body))
    {
      if id <= 0 {
        return BadRequest;
      }
      if !service.IsShipExist(id) {
        return NotFound;
      }
      var ok := IsValidForEdit(patch);
      if ok {
        var edited := service.EditShip(id, patch);
        r := Ok(edited);
      } else {
        r := BadRequest;
      }
    }

    /** DELETE /ships/{id}: 400 for a nonpositive id, 404 with the table
        untouched for a missing one, otherwise exactly that ship is removed. */
    method DeleteShip(id: int) returns (r: Response<()>)
      requires Valid()
      modifies service
      ensures Valid() && service.nextId == old(service.nextId)
      ensures id <= 0 ==> r == BadRequest
      ensures id > 0 && id !in old(service.ships) ==> r == NotFound
      ensures r.Ok? <==> id > 0 && id in old(service.ships)
      ensures !r.Ok? ==> service.ships == old(service.ships)
      ensures r.Ok? ==> service.ships == old(service.ships) - {id}
      ensures id > 0 ==> GetShip(id) == NotFound
    {
      if id <= 0 {
        return BadRequest;
      }
      if service.IsShipExist(id) {
        service.DeleteById(id);
        r := Ok(());
      } else {
        r := NotFound;
      }
    }
  }
}
