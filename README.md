# Cosmoport ship service, modelled in Dafny

This project models the core of the cosmoport ship service. The service is a
CRUD backend for one entity, the `Ship`. It has three parts:

- **Validation** of create and edit requests.
- **Create, edit, get and delete** over the ship table, with the rating
  recomputed on every create and edit.
- **Listing and counting** with eight optional filters that are ANDed
  together.

On top of these sits the REST controller. It answers 400 for a nonpositive
id, 404 for a missing id, 400 for a body that fails validation, and 200
otherwise.

Modules:

- `Ships` (`ships.dfy`): the `Ship` record. Every field is optional, as the
  Java fields are nullable.
- `Validation` (`validation.dfy`): the field rules, the create check and the
  edit check. The edit check is an imperative flag accumulation, as in the
  source.
- `Ratings` (`rating.dfy`): the rating formula with HALF_UP rounding to
  hundredths.
- `Filters` (`filters.dfy`): the eight `filterBy*` builders as predicates on
  a ship, and their AND-composition.
- `Query` (`query.dfy`): the repository query. It scans the table in id order
  with a WHERE predicate. On top of it sit the page slice and the count.
- `Service` (`service.dfy`): the edit merge, and the `ShipService` class.
  The class holds the ship table (`map<int, Ship>`) and its id generator.
  Its methods create, edit and delete in place.
- `Controller` (`controller.dfy`): the `ShipRestController` class over a
  shared `ShipService`.
  - The read-only endpoints are functions.
  - The mutating endpoints are methods that modify the service.

The class invariant `ShipService.Valid` says that every stored ship:

- is under a positive key below the generator;
- carries that key as its id;
- passes the create check;
- has a usage flag;
- carries the rating of its own speed, usage and production year.

Every mutating operation keeps this invariant.

The rating is computed by two collaborators that the service is built with:

- `yearOf`: the calendar year of an instant in the JVM's default calendar
  and time zone.
- `rate`: the rating formula.

`FormulaRated` states that these are the source's, with a Gregorian default
calendar:

- every accepted production date falls in a year of at most 3019;
- `rate` is `Ratings.Rating`.

Under `FormulaRated` every stored rating lies in 0 .. 79.2, and is a whole
number of hundredths.

The count endpoint applies every list filter except the date range.
`ShipRestController.java:75` is commented out, so `Count` ignores
`after`/`before`. `CountIgnoresDateRange` and `CountCanExceedListing` state
the consequence: with a date range, the count can exceed the number of ships
listed.

## Model

| member | source | states |
|---|---|---|
| Validation.IsCrewSizeWrong | src/main/java/com/space/service/ShipServiceImpl.java:76-80 | A crew size is rejected exactly outside 1 .. 9999. |
| Validation.IsSpeedWrong | src/main/java/com/space/service/ShipServiceImpl.java:82-86 | A speed is rejected exactly outside 0.01 .. 0.99. |
| Validation.IsDateWrong | src/main/java/com/space/service/ShipServiceImpl.java:88-94 | A date is rejected exactly outside MinProdDate .. MaxProdDate (2800-01-01 to 3019-12-31, UTC); the negative test adds nothing. |
| Validation.IsTextWrong | src/main/java/com/space/service/ShipServiceImpl.java:96-100 | A name or planet is rejected exactly when its length is outside 1 .. 50. |
| Validation.FieldRulesAreInclusiveWindows | src/main/java/com/space/service/ShipServiceImpl.java:76-100 | Each field rule accepts exactly an inclusive window: text length 1..50, speed 0.01..0.99, crew 1..9999, date MinProdDate..MaxProdDate. The `getTime() < 0` test never decides anything. |
| Validation.IsValidForAdd | src/main/java/com/space/service/ShipServiceImpl.java:40-52 | A create body is accepted iff the six required fields are present and each lies in its window. |
| Validation.AddIgnoresUnusedFields | src/main/java/com/space/service/ShipServiceImpl.java:40-52 | The create check never consults `used`, `rating` or `id`. |
| Validation.IsValidForEdit | src/main/java/com/space/service/ShipServiceImpl.java:55-74 | The flag accumulation returns exactly `ValidForEdit`: every present field passes its rule. |
| Validation.EmptyPatchIsValidForEdit | src/main/java/com/space/service/ShipServiceImpl.java:55-74 | A patch with no field passes the edit check, though it fails the create check. |
| Validation.EditIgnoresUncheckedFields | src/main/java/com/space/service/ShipServiceImpl.java:55-74 | The edit check never rejects for ship type, usage, rating or id. |
| Validation.ValidForAddIsValidForEdit | src/main/java/com/space/service/ShipServiceImpl.java:40-74 | Every body accepted for create is accepted for edit. |
| Ratings.RoundToCents | src/main/java/com/space/service/ShipServiceImpl.java:129-132 | HALF_UP rounding to two places gives a whole number of hundredths, within half a hundredth of the input (ties up). |
| Ratings.RoundToCentsMonotone | src/main/java/com/space/service/ShipServiceImpl.java:129-132 | Rounding never reverses an order. |
| Ratings.Rating | src/main/java/com/space/service/ShipServiceImpl.java:121-133 | The rating is within half a hundredth of 80 * speed * (0.5 if used) / (3019 - year + 1), and is a whole number of hundredths. |
| Ratings.RatingOfExample | src/main/java/com/space/service/ShipServiceImpl.java:121-133 | Speed 0.5, new, year 2800 rates 0.18. |
| Ratings.RatingBounds | src/main/java/com/space/service/ShipServiceImpl.java:121-133 | For an accepted speed and a year up to 3019, the rating is in 0 .. 79.2. |
| Ratings.RatingGrowsWithSpeed | src/main/java/com/space/service/ShipServiceImpl.java:121-133 | A faster ship never rates lower. |
| Ratings.RatingGrowsWithYear | src/main/java/com/space/service/ShipServiceImpl.java:121-133 | A newer ship never rates lower. |
| Ratings.UsedRatesNoHigher | src/main/java/com/space/service/ShipServiceImpl.java:129 | Before rounding, a used ship rates exactly half of a new one. After rounding it never rates higher. |
| Filters.FilterByName | src/main/java/com/space/service/ShipServiceImpl.java:192-195 | No name gives no constraint; otherwise the name column is present and the text occurs in it at some position. |
| Filters.FilterByPlanet | src/main/java/com/space/service/ShipServiceImpl.java:197-200 | No planet gives no constraint; otherwise the planet column is present and the text occurs in it at some position. |
| Filters.FilterByShipType | src/main/java/com/space/service/ShipServiceImpl.java:202-205 | No type gives no constraint; otherwise the type column is present and equal to it. |
| Filters.FilterByDate | src/main/java/com/space/service/ShipServiceImpl.java:207-224 | No bound gives no constraint; otherwise the date column is present and `after <=` it and it `<= before` for each bound given. |
| Filters.FilterByUsage | src/main/java/com/space/service/ShipServiceImpl.java:226-235 | No flag gives no constraint; otherwise the usage column is present and equal to it (isTrue / isFalse). |
| Filters.FilterBySpeed | src/main/java/com/space/service/ShipServiceImpl.java:237-249 | No bound gives no constraint; otherwise the speed column is present and within each bound given, inclusively. |
| Filters.FilterByCrewSize | src/main/java/com/space/service/ShipServiceImpl.java:251-263 | No bound gives no constraint; otherwise the crew size column is present and within each bound given, inclusively. |
| Filters.FilterByRating | src/main/java/com/space/service/ShipServiceImpl.java:265-277 | No bound gives no constraint; otherwise the rating column is present and within each bound given, inclusively. |
| Filters.Matches | src/main/java/com/space/controller/ShipRestController.java:47-54 | A ship passes the AND of the eight filters iff every criterion given holds of its column. |
| Filters.IntRange | src/main/java/com/space/service/ShipServiceImpl.java:207-263 | The tri-state range test of `filterByDate` and `filterByCrewSize` is true iff no bound is given, or the column is present and within every given bound. |
| Filters.RealRange | src/main/java/com/space/service/ShipServiceImpl.java:237-277 | The same tri-state range test on a real column, as in `filterBySpeed` and `filterByRating`. |
| Filters.AbsentFiltersMatchEverything | src/main/java/com/space/service/ShipServiceImpl.java:192-277 | Each filter with all its arguments absent matches every ship, and so does their AND. |
| Filters.TextAndEqualityFilters | src/main/java/com/space/service/ShipServiceImpl.java:192-235 | Name and planet are substring tests. Ship type and usage are equality tests. An absent column fails. |
| Filters.ContainsItselfAndEmpty | src/main/java/com/space/service/ShipServiceImpl.java:193-195 | A name filter matches the whole name, and the empty text matches every name. |
| Filters.RangeShapes | src/main/java/com/space/service/ShipServiceImpl.java:207-263 | Date and crew ranges: only min gives `>= min`, only max gives `<= max`, both give the inclusive range (empty when min > max), neither gives no constraint. An absent column fails a bound. |
| Filters.RealRangeShapes | src/main/java/com/space/service/ShipServiceImpl.java:237-277 | The same four shapes for the speed and rating ranges. |
| Filters.RangeIsConjunctionOfBounds | src/main/java/com/space/service/ShipServiceImpl.java:207-224 | A two-sided range matches exactly what both one-sided ranges match. |
| Query.Select | src/main/java/com/space/service/ShipServiceImpl.java:34-37 | The id scan returns strictly ascending ids. Each is stored and accepted, and every stored accepted id in range is returned. |
| Query.ListingSize | src/main/java/com/space/service/ShipServiceImpl.java:34-37 | The scan has exactly one entry per stored accepted id. |
| Query.FindAll | src/main/java/com/space/service/ShipServiceImpl.java:34-37 | Every listed ship is stored and matches. Every stored matching ship is listed. When ids are the keys, the listing is in ascending id order. |
| Query.ListingMonotone | src/main/java/com/space/controller/ShipRestController.java:47-55 | Narrower criteria never list more ships. |
| Query.Page | src/main/java/com/space/controller/ShipRestController.java:45 | A page is the contiguous slice starting at pageNumber * pageSize. It has at most pageSize elements: full when enough remain, the remainder on the last page. |
| Query.WindowOnPage | src/main/java/com/space/controller/ShipRestController.java:45 | Every listing element at a position in the page's window is on the page. |
| Query.EveryElementOnItsPage | src/main/java/com/space/controller/ShipRestController.java:45 | Element i of the listing is element i % size of page i / size. |
| Query.PageKeepsOrder | src/main/java/com/space/controller/ShipRestController.java:45 | A page of an id-ordered listing is id-ordered. |
| Query.ListingPage | src/main/java/com/space/controller/ShipRestController.java:45-55 | A page of the listing holds only stored matching ships, in id order. |
| Query.Count | src/main/java/com/space/controller/ShipRestController.java:72-79 | The count is the number of stored ids whose ship matches every criterion but the date range. |
| Query.CountOfEverything | src/main/java/com/space/controller/ShipRestController.java:72-79 | With no parameter the count is the number of stored ships. |
| Query.CountIgnoresDateRange | src/main/java/com/space/controller/ShipRestController.java:75 | The count never depends on `after` or `before`. |
| Query.CountBoundsListing | src/main/java/com/space/controller/ShipRestController.java:72-79 | The count is at least the full listing's length, and equal to it when no date bound is given. |
| Query.CountCanExceedListing | src/main/java/com/space/controller/ShipRestController.java:75 | A one-ship table with `after` past its date lists nothing but counts one. |
| Service.Merged | src/main/java/com/space/service/ShipServiceImpl.java:139-158 | Each of the seven editable fields is the patch value when the patch carries one, else the stored value; id and rating are the stored ones. |
| Service.MergeEmptyPatch | src/main/java/com/space/service/ShipServiceImpl.java:139-158 | A patch with no field leaves the ship unchanged. |
| Service.MergeIdempotent | src/main/java/com/space/service/ShipServiceImpl.java:139-158 | Applying a patch twice equals applying it once. |
| Service.MergeComposes | src/main/java/com/space/service/ShipServiceImpl.java:139-158 | Two edits equal one edit with the second patch laid over the first. |
| Service.MergeIgnoresPatchIdAndRating | src/main/java/com/space/service/ShipServiceImpl.java:139-158 | The merge keeps the stored id and rating, whatever the patch carries in those fields. |
| Service.EditCheckIsMergedCreateCheck | src/main/java/com/space/service/ShipServiceImpl.java:55-74 | Over a valid stored ship, a patch passes the edit check iff the merged ship passes the create check. |
| Service.ApplyPatch | src/main/java/com/space/service/ShipServiceImpl.java:139-158 | The seven setter steps compute the merge. |
| Service.ShipService.RatingOf | src/main/java/com/space/service/ShipServiceImpl.java:121-133 | The rating of a ship from its speed, usage and year; with the source's collaborators and a create-valid ship it is `Ratings.Rating` of those. |
| Service.ShipService.StoredRatingBounds | src/main/java/com/space/service/ShipServiceImpl.java:121-133 | With the source's collaborators, every stored rating is in 0 .. 79.2 and a whole number of hundredths. |
| Service.ShipService.IsShipExist | src/main/java/com/space/service/ShipServiceImpl.java:173-179 | A ship exists only under a positive id below the generator. |
| Service.ShipService.GetShip | src/main/java/com/space/service/ShipServiceImpl.java:181-184 | The stored ship carries its id, passes the create check and carries its own rating. |
| Service.ShipService.CreateShip | src/main/java/com/space/service/ShipServiceImpl.java:110-119 | Stores the body under a fresh id, with usage defaulted to false only when absent. The client's rating is replaced by the computed one. Every other field is the client's, no other entry changes, and the invariant is kept. |
| Service.ShipService.EditShip | src/main/java/com/space/service/ShipServiceImpl.java:135-164 | The stored ship becomes the merge of the old ship and the patch. Its id is kept and its rating is recomputed from the merged ship. No other entry changes. An edit that changes nothing leaves the table as it was. |
| Service.ShipService.MergedIsPersisted | src/main/java/com/space/service/ShipServiceImpl.java:136-161 | An accepted edit yields a ship that keeps the table invariant. |
| Service.ShipService.DeleteById | src/main/java/com/space/service/ShipServiceImpl.java:186-190 | Exactly that key is removed, and the invariant is kept. |
| Controller.ShipRestController.GetAllShips | src/main/java/com/space/controller/ShipRestController.java:45-55 | At most pageSize ships, each stored and passing all eight filters, in ascending id order. The page is exactly the listing from position pageNumber * pageSize on, and every matching ship in its window is on it. |
| Controller.ShipRestController.GetCount | src/main/java/com/space/controller/ShipRestController.java:72-79 | The count is the number of ships matching every filter but the date range. It is at least the listing length, and equal to it without dates. With no parameter it is the table size. |
| Controller.ShipRestController.AddShip | src/main/java/com/space/controller/ShipRestController.java:82-89 | Returns 200 iff the create check passes. Otherwise it returns 400 with the table unchanged. On success the created ship is stored under a fresh id, the id generator advances by one, and a later get returns the ship. |
| Controller.ShipRestController.GetShip | src/main/java/com/space/controller/ShipRestController.java:91-100 | Returns 400 for id <= 0 whatever is stored. Otherwise it returns 200 with the stored ship iff it exists, and 404 if not. |
| Controller.ShipRestController.EditShip | src/main/java/com/space/controller/ShipRestController.java:102-114 | Returns 400 for id <= 0, then 404 for a missing id, then 400 for a failing body. On every error the table is unchanged. On success the stored ship is the merge, with its rating recomputed. |
| Controller.ShipRestController.DeleteShip | src/main/java/com/space/controller/ShipRestController.java:116-126 | Returns 400 for id <= 0 and 404 for a missing id, with the table unchanged. Otherwise exactly that ship is removed, and a later get answers 404. |

## Left out

- Floating point: speed and rating are exact reals, not `Double`.
  - `Ratings.Rating` rounds the exact quotient. The source rounds a double
    computed in rounded steps, so the two can differ when the exact quotient
    is at or very near a half-hundredth.
- The year of a production date: `yearOf` stands for `Calendar` in the JVM's
  default locale and time zone, and only its upper bound is stated
  (`FormulaRated`). `FormulaRated` assumes a Gregorian default calendar.
  Under a locale whose default calendar is not Gregorian, such as the
  Buddhist calendar of th_TH, the year is larger and the divisor
  `3019 - year + 1` turns negative.
- Integer widths: `Long` ids, `Integer` crew sizes and the `Long` filter
  bounds are unbounded integers. `String.length()` counts UTF-16 units, while
  the model counts characters.
- LIKE patterns: `%` or `_` in a name or planet filter is matched
  literally, and database collation (case folding) is not modelled.
- Sort orders: only the default order, ascending id, is modelled. The
  `ShipOrder` enum is not part of this model.
- Controller.ShipRestController.GetAllShips: requires a nonnegative page
  number and a positive page size. In the source, `PageRequest.of` throws for
  other values.
- Service.ShipService.GetShip: requires a stored id. In the source,
  `Optional.get()` throws otherwise, and the controller checks existence
  first.
- Service.ShipService.EditShip: requires a stored id, for the same reason.
  It also requires a patch that passed the edit check, as the controller is
  its only caller. The source's `editShip` validates nothing itself. Its
  contract states the new ship as a whole through `Merged`, whose own
  contract gives each field.
- Service.ShipService.CreateShip: requires a body that passed the create
  check, as the controller is its only caller. Any id in the body is ignored
  and a fresh one is generated.
  - The source passes a client id through to `save`, whose effect depends on
    the entity mapping. The `Ship` entity is not part of this model.
- Service.ShipService.DeleteById: removing a missing key leaves the table
  unchanged. The Spring Data exception for a missing id is not modelled, and
  the controller never reaches it.
- Null path ids and the always-true `instanceof Long` test: a path id is
  always an integer here.
- Logging, dependency injection, HTTP serialisation and the storage engine are
  not modelled; the table is a map.
- `ShipController.java` is not part of this model. It is an older duplicate of
  the same routes, calling service methods that do not exist.
- `ShipService.java` is only the service interface, so it has nothing to
  model beyond the implementation.
