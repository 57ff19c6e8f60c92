# Transport company backend: verified model of its core

This project models the logic of a Spring/JPA backend for a transport company. The company has drivers, customers and vehicles, and carries cargo and passengers for its customers. Most of that backend passes data straight to repositories. The parts modelled here hold actual rules:

- **Company report** (`ReportController`, `report_controller.dfy`). Given a company's passenger and cargo transports whose end date lies in a window, it computes:
  - the two counts;
  - the paid revenue;
  - the tagged list of unpaid transports;
  - one summary per distinct driver (completed transports and paid revenue).

  The aggregation is a pure function over two sequences. The endpoint resolves the window defaults (1970-01-01 and today) and answers not-found for an unknown company.
- **Transport admission** (`CargoTransportController`, `PassengerTransportController`, `References`). Create and update run an ordered pipeline, and the first failing step decides the error:
  1. resolve the company;
  2. resolve the driver, customer and vehicle among that company's own;
  3. require a TRUCK or a BUS;
  4. require the load to fit the capacity;
  5. require the start date not to be after the end date.

  A created record is unpaid. An update keeps the path id, takes the paid flag from the request and resolves references against the stored record's company.
- **Older transport controller** (`TransportController`). It answers with bare status codes. It resolves references only, with no type, capacity or date check, and maps any exception during create to a server error.
- **Query predicates** (`TransportSpecification`):
  - destination equality;
  - company id;
  - an inclusive end-date window;
  - `findAll` over a store;
  - pages of 20.
- **Query-string parsers** (`Common`, over the `String.split` and `toUpperCase` model in `JavaText`). `sortBy` turns `"p=asc,q=desc"` into sort orders. `likeFilter` turns `"p=v"` into a case-insensitive substring test. Both loops are imperative methods, each proved equal to a left-to-right fold function. The quirks are stated as lemmas about those folds:
  - only lower-case directions count;
  - all-skipped input gives null;
  - a missing value raises;
  - a recognised direction on a property without text raises, as Spring's `Sort.by` refuses it;
  - the last filter pair wins.
- **Driver and qualification link** (`Drivers`, `QualificationController`). `Driver` and `Qualification` are classes whose sets point at each other, and add/remove update both sides. The qualification endpoints run on a `Controller` class that holds the two repositories as sets and keeps a `Valid()` invariant:
  - the link agrees on both sides;
  - ids are unique;
  - qualification types are unique;
  - the id sequence is ahead of every id.

Dates are day numbers (0 is 1970-01-01). Prices are whole minor units. The clock (`LocalDate.now()`) is the parameter `today`. The id a repository assigns on save is a parameter, and for the older controller `None` means that saving threw.

The unpaid list holds the unpaid passenger transports first and the unpaid cargo transports after them (`src/main/java/com/tc/controller/ReportController.java:83-92`).

Where the code names fields inconsistently, the model takes the names the controllers use:

- `isPaid` and `driver`, not `isPayed` and `employee` as in `Transport.java`;
- the five report fields the controller passes, not the four the response record declares.

## Model

| member | source | states |
|---|---|---|
| Entities.FindFirst | src/main/java/com/tc/controller/CargoTransportController.java:249-259 | `stream().filter(id matches).findFirst()`: None exactly when no element has the id; otherwise an element with that id that no earlier element shares |
| Entities.FindFirstBoxed | src/main/java/com/tc/controller/CargoTransportController.java:249-250 | the same search with `==` on boxed `Long` ids: the value search for ids in -128..127, nothing found for any other id |
| TransportSpecification.HasDestination | src/main/java/com/tc/specification/TransportSpecification.java:10-14 | a transport matches exactly when its end address equals the destination, compared exactly |
| TransportSpecification.HasCompanyId | src/main/java/com/tc/specification/TransportSpecification.java:16-21 | a transport matches exactly when its company's id is the given id |
| TransportSpecification.EndDateInRange | src/main/java/com/tc/specification/TransportSpecification.java:23-27 | a transport matches exactly when start <= its end date <= end, both ends included |
| TransportSpecification.ListingFilter | src/main/java/com/tc/controller/CargoTransportController.java:65-68 | the company filter, and the destination filter only when a destination is given |
| TransportSpecification.EmptyWindowMatchesNothing | src/main/java/com/tc/specification/TransportSpecification.java:23-27 | a window that starts after it ends admits no transport |
| TransportSpecification.StartDateIgnored | src/main/java/com/tc/specification/TransportSpecification.java:25 | only the end date is consulted: changing a transport's start date never changes whether it is in the window |
| TransportSpecification.FindAll | src/main/java/com/tc/controller/ReportController.java:71-81 | `findAll(spec)`: a record is in the result exactly when it is stored and satisfies the specification, and the result is no longer than the store |
| TransportSpecification.FindAllCounts | src/main/java/com/tc/controller/ReportController.java:71-81 | each matching record is kept exactly as often as the store holds it, and no other record is kept |
| TransportSpecification.FindAllAppend | src/main/java/com/tc/controller/ReportController.java:83-92 | selecting from two sequences in turn is selecting from their concatenation, order kept |
| TransportSpecification.Page | src/main/java/com/tc/controller/CargoTransportController.java:69 | a page holds min(20, records left after page*20) records, so a partial last page keeps the whole tail and a page past the end is empty; the i-th is record page*20+i |
| TransportSpecification.FindPage | src/main/java/com/tc/controller/CargoTransportController.java:69 | fails exactly for a negative page index; otherwise the page of that index of the matching records (so at most 20, each stored and matching) |
| TransportSpecification.FirstPageIsEverything | src/main/java/com/tc/controller/CargoTransportController.java:69 | page 0 of a selection of at most 20 records is the whole selection in store order |
| References.GetReferences | src/main/java/com/tc/controller/CargoTransportController.java:243-262 | not found exactly when the company is missing; otherwise bad request naming the first of driver, customer, vehicle (in that order) that the company lacks, and each error iff its condition; success resolves all four with the requested ids, each from the company's own collections |
| References.GetReferencesAsWritten | src/main/java/com/tc/controller/CargoTransportController.java:249-259 | the lookup as written agrees with GetReferences when all three ids are in -128..127, and, when the company exists, answers "no such driver" for any driver id outside it |
| References.LargeIdRejectedAsWritten | src/main/java/com/tc/controller/CargoTransportController.java:249-251 | a company whose driver, customer and vehicle have id 200: resolved by GetReferences, rejected with "no such driver" as written |
| CargoTransportController.CheckCargo | src/main/java/com/tc/controller/CargoTransportController.java:103-113 | passes iff type is exactly TRUCK, weight <= capacity and start <= end; otherwise the first failing check in that order gives its error |
| CargoTransportController.CreateCargoTransport | src/main/java/com/tc/controller/CargoTransportController.java:97-128 | a reference error wins, then the vehicle checks; success iff both pass, and the record carries the request's fields, the new id, unpaid, linked to the company's resolved driver, customer and vehicle |
| CargoTransportController.UpdateCargoTransport | src/main/java/com/tc/controller/CargoTransportController.java:188-226 | unknown id gives not found; success keeps the path id, takes the paid flag from the request, links within the stored record's company and satisfies the truck, weight and date rules |
| CargoTransportController.UpdateAgreesWithCreate | src/main/java/com/tc/controller/CargoTransportController.java:188-224 | update equals create against the stored record's company with the path id, with the paid flag replaced by the request's |
| CargoTransportController.FullTruckOnOneDayAccepted | src/main/java/com/tc/controller/CargoTransportController.java:107-113 | weight equal to capacity and equal start and end dates pass |
| CargoTransportController.TypeComparedExactly | src/main/java/com/tc/controller/CargoTransportController.java:103-105 | a vehicle typed "truck" in lower case is rejected as not a truck |
| CargoTransportController.ListCargoTransports | src/main/java/com/tc/controller/CargoTransportController.java:63-69 | not found for an unknown company, the page error for a negative page, success exactly otherwise; the result is that page of the company's stored cargo transports to the destination (when one is given), in store order |
| PassengerTransportController.CheckPassengers | src/main/java/com/tc/controller/PassengerTransportController.java:106-116 | passes iff type is exactly BUS, passengers <= capacity and start <= end; otherwise the first failing check gives its error |
| PassengerTransportController.CreatePassengerTransport | src/main/java/com/tc/controller/PassengerTransportController.java:100-131 | reference error first, then the bus checks; success iff both pass, with the request's fields, unpaid, linked to the company's resolved entities |
| PassengerTransportController.UpdatePassengerTransport | src/main/java/com/tc/controller/PassengerTransportController.java:175-211 | unknown id gives not found; success keeps the path id, takes the paid flag from the request and links within the stored record's company |
| PassengerTransportController.UpdateAgreesWithCreate | src/main/java/com/tc/controller/PassengerTransportController.java:175-209 | update equals create against the stored record's company with the path id and the request's paid flag |
| PassengerTransportController.FullBusOnOneDayAccepted | src/main/java/com/tc/controller/PassengerTransportController.java:110-116 | a full bus on a one-day trip passes |
| PassengerTransportController.TypeComparedExactly | src/main/java/com/tc/controller/PassengerTransportController.java:106-108 | a vehicle typed "bus" in lower case is rejected as not a bus |
| PassengerTransportController.ListPassengerTransports | src/main/java/com/tc/controller/PassengerTransportController.java:71-78 | as for cargo: not found, page error, success exactly otherwise, and the result is that page of the company's stored passenger transports to the destination |
| TransportController.LookUpIsGetReferences | src/main/java/com/tc/controller/TransportController.java:82-104 | the inline lookups resolve the same references as `getReferences` and fail with the status of its error (not found, then bad request for driver, customer, vehicle) |
| TransportController.ListCargoTransports | src/main/java/com/tc/controller/TransportController.java:55-59 | NOT_FOUND exactly for an unknown company; otherwise the store's selection of the company's cargo transports, in store order |
| TransportController.ListPassengerTransports | src/main/java/com/tc/controller/TransportController.java:146-150 | NOT_FOUND exactly for an unknown company; otherwise the store's selection of the company's passenger transports, in store order |
| TransportController.ListingCounts | src/main/java/com/tc/controller/TransportController.java:55-59 | both listings hold each of the company's stored records exactly as often as the store does, and no other record |
| TransportController.CreateCargoTransport | src/main/java/com/tc/controller/TransportController.java:81-140 | lookup status first; a failed save gives INTERNAL_SERVER_ERROR; success iff both succeed, an unpaid record with the request's fields linked to the resolved entities |
| TransportController.CreatePassengerTransport | src/main/java/com/tc/controller/TransportController.java:172-227 | the same for passenger transports |
| TransportController.CargoAdmitsMore | src/main/java/com/tc/controller/TransportController.java:106-123 | with resolvable references the older create always succeeds, and whenever the newer one succeeds both give the same record |
| TransportController.PassengerAdmitsMore | src/main/java/com/tc/controller/TransportController.java:196-211 | the same comparison for passenger transports |
| JavaText.PiecesFreeOfSeparator | src/main/java/com/tc/specification/Common.java:14 | no piece of a split contains the separator |
| JavaText.JoinPieces | src/main/java/com/tc/specification/Common.java:14 | joining the pieces with the separator gives back the input |
| JavaText.Split | src/main/java/com/tc/specification/Common.java:14-16 | `String.split` with a one-character pattern; its contract is stated by JavaText.SplitTrims and JavaText.JoinPieces |
| JavaText.SplitTrims | src/main/java/com/tc/specification/Common.java:14-16 | [""] for the empty string; otherwise the pieces between separators with only the trailing empty ones dropped, none holding the separator |
| JavaText.SplitHasSecond | src/main/java/com/tc/specification/Common.java:16-18 | `split` yields a second element iff some later piece is non-empty (trailing empty strings are dropped) |
| JavaText.SplitWithoutSeparator | src/main/java/com/tc/specification/Common.java:14 | a string without the separator splits into itself alone |
| JavaText.SplitPair | src/main/java/com/tc/specification/Common.java:16-18 | "key=value" with plain non-empty value splits into exactly [key, value] |
| JavaText.UpperIdempotent | src/main/java/com/tc/specification/Common.java:47 | upper-casing twice is upper-casing once |
| JavaText.Contains | src/main/java/com/tc/specification/Common.java:47 | the LIKE "%v%" test: true iff the needle occurs at some position of the text |
| Common.SortEntry | src/main/java/com/tc/specification/Common.java:16-31 | one loop step: raises the index error iff the item has no value, the blank-property error for "asc"/"desc" on a property without text, otherwise the sort after appending the item's order (or unchanged when skipped) |
| Common.SortBy | src/main/java/com/tc/specification/Common.java:9-34 | null for null; otherwise the orders of the recognised items in input order, null when there are none, or the error of the first item that raises |
| Common.ParseOrdersFailureStays | src/main/java/com/tc/specification/Common.java:15-18 | once an item raises, the rest of the input does not change the outcome |
| Common.ParseOrdersAppend | src/main/java/com/tc/specification/Common.java:15-32 | the orders of a concatenated input are the orders of the first part followed by those of the second |
| Common.AllSkippedGivesNull | src/main/java/com/tc/specification/Common.java:13-33 | when every item's value is neither "asc" nor "desc" the result is null, not an empty sort |
| Common.ParseErrors | src/main/java/com/tc/specification/Common.java:16-29 | `sortBy` raises only the index error or the blank-property error, and only the index error when every recognised item's property has text |
| Common.MissingValueRaises | src/main/java/com/tc/specification/Common.java:16-18 | one item without a value ("a", "a=", "") anywhere makes the call raise, with the index error when no property is blank |
| Common.BlankPropertyRaises | src/main/java/com/tc/specification/Common.java:19-21 | "=asc" raises the blank-property error instead of sorting by an empty name |
| Common.SingleItem | src/main/java/com/tc/specification/Common.java:14-18 | a single plain "property=value" input is the one item [property, value] |
| Common.UpperCaseDirectionIgnored | src/main/java/com/tc/specification/Common.java:19-31 | "p=ASC" yields null: direction matching is case-sensitive |
| Common.LowerCaseDirectionRecognised | src/main/java/com/tc/specification/Common.java:19-21 | "p=asc" with a property that has text yields the single ascending order on p |
| Common.LikeFilter | src/main/java/com/tc/specification/Common.java:36-39 | null input gives null specification, any other input a specification over that input |
| Common.LikeItem | src/main/java/com/tc/specification/Common.java:44-47 | one loop step: index error without a value, unknown-attribute error for an unknown property, else the upper-cased substring test on that property |
| Common.ToPredicate | src/main/java/com/tc/specification/Common.java:40-51 | the loop's predicate is the fold over all items: null for no items, else the last item's test, or the first error |
| Common.PredicateFailureStays | src/main/java/com/tc/specification/Common.java:43-48 | once an item raises, later items do not change the outcome |
| Common.LastPairWins | src/main/java/com/tc/specification/Common.java:43-50 | with well-formed items the predicate is the last item's test, and null with no items |
| Common.EarlierPairsIgnored | src/main/java/com/tc/specification/Common.java:43-50 | well-formed items before a non-empty list do not change the predicate |
| Common.MatchesOwnValue | src/main/java/com/tc/specification/Common.java:47 | a row matches a filter on its own value however that value is cased |
| Common.MissingAttributeNeverMatches | src/main/java/com/tc/specification/Common.java:47 | a test on an attribute the row lacks never holds |
| Drivers.Qualification.constructor | src/main/java/com/tc/model/Qualification.java:29-36 | a new qualification of the given type held by no driver |
| Drivers.Driver.constructor | src/main/java/com/tc/model/Driver.java:44-53 | names and salary from the arguments and an empty qualification set |
| Drivers.Driver.AddQualification | src/main/java/com/tc/model/Driver.java:99-102 | q joins the driver's set and the driver joins q's, nothing else changes, and adding a held qualification is a no-op |
| Drivers.Driver.RemoveQualification | src/main/java/com/tc/model/Driver.java:104-111 | no held qualification with the id: nothing changes; otherwise it leaves the driver's set and the driver leaves its set, every other qualification untouched |
| Drivers.Driver.RemoveQualificationAsWritten | src/main/java/com/tc/model/Driver.java:104-111 | with `==` on boxed ids: for an id outside -128..127 nothing changes on either side; an id no qualification has changes nothing; inside the cache a match leaves both sides as RemoveQualification does, every other qualification untouched |
| QualificationController.Controller.constructor | src/main/java/com/tc/controller/QualificationController.java:37-40 | a controller over consistent repositories starts in a Valid() state holding them |
| QualificationController.Controller.GetQualificationsByDriverId | src/main/java/com/tc/controller/QualificationController.java:72-80 | not found exactly for an unknown driver; otherwise one response per qualification the driver holds, and no other |
| QualificationController.Controller.CreateQualification | src/main/java/com/tc/controller/QualificationController.java:88-111 | keeps Valid(); unknown driver: not found with nothing changed, the id sequence included; otherwise the driver gains the one qualification of that type, reused when it existed (no new id) and created with the next id when not; other drivers unchanged |
| QualificationController.Controller.LinkExisting | src/main/java/com/tc/controller/QualificationController.java:97-103 | the reuse branch links driver and stored qualification on both sides and keeps Valid() |
| QualificationController.Controller.LinkNew | src/main/java/com/tc/controller/QualificationController.java:106-109 | the create branch stores a fresh qualification with the next id and type, linked only to the driver, and keeps Valid() |
| QualificationController.Controller.DeleteQualification | src/main/java/com/tc/controller/QualificationController.java:118-125 | keeps Valid(); not found exactly for an unknown driver; otherwise the driver loses exactly its qualifications of that id (none lost is still success), other drivers and qualifications unchanged |
| ReportController.DistinctById | src/main/java/com/tc/controller/ReportController.java:101-103 | the kept drivers have pairwise distinct ids, all taken from the input |
| ReportController.DistinctKeeps | src/main/java/com/tc/controller/ReportController.java:101-103 | every input driver id not yet seen is kept |
| ReportController.DistinctFirstOccurrences | src/main/java/com/tc/controller/ReportController.java:101-103 | each kept driver is the first input occurrence of its id |
| ReportController.DistinctInFirstOrder | src/main/java/com/tc/controller/ReportController.java:101-103 | kept drivers are ordered by the position of their id's first occurrence |
| ReportController.DistinctIsShorter | src/main/java/com/tc/controller/ReportController.java:101-103 | deduplication never lengthens the list |
| ReportController.Aggregate | src/main/java/com/tc/controller/ReportController.java:83-136 | first field is the passenger count, second the cargo count, and there are no more driver rows than records |
| ReportController.PaidTotal | src/main/java/com/tc/controller/ReportController.java:94-99 | with non-negative prices, the paid total is non-negative and at least the price of each paid record |
| ReportController.PaidTotalAppend | src/main/java/com/tc/controller/ReportController.java:94-99 | paid revenue of a concatenation is the sum of the parts |
| ReportController.PaidTotalPermutation | src/main/java/com/tc/controller/ReportController.java:94-99 | paid revenue does not depend on record order |
| ReportController.NothingPaidNoRevenue | src/main/java/com/tc/controller/ReportController.java:94-99 | with no paid record revenue is zero, in total and per driver |
| ReportController.CountByAppend | src/main/java/com/tc/controller/ReportController.java:106-112 | a driver's count over a concatenation is the sum of the counts |
| ReportController.RevenueByAppend | src/main/java/com/tc/controller/ReportController.java:114-125 | a driver's revenue over a concatenation is the sum of the revenues |
| ReportController.Partition | src/main/java/com/tc/controller/ReportController.java:105-129 | over distinct drivers covering every record, per-driver counts sum to the record count and per-driver revenue to the paid total |
| ReportController.RowSums | src/main/java/com/tc/controller/ReportController.java:105-129 | the rows' count and revenue columns sum to the per-driver sums |
| ReportController.ListedCoverRecords | src/main/java/com/tc/controller/ReportController.java:101-103 | listed drivers are distinct and every record's driver is listed |
| ReportController.ReportPartition | src/main/java/com/tc/controller/ReportController.java:105-136 | completed transports over all drivers sum to passengers + cargo, and driver revenues sum to totalRevenue |
| ReportController.ReportRevenue | src/main/java/com/tc/controller/ReportController.java:94-99 | totalRevenue is the paid prices of both kinds, zero when nothing is paid |
| ReportController.UnpaidRefsRefer | src/main/java/com/tc/controller/ReportController.java:83-91 | each reference carries its kind tag and the id of an unpaid record of that kind |
| ReportController.UnpaidListOrder | src/main/java/com/tc/controller/ReportController.java:83-92 | the list is the unpaid passenger records in input order tagged "passenger", then the unpaid cargo records tagged "cargo", its length their number |
| ReportController.UnpaidListRefers | src/main/java/com/tc/controller/ReportController.java:83-92 | no reference points at anything but an unpaid record of its kind |
| ReportController.ReportUnpaid | src/main/java/com/tc/controller/ReportController.java:83-135 | the report's unpaid field has that order, tags, length and contents |
| ReportController.ReportDriversOnce | src/main/java/com/tc/controller/ReportController.java:101-103 | each driver id of either list appears exactly once among the rows |
| ReportController.ReportDriversOrder | src/main/java/com/tc/controller/ReportController.java:101-105 | rows name each driver as first seen scanning passengers then cargo, in that order of first appearance |
| ReportController.ReportDriverFigures | src/main/java/com/tc/controller/ReportController.java:105-128 | each row's count is its driver's records of both kinds (at least 1) and its revenue their paid prices |
| ReportController.UnpaidDriverRevenue | src/main/java/com/tc/controller/ReportController.java:114-125 | a driver whose records are all unpaid earns zero |
| ReportController.ReportUnpaidDriver | src/main/java/com/tc/controller/ReportController.java:105-128 | a listed driver with only unpaid records has revenue 0 and a positive count |
| ReportController.CountByPositive | src/main/java/com/tc/controller/ReportController.java:106-112 | a driver of some record has count at least 1 |
| ReportController.EmptyReport | src/main/java/com/tc/controller/ReportController.java:83-136 | no records: zero counts, zero revenue, empty lists |
| ReportController.ResolveWindow | src/main/java/com/tc/controller/ReportController.java:63-64 | missing fromDate is 1970-01-01, missing toDate is today, given dates are kept |
| ReportController.GetCompanyReport | src/main/java/com/tc/controller/ReportController.java:61-81 | not found exactly for an unknown company; otherwise the aggregate of the store's passenger and cargo selections for the company and the resolved inclusive window |
| ReportController.ReportInputs | src/main/java/com/tc/controller/ReportController.java:61-81 | the report's inputs hold each of the company's in-window records exactly as often as the store does, and nothing else, and its two counts are their sizes |
| ReportController.WorkedExample | src/main/java/com/tc/controller/ReportController.java:83-136 | a paid cargo (100) and an unpaid passenger (50) by one driver: counts 1 and 1, revenue 100, unpaid [2 "passenger"], one row with 2 transports and 100 |

## Left out

- The HTTP layer: `ResponseEntity`, mappings and OpenAPI annotations. Errors are a status and a message.
- Repositories and JPA: `findById`, `findAll`, `save`, `deleteById`, criteria building and `Specification.where/and`. Stores are sequences or sets. The id assigned on save is a parameter. A record that setters build and `save` persists is built as one value.
- Paging is modelled as a plain slice of 20. Every `findAll` result, paged or not, is taken in store order. That includes the report's two queries, whose order decides the order of the unpaid list and of the driver rows.
- `LocalDate.now()` is the parameter `today`.
- `Util.distinctByKey` is not part of this model. It is specified as keeping the first occurrence per driver id.
- Bean Validation on the request records is used only as preconditions (positive weight, passenger count and price). `@NotBlank` on non-string fields is framework behaviour and is not modelled.
- The pure CRUD controllers (company, customer, driver, employee, vehicle) pass data to repositories and are not modelled. The single-qualification lookup and the list of all qualifications are plain repository reads and are not modelled either.
- `BigDecimal` scale (100 against 100.00) is not modelled: prices are whole minor units.
- `toUpperCase` is modelled as ASCII upper-casing, without locale rules.
- SQL LIKE wildcard characters inside filter values are taken literally.
- Hibernate's lazy loading and cascades are not modelled.
- The many-to-many join table is modelled as the two in-memory sets it mirrors.
- Drivers.Driver.constructor: takes the id as an argument, because the database sequence assigns it.
- Drivers.Qualification.constructor: takes the id as an argument for the same reason; the source's constructor takes the type alone.
- JavaText.IsWhitespace: covers the ASCII whitespace of `Character.isWhitespace` only, so a property made of Unicode space separators counts as having text.
- CargoTransportController.CreateCargoTransport: uses the value-equality lookup `References.GetReferences`, not the boxed-`Long` comparison as written (see Findings). The same holds for the passenger controller, the older controller and `QualificationController.Controller.DeleteQualification`.
- TransportController.CreateCargoTransport: an exception is modelled only where saving throws. The entity building before it cannot throw in the model.
- Common.LikeFilter: the predicate is built when a query runs. `Common.ToPredicate` models that step with the entity's attribute names as a parameter, so an unknown attribute in any item raises, not only in the last item.

## Findings

| source | as written | input that shows it | evidently intended | confidence | as-written member | corrected member |
|---|---|---|---|---|---|---|
| src/main/java/com/tc/controller/CargoTransportController.java:249-259 | `d.getId() == driverId` compares two boxed `Long`s by reference, which only agree inside the `Long` cache (-128..127) | a company whose driver, customer and vehicle all have id 200: the request is rejected as "no such driver working for the company" | compare ids by value (`equals`), so every stored id can be referenced | not executed | References.LargeIdRejectedAsWritten | References.GetReferences |
| src/main/java/com/tc/model/Driver.java:104-111 | `c.getId() == qualificationId` compares boxed `Long`s by reference | a driver holding a qualification with id 200: `removeQualification(200)` removes nothing | remove the qualification with that id value | not executed | Drivers.Driver.RemoveQualificationAsWritten | Drivers.Driver.RemoveQualification |

The same comparison occurs in `PassengerTransportController.java:233-243` and `TransportController.java:88-101`. The rest of the model uses the value-equality lookups.
