/**
  The cargo transport endpoints: listing a company's cargo transports, and the
  ordered admission checks run by create and update before a record is saved.
*/
module CargoTransportController {
  import opened Wrappers
  import opened Entities
  import opened TransportSpecification
  import opened References

  /** The body of a create request (the fields the controller reads). */
  datatype CargoRequest = CargoRequest(
    startAddress: string,
    endAddress: string,
    startDate: Date,
    endDate: Date,
    cargoType: string,
    cargoWeight: int,
    price: int,
    customerId: int,
    vehicleId: int,
    driverId: int)

  /** The body of an update request: the same fields and the paid flag. */
  datatype CargoUpdate = CargoUpdate(request: CargoRequest, isPaid: bool)

  /** What bean validation guarantees before the controller runs: weight and price are positive. */
  predicate ValidRequest(req: CargoRequest)
  {
    req.cargoWeight > 0 && req.price > 0
  }

  const NotATruck := Error(BadRequest, "cargo transport can be done only by truck")
  const Overweight := Error(BadRequest, "cargo weight exceeds vehicle capacity")
  const StartAfterEnd := Error(BadRequest, "start date cannot be after end date")
  const CargoTransportNotFound := Error(NotFound, "cargo transport not found")

  /** The three checks on a resolved vehicle, in source order; the first that fails decides the error. */
  function CheckCargo(vehicle: Vehicle, req: CargoRequest): (r: Option<Error>)
    ensures r.None? <==> vehicle.vehicleType == "TRUCK" && req.cargoWeight <= vehicle.capacity && req.startDate <= req.endDate
    ensures vehicle.vehicleType != "TRUCK" ==> r == Some(NotATruck)
    ensures vehicle.vehicleType == "TRUCK" && req.cargoWeight > vehicle.capacity ==> r == Some(Overweight)
    ensures vehicle.vehicleType == "TRUCK" && req.cargoWeight <= vehicle.capacity && req.startDate > req.endDate ==>
      r == Some(StartAfterEnd)
  {
    if vehicle.vehicleType != "TRUCK" then Some(NotATruck)
    else if req.cargoWeight > vehicle.capacity then Some(Overweight)
    else if req.startDate > req.endDate then Some(StartAfterEnd)
    else None
  }

  /** The record the setters build from the request and the resolved references. */
  function BuildCargo(id: int, req: CargoRequest, refs: References, isPaid: bool): Transport
  {
    Transport(id, req.startAddress, req.endAddress, req.startDate, req.endDate, req.price, isPaid,
      refs.company.id, refs.driver, refs.customer, refs.vehicle, Cargo(req.cargoType, req.cargoWeight))
  }

  /** The record holds the request's own data and the given id and paid flag. */
  predicate CarriesRequest(t: Transport, id: int, req: CargoRequest, isPaid: bool)
  {
    && t.id == id
    && t.startAddress == req.startAddress && t.endAddress == req.endAddress
    && t.startDate == req.startDate && t.endDate == req.endDate
    && t.price == req.price && t.isPaid == isPaid
    && t.load == Cargo(req.cargoType, req.cargoWeight)
  }

  /** The record is linked to the company and to that company's driver, customer and vehicle named in the request. */
  predicate LinkedWithin(store: Store, t: Transport, companyId: int, req: CargoRequest)
  {
    && t.companyId == companyId
    && (exists c :: c in store.companies && c.id == companyId &&
          t.driver in c.drivers && t.customer in c.customers && t.vehicle in c.vehicles)
    && t.driver.id == req.driverId && t.customer.id == req.customerId && t.vehicle.id == req.vehicleId
  }

  /**
    `createCargoTransport`: the references, then truck, weight and dates; a new record is always unpaid.
    `newId` is the id the repository assigns on save.
  */
  function CreateCargoTransport(store: Store, companyId: int, req: CargoRequest, newId: int): (r: Result<Transport, Error>)
    requires ValidRequest(req)
    ensures var refs := GetReferences(store, companyId, req.driverId, req.customerId, req.vehicleId);
      && (refs.Failure? ==> r == Failure(refs.error))
      && (refs.Success? && CheckCargo(refs.value.vehicle, req).Some? ==> r == Failure(CheckCargo(refs.value.vehicle, req).value))
      && (r.Success? <==> refs.Success? && CheckCargo(refs.value.vehicle, req).None?)
    ensures r.Success? ==>
      && CarriesRequest(r.value, newId, req, false)
      && LinkedWithin(store, r.value, companyId, req)
      && r.value.vehicle.vehicleType == "TRUCK"
      && req.cargoWeight <= r.value.vehicle.capacity
      && r.value.startDate <= r.value.endDate
  {
    var refs :- GetReferences(store, companyId, req.driverId, req.customerId, req.vehicleId);
    match CheckCargo(refs.vehicle, req)
    case Some(e) => Failure(e)
    case None => Success(BuildCargo(newId, req, refs, false))
  }

  /** `updateCargoTransport`: the stored record by id, then the same checks against that record's company. */
  function UpdateCargoTransport(store: Store, id: int, update: CargoUpdate): (r: Result<Transport, Error>)
    requires ValidRequest(update.request)
    ensures FindFirst(store.cargoTransports, TransportKey, id).None? ==> r == Failure(CargoTransportNotFound)
    ensures r.Success? ==>
      && CarriesRequest(r.value, id, update.request, update.isPaid)
      && (exists t :: t in store.cargoTransports && t.id == id && LinkedWithin(store, r.value, t.companyId, update.request))
      && r.value.vehicle.vehicleType == "TRUCK"
      && update.request.cargoWeight <= r.value.vehicle.capacity
      && r.value.startDate <= r.value.endDate
  {
    match FindFirst(store.cargoTransports, TransportKey, id)
    case None => Failure(CargoTransportNotFound)
    case Some(existing) =>
      var req := update.request;
      var refs :- GetReferences(store, existing.companyId, req.driverId, req.customerId, req.vehicleId);
      match CheckCargo(refs.vehicle, req)
      case Some(e) => Failure(e)
      case None => Success(BuildCargo(id, req, refs, update.isPaid))
  }

  /**
    Update is create against the stored record's company, keeping the path id and taking
    the paid flag from the request.
  */
  lemma UpdateAgreesWithCreate(store: Store, id: int, update: CargoUpdate)
    requires ValidRequest(update.request)
    requires FindFirst(store.cargoTransports, TransportKey, id).Some?
    ensures var existing := FindFirst(store.cargoTransports, TransportKey, id).value;
      var created := CreateCargoTransport(store, existing.companyId, update.request, id);
      UpdateCargoTransport(store, id, update) ==
        if created.Success? then Success(created.value.(isPaid := update.isPaid)) else created
  {
  }

  /** A load exactly at the vehicle's capacity, on a one-day trip, passes the checks. */
  lemma FullTruckOnOneDayAccepted(vehicle: Vehicle, req: CargoRequest)
    requires vehicle.vehicleType == "TRUCK" && req.cargoWeight == vehicle.capacity && req.startDate == req.endDate
    ensures CheckCargo(vehicle, req).None?
  {
  }

  /** The vehicle type is compared exactly: a lower-case "truck" is not a truck. */
  lemma TypeComparedExactly(vehicle: Vehicle, req: CargoRequest)
    requires vehicle.vehicleType == "truck"
    ensures CheckCargo(vehicle, req) == Some(NotATruck)
  {
  }

  /** `getCargoTransportByCompanyId`: page `page` of the company's cargo transports, optionally to one destination. */
  function ListCargoTransports(store: Store, companyId: int, destination: Option<string>, page: int): (r: Result<seq<Transport>, Error>)
    ensures !HasCompany(store, companyId) ==> r == Failure(CompanyNotFound)
    ensures HasCompany(store, companyId) && page < 0 ==> r == Failure(InvalidPage)
    ensures r.Success? ==> HasCompany(store, companyId) && |r.value| <= PageSize
    ensures r.Success? ==> forall t :: t in r.value ==>
      t in store.cargoTransports && t.companyId == companyId &&
      (destination.Some? ==> t.endAddress == destination.value)
    ensures r.Success? <==> HasCompany(store, companyId) && page >= 0
    ensures r.Success? ==> r.value == Page(FindAll(store.cargoTransports, ListingSpec(companyId, destination)), page)
  {
    match FindCompany(store, companyId)
    case None => Failure(CompanyNotFound)
    case Some(company) =>
      FindPage(store.cargoTransports, ListingSpec(company.id, destination), page)
  }
}
