/**
  The passenger transport endpoints: listing a company's passenger transports, and the
  ordered admission checks run by create and update before a record is saved.
*/
module PassengerTransportController {
  import opened Wrappers
  import opened Entities
  import opened TransportSpecification
  import opened References

  /** The body of a create request (the fields the controller reads). */
  datatype PassengerRequest = PassengerRequest(
    startAddress: string,
    endAddress: string,
    startDate: Date,
    endDate: Date,
    numberOfPassengers: int,
    price: int,
    customerId: int,
    vehicleId: int,
    driverId: int)

  /** The body of an update request: the same fields and the paid flag. */
  datatype PassengerUpdate = PassengerUpdate(request: PassengerRequest, isPaid: bool)

  /** What bean validation guarantees before the controller runs: the passenger count and price are positive. */
  predicate ValidRequest(req: PassengerRequest)
  {
    req.numberOfPassengers > 0 && req.price > 0
  }

  const NotABus := Error(BadRequest, "passenger transport can be done only by bus")
  const OverCapacity := Error(BadRequest, "vehicle capacity is not enough to carry all passengers")
  const StartAfterEnd := Error(BadRequest, "start date cannot be after end date")
  const PassengerTransportNotFound := Error(NotFound, "passenger transport not found")

  /** The three checks on a resolved vehicle, in source order; the first that fails decides the error. */
  function CheckPassengers(vehicle: Vehicle, req: PassengerRequest): (r: Option<Error>)
    ensures r.None? <==> vehicle.vehicleType == "BUS" && req.numberOfPassengers <= vehicle.capacity && req.startDate <= req.endDate
    ensures vehicle.vehicleType != "BUS" ==> r == Some(NotABus)
    ensures vehicle.vehicleType == "BUS" && req.numberOfPassengers > vehicle.capacity ==> r == Some(OverCapacity)
    ensures vehicle.vehicleType == "BUS" && req.numberOfPassengers <= vehicle.capacity && req.startDate > req.endDate ==>
      r == Some(StartAfterEnd)
  {
    if vehicle.vehicleType != "BUS" then Some(NotABus)
    else if req.numberOfPassengers > vehicle.capacity then Some(OverCapacity)
    else if req.startDate > req.endDate then Some(StartAfterEnd)
    else None
  }

  /** The record the setters build from the request and the resolved references. */
  function BuildPassengers(id: int, req: PassengerRequest, refs: References, isPaid: bool): Transport
  {
    Transport(id, req.startAddress, req.endAddress, req.startDate, req.endDate, req.price, isPaid,
      refs.company.id, refs.driver, refs.customer, refs.vehicle, Passengers(req.numberOfPassengers))
  }

  /** The record holds the request's own data and the given id and paid flag. */
  predicate CarriesRequest(t: Transport, id: int, req: PassengerRequest, isPaid: bool)
  {
    && t.id == id
    && t.startAddress == req.startAddress && t.endAddress == req.endAddress
    && t.startDate == req.startDate && t.endDate == req.endDate
    && t.price == req.price && t.isPaid == isPaid
    && t.load == Passengers(req.numberOfPassengers)
  }

  /** The record is linked to the company and to that company's driver, customer and vehicle named in the request. */
  predicate LinkedWithin(store: Store, t: Transport, companyId: int, req: PassengerRequest)
  {
    && t.companyId == companyId
    && (exists c :: c in store.companies && c.id == companyId &&
          t.driver in c.drivers && t.customer in c.customers && t.vehicle in c.vehicles)
    && t.driver.id == req.driverId && t.customer.id == req.customerId && t.vehicle.id == req.vehicleId
  }

  /**
    `createPassengerTransport`: the references, then bus, passenger count and dates; a new record is always unpaid.
    `newId` is the id the repository assigns on save.
  */
  function CreatePassengerTransport(store: Store, companyId: int, req: PassengerRequest, newId: int): (r: Result<Transport, Error>)
    requires ValidRequest(req)
    ensures var refs := GetReferences(store, companyId, req.driverId, req.customerId, req.vehicleId);
      && (refs.Failure? ==> r == Failure(refs.error))
      && (refs.Success? && CheckPassengers(refs.value.vehicle, req).Some? ==> r == Failure(CheckPassengers(refs.value.vehicle, req).value))
      && (r.Success? <==> refs.Success? && CheckPassengers(refs.value.vehicle, req).None?)
    ensures r.Success? ==>
      && CarriesRequest(r.value, newId, req, false)
      && LinkedWithin(store, r.value, companyId, req)
      && r.value.vehicle.vehicleType == "BUS"
      && req.numberOfPassengers <= r.value.vehicle.capacity
      && r.value.startDate <= r.value.endDate
  {
    var refs :- GetReferences(store, companyId, req.driverId, req.customerId, req.vehicleId);
    match CheckPassengers(refs.vehicle, req)
    case Some(e) => Failure(e)
    case None => Success(BuildPassengers(newId, req, refs, false))
  }

  /** `updatePassengerTransport`: the stored record by id, then the same checks against that record's company. */
  function UpdatePassengerTransport(store: Store, id: int, update: PassengerUpdate): (r: Result<Transport, Error>)
    requires ValidRequest(update.request)
    ensures FindFirst(store.passengerTransports, TransportKey, id).None? ==> r == Failure(PassengerTransportNotFound)
    ensures r.Success? ==>
      && CarriesRequest(r.value, id, update.request, update.isPaid)
      && (exists t :: t in store.passengerTransports && t.id == id && LinkedWithin(store, r.value, t.companyId, update.request))
      && r.value.vehicle.vehicleType == "BUS"
      && update.request.numberOfPassengers <= r.value.vehicle.capacity
      && r.value.startDate <= r.value.endDate
  {
    match FindFirst(store.passengerTransports, TransportKey, id)
    case None => Failure(PassengerTransportNotFound)
    case Some(existing) =>
      var req := update.request;
      var refs :- GetReferences(store, existing.companyId, req.driverId, req.customerId, req.vehicleId);
      match CheckPassengers(refs.vehicle, req)
      case Some(e) => Failure(e)
      case None => Success(BuildPassengers(id, req, refs, update.isPaid))
  }

  /**
    Update is create against the stored record's company, keeping the path id and taking
    the paid flag from the request.
  */
  lemma UpdateAgreesWithCreate(store: Store, id: int, update: PassengerUpdate)
    requires ValidRequest(update.request)
    requires FindFirst(store.passengerTransports, TransportKey, id).Some?
    ensures var existing := FindFirst(store.passengerTransports, TransportKey, id).value;
      var created := CreatePassengerTransport(store, existing.companyId, update.request, id);
      UpdatePassengerTransport(store, id, update) ==
        if created.Success? then Success(created.value.(isPaid := update.isPaid)) else created
  {
  }

  /** A passenger count exactly at the vehicle's capacity, on a one-day trip, passes the checks. */
  lemma FullBusOnOneDayAccepted(vehicle: Vehicle, req: PassengerRequest)
    requires vehicle.vehicleType == "BUS" && req.numberOfPassengers == vehicle.capacity && req.startDate == req.endDate
    ensures CheckPassengers(vehicle, req).None?
  {
  }

  /** The vehicle type is compared exactly: a lower-case "bus" is not a bus. */
  lemma TypeComparedExactly(vehicle: Vehicle, req: PassengerRequest)
    requires vehicle.vehicleType == "bus"
    ensures CheckPassengers(vehicle, req) == Some(NotABus)
  {
  }

  /** `getPassengerTransportByCompanyId`: page `page` of the company's passenger transports, optionally to one destination. */
  function ListPassengerTransports(store: Store, companyId: int, destination: Option<string>, page: int): (r: Result<seq<Transport>, Error>)
    ensures !HasCompany(store, companyId) ==> r == Failure(CompanyNotFound)
    ensures HasCompany(store, companyId) && page < 0 ==> r == Failure(InvalidPage)
    ensures r.Success? ==> HasCompany(store, companyId) && |r.value| <= PageSize
    ensures r.Success? ==> forall t :: t in r.value ==>
      t in store.passengerTransports && t.companyId == companyId &&
      (destination.Some? ==> t.endAddress == destination.value)
    ensures r.Success? <==> HasCompany(store, companyId) && page >= 0
    ensures r.Success? ==> r.value == Page(FindAll(store.passengerTransports, ListingSpec(companyId, destination)), page)
  {
    match FindCompany(store, companyId)
    case None => Failure(CompanyNotFound)
    case Some(company) =>
      FindPage(store.passengerTransports, ListingSpec(company.id, destination), page)
  }
}
