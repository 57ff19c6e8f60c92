/**
  The older transport controller: the same create endpoints answered with bare
  status codes, resolving the references but making no type, capacity or date check.
*/
module TransportController {
  import opened Wrappers
  import opened Entities
  import opened TransportSpecification
  import opened References
  import CargoTransportController
  import PassengerTransportController

  type CargoRequest = CargoTransportController.CargoRequest
  type PassengerRequest = PassengerTransportController.PassengerRequest

  /**
    The reference lookups as this controller writes them out: not found for the company,
    bad request for the driver, then the customer, then the vehicle.
  */
  function LookUp(store: Store, companyId: int, driverId: int, customerId: int, vehicleId: int): Result<References, Status>
  {
    match FindCompany(store, companyId)
    case None => Failure(NotFound)
    case Some(company) =>
      match FindFirst(company.drivers, DriverKey, driverId)
      case None => Failure(BadRequest)
      case Some(driver) =>
        match FindFirst(company.customers, CustomerKey, customerId)
        case None => Failure(BadRequest)
        case Some(customer) =>
          match FindFirst(company.vehicles, VehicleKey, vehicleId)
          case None => Failure(BadRequest)
          case Some(vehicle) => Success(References(company, driver, customer, vehicle))
  }

  /** The inline lookups agree with `getReferences` of the newer controllers, reduced to the status. */
  lemma LookUpIsGetReferences(store: Store, companyId: int, driverId: int, customerId: int, vehicleId: int)
    ensures var legacy := LookUp(store, companyId, driverId, customerId, vehicleId);
      var refs := GetReferences(store, companyId, driverId, customerId, vehicleId);
      && (refs.Success? ==> legacy == Success(refs.value))
      && (refs.Failure? ==> legacy == Failure(refs.error.status))
  {
  }

  /** `getCargoTransportByCompanyId`: every cargo transport of the company, not paged and not filtered further. */
  function ListCargoTransports(store: Store, companyId: int): (r: Result<seq<Transport>, Status>)
    ensures r.Failure? <==> !HasCompany(store, companyId)
    ensures r.Failure? ==> r.error == NotFound
    ensures r.Success? ==> forall t :: t in r.value <==> t in store.cargoTransports && t.companyId == companyId
    ensures r.Success? ==> r.value == FindAll(store.cargoTransports, CompanySpec(companyId))
  {
    match FindCompany(store, companyId)
    case None => Failure(NotFound)
    case Some(_) => Success(FindAll(store.cargoTransports, CompanySpec(companyId)))
  }

  /** `getPassengerTransportByCompanyId`, likewise. */
  function ListPassengerTransports(store: Store, companyId: int): (r: Result<seq<Transport>, Status>)
    ensures r.Failure? <==> !HasCompany(store, companyId)
    ensures r.Failure? ==> r.error == NotFound
    ensures r.Success? ==> forall t :: t in r.value <==> t in store.passengerTransports && t.companyId == companyId
    ensures r.Success? ==> r.value == FindAll(store.passengerTransports, CompanySpec(companyId))
  {
    match FindCompany(store, companyId)
    case None => Failure(NotFound)
    case Some(_) => Success(FindAll(store.passengerTransports, CompanySpec(companyId)))
  }

  /**
    Both listings hold each of the company's stored records exactly as often as the store
    does, and no other record.
  */
  lemma {:induction false} ListingCounts(store: Store, companyId: int)
    requires HasCompany(store, companyId)
    ensures forall t :: multiset(ListCargoTransports(store, companyId).value)[t] ==
              (if t.companyId == companyId then multiset(store.cargoTransports)[t] else 0)
    ensures forall t :: multiset(ListPassengerTransports(store, companyId).value)[t] ==
              (if t.companyId == companyId then multiset(store.passengerTransports)[t] else 0)
  {
    FindAllCounts(store.cargoTransports, CompanySpec(companyId));
    FindAllCounts(store.passengerTransports, CompanySpec(companyId));
  }

  /**
    `createCargoTransport`: the references, then the unpaid record is saved. `saved` is the id the
    repository assigns, or None when saving throws, which the catch-all answers with a server error.
  */
  function CreateCargoTransport(store: Store, companyId: int, req: CargoRequest, saved: Option<int>): (r: Result<Transport, Status>)
    ensures var refs := GetReferences(store, companyId, req.driverId, req.customerId, req.vehicleId);
      && (refs.Failure? ==> r == Failure(refs.error.status))
      && (refs.Success? && saved.None? ==> r == Failure(InternalServerError))
      && (r.Success? <==> refs.Success? && saved.Some?)
    ensures r.Success? ==>
      && CargoTransportController.CarriesRequest(r.value, saved.value, req, false)
      && CargoTransportController.LinkedWithin(store, r.value, companyId, req)
  {
    LookUpIsGetReferences(store, companyId, req.driverId, req.customerId, req.vehicleId);
    var refs :- LookUp(store, companyId, req.driverId, req.customerId, req.vehicleId);
    match saved
    case None => Failure(InternalServerError)
    case Some(id) => Success(CargoTransportController.BuildCargo(id, req, refs, false))
  }

  /** `createPassengerTransport`, likewise. */
  function CreatePassengerTransport(store: Store, companyId: int, req: PassengerRequest, saved: Option<int>): (r: Result<Transport, Status>)
    ensures var refs := GetReferences(store, companyId, req.driverId, req.customerId, req.vehicleId);
      && (refs.Failure? ==> r == Failure(refs.error.status))
      && (refs.Success? && saved.None? ==> r == Failure(InternalServerError))
      && (r.Success? <==> refs.Success? && saved.Some?)
    ensures r.Success? ==>
      && PassengerTransportController.CarriesRequest(r.value, saved.value, req, false)
      && PassengerTransportController.LinkedWithin(store, r.value, companyId, req)
  {
    LookUpIsGetReferences(store, companyId, req.driverId, req.customerId, req.vehicleId);
    var refs :- LookUp(store, companyId, req.driverId, req.customerId, req.vehicleId);
    match saved
    case None => Failure(InternalServerError)
    case Some(id) => Success(PassengerTransportController.BuildPassengers(id, req, refs, false))
  }

  /**
    Whatever the newer cargo controller admits, this one admits too, with the same record;
    it also admits what the newer one rejects for type, weight or dates, such as a trip that ends before it starts.
  */
  lemma CargoAdmitsMore(store: Store, companyId: int, req: CargoRequest, newId: int)
    requires CargoTransportController.ValidRequest(req)
    requires GetReferences(store, companyId, req.driverId, req.customerId, req.vehicleId).Success?
    ensures var newer := CargoTransportController.CreateCargoTransport(store, companyId, req, newId);
      newer.Success? ==> CreateCargoTransport(store, companyId, req, Some(newId)) == Success(newer.value)
    ensures CreateCargoTransport(store, companyId, req, Some(newId)).Success?
  {
  }

  /** The same comparison for passenger transports. */
  lemma PassengerAdmitsMore(store: Store, companyId: int, req: PassengerRequest, newId: int)
    requires PassengerTransportController.ValidRequest(req)
    requires GetReferences(store, companyId, req.driverId, req.customerId, req.vehicleId).Success?
    ensures var newer := PassengerTransportController.CreatePassengerTransport(store, companyId, req, newId);
      newer.Success? ==> CreatePassengerTransport(store, companyId, req, Some(newId)) == Success(newer.value)
    ensures CreatePassengerTransport(store, companyId, req, Some(newId)).Success?
  {
  }
}
