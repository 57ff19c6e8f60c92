/**
  `getReferences`, shared word for word by the cargo and passenger transport
  controllers: the company by id, then its driver, customer and vehicle by id.
*/
module References {
  import opened Wrappers
  import opened Entities

  datatype References = References(company: Company, driver: DriverInfo, customer: Customer, vehicle: Vehicle)

  const CompanyNotFound := Error(NotFound, "company not found")
  const NoSuchDriver := Error(BadRequest, "no such driver working for the company")
  const NoSuchCustomer := Error(BadRequest, "the company has no such customer")
  const NoSuchVehicle := Error(BadRequest, "the company does not own such vehicle")

  predicate HasCompany(store: Store, companyId: int)
  {
    exists i :: 0 <= i < |store.companies| && store.companies[i].id == companyId
  }

  predicate EmploysDriver(c: Company, driverId: int)
  {
    exists i :: 0 <= i < |c.drivers| && c.drivers[i].id == driverId
  }

  predicate HasCustomer(c: Company, customerId: int)
  {
    exists i :: 0 <= i < |c.customers| && c.customers[i].id == customerId
  }

  predicate OwnsVehicle(c: Company, vehicleId: int)
  {
    exists i :: 0 <= i < |c.vehicles| && c.vehicles[i].id == vehicleId
  }

  /** The company with that id, the first one when the store holds several. */
  function FindCompany(store: Store, companyId: int): Option<Company>
  {
    FindFirst(store.companies, CompanyKey, companyId)
  }

  /**
    The four references, or the first lookup that fails: the company (not found),
    then the driver, the customer and the vehicle among the company's own (bad request).
  */
  function GetReferences(store: Store, companyId: int, driverId: int, customerId: int, vehicleId: int): (r: Result<References, Error>)
    ensures !HasCompany(store, companyId) <==> r == Failure(CompanyNotFound)
    ensures r.Success? ==>
      && r.value.company.id == companyId && r.value.company in store.companies
      && r.value.driver.id == driverId && r.value.driver in r.value.company.drivers
      && r.value.customer.id == customerId && r.value.customer in r.value.company.customers
      && r.value.vehicle.id == vehicleId && r.value.vehicle in r.value.company.vehicles
    ensures HasCompany(store, companyId) ==>
      var c := FindCompany(store, companyId).value;
      && (r == Failure(NoSuchDriver) <==> !EmploysDriver(c, driverId))
      && (r == Failure(NoSuchCustomer) <==> EmploysDriver(c, driverId) && !HasCustomer(c, customerId))
      && (r == Failure(NoSuchVehicle) <==>
            EmploysDriver(c, driverId) && HasCustomer(c, customerId) && !OwnsVehicle(c, vehicleId))
      && (r.Success? <==> EmploysDriver(c, driverId) && HasCustomer(c, customerId) && OwnsVehicle(c, vehicleId))
  {
    match FindCompany(store, companyId)
    case None => Failure(CompanyNotFound)
    case Some(company) =>
      match FindFirst(company.drivers, DriverKey, driverId)
      case None => Failure(NoSuchDriver)
      case Some(driver) =>
        match FindFirst(company.customers, CustomerKey, customerId)
        case None => Failure(NoSuchCustomer)
        case Some(customer) =>
          match FindFirst(company.vehicles, VehicleKey, vehicleId)
          case None => Failure(NoSuchVehicle)
          case Some(vehicle) => Success(References(company, driver, customer, vehicle))
  }

  /**
    `getReferences` as written: the company by `findById` (value equality), but the driver, customer
    and vehicle by `getId() == id` on boxed `Long`s, which only matches inside the `Long` cache.
  */
  function GetReferencesAsWritten(store: Store, companyId: int, driverId: int, customerId: int, vehicleId: int): (r: Result<References, Error>)
    ensures InLongCache(driverId) && InLongCache(customerId) && InLongCache(vehicleId) ==>
      r == GetReferences(store, companyId, driverId, customerId, vehicleId)
    ensures HasCompany(store, companyId) && !InLongCache(driverId) ==> r == Failure(NoSuchDriver)
  {
    match FindCompany(store, companyId)
    case None => Failure(CompanyNotFound)
    case Some(company) =>
      match FindFirstBoxed(company.drivers, DriverKey, driverId)
      case None => Failure(NoSuchDriver)
      case Some(driver) =>
        match FindFirstBoxed(company.customers, CustomerKey, customerId)
        case None => Failure(NoSuchCustomer)
        case Some(customer) =>
          match FindFirstBoxed(company.vehicles, VehicleKey, vehicleId)
          case None => Failure(NoSuchVehicle)
          case Some(vehicle) => Success(References(company, driver, customer, vehicle))
  }

  /**
    A company whose driver, customer and vehicle all have id 200: the intended lookup resolves
    them, the lookup as written answers that the company has no such driver.
  */
  lemma LargeIdRejectedAsWritten()
    ensures var d := DriverInfo(200, "Ana", "Petrova");
      var cu := Customer(200, "Acme");
      var v := Vehicle(200, "CA1234AB", "TRUCK", 1000);
      var store := Store([Company(1, "Haulers", [d], [cu], [v])], [], []);
      && GetReferences(store, 1, 200, 200, 200) == Success(References(store.companies[0], d, cu, v))
      && GetReferencesAsWritten(store, 1, 200, 200, 200) == Failure(NoSuchDriver)
  {
    var d := DriverInfo(200, "Ana", "Petrova");
    var cu := Customer(200, "Acme");
    var v := Vehicle(200, "CA1234AB", "TRUCK", 1000);
    var store := Store([Company(1, "Haulers", [d], [cu], [v])], [], []);
    assert FindCompany(store, 1) == Some(store.companies[0]);
    assert FindFirst([d], DriverKey, 200) == Some(d);
    assert FindFirst([cu], CustomerKey, 200) == Some(cu);
    assert FindFirst([v], VehicleKey, 200) == Some(v);
  }
}
