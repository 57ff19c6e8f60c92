/**
  The persistent entities as values: a company with its drivers, customers and
  vehicles, and the two kinds of transport. Dates are day numbers (0 is
  1970-01-01) and prices are whole minor currency units.
*/
module Entities {
  import opened Wrappers

  type Date = int

  /** LocalDate.of(1970, 1, 1) as a day number. */
  const Epoch: Date := 0

  datatype DriverInfo = DriverInfo(id: int, firstName: string, lastName: string)

  datatype Customer = Customer(id: int, name: string)

  datatype Vehicle = Vehicle(id: int, registration: string, vehicleType: string, capacity: int)

  datatype Company = Company(
    id: int,
    name: string,
    drivers: seq<DriverInfo>,
    customers: seq<Customer>,
    vehicles: seq<Vehicle>)

  /** The fields a cargo transport or a passenger transport adds to the shared ones. */
  datatype Load = Cargo(cargoType: string, cargoWeight: int) | Passengers(numberOfPassengers: int)

  /** A transport record; `companyId` stands for the linked company, the other links are the entities themselves. */
  datatype Transport = Transport(
    id: int,
    startAddress: string,
    endAddress: string,
    startDate: Date,
    endDate: Date,
    price: int,
    isPaid: bool,
    companyId: int,
    driver: DriverInfo,
    customer: Customer,
    vehicle: Vehicle,
    load: Load)

  /** What the company, cargo-transport and passenger-transport repositories hold. */
  datatype Store = Store(
    companies: seq<Company>,
    cargoTransports: seq<Transport>,
    passengerTransports: seq<Transport>)

  /** The HTTP outcome of an error, without the HTTP layer. */
  datatype Status = NotFound | BadRequest | InternalServerError

  /** The exception a controller raises, with its message. */
  datatype Error = Error(status: Status, message: string)

  function CompanyKey(c: Company): int { c.id }
  function DriverKey(d: DriverInfo): int { d.id }
  function CustomerKey(c: Customer): int { c.id }
  function VehicleKey(v: Vehicle): int { v.id }
  function TransportKey(t: Transport): int { t.id }

  /** `stream().filter(x -> key(x) == id).findFirst()`, and `findById` on a repository. */
  function FindFirst<T>(xs: seq<T>, key: T -> int, id: int): (r: Option<T>)
    ensures r.None? <==> forall i :: 0 <= i < |xs| ==> key(xs[i]) != id
    ensures r.Some? ==>
      exists i :: 0 <= i < |xs| && xs[i] == r.value && key(xs[i]) == id &&
        forall j :: 0 <= j < i ==> key(xs[j]) != id
    decreases |xs|
  {
    if xs == [] then None
    else if key(xs[0]) == id then Some(xs[0])
    else
      var r := FindFirst(xs[1..], key, id);
      assert forall i :: 1 <= i < |xs| ==> xs[i] == xs[1..][i - 1];
      r
  }

  /** The values `Long.valueOf` serves from its shared cache: -128 to 127. */
  predicate InLongCache(v: int)
  {
    -128 <= v && v <= 127
  }

  /**
    `==` on two separately boxed `Long` ids is reference identity: equal values outside
    the cache are held by distinct objects and compare unequal.
  */
  predicate SameBoxedLong(a: int, b: int)
  {
    a == b && InLongCache(a)
  }

  /** The first element whose boxed key is `==` to the boxed id, as a stream filter on `getId() == id` finds it. */
  function FindFirstBoxed<T>(xs: seq<T>, key: T -> int, id: int): (r: Option<T>)
    ensures InLongCache(id) ==> r == FindFirst(xs, key, id)
    ensures !InLongCache(id) ==> r == None
    decreases |xs|
  {
    if xs == [] then None
    else if SameBoxedLong(key(xs[0]), id) then Some(xs[0])
    else FindFirstBoxed(xs[1..], key, id)
  }
}
