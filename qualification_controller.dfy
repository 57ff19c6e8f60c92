/**
  The qualification endpoints of a driver: listing, find-or-create by type, and removal.
  The two repositories are the controller's sets of drivers and qualifications, and the
  qualification id sequence is a counter.
*/
module QualificationController {
  import opened Wrappers
  import opened Entities
  import opened Drivers

  /** The response body: a qualification's id and type. */
  datatype QualificationResponse = QualificationResponse(id: int, qualificationType: string)

  const DriverNotFound := Error(NotFound, "driver not found")

  function ResponseOf(q: Qualification): QualificationResponse
    reads q
  {
    QualificationResponse(q.id, q.qualificationType)
  }

  /**
    A consistent pair of repositories: the link agrees on both sides, ids are unique per repository,
    the qualification type is unique (its column is declared unique), and the sequence is past every id.
  */
  ghost predicate Stored(ds: set<Driver>, qs: set<Qualification>, nextQualificationId: int)
    reads ds, qs
  {
    && Linked(ds, qs)
    && (forall d, e :: d in ds && e in ds && d.id == e.id ==> d == e)
    && (forall q, p :: q in qs && p in qs && q.id == p.id ==> q == p)
    && (forall q, p :: q in qs && p in qs && q.qualificationType == p.qualificationType ==> q == p)
    && (forall q :: q in qs ==> q.id < nextQualificationId)
  }

  class Controller {
    var drivers: set<Driver>
    var qualifications: set<Qualification>
    var nextQualificationId: int

    /** The stored state is consistent. */
    ghost predicate Valid()
      reads this, drivers, qualifications
    {
      Stored(drivers, qualifications, nextQualificationId)
    }

    /** A controller over repositories that already hold consistent drivers and qualifications. */
    constructor (ds: set<Driver>, qs: set<Qualification>, nextQualificationId: int)
      requires Stored(ds, qs, nextQualificationId)
      ensures Valid()
      ensures drivers == ds && qualifications == qs && this.nextQualificationId == nextQualificationId
    {
      drivers := ds;
      qualifications := qs;
      this.nextQualificationId := nextQualificationId;
    }

    ghost predicate HasDriver(driverId: int)
      reads this, drivers
    {
      exists d :: d in drivers && d.id == driverId
    }

    ghost predicate HasType(qualificationType: string)
      reads this, qualifications
    {
      exists q :: q in qualifications && q.qualificationType == qualificationType
    }

    /**
      `getQualificationsByDriverId`: not found for an unknown driver; otherwise one response for each
      qualification that lists the driver, which are exactly the driver's own qualifications.
    */
    method GetQualificationsByDriverId(driverId: int) returns (r: Result<seq<QualificationResponse>, Error>)
      requires Valid()
      ensures r.Failure? <==> !HasDriver(driverId)
      ensures r.Failure? ==> r.error == DriverNotFound
      ensures r.Success? ==>
        exists d :: d in drivers && d.id == driverId && |r.value| == |d.qualifications| &&
          forall x :: x in r.value <==> exists q :: q in d.qualifications && x == ResponseOf(q)
    {
      if d :| d in drivers && d.id == driverId {
        var selected := set q | q in qualifications && d in q.drivers;
        assert selected == d.qualifications;
        var rest := selected;
        var out := [];
        while rest != {}
          invariant rest <= selected
          invariant |out| + |rest| == |selected|
          invariant forall x :: x in out <==> exists q :: q in selected - rest && x == ResponseOf(q)
          decreases |rest|
        {
          var q :| q in rest;
          out := out + [ResponseOf(q)];
          rest := rest - {q};
        }
        assert selected - rest == selected;
        r := Success(out);
      } else {
        r := Failure(DriverNotFound);
      }
    }

    /**
      `createQualification`: not found for an unknown driver, with nothing changed. Otherwise the
      qualification of the requested type is reused when one exists and created when none does
      (taking the next sequence id), and the driver is linked to it.
    */
    method CreateQualification(driverId: int, qualificationType: string) returns (r: Result<QualificationResponse, Error>)
      requires Valid()
      modifies this`qualifications, this`nextQualificationId, drivers`qualifications, qualifications`drivers
      ensures Valid()
      ensures r.Failure? <==> !HasDriver(driverId)
      ensures r.Failure? ==>
        && r.error == DriverNotFound
        && qualifications == old(qualifications)
        && nextQualificationId == old(nextQualificationId)
        && (forall d :: d in drivers ==> d.qualifications == old(d.qualifications))
        && (forall q :: q in qualifications ==> q.drivers == old(q.drivers))
      ensures r.Success? ==> r.value.qualificationType == qualificationType
      ensures r.Success? ==>
        exists q :: q in qualifications && ResponseOf(q) == r.value &&
          (forall p :: p in qualifications && p.qualificationType == qualificationType ==> p == q) &&
          (forall d :: d in drivers && d.id == driverId ==> d.qualifications == old(d.qualifications) + {q})
      ensures forall d :: d in drivers && d.id != driverId ==> d.qualifications == old(d.qualifications)
      ensures r.Success? && old(HasType(qualificationType)) ==>
        qualifications == old(qualifications) && nextQualificationId == old(nextQualificationId)
      ensures r.Success? && !old(HasType(qualificationType)) ==>
        old(qualifications) < qualifications && |qualifications| == |old(qualifications)| + 1 &&
        r.value.id == old(nextQualificationId) && nextQualificationId == old(nextQualificationId) + 1
    {
      if d :| d in drivers && d.id == driverId {
        if q :| q in qualifications && q.qualificationType == qualificationType {
          LinkExisting(d, q);
          r := Success(ResponseOf(q));
        } else {
          var q := LinkNew(d, qualificationType);
          r := Success(ResponseOf(q));
        }
      } else {
        r := Failure(DriverNotFound);
      }
    }

    /** The reuse branch: the stored qualification of the requested type is linked to the driver. */
    method LinkExisting(d: Driver, q: Qualification)
      requires Valid() && d in drivers && q in qualifications
      modifies d`qualifications, q`drivers
      ensures Valid()
      ensures d.qualifications == old(d.qualifications) + {q}
      ensures q.drivers == old(q.drivers) + {d}
    {
      d.AddQualification(q);
    }

    /** The create branch: a qualification of a type not yet stored takes the next id and is linked to the driver. */
    method LinkNew(d: Driver, qualificationType: string) returns (q: Qualification)
      requires Valid() && d in drivers && !HasType(qualificationType)
      modifies this`qualifications, this`nextQualificationId, d`qualifications
      ensures Valid()
      ensures fresh(q) && q.id == old(nextQualificationId) && q.qualificationType == qualificationType
      ensures qualifications == old(qualifications) + {q}
      ensures nextQualificationId == old(nextQualificationId) + 1
      ensures d.qualifications == old(d.qualifications) + {q}
      ensures q.drivers == {d}
    {
      q := new Qualification(nextQualificationId, qualificationType);
      assert forall e :: e in drivers ==> q !in e.qualifications;
      d.AddQualification(q);
      qualifications := qualifications + {q};
      nextQualificationId := nextQualificationId + 1;
      assert Linked(drivers, qualifications);
      assert forall p :: p in qualifications ==> p.id < nextQualificationId;
      assert Stored(drivers, qualifications, nextQualificationId);
    }

    /**
      `deleteQualification`: not found for an unknown driver; otherwise the driver loses its
      qualification of that id, if it holds one, and the call succeeds either way.
    */
    method DeleteQualification(driverId: int, qualificationId: int) returns (r: Option<Error>)
      requires Valid()
      modifies drivers`qualifications, qualifications`drivers
      ensures Valid()
      ensures r.Some? <==> !HasDriver(driverId)
      ensures r.Some? ==> r.value == DriverNotFound
      ensures forall d :: d in drivers && d.id == driverId ==>
        d.qualifications == old(d.qualifications) - (set q | q in old(d.qualifications) && q.id == qualificationId)
      ensures forall d :: d in drivers && d.id != driverId ==> d.qualifications == old(d.qualifications)
      ensures forall q :: q in qualifications && q.id != qualificationId ==> q.drivers == old(q.drivers)
    {
      if d :| d in drivers && d.id == driverId {
        d.RemoveQualification(qualificationId);
        r := None;
      } else {
        r := Some(DriverNotFound);
      }
    }
  }
}
