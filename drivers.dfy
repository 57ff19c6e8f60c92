/**
  The driver and qualification entities and the many-to-many link between them:
  each side holds a set of the other, and the driver's two operations update both
  sets together.
*/
module Drivers {
  import opened Entities

  class Qualification {
    var id: int
    var qualificationType: string
    var drivers: set<Driver>

    /** A new qualification of the given type, held by no driver; `id` is the one the sequence assigns on save. */
    constructor (id: int, qualificationType: string)
      ensures this.id == id && this.qualificationType == qualificationType
      ensures drivers == {}
    {
      this.id := id;
      this.qualificationType := qualificationType;
      drivers := {};
    }
  }

  class Driver {
    var id: int
    var firstName: string
    var lastName: string
    var salary: int
    var qualifications: set<Qualification>

    /** The names and salary from the arguments, and no qualification yet. */
    constructor (id: int, firstName: string, lastName: string, salary: int)
      ensures this.id == id && this.firstName == firstName && this.lastName == lastName && this.salary == salary
      ensures qualifications == {}
    {
      this.id := id;
      this.firstName := firstName;
      this.lastName := lastName;
      this.salary := salary;
      qualifications := {};
    }

    /**
      `addQualification`: the qualification joins the driver's set and the driver joins the
      qualification's; adding one the driver already holds changes nothing.
    */
    method AddQualification(q: Qualification)
      modifies this`qualifications, q`drivers
      ensures qualifications == old(qualifications) + {q}
      ensures q.drivers == old(q.drivers) + {this}
      ensures q in qualifications && this in q.drivers
      ensures old(q in qualifications && this in q.drivers) ==>
        qualifications == old(qualifications) && q.drivers == old(q.drivers)
    {
      qualifications := qualifications + {q};
      q.drivers := q.drivers + {this};
    }

    /**
      `removeQualification`: a held qualification with that id leaves the driver's set and the
      driver leaves its set; every other qualification is untouched. With none of that id, nothing changes.
    */
    method RemoveQualification(qualificationId: int)
      modifies this`qualifications, qualifications`drivers
      ensures (forall q :: q in old(qualifications) ==> q.id != qualificationId) ==>
        qualifications == old(qualifications)
      ensures (exists q :: q in old(qualifications) && q.id == qualificationId) ==>
        exists q :: q in old(qualifications) && q.id == qualificationId &&
          qualifications == old(qualifications) - {q} &&
          q.drivers == old(q.drivers) - {this} &&
          forall o :: o in old(qualifications) && o != q ==> o.drivers == old(o.drivers)
      ensures forall q :: q in old(qualifications) && q.id != qualificationId ==>
        q in qualifications && q.drivers == old(q.drivers)
    {
      if q :| q in qualifications && q.id == qualificationId {
        qualifications := qualifications - {q};
        q.drivers := q.drivers - {this};
      }
    }

    /**
      `removeQualification` as written: the filter `c.getId() == qualificationId` compares boxed
      `Long`s by reference, so an id outside the `Long` cache never matches and nothing is removed.
    */
    method RemoveQualificationAsWritten(qualificationId: int)
      modifies this`qualifications, qualifications`drivers
      ensures !InLongCache(qualificationId) ==>
        qualifications == old(qualifications) &&
        forall q :: q in old(qualifications) ==> q.drivers == old(q.drivers)
      ensures (forall q :: q in old(qualifications) ==> q.id != qualificationId) ==>
        qualifications == old(qualifications)
      ensures InLongCache(qualificationId) && (exists q :: q in old(qualifications) && q.id == qualificationId) ==>
        exists q :: q in old(qualifications) && q.id == qualificationId &&
          qualifications == old(qualifications) - {q} &&
          q.drivers == old(q.drivers) - {this} &&
          forall o :: o in old(qualifications) && o != q ==> o.drivers == old(o.drivers)
      ensures forall q :: q in old(qualifications) && q.id != qualificationId ==>
        q in qualifications && q.drivers == old(q.drivers)
    {
      if q :| q in qualifications && SameBoxedLong(q.id, qualificationId) {
        qualifications := qualifications - {q};
        q.drivers := q.drivers - {this};
      }
    }
  }

  /**
    The two sides of the link agree: within these drivers and qualifications, a driver holds a
    qualification exactly when the qualification lists the driver, and neither side points outside.
  */
  ghost predicate Linked(ds: set<Driver>, qs: set<Qualification>)
    reads ds, qs
  {
    && (forall d :: d in ds ==> d.qualifications <= qs)
    && (forall q :: q in qs ==> q.drivers <= ds)
    && (forall d, q :: d in ds && q in qs ==> (q in d.qualifications <==> d in q.drivers))
  }
}
