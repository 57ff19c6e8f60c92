/**
  `getCompanyReport`: the company's passenger and cargo transports whose end date lies
  in a window are rolled up into counts, paid revenue, the unpaid transports and one
  summary per driver.
*/
module ReportController {
  import opened Wrappers
  import opened Entities
  import opened TransportSpecification
  import opened References

  const PassengerKind: string := "passenger"
  const CargoKind: string := "cargo"

  /** An unpaid transport: its id and which kind it is. */
  datatype TransportRef = TransportRef(id: int, kind: string)

  /** One driver's summary. */
  datatype DriverRef = DriverRef(
    id: int,
    firstName: string,
    lastName: string,
    totalCompletedTransports: nat,
    generatedRevenue: int)

  /** The five values the controller puts into the response, in argument order. */
  datatype CompanyReport = CompanyReport(
    totalFinishedPassengerTransports: nat,
    totalFinishedCargoTransports: nat,
    totalRevenue: int,
    unpaidTransports: seq<TransportRef>,
    drivers: seq<DriverRef>)

  predicate IsUnpaid(t: Transport)
  {
    !t.isPaid
  }

  /** `map(t -> new TransportRef(t.getId(), kind))`. */
  function Tagged(ts: seq<Transport>, kind: string): (r: seq<TransportRef>)
    ensures |r| == |ts| && forall i :: 0 <= i < |ts| ==> r[i] == TransportRef(ts[i].id, kind)
  {
    seq(|ts|, i requires 0 <= i < |ts| => TransportRef(ts[i].id, kind))
  }

  /** `filter(t -> !t.getIsPaid()).map(...)`: the unpaid records, in order, tagged with their kind. */
  function UnpaidRefs(ts: seq<Transport>, kind: string): seq<TransportRef>
  {
    Tagged(FindAll(ts, IsUnpaid), kind)
  }

  /** What a record adds to revenue: its price when paid, nothing otherwise. */
  function PaidPrice(t: Transport): int
  {
    if t.isPaid then t.price else 0
  }

  /** `filter(isPaid).map(price).reduce(ZERO, add)`. */
  function PaidTotal(ts: seq<Transport>): (r: int)
    ensures (forall i :: 0 <= i < |ts| ==> ts[i].price >= 0) ==> r >= 0
    ensures (forall i :: 0 <= i < |ts| ==> ts[i].price >= 0) ==>
      forall i :: 0 <= i < |ts| && ts[i].isPaid ==> r >= ts[i].price
    decreases |ts|
  {
    if ts == [] then 0 else PaidPrice(ts[0]) + PaidTotal(ts[1..])
  }

  /** `map(getDriver)`. */
  function DriversOf(ts: seq<Transport>): (r: seq<DriverInfo>)
    ensures |r| == |ts| && forall i :: 0 <= i < |ts| ==> r[i] == ts[i].driver
  {
    seq(|ts|, i requires 0 <= i < |ts| => ts[i].driver)
  }

  /** Where the first driver with that id stands, or |ds| when there is none. */
  function IndexOfId(ds: seq<DriverInfo>, id: int): (r: nat)
    ensures r <= |ds|
    ensures r < |ds| ==> ds[r].id == id
    ensures forall j :: 0 <= j < r ==> ds[j].id != id
    decreases |ds|
  {
    if ds == [] then 0 else if ds[0].id == id then 0 else 1 + IndexOfId(ds[1..], id)
  }

  /**
    `filter(distinctByKey(getId))`, with `seen` the ids already passed: each id not yet seen is
    kept at its first occurrence, later ones are dropped.
  */
  function DistinctById(ds: seq<DriverInfo>, seen: set<int>): (r: seq<DriverInfo>)
    ensures forall i, j :: 0 <= i < j < |r| ==> r[i].id != r[j].id
    ensures forall i :: 0 <= i < |r| ==> r[i].id !in seen && r[i] in ds
    decreases |ds|
  {
    if ds == [] then []
    else if ds[0].id in seen then DistinctById(ds[1..], seen)
    else
      var rest := DistinctById(ds[1..], seen + {ds[0].id});
      var r := [ds[0]] + rest;
      assert forall i :: 1 <= i < |r| ==> r[i] == rest[i - 1];
      r
  }

  /** No id is lost: the id of every driver not already seen is kept. */
  lemma {:induction false} DistinctKeeps(ds: seq<DriverInfo>, seen: set<int>, k: nat)
    requires k < |ds| && ds[k].id !in seen
    ensures HasId(DistinctById(ds, seen), ds[k].id)
    decreases k
  {
    var r := DistinctById(ds, seen);
    var d0 := ds[0];
    if d0.id == ds[k].id {
      assert r[0] == d0;
    } else {
      assert ds[1..][k - 1] == ds[k];
      var seen' := if d0.id in seen then seen else seen + {d0.id};
      var rest := DistinctById(ds[1..], seen');
      DistinctKeeps(ds[1..], seen', k - 1);
      var i :| 0 <= i < |rest| && rest[i].id == ds[k].id;
      if d0.id !in seen {
        assert r[i + 1] == rest[i];
      }
    }
  }

  /** Each entry of `r` is the first entry of `ds` with its id. */
  predicate FirstOccurrences(ds: seq<DriverInfo>, r: seq<DriverInfo>)
  {
    forall i :: 0 <= i < |r| ==> IndexOfId(ds, r[i].id) < |ds| && ds[IndexOfId(ds, r[i].id)] == r[i]
  }

  /** The entries of `r` appear in `ds` in the same order. */
  predicate InFirstOrder(ds: seq<DriverInfo>, r: seq<DriverInfo>)
  {
    forall i, j :: 0 <= i < j < |r| ==> IndexOfId(ds, r[i].id) < IndexOfId(ds, r[j].id)
  }

  /** Past the first entry, a kept driver's first index in `ds` is one more than in `ds[1..]`. */
  lemma IndexShift(ds: seq<DriverInfo>, rest: seq<DriverInfo>, seen': set<int>)
    requires ds != [] && ds[0].id in seen'
    requires forall i :: 0 <= i < |rest| ==> rest[i].id !in seen'
    ensures forall i :: 0 <= i < |rest| ==> IndexOfId(ds, rest[i].id) == 1 + IndexOfId(ds[1..], rest[i].id)
  {
  }

  /** The kept drivers of a non-empty list: its head when not yet seen, then those kept from its tail. */
  lemma DistinctUnfold(ds: seq<DriverInfo>, seen: set<int>)
    requires ds != []
    ensures var seen' := if ds[0].id in seen then seen else seen + {ds[0].id};
      var rest := DistinctById(ds[1..], seen');
      && ds[0].id in seen'
      && DistinctById(ds, seen) == (if ds[0].id in seen then rest else [ds[0]] + rest)
  {
  }

  /** Kept drivers are first occurrences in `ds`. */
  lemma {:induction false} DistinctFirstOccurrences(ds: seq<DriverInfo>, seen: set<int>)
    ensures FirstOccurrences(ds, DistinctById(ds, seen))
    decreases |ds|
  {
    if ds != [] {
      var seen' := if ds[0].id in seen then seen else seen + {ds[0].id};
      var rest := DistinctById(ds[1..], seen');
      var r := DistinctById(ds, seen);
      DistinctUnfold(ds, seen);
      DistinctFirstOccurrences(ds[1..], seen');
      IndexShift(ds, rest, seen');
      forall i | 0 <= i < |r|
        ensures IndexOfId(ds, r[i].id) < |ds| && ds[IndexOfId(ds, r[i].id)] == r[i]
      {
        if ds[0].id in seen || i > 0 {
          var j := if ds[0].id in seen then i else i - 1;
          assert r[i] == rest[j];
          assert ds[1..][IndexOfId(ds[1..], rest[j].id)] == rest[j];
        }
      }
    }
  }

  /** An ordered tail stays ordered in `ds` when every one of its first indices moves up by one. */
  lemma ShiftInFirstOrder(ds: seq<DriverInfo>, rest: seq<DriverInfo>)
    requires ds != []
    requires InFirstOrder(ds[1..], rest)
    requires forall i :: 0 <= i < |rest| ==> IndexOfId(ds, rest[i].id) == 1 + IndexOfId(ds[1..], rest[i].id)
    ensures InFirstOrder(ds, rest)
  {
  }

  /** The first driver of `ds` can go in front of an ordered list of later first occurrences. */
  lemma HeadInFirstOrder(ds: seq<DriverInfo>, rest: seq<DriverInfo>)
    requires ds != []
    requires InFirstOrder(ds, rest)
    requires forall i :: 0 <= i < |rest| ==> IndexOfId(ds, rest[i].id) >= 1
    ensures InFirstOrder(ds, [ds[0]] + rest)
  {
    var r := [ds[0]] + rest;
    forall i, j | 0 <= i < j < |r|
      ensures IndexOfId(ds, r[i].id) < IndexOfId(ds, r[j].id)
    {
      assert r[j] == rest[j - 1];
      if i > 0 {
        assert r[i] == rest[i - 1];
      }
    }
  }

  /** Kept drivers keep the order of their first occurrences in `ds`. */
  lemma {:induction false} DistinctInFirstOrder(ds: seq<DriverInfo>, seen: set<int>)
    ensures InFirstOrder(ds, DistinctById(ds, seen))
    decreases |ds|
  {
    if ds != [] {
      var seen' := if ds[0].id in seen then seen else seen + {ds[0].id};
      var rest := DistinctById(ds[1..], seen');
      DistinctUnfold(ds, seen);
      DistinctInFirstOrder(ds[1..], seen');
      IndexShift(ds, rest, seen');
      ShiftInFirstOrder(ds, rest);
      if ds[0].id !in seen {
        HeadInFirstOrder(ds, rest);
      }
    }
  }

  /** How many of the records the driver drove (`filter(driver id equals).count()`). */
  function CountBy(ts: seq<Transport>, id: int): nat
    decreases |ts|
  {
    if ts == [] then 0 else (if ts[0].driver.id == id then 1 else 0) + CountBy(ts[1..], id)
  }

  /** The paid revenue of the driver's records. */
  function RevenueBy(ts: seq<Transport>, id: int): int
    decreases |ts|
  {
    if ts == [] then 0 else (if ts[0].driver.id == id then PaidPrice(ts[0]) else 0) + RevenueBy(ts[1..], id)
  }

  /** The summary of one listed driver: both counts added, revenue over both kinds. */
  function DriverRow(p: seq<Transport>, c: seq<Transport>, d: DriverInfo): DriverRef
  {
    DriverRef(d.id, d.firstName, d.lastName, CountBy(p, d.id) + CountBy(c, d.id), RevenueBy(p + c, d.id))
  }

  function Rows(p: seq<Transport>, c: seq<Transport>, ds: seq<DriverInfo>): (r: seq<DriverRef>)
    ensures |r| == |ds| && forall i :: 0 <= i < |ds| ==> r[i] == DriverRow(p, c, ds[i])
  {
    seq(|ds|, i requires 0 <= i < |ds| => DriverRow(p, c, ds[i]))
  }

  /** The report of the given passenger and cargo transports. */
  function Aggregate(p: seq<Transport>, c: seq<Transport>): (r: CompanyReport)
    ensures r.totalFinishedPassengerTransports == |p| && r.totalFinishedCargoTransports == |c|
    ensures |r.drivers| <= |p| + |c|
  {
    var ds := DistinctById(DriversOf(p + c), {});
    DistinctIsShorter(DriversOf(p + c), {});
    CompanyReport(
      |p|,
      |c|,
      PaidTotal(p + c),
      UnpaidList(p, c),
      Rows(p, c, ds))
  }

  lemma {:induction false} DistinctIsShorter(ds: seq<DriverInfo>, seen: set<int>)
    ensures |DistinctById(ds, seen)| <= |ds|
    decreases |ds|
  {
    if ds != [] {
      DistinctIsShorter(ds[1..], seen);
      DistinctIsShorter(ds[1..], seen + {ds[0].id});
    }
  }

  // ---------------------------------------------------------------------------
  // Sums over records and over summaries

  lemma {:induction false} PaidTotalAppend(a: seq<Transport>, b: seq<Transport>)
    ensures PaidTotal(a + b) == PaidTotal(a) + PaidTotal(b)
    decreases |a|
  {
    if a == [] {
      assert a + b == b;
    } else {
      assert (a + b)[1..] == a[1..] + b;
      PaidTotalAppend(a[1..], b);
    }
  }

  lemma {:induction false} CountByAppend(a: seq<Transport>, b: seq<Transport>, id: int)
    ensures CountBy(a + b, id) == CountBy(a, id) + CountBy(b, id)
    decreases |a|
  {
    if a == [] {
      assert a + b == b;
    } else {
      assert (a + b)[1..] == a[1..] + b;
      CountByAppend(a[1..], b, id);
    }
  }

  lemma {:induction false} RevenueByAppend(a: seq<Transport>, b: seq<Transport>, id: int)
    ensures RevenueBy(a + b, id) == RevenueBy(a, id) + RevenueBy(b, id)
    decreases |a|
  {
    if a == [] {
      assert a + b == b;
    } else {
      assert (a + b)[1..] == a[1..] + b;
      RevenueByAppend(a[1..], b, id);
    }
  }

  /** Taking a record out of the middle of a list takes its paid price out of the total. */
  lemma PaidTotalMiddle(x: seq<Transport>, t: Transport, y: seq<Transport>)
    ensures PaidTotal(x + [t] + y) == PaidPrice(t) + PaidTotal(x + y)
  {
    PaidTotalAppend(x + [t], y);
    PaidTotalAppend(x, [t]);
    PaidTotalAppend(x, y);
    assert [t][1..] == [];
  }

  /** Cutting a list around position k: what comes before, the record there, and what follows. */
  lemma CutAt(b: seq<Transport>, k: nat)
    requires k < |b|
    ensures b == b[..k] + [b[k]] + b[k + 1..]
    ensures multiset(b[..k] + b[k + 1..]) == multiset(b) - multiset{b[k]}
  {
    assert b == b[..k] + [b[k]] + b[k + 1..];
    assert multiset(b) == multiset(b[..k]) + multiset{b[k]} + multiset(b[k + 1..]);
  }

  /** Revenue does not depend on the order the repository returns the records in. */
  lemma {:induction false} PaidTotalPermutation(a: seq<Transport>, b: seq<Transport>)
    requires multiset(a) == multiset(b)
    ensures PaidTotal(a) == PaidTotal(b)
    decreases |a|
  {
    if a == [] {
      assert |b| == |multiset(b)| == 0;
    } else {
      assert a[0] in multiset(a);
      var k :| 0 <= k < |b| && b[k] == a[0];
      CutAt(b, k);
      CutAt(a, 0);
      var x, y := b[..k], b[k + 1..];
      assert a[..0] + a[1..] == a[1..];
      calc {
        PaidTotal(b);
        PaidTotal(x + [a[0]] + y);
        { PaidTotalMiddle(x, a[0], y); }
        PaidPrice(a[0]) + PaidTotal(x + y);
        { PaidTotalPermutation(a[1..], x + y); }
        PaidPrice(a[0]) + PaidTotal(a[1..]);
        PaidTotal(a);
      }
    }
  }

  /** With nothing paid there is no revenue, in total or for any driver. */
  lemma {:induction false} NothingPaidNoRevenue(ts: seq<Transport>, id: int)
    requires forall i :: 0 <= i < |ts| ==> !ts[i].isPaid
    ensures PaidTotal(ts) == 0 && RevenueBy(ts, id) == 0
    decreases |ts|
  {
    if ts != [] {
      NothingPaidNoRevenue(ts[1..], id);
    }
  }

  /** How many entries of `ds` carry the id. */
  function Hits(ds: seq<DriverInfo>, id: int): nat
    decreases |ds|
  {
    if ds == [] then 0 else (if ds[0].id == id then 1 else 0) + Hits(ds[1..], id)
  }

  /** The record's paid price once for each entry of `ds` carrying its driver's id. */
  function HitPrice(ds: seq<DriverInfo>, t: Transport): int
    decreases |ds|
  {
    if ds == [] then 0 else (if ds[0].id == t.driver.id then PaidPrice(t) else 0) + HitPrice(ds[1..], t)
  }

  predicate DistinctIds(ds: seq<DriverInfo>)
  {
    forall i, j :: 0 <= i < j < |ds| ==> ds[i].id != ds[j].id
  }

  predicate HasId(ds: seq<DriverInfo>, id: int)
  {
    exists i :: 0 <= i < |ds| && ds[i].id == id
  }

  lemma {:induction false} HitsOfDistinct(ds: seq<DriverInfo>, t: Transport)
    requires DistinctIds(ds)
    ensures Hits(ds, t.driver.id) == (if HasId(ds, t.driver.id) then 1 else 0)
    ensures HitPrice(ds, t) == (if HasId(ds, t.driver.id) then PaidPrice(t) else 0)
    decreases |ds|
  {
    if ds != [] {
      var tail := ds[1..];
      assert DistinctIds(tail) by {
        forall i, j | 0 <= i < j < |tail| ensures tail[i].id != tail[j].id {
          assert tail[i] == ds[i + 1] && tail[j] == ds[j + 1];
        }
      }
      HitsOfDistinct(tail, t);
      assert HasId(ds, t.driver.id) <==> ds[0].id == t.driver.id || HasId(tail, t.driver.id) by {
        if HasId(ds, t.driver.id) && ds[0].id != t.driver.id {
          var i :| 0 <= i < |ds| && ds[i].id == t.driver.id;
          assert tail[i - 1] == ds[i];
        }
        if HasId(tail, t.driver.id) {
          var i :| 0 <= i < |tail| && tail[i].id == t.driver.id;
          assert ds[i + 1] == tail[i];
        }
      }
    }
  }

  /** Σ over `ds` of each driver's count in `ts`. */
  function CountSum(ts: seq<Transport>, ds: seq<DriverInfo>): int
    decreases |ds|
  {
    if ds == [] then 0 else CountBy(ts, ds[0].id) + CountSum(ts, ds[1..])
  }

  /** Σ over `ds` of each driver's revenue in `ts`. */
  function RevenueSum(ts: seq<Transport>, ds: seq<DriverInfo>): int
    decreases |ds|
  {
    if ds == [] then 0 else RevenueBy(ts, ds[0].id) + RevenueSum(ts, ds[1..])
  }

  lemma {:induction false} SumsCons(t: Transport, rest: seq<Transport>, ds: seq<DriverInfo>)
    ensures CountSum([t] + rest, ds) == Hits(ds, t.driver.id) + CountSum(rest, ds)
    ensures RevenueSum([t] + rest, ds) == HitPrice(ds, t) + RevenueSum(rest, ds)
    decreases |ds|
  {
    assert ([t] + rest)[1..] == rest;
    if ds != [] {
      SumsCons(t, rest, ds[1..]);
    }
  }

  /**
    The partition: when `ds` lists every driver of `ts` once, their counts add up to |ts|
    and their revenues to the total paid revenue.
  */
  lemma {:induction false} Partition(ts: seq<Transport>, ds: seq<DriverInfo>)
    requires DistinctIds(ds)
    requires forall i :: 0 <= i < |ts| ==> HasId(ds, ts[i].driver.id)
    ensures CountSum(ts, ds) == |ts|
    ensures RevenueSum(ts, ds) == PaidTotal(ts)
    decreases |ts|
  {
    if ts == [] {
      EmptySums(ds);
    } else {
      var t := ts[0];
      var rest := ts[1..];
      assert ts == [t] + rest;
      assert forall i :: 0 <= i < |rest| ==> rest[i] == ts[i + 1];
      Partition(rest, ds);
      SumsCons(t, rest, ds);
      HitsOfDistinct(ds, t);
    }
  }

  lemma {:induction false} EmptySums(ds: seq<DriverInfo>)
    ensures CountSum([], ds) == 0 && RevenueSum([], ds) == 0
    decreases |ds|
  {
    if ds != [] {
      EmptySums(ds[1..]);
    }
  }

  function SumCompleted(rows: seq<DriverRef>): int
    decreases |rows|
  {
    if rows == [] then 0 else rows[0].totalCompletedTransports + SumCompleted(rows[1..])
  }

  function SumRevenue(rows: seq<DriverRef>): int
    decreases |rows|
  {
    if rows == [] then 0 else rows[0].generatedRevenue + SumRevenue(rows[1..])
  }

  lemma {:induction false} RowSums(p: seq<Transport>, c: seq<Transport>, ds: seq<DriverInfo>)
    ensures SumCompleted(Rows(p, c, ds)) == CountSum(p + c, ds)
    ensures SumRevenue(Rows(p, c, ds)) == RevenueSum(p + c, ds)
    decreases |ds|
  {
    if ds != [] {
      assert Rows(p, c, ds)[1..] == Rows(p, c, ds[1..]);
      RowSums(p, c, ds[1..]);
      CountByAppend(p, c, ds[0].id);
    }
  }

  /** Every driver of the records is listed: the listed ids cover all of them. */
  lemma ListedCoverRecords(ts: seq<Transport>)
    ensures var ds := DistinctById(DriversOf(ts), {});
      DistinctIds(ds) && forall i :: 0 <= i < |ts| ==> HasId(ds, ts[i].driver.id)
  {
    var all := DriversOf(ts);
    var ds := DistinctById(all, {});
    forall i | 0 <= i < |ts| ensures HasId(ds, ts[i].driver.id) {
      DistinctKeeps(all, {}, i);
    }
  }

  // ---------------------------------------------------------------------------
  // The report's properties

  /** The drivers' completed transports add up to all records, and their revenues to the total revenue. */
  lemma ReportPartition(p: seq<Transport>, c: seq<Transport>)
    ensures SumCompleted(Aggregate(p, c).drivers) == |p| + |c|
    ensures SumRevenue(Aggregate(p, c).drivers) == Aggregate(p, c).totalRevenue
  {
    var ds := DistinctById(DriversOf(p + c), {});
    ListedCoverRecords(p + c);
    Partition(p + c, ds);
    RowSums(p, c, ds);
  }

  /** Total revenue is the paid revenue of the passenger transports plus that of the cargo transports. */
  lemma ReportRevenue(p: seq<Transport>, c: seq<Transport>)
    ensures Aggregate(p, c).totalRevenue == PaidTotal(p) + PaidTotal(c)
    ensures (forall i :: 0 <= i < |p| ==> !p[i].isPaid) && (forall i :: 0 <= i < |c| ==> !c[i].isPaid) ==>
      Aggregate(p, c).totalRevenue == 0
  {
    PaidTotalAppend(p, c);
    if (forall i :: 0 <= i < |p| ==> !p[i].isPaid) && (forall i :: 0 <= i < |c| ==> !c[i].isPaid) {
      NothingPaidNoRevenue(p, 0);
      NothingPaidNoRevenue(c, 0);
    }
  }

  /** The unpaid list: passenger references first, then cargo references. */
  function UnpaidList(p: seq<Transport>, c: seq<Transport>): seq<TransportRef>
  {
    UnpaidRefs(p, PassengerKind) + UnpaidRefs(c, CargoKind)
  }

  /** An unpaid reference names an unpaid record of its own kind. */
  predicate RefersToUnpaid(p: seq<Transport>, c: seq<Transport>, r: TransportRef)
  {
    || (r.kind == PassengerKind && exists t :: t in p && !t.isPaid && t.id == r.id)
    || (r.kind == CargoKind && exists t :: t in c && !t.isPaid && t.id == r.id)
  }

  /** Each reference built from `ts` carries the kind and the id of an unpaid record of `ts`. */
  lemma UnpaidRefsRefer(ts: seq<Transport>, kind: string)
    ensures forall r :: r in UnpaidRefs(ts, kind) ==> r.kind == kind && exists t :: t in ts && !t.isPaid && t.id == r.id
  {
    var unpaid := FindAll(ts, IsUnpaid);
    var refs := UnpaidRefs(ts, kind);
    forall r | r in refs
      ensures r.kind == kind && exists t :: t in ts && !t.isPaid && t.id == r.id
    {
      var i :| 0 <= i < |refs| && refs[i] == r;
      assert unpaid[i] in unpaid;
    }
  }

  /** `u` is `front` tagged "passenger" followed by `back` tagged "cargo", in order. */
  predicate TaggedInOrder(u: seq<TransportRef>, front: seq<Transport>, back: seq<Transport>)
  {
    && |u| == |front| + |back|
    && (forall i :: 0 <= i < |front| ==> u[i] == TransportRef(front[i].id, PassengerKind))
    && (forall i :: 0 <= i < |back| ==> u[|front| + i] == TransportRef(back[i].id, CargoKind))
  }

  /** The passenger references in input order, then the cargo references. */
  lemma UnpaidListOrder(p: seq<Transport>, c: seq<Transport>)
    ensures TaggedInOrder(UnpaidList(p, c), FindAll(p, IsUnpaid), FindAll(c, IsUnpaid))
  {
    var up := FindAll(p, IsUnpaid);
    var uc := FindAll(c, IsUnpaid);
    var a := Tagged(up, PassengerKind);
    var b := Tagged(uc, CargoKind);
    var u := a + b;
    assert u == UnpaidList(p, c);
    forall i | 0 <= i < |up| ensures u[i] == TransportRef(up[i].id, PassengerKind) {
      assert u[i] == a[i];
    }
    forall i | 0 <= i < |uc| ensures u[|up| + i] == TransportRef(uc[i].id, CargoKind) {
      assert u[|up| + i] == b[i];
    }
    assert TaggedInOrder(u, up, uc);
  }

  /** Every reference names an unpaid record of its kind. */
  lemma UnpaidListRefers(p: seq<Transport>, c: seq<Transport>)
    ensures forall r :: r in UnpaidList(p, c) ==> RefersToUnpaid(p, c, r)
  {
    var a := UnpaidRefs(p, PassengerKind);
    var b := UnpaidRefs(c, CargoKind);
    UnpaidRefsRefer(p, PassengerKind);
    UnpaidRefsRefer(c, CargoKind);
    forall r | r in a + b
      ensures RefersToUnpaid(p, c, r)
    {
      if r in a {
      } else {
        assert r in b;
      }
    }
  }

  /**
    The unpaid list: the unpaid passenger transports in input order tagged "passenger", then the
    unpaid cargo transports tagged "cargo"; nothing paid, nothing else.
  */
  lemma ReportUnpaid(p: seq<Transport>, c: seq<Transport>)
    ensures TaggedInOrder(Aggregate(p, c).unpaidTransports, FindAll(p, IsUnpaid), FindAll(c, IsUnpaid))
    ensures forall r :: r in Aggregate(p, c).unpaidTransports ==> RefersToUnpaid(p, c, r)
  {
    UnpaidListOrder(p, c);
    UnpaidListRefers(p, c);
  }

  /** The driver list names each driver of either kind of record exactly once. */
  lemma ReportDriversOnce(p: seq<Transport>, c: seq<Transport>)
    ensures var rows := Aggregate(p, c).drivers;
      && (forall i, j :: 0 <= i < j < |rows| ==> rows[i].id != rows[j].id)
      && (forall k :: 0 <= k < |p + c| ==> exists i :: 0 <= i < |rows| && rows[i].id == (p + c)[k].driver.id)
  {
    var ds := DistinctById(DriversOf(p + c), {});
    var rows := Aggregate(p, c).drivers;
    ListedCoverRecords(p + c);
    forall k | 0 <= k < |p + c| ensures exists i :: 0 <= i < |rows| && rows[i].id == (p + c)[k].driver.id {
      var i :| 0 <= i < |ds| && ds[i].id == (p + c)[k].driver.id;
      assert rows[i].id == ds[i].id;
    }
  }

  /** Each summary's driver is the first driver in `all` with its id: same id and the same names. */
  predicate NamedAtFirst(all: seq<DriverInfo>, rows: seq<DriverRef>)
  {
    forall i :: 0 <= i < |rows| ==>
      IndexOfId(all, rows[i].id) < |all| &&
      rows[i].firstName == all[IndexOfId(all, rows[i].id)].firstName &&
      rows[i].lastName == all[IndexOfId(all, rows[i].id)].lastName
  }

  /** The summaries follow the order in which their drivers first appear in `all`. */
  predicate RowsInFirstOrder(all: seq<DriverInfo>, rows: seq<DriverRef>)
  {
    forall i, j :: 0 <= i < j < |rows| ==> IndexOfId(all, rows[i].id) < IndexOfId(all, rows[j].id)
  }

  /**
    The drivers come in order of first appearance, scanning passengers then cargo, and each is
    named as at that first appearance.
  */
  lemma ReportDriversOrder(p: seq<Transport>, c: seq<Transport>)
    ensures NamedAtFirst(DriversOf(p + c), Aggregate(p, c).drivers)
    ensures RowsInFirstOrder(DriversOf(p + c), Aggregate(p, c).drivers)
  {
    var all := DriversOf(p + c);
    var ds := DistinctById(all, {});
    var rows := Aggregate(p, c).drivers;
    DistinctFirstOccurrences(all, {});
    DistinctInFirstOrder(all, {});
    assert rows == Rows(p, c, ds);
    forall i, j | 0 <= i < j < |rows|
      ensures IndexOfId(all, rows[i].id) < IndexOfId(all, rows[j].id)
    {
      assert rows[i].id == ds[i].id && rows[j].id == ds[j].id;
    }
  }

  /** Each summary counts the driver's records of both kinds (at least one) and their paid revenue. */
  lemma ReportDriverFigures(p: seq<Transport>, c: seq<Transport>)
    ensures var rows := Aggregate(p, c).drivers;
      forall i :: 0 <= i < |rows| ==>
        && rows[i].totalCompletedTransports == CountBy(p + c, rows[i].id)
        && rows[i].totalCompletedTransports >= 1
        && rows[i].generatedRevenue == RevenueBy(p + c, rows[i].id)
  {
    var all := DriversOf(p + c);
    var ds := DistinctById(all, {});
    var rows := Aggregate(p, c).drivers;
    DistinctFirstOccurrences(all, {});
    forall i | 0 <= i < |rows|
      ensures rows[i].totalCompletedTransports == CountBy(p + c, rows[i].id) >= 1
    {
      CountByAppend(p, c, ds[i].id);
      var k := IndexOfId(all, ds[i].id);
      CountByPositive(p + c, k);
    }
  }

  /** A driver none of whose records is paid has earned nothing. */
  lemma {:induction false} UnpaidDriverRevenue(ts: seq<Transport>, id: int)
    requires forall i :: 0 <= i < |ts| && ts[i].driver.id == id ==> !ts[i].isPaid
    ensures RevenueBy(ts, id) == 0
    decreases |ts|
  {
    if ts != [] {
      assert forall i :: 0 <= i < |ts[1..]| ==> ts[1..][i] == ts[i + 1];
      UnpaidDriverRevenue(ts[1..], id);
    }
  }

  /** A listed driver who was never paid still appears, with its transports counted and no revenue. */
  lemma ReportUnpaidDriver(p: seq<Transport>, c: seq<Transport>, i: nat)
    requires i < |Aggregate(p, c).drivers|
    requires forall k :: 0 <= k < |p + c| && (p + c)[k].driver.id == Aggregate(p, c).drivers[i].id ==> !(p + c)[k].isPaid
    ensures Aggregate(p, c).drivers[i].generatedRevenue == 0
    ensures Aggregate(p, c).drivers[i].totalCompletedTransports >= 1
  {
    ReportDriverFigures(p, c);
    UnpaidDriverRevenue(p + c, Aggregate(p, c).drivers[i].id);
  }

  /** A driver who drove the record at position k has a positive count. */
  lemma {:induction false} CountByPositive(ts: seq<Transport>, k: nat)
    requires k < |ts|
    ensures CountBy(ts, ts[k].driver.id) >= 1
    decreases k
  {
    if k > 0 {
      CountByPositive(ts[1..], k - 1);
      assert ts[1..][k - 1] == ts[k];
    }
  }

  /** Nothing in the window gives an all-zero report with empty lists. */
  lemma EmptyReport()
    ensures Aggregate([], []) == CompanyReport(0, 0, 0, [], [])
  {
    assert DriversOf([] + []) == [];
  }

  // ---------------------------------------------------------------------------
  // The endpoint

  /** `fromDate` defaults to 1970-01-01 and `toDate` to today; `today` stands for the clock. */
  function ResolveWindow(fromDate: Option<Date>, toDate: Option<Date>, today: Date): (r: (Date, Date))
    ensures fromDate.None? ==> r.0 == Epoch
    ensures fromDate.Some? ==> r.0 == fromDate.value
    ensures toDate.None? ==> r.1 == today
    ensures toDate.Some? ==> r.1 == toDate.value
  {
    (fromDate.GetOr(Epoch), toDate.GetOr(today))
  }

  /** The report's input: the company's records whose end date lies in the window. */
  predicate InWindow(t: Transport, companyId: int, window: (Date, Date))
  {
    EndDateInRange(t, window.0, window.1) && HasCompanyId(t, companyId)
  }

  /** `where(endDateInRange(window)).and(hasCompanyId(companyId))` as one specification. */
  function WindowSpec(companyId: int, window: (Date, Date)): Transport -> bool
  {
    t => InWindow(t, companyId, window)
  }

  /** `getCompanyReport`: not found for an unknown company, checked before anything else. */
  function GetCompanyReport(store: Store, companyId: int, fromDate: Option<Date>, toDate: Option<Date>, today: Date): (r: Result<CompanyReport, Error>)
    ensures r.Failure? <==> !HasCompany(store, companyId)
    ensures r.Failure? ==> r.error == CompanyNotFound
    ensures r.Success? ==>
      var spec := WindowSpec(companyId, ResolveWindow(fromDate, toDate, today));
      r.value == Aggregate(FindAll(store.passengerTransports, spec), FindAll(store.cargoTransports, spec))
  {
    match FindCompany(store, companyId)
    case None => Failure(CompanyNotFound)
    case Some(company) =>
      var spec := WindowSpec(company.id, ResolveWindow(fromDate, toDate, today));
      var p := FindAll(store.passengerTransports, spec);
      var c := FindAll(store.cargoTransports, spec);
      Success(Aggregate(p, c))
  }

  /**
    The report counts every selected record once per stored copy: its inputs hold exactly the
    company's records whose end date is in the resolved window, each as often as the store does.
  */
  lemma ReportInputs(store: Store, companyId: int, fromDate: Option<Date>, toDate: Option<Date>, today: Date)
    requires HasCompany(store, companyId)
    ensures var window := ResolveWindow(fromDate, toDate, today);
      var spec := WindowSpec(companyId, window);
      var p := FindAll(store.passengerTransports, spec);
      var c := FindAll(store.cargoTransports, spec);
      && GetCompanyReport(store, companyId, fromDate, toDate, today) == Success(Aggregate(p, c))
      && (forall t :: multiset(p)[t] == if InWindow(t, companyId, window) then multiset(store.passengerTransports)[t] else 0)
      && (forall t :: multiset(c)[t] == if InWindow(t, companyId, window) then multiset(store.cargoTransports)[t] else 0)
      && Aggregate(p, c).totalFinishedPassengerTransports == |p|
      && Aggregate(p, c).totalFinishedCargoTransports == |c|
  {
    var spec := WindowSpec(companyId, ResolveWindow(fromDate, toDate, today));
    FindAllCounts(store.passengerTransports, spec);
    FindAllCounts(store.cargoTransports, spec);
  }

  /**
    The worked example: cargo [1: 100, paid, driver D1] and passenger [2: 50, unpaid, D1] give one of
    each, revenue 100, the passenger transport as unpaid, and D1 with two transports and revenue 100.
  */
  lemma WorkedExample(d1: DriverInfo, customer: Customer, vehicle: Vehicle, companyId: int)
    ensures var cargo := Transport(1, "A", "B", 0, 1, 100, true, companyId, d1, customer, vehicle, Cargo("goods", 10));
      var passenger := Transport(2, "A", "B", 0, 1, 50, false, companyId, d1, customer, vehicle, Passengers(5));
      Aggregate([passenger], [cargo]) ==
        CompanyReport(1, 1, 100, [TransportRef(2, PassengerKind)],
          [DriverRef(d1.id, d1.firstName, d1.lastName, 2, 100)])
  {
    var cargo := Transport(1, "A", "B", 0, 1, 100, true, companyId, d1, customer, vehicle, Cargo("goods", 10));
    var passenger := Transport(2, "A", "B", 0, 1, 50, false, companyId, d1, customer, vehicle, Passengers(5));
    var all := [passenger] + [cargo];
    assert all[1..] == [cargo];
    assert DriversOf(all) == [d1, d1];
    assert [d1, d1][1..] == [d1];
    assert [d1][1..] == [];
    assert {} + {d1.id} == {d1.id};
    assert DistinctById([d1], {d1.id}) == [];
    assert [d1] + [] == [d1];
    assert DistinctById([d1, d1], {}) == [d1];
    assert FindAll([passenger], IsUnpaid) == [passenger];
    assert FindAll([cargo], IsUnpaid) == [];
    var r := Aggregate([passenger], [cargo]);
    assert [cargo][1..] == [];
    assert PaidTotal([cargo]) == 100;
    assert PaidTotal(all) == 100;
    assert r.totalRevenue == 100;
    assert r.unpaidTransports == [TransportRef(2, PassengerKind)];
    assert r.drivers == [DriverRow([passenger], [cargo], d1)];
    assert CountBy([passenger], d1.id) == 1;
    assert CountBy([cargo], d1.id) == 1;
    assert RevenueBy([cargo], d1.id) == 100;
    assert RevenueBy(all, d1.id) == 100;
  }
}
