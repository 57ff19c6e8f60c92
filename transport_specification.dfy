/**
  The query predicates on transport records, the repository's `findAll(spec)`
  that keeps the records satisfying one, and the fixed-size pages listings return.
*/
module TransportSpecification {
  import opened Wrappers
  import opened Entities

  /** `endAddress = destination`, compared exactly. */
  predicate HasDestination(t: Transport, destination: string)
  {
    t.endAddress == destination
  }

  /** `company.id IN (companyId)`. */
  predicate HasCompanyId(t: Transport, companyId: int)
  {
    t.companyId == companyId
  }

  /** `endDate BETWEEN startDate AND endDate`, both ends included. */
  predicate EndDateInRange(t: Transport, startDate: Date, endDate: Date)
  {
    startDate <= t.endDate <= endDate
  }

  /** A window that starts after it ends holds no transport. */
  lemma EmptyWindowMatchesNothing(t: Transport, startDate: Date, endDate: Date)
    requires startDate > endDate
    ensures !EndDateInRange(t, startDate, endDate)
  {
  }

  /** Only the end date is consulted: moving the start date never changes the verdict. */
  lemma StartDateIgnored(t: Transport, startDate: Date, endDate: Date, otherStart: Date)
    ensures EndDateInRange(t.(startDate := otherStart), startDate, endDate) == EndDateInRange(t, startDate, endDate)
  {
  }

  /** `where(hasCompanyId(companyId)).and(destination == null ? null : hasDestination(destination))`. */
  predicate ListingFilter(t: Transport, companyId: int, destination: Option<string>)
  {
    HasCompanyId(t, companyId) && (destination.Some? ==> HasDestination(t, destination.value))
  }

  /** The listing filter as a specification, one value per company and destination. */
  function ListingSpec(companyId: int, destination: Option<string>): Transport -> bool
  {
    t => ListingFilter(t, companyId, destination)
  }

  /** `hasCompanyId(companyId)` alone as a specification, as the older controller queries it. */
  function CompanySpec(companyId: int): Transport -> bool
  {
    t => HasCompanyId(t, companyId)
  }

  /** `findAll(spec)`: the stored records satisfying `spec`, in store order. */
  function FindAll(ts: seq<Transport>, spec: Transport -> bool): (r: seq<Transport>)
    ensures forall t :: t in r <==> t in ts && spec(t)
    ensures |r| <= |ts|
    decreases |ts|
  {
    if ts == [] then []
    else
      var rest := FindAll(ts[1..], spec);
      assert forall t :: t in ts <==> t == ts[0] || t in ts[1..];
      if spec(ts[0]) then [ts[0]] + rest else rest
  }

  /** Every matching record is kept as often as the store holds it, and no other record is kept. */
  lemma {:induction false} FindAllCounts(ts: seq<Transport>, spec: Transport -> bool)
    ensures forall t :: multiset(FindAll(ts, spec))[t] == if spec(t) then multiset(ts)[t] else 0
    decreases |ts|
  {
    if ts != [] {
      FindAllCounts(ts[1..], spec);
      assert ts == [ts[0]] + ts[1..];
      assert multiset(ts) == multiset{ts[0]} + multiset(ts[1..]);
      var rest := FindAll(ts[1..], spec);
      if spec(ts[0]) {
        assert FindAll(ts, spec) == [ts[0]] + rest;
        assert multiset([ts[0]] + rest) == multiset{ts[0]} + multiset(rest);
      } else {
        assert FindAll(ts, spec) == rest;
      }
    }
  }

  /** Selecting from two stores one after the other is selecting from both: the store order is kept. */
  lemma {:induction false} FindAllAppend(a: seq<Transport>, b: seq<Transport>, spec: Transport -> bool)
    ensures FindAll(a + b, spec) == FindAll(a, spec) + FindAll(b, spec)
    decreases |a|
  {
    if a != [] {
      FindAllAppend(a[1..], b, spec);
      assert (a + b)[0] == a[0];
      assert (a + b)[1..] == a[1..] + b;
      if spec(a[0]) {
        calc {
          FindAll(a + b, spec);
          [a[0]] + FindAll(a[1..] + b, spec);
          [a[0]] + (FindAll(a[1..], spec) + FindAll(b, spec));
          ([a[0]] + FindAll(a[1..], spec)) + FindAll(b, spec);
        }
      }
    } else {
      assert a + b == b;
    }
  }

  /** The page size of `PageRequest.of(page, 20)`. */
  const PageSize: nat := 20

  /** Page `page` of `xs`: up to PageSize records starting at page * PageSize. */
  function Page(xs: seq<Transport>, page: nat): (r: seq<Transport>)
    ensures |r| <= PageSize
    ensures page * PageSize + PageSize <= |xs| ==> |r| == PageSize
    ensures |r| == if page * PageSize >= |xs| then 0
                   else if |xs| - page * PageSize < PageSize then |xs| - page * PageSize
                   else PageSize
    ensures forall i :: 0 <= i < |r| ==> page * PageSize + i < |xs| && r[i] == xs[page * PageSize + i]
  {
    var lo := if page * PageSize <= |xs| then page * PageSize else |xs|;
    var hi := if lo + PageSize <= |xs| then lo + PageSize else |xs|;
    xs[lo..hi]
  }

  /** What `PageRequest.of` raises for a negative page index. */
  const InvalidPage := Error(InternalServerError, "Page index must not be less than zero")

  /** `findAll(spec, PageRequest.of(page, 20))`: one page of the matching records, or the page error. */
  function FindPage(ts: seq<Transport>, spec: Transport -> bool, page: int): (r: Result<seq<Transport>, Error>)
    ensures r.Failure? <==> page < 0
    ensures r.Failure? ==> r.error == InvalidPage
    ensures r.Success? ==> r.value == Page(FindAll(ts, spec), page)
    ensures r.Success? ==> forall t :: t in r.value ==> t in ts && spec(t)
    ensures r.Success? ==> |r.value| <= PageSize
  {
    if page < 0 then Failure(InvalidPage)
    else
      var r := Page(FindAll(ts, spec), page);
      assert forall t :: t in r ==> t in FindAll(ts, spec);
      Success(r)
  }

  /** The first page of a short enough selection is the whole selection, in store order. */
  lemma FirstPageIsEverything(ts: seq<Transport>, spec: Transport -> bool)
    requires |FindAll(ts, spec)| <= PageSize
    ensures FindPage(ts, spec, 0) == Success(FindAll(ts, spec))
  {
    var all := FindAll(ts, spec);
    assert Page(all, 0) == all[0..|all|];
    assert all[0..|all|] == all;
  }
}
