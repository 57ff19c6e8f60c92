/**
  The query-string parsers behind the `sortBy` and `filterBy` request parameters:
  "p=asc,q=desc" becomes a list of sort orders, "p=v,q=w" a LIKE filter.
  Both cut the input at every "," and each item at every "=" with `String.split`.
*/
module Common {
  import opened Wrappers
  import opened JavaText

  datatype Direction = Asc | Desc

  /** One `Sort.Order`: a direction and the property it sorts by. */
  datatype Order = Order(direction: Direction, property: string)

  /**
    What the parsers raise: `split[1]` on a one-element array, `Sort.by` on a property without
    text (`IllegalArgumentException`), or `root.get` of an unknown attribute.
  */
  datatype ParseError = IndexOutOfBounds | BlankProperty | UnknownAttribute(name: string)

  /** `f.split("=")` for every item `f` of a list. */
  function SplitEach(items: seq<string>): (r: seq<seq<string>>)
    ensures |r| == |items|
    decreases |items|
  {
    if items == [] then [] else [Split(items[0], '=')] + SplitEach(items[1..])
  }

  /** The k-th entry is the k-th item's `split("=")`. */
  lemma {:induction false} SplitEachAt(items: seq<string>, k: nat)
    requires k < |items|
    ensures SplitEach(items)[k] == Split(items[k], '=')
    decreases k
  {
    if k > 0 {
      SplitEachAt(items[1..], k - 1);
    }
  }

  /** The items of an input: `input.split(",")`, each item split at "=". */
  function Items(input: string): seq<seq<string>>
  {
    SplitEach(Split(input, ','))
  }

  // ---------------------------------------------------------------------------
  // sortBy

  /** The direction an entry's value names. Only the exact lower-case words count. */
  function DirectionOf(value: string): Option<Direction>
  {
    if value == "asc" then Some(Asc)
    else if value == "desc" then Some(Desc)
    else None
  }

  /**
    The order one item contributes, if any, given its `split("=")`: reading `split[1]` needs two
    parts, and `Sort.by` refuses a property without text once the direction matched.
  */
  function ParseEntry(split: seq<string>): Result<Option<Order>, ParseError>
  {
    if |split| < 2 then Failure(IndexOutOfBounds)
    else
      match DirectionOf(split[1])
      case Some(d) => if HasText(split[0]) then Success(Some(Order(d, split[0]))) else Failure(BlankProperty)
      case None => Success(None)
  }

  /** The orders so far followed by what one more item contributes. */
  function Extend(front: seq<Order>, split: seq<string>): Result<seq<Order>, ParseError>
  {
    match ParseEntry(split)
    case Failure(e) => Failure(e)
    case Success(None) => Success(front)
    case Success(Some(o)) => Success(front + [o])
  }

  /** The orders collected from the first `n` items, left to right; the first malformed item raises. */
  function ParseOrders(splits: seq<seq<string>>, n: nat): Result<seq<Order>, ParseError>
    requires n <= |splits|
  {
    if n == 0 then Success([])
    else
      match ParseOrders(splits, n - 1)
      case Failure(e) => Failure(e)
      case Success(front) => Extend(front, splits[n - 1])
  }

  /** A sort or null: the source keeps null until the first recognised entry. */
  function AsSort(orders: seq<Order>): Option<seq<Order>>
  {
    if orders == [] then None else Some(orders)
  }

  /** What `sortBy(input)` returns or raises. */
  function SortBySpec(input: Option<string>): Result<Option<seq<Order>>, ParseError>
  {
    match input
    case None => Success(None)
    case Some(s) =>
      var splits := Items(s);
      match ParseOrders(splits, |splits|)
      case Failure(e) => Failure(e)
      case Success(orders) => Success(AsSort(orders))
  }

  /** Once a prefix fails, every longer prefix fails the same way. */
  lemma {:induction false} ParseOrdersFailureStays(splits: seq<seq<string>>, k: nat, n: nat)
    requires k <= n <= |splits| && ParseOrders(splits, k).Failure?
    ensures ParseOrders(splits, n) == ParseOrders(splits, k)
    decreases n
  {
    if k < n {
      ParseOrdersFailureStays(splits, k, n - 1);
    }
  }

  /**
    The loop body of `sortBy` for one item, given its `split("=")`: reading `split[1]` needs two
    parts, then an "asc" or "desc" value starts the sort or is appended to it (`Sort.by` raising for
    a property without text), and anything else leaves it as it was. `orders` is what `s` holds so far.
  */
  method SortEntry(s: Option<seq<Order>>, split: seq<string>, ghost orders: seq<Order>) returns (r: Result<Option<seq<Order>>, ParseError>)
    requires s == AsSort(orders)
    ensures Extend(orders, split).Failure? ==> r == Failure(Extend(orders, split).error)
    ensures Extend(orders, split).Success? ==> r == Success(AsSort(Extend(orders, split).value))
  {
    if |split| < 2 {
      return Failure(IndexOutOfBounds);
    }
    var prop := split[0];
    var val := split[1];
    if val == "asc" {
      if !HasText(prop) {
        return Failure(BlankProperty);
      }
      if s.None? {
        assert orders + [Order(Asc, prop)] == [Order(Asc, prop)];
        return Success(Some([Order(Asc, prop)]));
      } else {
        return Success(Some(s.value + [Order(Asc, prop)]));
      }
    } else if val == "desc" {
      if !HasText(prop) {
        return Failure(BlankProperty);
      }
      if s.None? {
        assert orders + [Order(Desc, prop)] == [Order(Desc, prop)];
        return Success(Some([Order(Desc, prop)]));
      } else {
        return Success(Some(s.value + [Order(Desc, prop)]));
      }
    }
    return Success(s);
  }

  /** `sortBy`: null for a null input; otherwise the loop over the comma-separated items. */
  method SortBy(input: Option<string>) returns (r: Result<Option<seq<Order>>, ParseError>)
    ensures r == SortBySpec(input)
  {
    if input.None? {
      return Success(None);
    }
    var s: Option<seq<Order>> := None;
    ghost var orders: seq<Order> := [];
    var fields := Split(input.value, ',');
    ghost var splits := SplitEach(fields);
    for i := 0 to |fields|
      invariant ParseOrders(splits, i) == Success(orders)
      invariant s == AsSort(orders)
    {
      var split := Split(fields[i], '=');
      SplitEachAt(fields, i);
      var next := SortEntry(s, split, orders);
      if next.Failure? {
        ParseOrdersFailureStays(splits, i + 1, |splits|);
        return Failure(next.error);
      }
      orders := Extend(orders, split).value;
      s := next.value;
    }
    return Success(s);
  }

  /** A prefix is parsed the same whatever follows it. */
  lemma {:induction false} ParseOrdersPrefix(a: seq<seq<string>>, b: seq<seq<string>>, n: nat)
    requires n <= |a|
    ensures ParseOrders(a + b, n) == ParseOrders(a, n)
    decreases n
  {
    if n > 0 {
      ParseOrdersPrefix(a, b, n - 1);
      assert (a + b)[n - 1] == a[n - 1];
    }
  }

  /** Extending orders that start with `oa` is extending the rest and putting `oa` back in front. */
  lemma ExtendAfter(oa: seq<Order>, ob: seq<Order>, split: seq<string>)
    ensures Extend(oa + ob, split) ==
      match Extend(ob, split)
      case Failure(e) => Failure(e)
      case Success(x) => Success(oa + x)
  {
    match ParseEntry(split)
    case Failure(_) =>
    case Success(None) =>
    case Success(Some(o)) =>
      assert oa + ob + [o] == oa + (ob + [o]);
  }

  /** Parsing `a + b` parses `a` first, then carries on through `b`: the orders keep input order. */
  lemma {:induction false} ParseOrdersAppend(a: seq<seq<string>>, b: seq<seq<string>>, k: nat)
    requires k <= |b|
    ensures ParseOrders(a + b, |a| + k) ==
      match ParseOrders(a, |a|)
      case Failure(e) => Failure(e)
      case Success(oa) =>
        match ParseOrders(b, k)
        case Failure(e) => Failure(e)
        case Success(ob) => Success(oa + ob)
    decreases k
  {
    if k == 0 {
      ParseOrdersPrefix(a, b, |a|);
      if ParseOrders(a, |a|).Success? {
        assert ParseOrders(a, |a|).value + [] == ParseOrders(a, |a|).value;
      }
    } else {
      ParseOrdersAppend(a, b, k - 1);
      assert (a + b)[|a| + k - 1] == b[k - 1];
      if ParseOrders(a, |a|).Success? && ParseOrders(b, k - 1).Success? {
        ExtendAfter(ParseOrders(a, |a|).value, ParseOrders(b, k - 1).value, b[k - 1]);
      }
    }
  }

  /** An item whose value is neither "asc" nor "desc" adds nothing. */
  predicate Skipped(split: seq<string>)
  {
    |split| >= 2 && split[1] != "asc" && split[1] != "desc"
  }

  lemma {:induction false} SkippedParsesEmpty(splits: seq<seq<string>>, n: nat)
    requires n <= |splits|
    requires forall i :: 0 <= i < |splits| ==> Skipped(splits[i])
    ensures ParseOrders(splits, n) == Success([])
    decreases n
  {
    if n > 0 {
      SkippedParsesEmpty(splits, n - 1);
      assert Skipped(splits[n - 1]);
    }
  }

  /** When every item is skipped the result is null, not an empty sort. */
  lemma AllSkippedGivesNull(s: string)
    requires forall i :: 0 <= i < |Items(s)| ==> Skipped(Items(s)[i])
    ensures SortBySpec(Some(s)) == Success(None)
  {
    SkippedParsesEmpty(Items(s), |Items(s)|);
  }

  /** An item whose property has text, or that has a value naming no direction, cannot make `Sort.by` raise. */
  predicate PropertyAccepted(split: seq<string>)
  {
    |split| >= 2 ==> HasText(split[0]) || DirectionOf(split[1]).None?
  }

  /**
    sortBy raises only the index error and the blank-property error, and only the index error
    when every recognised item names a property with text.
  */
  lemma {:induction false} ParseErrors(splits: seq<seq<string>>, n: nat)
    requires n <= |splits|
    ensures ParseOrders(splits, n).Failure? ==>
      ParseOrders(splits, n).error == IndexOutOfBounds || ParseOrders(splits, n).error == BlankProperty
    ensures (forall i :: 0 <= i < |splits| ==> PropertyAccepted(splits[i])) && ParseOrders(splits, n).Failure? ==>
      ParseOrders(splits, n).error == IndexOutOfBounds
    decreases n
  {
    if n > 0 {
      ParseErrors(splits, n - 1);
      if forall i :: 0 <= i < |splits| ==> PropertyAccepted(splits[i]) {
        assert PropertyAccepted(splits[n - 1]);
      }
    }
  }

  /**
    One item without a value ("a", "a=", "") makes the whole call raise, wherever it stands; the
    error is the index error unless an earlier item's blank property raised first.
  */
  lemma MissingValueRaises(s: string, k: nat)
    requires k < |Items(s)| && |Items(s)[k]| < 2
    ensures SortBySpec(Some(s)).Failure?
    ensures (forall i :: 0 <= i < |Items(s)| ==> PropertyAccepted(Items(s)[i])) ==>
      SortBySpec(Some(s)) == Failure(IndexOutOfBounds)
  {
    var splits := Items(s);
    assert ParseOrders(splits, k + 1).Failure?;
    ParseOrdersFailureStays(splits, k + 1, |splits|);
    ParseErrors(splits, |splits|);
  }

  /** A single "property=value" item with plain property and value is split into exactly those two parts. */
  lemma SingleItem(property: string, value: string)
    requires '=' !in property && ',' !in property && '=' !in value && ',' !in value && value != []
    ensures Items(property + "=" + value) == [[property, value]]
  {
    var item := property + "=" + value;
    assert item == property + ['='] + value;
    SplitPair(property, '=', value);
    assert ',' !in item;
    SplitWithoutSeparator(item, ',');
  }

  /** The documented example "name=ASC" is skipped: matching is case-sensitive and the result is null. */
  lemma UpperCaseDirectionIgnored(property: string)
    requires '=' !in property && ',' !in property
    ensures SortBySpec(Some(property + "=ASC")) == Success(None)
  {
    assert property + "=ASC" == property + "=" + "ASC";
    SingleItem(property, "ASC");
    assert ParseOrders([[property, "ASC"]], 1) == Success([]);
  }

  /** The lower-case spelling is recognised and gives a one-order sort. */
  lemma LowerCaseDirectionRecognised(property: string)
    requires '=' !in property && ',' !in property && HasText(property)
    ensures SortBySpec(Some(property + "=asc")) == Success(Some([Order(Asc, property)]))
  {
    assert property + "=asc" == property + "=" + "asc";
    SingleItem(property, "asc");
    assert [] + [Order(Asc, property)] == [Order(Asc, property)];
    assert ParseOrders([[property, "asc"]], 1) == Success([Order(Asc, property)]);
  }

  /** "=asc" names no property: `Sort.by` raises instead of sorting by the empty name. */
  lemma BlankPropertyRaises()
    ensures SortBySpec(Some("=asc")) == Failure(BlankProperty)
  {
    assert "=asc" == "" + "=" + "asc";
    SingleItem("", "asc");
    assert !HasText("");
    assert ParseOrders([["", "asc"]], 1) == Failure(BlankProperty);
  }

  // ---------------------------------------------------------------------------
  // likeFilter

  /** `cb.like(cb.upper(root.get(attribute)), "%" + pattern + "%")`, pattern already upper-cased. */
  datatype Like = Like(attribute: string, pattern: string)

  /** The specification `likeFilter(input)` returns; its predicate is built only when a query runs. */
  datatype LikeFilterSpec = LikeFilterSpec(input: string)

  /** A null input gives a null specification, which restricts nothing. */
  function LikeFilter(input: Option<string>): (r: Option<LikeFilterSpec>)
    ensures r.None? <==> input.None?
    ensures r.Some? ==> r.value.input == input.value
  {
    match input
    case None => None
    case Some(s) => Some(LikeFilterSpec(s))
  }

  /** The test one item builds from its `split("=")`, or what building it raises. */
  function LikeEntry(split: seq<string>, attributes: set<string>): Result<Like, ParseError>
  {
    if |split| < 2 then Failure(IndexOutOfBounds)
    else if split[0] !in attributes then Failure(UnknownAttribute(split[0]))
    else Success(Like(split[0], Upper(split[1])))
  }

  /** The predicate after the loop has run over the first `n` items, left to right. */
  function PredicateAfter(splits: seq<seq<string>>, n: nat, attributes: set<string>): Result<Option<Like>, ParseError>
    requires n <= |splits|
  {
    if n == 0 then Success(None)
    else
      match PredicateAfter(splits, n - 1, attributes)
      case Failure(e) => Failure(e)
      case Success(_) =>
        match LikeEntry(splits[n - 1], attributes)
        case Failure(e) => Failure(e)
        case Success(l) => Success(Some(l))
  }

  /** The predicate the lambda builds for the input: the loop run over all its items. */
  function LikePredicate(input: string, attributes: set<string>): Result<Option<Like>, ParseError>
  {
    var splits := Items(input);
    PredicateAfter(splits, |splits|, attributes)
  }

  /** Once a prefix fails, every longer prefix fails the same way. */
  lemma {:induction false} PredicateFailureStays(splits: seq<seq<string>>, attributes: set<string>, k: nat, n: nat)
    requires k <= n <= |splits| && PredicateAfter(splits, k, attributes).Failure?
    ensures PredicateAfter(splits, n, attributes) == PredicateAfter(splits, k, attributes)
    decreases n
  {
    if k < n {
      PredicateFailureStays(splits, attributes, k, n - 1);
    }
  }

  /**
    The loop body of `likeFilter` for one item, given its `split("=")`: reading `split[1]` needs
    two parts and `root.get(prop)` a known attribute; the test compares upper-cased text.
  */
  method LikeItem(split: seq<string>, attributes: set<string>) returns (r: Result<Like, ParseError>)
    ensures r == LikeEntry(split, attributes)
  {
    if |split| < 2 {
      return Failure(IndexOutOfBounds);
    }
    var prop := split[0];
    var val := split[1];
    if prop !in attributes {
      return Failure(UnknownAttribute(prop));
    }
    return Success(Like(prop, Upper(val)));
  }

  /**
    The lambda inside `likeFilter`: it overwrites the predicate on every item; `attributes`
    are the entity's attribute names, which `root.get` accepts.
  */
  method ToPredicate(filter: LikeFilterSpec, attributes: set<string>) returns (r: Result<Option<Like>, ParseError>)
    ensures r == LikePredicate(filter.input, attributes)
  {
    var current: Option<Like> := None;
    var filters := Split(filter.input, ',');
    ghost var splits := SplitEach(filters);
    for i := 0 to |filters|
      invariant PredicateAfter(splits, i, attributes) == Success(current)
    {
      var split := Split(filters[i], '=');
      SplitEachAt(filters, i);
      var test := LikeItem(split, attributes);
      if test.Failure? {
        PredicateFailureStays(splits, attributes, i + 1, |splits|);
        return Failure(test.error);
      }
      current := Some(test.value);
    }
    return Success(current);
  }

  /**
    Only the last pair constrains the query: when every item is well formed the predicate is the
    last item's test, and with no items at all it is null (no restriction).
  */
  lemma {:induction false} LastPairWins(splits: seq<seq<string>>, n: nat, attributes: set<string>)
    requires n <= |splits|
    requires forall i :: 0 <= i < |splits| ==> LikeEntry(splits[i], attributes).Success?
    ensures n == 0 ==> PredicateAfter(splits, n, attributes) == Success(None)
    ensures n > 0 ==> PredicateAfter(splits, n, attributes) == Success(Some(LikeEntry(splits[n - 1], attributes).value))
    decreases n
  {
    if n > 0 {
      LastPairWins(splits, n - 1, attributes);
      assert LikeEntry(splits[n - 1], attributes).Success?;
    }
  }

  /** Seen the other way: well-formed items in front of a non-empty list change nothing. */
  lemma EarlierPairsIgnored(front: seq<seq<string>>, back: seq<seq<string>>, attributes: set<string>)
    requires forall i :: 0 <= i < |front| ==> LikeEntry(front[i], attributes).Success?
    requires forall i :: 0 <= i < |back| ==> LikeEntry(back[i], attributes).Success?
    requires back != []
    ensures PredicateAfter(front + back, |front + back|, attributes) == PredicateAfter(back, |back|, attributes)
  {
    var all := front + back;
    forall i | 0 <= i < |all|
      ensures LikeEntry(all[i], attributes).Success?
    {
      if i >= |front| {
        assert all[i] == back[i - |front|];
      }
    }
    LastPairWins(all, |all|, attributes);
    LastPairWins(back, |back|, attributes);
    assert all[|all| - 1] == back[|back| - 1];
  }

  /** Whether a row (attribute name to value) satisfies the predicate; null restricts nothing. */
  function Matches(row: map<string, string>, p: Option<Like>): bool
  {
    match p
    case None => true
    case Some(l) => l.attribute in row && Contains(Upper(row[l.attribute]), l.pattern)
  }

  /** The test ignores case: a row matches a filter on its own value, whatever the spelling. */
  lemma MatchesOwnValue(row: map<string, string>, attribute: string, value: string)
    requires attribute in row && Upper(row[attribute]) == Upper(value)
    ensures Matches(row, Some(Like(attribute, Upper(value))))
  {
    var hay := Upper(row[attribute]);
    assert hay[0..] == hay;
  }

  /** A test on an attribute the row lacks never holds. */
  lemma MissingAttributeNeverMatches(row: map<string, string>, l: Like)
    requires l.attribute !in row
    ensures !Matches(row, Some(l))
  {
  }
}
