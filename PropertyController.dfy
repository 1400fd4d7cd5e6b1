/** The request logic of the property endpoints that does not touch the store directly: the
    where-input `searchProperties` builds from its query parameters, page and limit parsing with
    the pagination block of the search and list answers, the validation and defaults of
    `addProperty`, and the MIME allowlist of the upload filter. */
module PropertyController {
  import opened Wrappers
  import opened Strings
  import opened Listings
  import opened PropertyQuery

  // ---------------------------------------------------------------------------------------------
  // Upload filter

  /** The MIME types the upload filter lets through. */
  const AllowedTypes: seq<string> := ["image/jpeg", "image/png", "image/webp"]

  const InvalidFileTypeMessage := "Invalid file type. Only JPEG, PNG, and WebP are allowed."

  /** The upload filter's verdict on one file: accept (`Ok(true)`) or fail with the error. */
  function FileFilter(mimetype: string): (r: Result<bool, string>)
    ensures r.Ok? <==> mimetype == "image/jpeg" || mimetype == "image/png" || mimetype == "image/webp"
    ensures r.Ok? ==> r.value
    ensures r.Err? ==> r.error == InvalidFileTypeMessage
  {
    if mimetype in AllowedTypes then Ok(true) else Err(InvalidFileTypeMessage)
  }

  // ---------------------------------------------------------------------------------------------
  // Search parameters and the where-input

  /** The query string of a search; an absent parameter is `None`. */
  datatype SearchQuery = SearchQuery(
    city: Option<string>,
    state: Option<string>,
    pincode: Option<string>,
    forType: Option<string>,
    propertyType: Option<string>,
    minPrice: Option<string>,
    maxPrice: Option<string>,
    bedrooms: Option<string>,
    areaUnit: Option<string>,
    page: Option<string>,
    limit: Option<string>)

  /** A parameter is used when it is present and not the empty string (JavaScript truthiness). */
  predicate Given(p: Option<string>)
  {
    p.Some? && p.value != ""
  }

  /** The spreads of the search's where-input, in the order they are written. */
  function SearchSpreads(q: SearchQuery): seq<Spread>
  {
    [ if Given(q.city) then Put(CityField, ContainsInsensitive(q.city.value)) else Skip,
      if Given(q.state) then Put(StateField, ContainsInsensitive(q.state.value)) else Skip,
      if Given(q.pincode) then Put(PincodeField, EqualsText(q.pincode.value)) else Skip,
      if Given(q.forType) then Put(ForTypeField, EqualsText(q.forType.value)) else Skip,
      if Given(q.propertyType) then Put(PropertyTypeField, EqualsText(q.propertyType.value)) else Skip,
      if Given(q.bedrooms) then Put(BedroomsField, EqualsNumber(ParseInteger(q.bedrooms.value))) else Skip,
      if Given(q.areaUnit) then Put(AreaUnitField, EqualsText(q.areaUnit.value)) else Skip,
      if Given(q.minPrice) then Put(PriceField, AtLeast(ParseInteger(q.minPrice.value))) else Skip,
      if Given(q.maxPrice) then Put(PriceField, AtMost(ParseInteger(q.maxPrice.value))) else Skip ]
  }

  /** The where-input of a search. */
  function SearchWhere(q: SearchQuery): Where
  {
    BuildWhere(map[], SearchSpreads(q))
  }

  /** The condition a search puts on column `f`, read per key: the parameter of that column when
      it is given; for `price`, `maxPrice` when given and otherwise `minPrice`. */
  function ParamCondition(q: SearchQuery, f: Field): Option<Condition>
  {
    match f
    case CityField => if Given(q.city) then Some(ContainsInsensitive(q.city.value)) else None
    case StateField => if Given(q.state) then Some(ContainsInsensitive(q.state.value)) else None
    case PincodeField => if Given(q.pincode) then Some(EqualsText(q.pincode.value)) else None
    case ForTypeField => if Given(q.forType) then Some(EqualsText(q.forType.value)) else None
    case PropertyTypeField =>
      if Given(q.propertyType) then Some(EqualsText(q.propertyType.value)) else None
    case BedroomsField =>
      if Given(q.bedrooms) then Some(EqualsNumber(ParseInteger(q.bedrooms.value))) else None
    case AreaUnitField => if Given(q.areaUnit) then Some(EqualsText(q.areaUnit.value)) else None
    case PriceField =>
      if Given(q.maxPrice) then Some(AtMost(ParseInteger(q.maxPrice.value)))
      else if Given(q.minPrice) then Some(AtLeast(ParseInteger(q.minPrice.value)))
      else None
  }

  /** Each given parameter puts exactly one key into the where-input and an absent one none; the
      two price parameters share the `price` key, and `maxPrice`, spread last, replaces `minPrice`. */
  lemma SearchWhereKeys(q: SearchQuery, f: Field)
    ensures f in SearchWhere(q) <==> ParamCondition(q, f).Some?
    ensures f in SearchWhere(q) ==> SearchWhere(q)[f] == ParamCondition(q, f).value
  {
    match f
    case CityField => CityKey(q);
    case StateField => StateKey(q);
    case PincodeField => PincodeKey(q);
    case ForTypeField => ForTypeKey(q);
    case PropertyTypeField => PropertyTypeKey(q);
    case BedroomsField => BedroomsKey(q);
    case AreaUnitField => AreaUnitKey(q);
    case PriceField => PriceKey(q);
  }

  // One lemma per column: the spread at the column's own position is the only one that writes it.

  lemma CityKey(q: SearchQuery)
    ensures CityField in SearchWhere(q) <==> ParamCondition(q, CityField).Some?
    ensures CityField in SearchWhere(q) ==> SearchWhere(q)[CityField] == ParamCondition(q, CityField).value
  {
    var ss := SearchSpreads(q);
    SpreadSlots(q);
    if PutsKey(ss[0], CityField) {
      BuildWhereLast(map[], ss, 0, CityField);
    } else {
      BuildWhereUntouched(map[], ss, CityField);
    }
  }

  lemma StateKey(q: SearchQuery)
    ensures StateField in SearchWhere(q) <==> ParamCondition(q, StateField).Some?
    ensures StateField in SearchWhere(q) ==> SearchWhere(q)[StateField] == ParamCondition(q, StateField).value
  {
    var ss := SearchSpreads(q);
    SpreadSlots(q);
    if PutsKey(ss[1], StateField) {
      BuildWhereLast(map[], ss, 1, StateField);
    } else {
      BuildWhereUntouched(map[], ss, StateField);
    }
  }

  lemma PincodeKey(q: SearchQuery)
    ensures PincodeField in SearchWhere(q) <==> ParamCondition(q, PincodeField).Some?
    ensures PincodeField in SearchWhere(q) ==> SearchWhere(q)[PincodeField] == ParamCondition(q, PincodeField).value
  {
    var ss := SearchSpreads(q);
    SpreadSlots(q);
    if PutsKey(ss[2], PincodeField) {
      BuildWhereLast(map[], ss, 2, PincodeField);
    } else {
      BuildWhereUntouched(map[], ss, PincodeField);
    }
  }

  lemma ForTypeKey(q: SearchQuery)
    ensures ForTypeField in SearchWhere(q) <==> ParamCondition(q, ForTypeField).Some?
    ensures ForTypeField in SearchWhere(q) ==> SearchWhere(q)[ForTypeField] == ParamCondition(q, ForTypeField).value
  {
    var ss := SearchSpreads(q);
    SpreadSlots(q);
    if PutsKey(ss[3], ForTypeField) {
      BuildWhereLast(map[], ss, 3, ForTypeField);
    } else {
      BuildWhereUntouched(map[], ss, ForTypeField);
    }
  }

  lemma PropertyTypeKey(q: SearchQuery)
    ensures PropertyTypeField in SearchWhere(q) <==> ParamCondition(q, PropertyTypeField).Some?
    ensures PropertyTypeField in SearchWhere(q) ==> SearchWhere(q)[PropertyTypeField] == ParamCondition(q, PropertyTypeField).value
  {
    var ss := SearchSpreads(q);
    SpreadSlots(q);
    if PutsKey(ss[4], PropertyTypeField) {
      BuildWhereLast(map[], ss, 4, PropertyTypeField);
    } else {
      BuildWhereUntouched(map[], ss, PropertyTypeField);
    }
  }

  lemma BedroomsKey(q: SearchQuery)
    ensures BedroomsField in SearchWhere(q) <==> ParamCondition(q, BedroomsField).Some?
    ensures BedroomsField in SearchWhere(q) ==> SearchWhere(q)[BedroomsField] == ParamCondition(q, BedroomsField).value
  {
    var ss := SearchSpreads(q);
    SpreadSlots(q);
    if PutsKey(ss[5], BedroomsField) {
      BuildWhereLast(map[], ss, 5, BedroomsField);
    } else {
      BuildWhereUntouched(map[], ss, BedroomsField);
    }
  }

  lemma AreaUnitKey(q: SearchQuery)
    ensures AreaUnitField in SearchWhere(q) <==> ParamCondition(q, AreaUnitField).Some?
    ensures AreaUnitField in SearchWhere(q) ==> SearchWhere(q)[AreaUnitField] == ParamCondition(q, AreaUnitField).value
  {
    var ss := SearchSpreads(q);
    SpreadSlots(q);
    if PutsKey(ss[6], AreaUnitField) {
      BuildWhereLast(map[], ss, 6, AreaUnitField);
    } else {
      BuildWhereUntouched(map[], ss, AreaUnitField);
    }
  }

  /** `price` is written by the last of the two price spreads that is present. */
  lemma PriceKey(q: SearchQuery)
    ensures PriceField in SearchWhere(q) <==> ParamCondition(q, PriceField).Some?
    ensures PriceField in SearchWhere(q) ==>
      SearchWhere(q)[PriceField] == ParamCondition(q, PriceField).value
  {
    var ss := SearchSpreads(q);
    SpreadSlots(q);
    if Given(q.maxPrice) {
      BuildWhereLast(map[], ss, 8, PriceField);
    } else if Given(q.minPrice) {
      BuildWhereLast(map[], ss, 7, PriceField);
    } else {
      BuildWhereUntouched(map[], ss, PriceField);
    }
  }

  /** The key each spread of a search writes, by position. */
  function SlotKey(j: int): Field
  {
    if j == 0 then CityField
    else if j == 1 then StateField
    else if j == 2 then PincodeField
    else if j == 3 then ForTypeField
    else if j == 4 then PropertyTypeField
    else if j == 5 then BedroomsField
    else if j == 6 then AreaUnitField
    else PriceField
  }

  lemma SpreadSlots(q: SearchQuery)
    ensures |SearchSpreads(q)| == 9
    ensures forall j :: 0 <= j < 9 && SearchSpreads(q)[j].Put? ==> SearchSpreads(q)[j].key == SlotKey(j)
  {
  }

  /** The conjunct a search parameter adds, stated directly on the listing's column; it holds
      trivially when the parameter is not given. A number parameter that does not parse matches
      nothing. */
  predicate ColumnMatches(q: SearchQuery, l: Listing, f: Field)
  {
    match f
    case CityField => Given(q.city) ==> Contains(Lower(l.city), Lower(q.city.value))
    case StateField => Given(q.state) ==> Contains(Lower(l.state), Lower(q.state.value))
    case PincodeField => Given(q.pincode) ==> l.pincode == q.pincode.value
    case ForTypeField => Given(q.forType) ==> l.forType == q.forType.value
    case PropertyTypeField => Given(q.propertyType) ==> TypeName(l.propertyType) == q.propertyType.value
    case BedroomsField =>
      Given(q.bedrooms) ==> ParseInteger(q.bedrooms.value).Some? && l.bedrooms == ParseInteger(q.bedrooms.value)
    case AreaUnitField => Given(q.areaUnit) ==> l.areaUnit == Some(q.areaUnit.value)
    case PriceField =>
      && (Given(q.maxPrice) ==>
            ParseInteger(q.maxPrice.value).Some? && l.price <= ParseInteger(q.maxPrice.value).value)
      && (Given(q.minPrice) && !Given(q.maxPrice) ==>
            ParseInteger(q.minPrice.value).Some? && l.price >= ParseInteger(q.minPrice.value).value)
  }

  /** The search predicate stated directly: the listing meets the conjunct of every column. */
  predicate MatchesQuery(q: SearchQuery, l: Listing)
  {
    forall f :: ColumnMatches(q, l, f)
  }

  /** A listing satisfies the built where-input exactly when it meets the conjunct of every given
      parameter; in particular, with both price bounds given only the upper one applies. */
  lemma SearchWhereSpec(q: SearchQuery, l: Listing)
    ensures Satisfies(l, SearchWhere(q)) <==> MatchesQuery(q, l)
  {
    var w := SearchWhere(q);
    forall f ensures (f in w ==> Holds(l, f, w[f])) <==> ColumnMatches(q, l, f) {
      SearchWhereKeys(q, f);
      ColumnMatchesSpec(q, l, f);
    }
  }

  /** Per column: the conjunct holds exactly when the listing meets the condition the search puts
      on that column, if any. */
  lemma ColumnMatchesSpec(q: SearchQuery, l: Listing, f: Field)
    ensures ColumnMatches(q, l, f) <==>
              (ParamCondition(q, f).Some? ==> Holds(l, f, ParamCondition(q, f).value))
  {
  }

  // ---------------------------------------------------------------------------------------------
  // Page and limit

  /** `parseInt(text) || fallback`, where an absent parameter reads as `defaultText`. */
  function NumberOrDefault(p: Option<string>, defaultText: string, fallback: int): int
  {
    var text := if p.Some? then p.value else defaultText;
    match ParseInteger(text)
    case None => fallback
    case Some(n) => if n == 0 then fallback else n
  }

  /** The page number of a request: the parsed `page` parameter, or 1. */
  function PageNumber(p: Option<string>): (r: int)
    ensures r != 0
    ensures p.None? ==> r == 1
    ensures p.Some? ==> match ParseInteger(p.value)
                        case None => r == 1
                        case Some(n) => r == if n == 0 then 1 else n
  {
    DefaultsParse();
    NumberOrDefault(p, "1", 1)
  }

  /** The page size of a request: the parsed `limit` parameter, or 10. */
  function LimitNumber(p: Option<string>): (r: int)
    ensures r != 0
    ensures p.None? ==> r == 10
    ensures p.Some? ==> match ParseInteger(p.value)
                        case None => r == 10
                        case Some(n) => r == if n == 0 then 10 else n
  {
    DefaultsParse();
    NumberOrDefault(p, "10", 10)
  }

  /** The default texts of the two parameters parse to 1 and 10. */
  lemma DefaultsParse()
    ensures ParseInteger("1") == Some(1)
    ensures ParseInteger("10") == Some(10)
  {
    assert Span("1", 0, IsJsSpace) == 0;
    assert Span("1", 1, IsDigit) == 0;
    assert Span("1", 0, IsDigit) == 1;
    assert "1"[0..1] == "1";
    assert DecimalValue("1") == 1;
    assert Span("10", 0, IsJsSpace) == 0;
    assert Span("10", 2, IsDigit) == 0;
    assert Span("10", 1, IsDigit) == 1;
    assert Span("10", 0, IsDigit) == 2;
    assert "10"[0..2] == "10";
    assert "10"[..1] == "1";
    assert DecimalValue("10") == 10;
  }

  /** `Math.ceil(a / b)` for a count `a` and a non-zero divisor. */
  function CeilDiv(a: nat, b: int): (r: int)
    requires b != 0
    ensures b > 0 ==> (r - 1) * b < a <= r * b
    ensures b < 0 ==> r * b <= a < (r - 1) * b
  {
    if b > 0 then (a + b - 1) / b else -(a / -b)
  }

  /** The pagination block of a search or list answer. */
  datatype Pagination = Pagination(
    total: nat,
    page: int,
    limit: int,
    totalPages: int,
    hasNext: bool,
    hasPrevious: bool)

  function Paginate(total: nat, page: int, limit: int): (p: Pagination)
    requires limit != 0
    ensures p.total == total && p.page == page && p.limit == limit
    ensures limit > 0 ==> (p.totalPages - 1) * limit < total <= p.totalPages * limit
  {
    Pagination(total, page, limit, CeilDiv(total, limit), page * limit < total, page > 1)
  }

  // ---------------------------------------------------------------------------------------------
  // Ordering and paging of the rows

  /** Rows ordered newest first, by `createdAt`. */
  predicate NewestFirst(rows: seq<Listing>)
  {
    forall i, j :: 0 <= i < j < |rows| ==> rows[i].createdAt >= rows[j].createdAt
  }

  /** No row of `rows` is newer than `t`. */
  predicate NoNewerThan(t: int, rows: seq<Listing>)
  {
    forall k :: 0 <= k < |rows| ==> rows[k].createdAt <= t
  }

  /** A row no newer than `t` followed by rows no newer than it are newest first. */
  lemma ConsNewestFirst(h: Listing, rows: seq<Listing>)
    requires NewestFirst(rows) && NoNewerThan(h.createdAt, rows)
    ensures NewestFirst([h] + rows)
  {
    var r := [h] + rows;
    forall i, j | 0 <= i < j < |r| ensures r[i].createdAt >= r[j].createdAt {
      if i > 0 {
        assert r[i] == rows[i - 1] && r[j] == rows[j - 1];
      } else {
        assert r[j] == rows[j - 1];
      }
    }
  }

  /** `l` placed before the first row of `sorted` that is not newer than it. */
  function Insert(l: Listing, sorted: seq<Listing>): (r: seq<Listing>)
    ensures multiset(r) == multiset(sorted) + multiset{l}
  {
    if sorted == [] || l.createdAt >= sorted[0].createdAt then [l] + sorted
    else
      assert sorted == [sorted[0]] + sorted[1..];
      [sorted[0]] + Insert(l, sorted[1..])
  }

  /** Inserting into newest-first rows keeps them newest first, and a bound on the age of every
      row and of `l` still holds afterwards. */
  lemma {:induction false} InsertKeepsOrder(l: Listing, sorted: seq<Listing>)
    requires NewestFirst(sorted)
    ensures NewestFirst(Insert(l, sorted))
    ensures forall t :: NoNewerThan(t, sorted) && l.createdAt <= t ==> NoNewerThan(t, Insert(l, sorted))
    decreases |sorted|
  {
    if sorted == [] || l.createdAt >= sorted[0].createdAt {
      ConsNewestFirst(l, sorted);
    } else {
      var tail := sorted[1..];
      InsertKeepsOrder(l, tail);
      assert NoNewerThan(sorted[0].createdAt, tail);
      ConsNewestFirst(sorted[0], Insert(l, tail));
    }
  }

  /** `orderBy: { createdAt: 'desc' }`: the rows, newest first, rows of the same age in their
      original order. */
  function SortNewestFirst(rows: seq<Listing>): (r: seq<Listing>)
    ensures multiset(r) == multiset(rows)
  {
    if rows == [] then []
    else
      assert rows == [rows[0]] + rows[1..];
      Insert(rows[0], SortNewestFirst(rows[1..]))
  }

  /** The sort leaves the rows newest first. */
  lemma {:induction false} SortIsNewestFirst(rows: seq<Listing>)
    ensures NewestFirst(SortNewestFirst(rows))
    decreases |rows|
  {
    if rows != [] {
      SortIsNewestFirst(rows[1..]);
      InsertKeepsOrder(rows[0], SortNewestFirst(rows[1..]));
    }
  }

  /** `skip` then `take`: the rows from position `skip`, at most `take` of them. */
  function Slice(rows: seq<Listing>, skip: nat, take: nat): (r: seq<Listing>)
    ensures |r| == if skip >= |rows| then 0 else Min(take, |rows| - skip)
    ensures forall k :: 0 <= k < |r| ==> r[k] == rows[skip + k]
  {
    if skip >= |rows| then [] else rows[skip..skip + Min(take, |rows| - skip)]
  }

  // ---------------------------------------------------------------------------------------------
  // The search and list answers

  datatype SearchPage = SearchPage(data: seq<Listing>, pagination: Pagination)

  /** One page of the listings satisfying `w`, newest first, with its pagination block. */
  function PageOf(store: seq<Listing>, available: bool, w: Where, page: int, limit: int)
    : (r: Result<SearchPage, Failure>)
    requires limit != 0
  {
    var skip := (page - 1) * limit;
    if !available then Err(StoreUnavailable)
    else if skip < 0 || limit < 0 then Err(RejectedArguments)
    else
      var rows := SortNewestFirst(AllMatching(store, w));
      Ok(SearchPage(Slice(rows, skip, limit), Paginate(Count(store, w), page, limit)))
  }

  /** The answer to `GET /api/properties/search`. */
  function SearchProperties(store: seq<Listing>, available: bool, q: SearchQuery)
    : Result<SearchPage, Failure>
  {
    PageOf(store, available, SearchWhere(q), PageNumber(q.page), LimitNumber(q.limit))
  }

  /** The answer to `GET /api/properties/all`: every listing, paged. */
  function GetAllProperties(store: seq<Listing>, available: bool, page: Option<string>,
                            limit: Option<string>): Result<SearchPage, Failure>
  {
    PageOf(store, available, map[], PageNumber(page), LimitNumber(limit))
  }

  /** A page request fails with the store unreachable, and otherwise exactly when the page number
      is below 1 or the limit negative, which make `skip` or `take` negative. */
  lemma PageOfErrors(store: seq<Listing>, available: bool, w: Where, page: int, limit: int)
    requires limit != 0
    ensures !available ==> PageOf(store, available, w, page, limit) == Err(StoreUnavailable)
    ensures available ==>
              (PageOf(store, available, w, page, limit) == Err(RejectedArguments) <==> page < 1 || limit < 0)
    ensures PageOf(store, available, w, page, limit).Ok? <==> available && page >= 1 && limit > 0
  {
    if limit > 0 {
      SkipSign(page, limit);
    }
  }

  /** `(page - 1) * limit` is negative exactly when `page` is below 1, for a positive `limit`. */
  lemma SkipSign(page: int, limit: int)
    requires limit > 0
    ensures (page - 1) * limit < 0 <==> page < 1
  {
    if page < 1 {
      assert (page - 1) * limit <= -limit;
    }
  }

  /** What a served page holds: at most `limit` rows, all matching and newest first, with `total`
      the number of matches, `hasNext` exactly when matches remain after this page, `hasPrevious`
      exactly when earlier rows were skipped, and the page within `totalPages` exactly when it
      holds rows. */
  lemma PageOfRows(store: seq<Listing>, w: Where, page: int, limit: int)
    requires page >= 1 && limit > 0
    ensures PageOf(store, true, w, page, limit).Ok?
    ensures var r := PageOf(store, true, w, page, limit).value;
            var skip := (page - 1) * limit;
            && |r.data| <= limit
            && (forall l :: l in r.data ==> l in store && Satisfies(l, w))
            && NewestFirst(r.data)
            && r.pagination.total == |AllMatching(store, w)|
            && (r.pagination.hasNext <==> skip + |r.data| < r.pagination.total)
            && (r.pagination.hasPrevious <==> skip > 0)
            && (page <= r.pagination.totalPages <==> |r.data| > 0)
  {
    PageOfShape(store, w, page, limit);
    var all := AllMatching(store, w);
    var rows := SortNewestFirst(all);
    var data := Slice(rows, (page - 1) * limit, limit);
    SortedMatches(store, w);
    SortIsNewestFirst(all);
    SliceNewestFirst(rows, (page - 1) * limit, limit);
    PageBounds(|all|, page, limit, |data|);
    PreviousPages(page, limit);
  }

  /** On the first and later pages of an available store, the answer is the slice of the sorted
      matches at `(page - 1) * limit`. */
  lemma PageOfShape(store: seq<Listing>, w: Where, page: int, limit: int)
    requires page >= 1 && limit > 0
    ensures (page - 1) * limit >= 0
    ensures PageOf(store, true, w, page, limit) ==
            Ok(SearchPage(Slice(SortNewestFirst(AllMatching(store, w)), (page - 1) * limit, limit),
                          Paginate(|AllMatching(store, w)|, page, limit)))
  {
    SkipSign(page, limit);
  }

  /** With a positive `limit`, rows were skipped exactly when the page is past the first. */
  lemma PreviousPages(page: int, limit: int)
    requires page >= 1 && limit > 0
    ensures (page - 1) * limit > 0 <==> page > 1
  {
    if page > 1 {
      assert (page - 1) * limit >= limit;
    }
  }

  /** The sorted matches are as many as the matches, and each is a matching listing of the store. */
  lemma SortedMatches(store: seq<Listing>, w: Where)
    ensures |SortNewestFirst(AllMatching(store, w))| == |AllMatching(store, w)|
    ensures forall l :: l in SortNewestFirst(AllMatching(store, w)) ==> l in store && Satisfies(l, w)
  {
    var all := AllMatching(store, w);
    var rows := SortNewestFirst(all);
    assert |multiset(rows)| == |multiset(all)|;
    forall l | l in rows ensures l in store && Satisfies(l, w) {
      assert l in multiset(rows);
    }
  }

  /** A slice of rows that are newest first is newest first. */
  lemma SliceNewestFirst(rows: seq<Listing>, skip: nat, take: nat)
    requires NewestFirst(rows)
    ensures NewestFirst(Slice(rows, skip, take))
    ensures forall l :: l in Slice(rows, skip, take) ==> l in rows
  {
  }

  /** The arithmetic behind the pagination flags: with `n` the size of the page at `skip`,
      `page * limit < total` says that rows remain after it, and `page <= ceil(total / limit)`
      that it is not empty. */
  lemma PageBounds(total: nat, page: int, limit: int, n: nat)
    requires page >= 1 && limit >= 1
    requires n == if (page - 1) * limit >= total then 0 else Min(limit, total - (page - 1) * limit)
    ensures page * limit < total <==> (page - 1) * limit + n < total
    ensures page <= CeilDiv(total, limit) <==> n > 0
  {
    var c := CeilDiv(total, limit);
    assert page * limit == (page - 1) * limit + limit;
    if page <= c {
      assert (page - 1) * limit <= (c - 1) * limit;
    } else {
      assert page - 1 >= c;
      assert (page - 1) * limit >= c * limit;
    }
  }

  /** The search answer is the page of listings meeting the query's conjuncts. */
  lemma SearchPropertiesSpec(store: seq<Listing>, available: bool, q: SearchQuery)
    ensures SearchProperties(store, available, q).Ok? ==>
              var r := SearchProperties(store, available, q).value;
              && r.pagination.page == PageNumber(q.page)
              && r.pagination.limit == LimitNumber(q.limit)
              && |r.data| <= r.pagination.limit
              && (forall l :: l in r.data ==> l in store && MatchesQuery(q, l))
              && NewestFirst(r.data)
  {
    var w := SearchWhere(q);
    PageOfErrors(store, available, w, PageNumber(q.page), LimitNumber(q.limit));
    if SearchProperties(store, available, q).Ok? {
      PageOfRows(store, w, PageNumber(q.page), LimitNumber(q.limit));
      var r := SearchProperties(store, available, q).value;
      forall l | l in r.data ensures l in store && MatchesQuery(q, l) {
        SearchWhereSpec(q, l);
      }
    }
  }

  /** The list endpoint answers as the search endpoint does when no filter is given. */
  lemma GetAllIsUnfilteredSearch(store: seq<Listing>, available: bool, page: Option<string>,
                                 limit: Option<string>)
    ensures GetAllProperties(store, available, page, limit) ==
            SearchProperties(store, available,
                             SearchQuery(None, None, None, None, None, None, None, None, None, page, limit))
  {
    var q := SearchQuery(None, None, None, None, None, None, None, None, None, page, limit);
    forall f ensures f !in SearchWhere(q) {
      SearchWhereKeys(q, f);
    }
    assert SearchWhere(q) == map[];
  }

  /** With no filter, a page counts the whole store. */
  lemma GetAllCountsStore(store: seq<Listing>, available: bool, page: Option<string>,
                          limit: Option<string>)
    ensures GetAllProperties(store, available, page, limit).Ok? ==>
              GetAllProperties(store, available, page, limit).value.pagination.total == |store|
  {
    AllMatchingEmpty(store);
  }

  // ---------------------------------------------------------------------------------------------
  // Adding a listing

  /** A value of the JSON request body; a missing key is `Undefined`. */
  datatype Value = Undefined | Null | Bool(b: bool) | Number(n: int) | Text(s: string)

  /** JavaScript truthiness of a body value. */
  predicate Truthy(v: Value)
  {
    match v
    case Undefined => false
    case Null => false
    case Bool(b) => b
    case Number(n) => n != 0
    case Text(s) => s != ""
  }

  datatype PropertyBody = PropertyBody(
    title: Value,
    description: Value,
    address: Value,
    city: Value,
    state: Value,
    pincode: Value,
    price: Value,
    propertyType: Value,
    phone: Value,
    bedrooms: Value,
    area: Value,
    areaUnit: Value,
    forType: Value,
    userId: Value)

  /** The names listed in the answer to a body that misses a required field. */
  const RequiredFields: seq<string> :=
    ["title", "description", "address", "city", "state", "pincode", "price", "propertyType", "userId"]

  /** The body's values of the required fields, in the order of `RequiredFields`. */
  function RequiredValues(b: PropertyBody): (r: seq<Value>)
    ensures |r| == |RequiredFields|
  {
    [b.title, b.description, b.address, b.city, b.state, b.pincode, b.price, b.propertyType, b.userId]
  }

  /** A number column as written: null, `NaN`, or a number. */
  datatype NumberCell = NullNumber | NotANumber | Num(n: int)

  /** `parseFloat` or `parseInt` of a body value, which reads the value's text. */
  function ParseNumber(v: Value): NumberCell
  {
    match v
    case Number(n) => Num(n)
    case Text(s) => if ParseInteger(s).Some? then Num(ParseInteger(s).value) else NotANumber
    case _ => NotANumber
  }

  /** The data handed to the store's `create`. */
  datatype PropertyData = PropertyData(
    title: Value,
    description: Value,
    address: Value,
    city: Value,
    state: Value,
    pincode: Value,
    price: NumberCell,
    propertyType: Value,
    phone: Value,
    bedrooms: NumberCell,
    area: NumberCell,
    areaUnit: Value,
    forType: Value,
    userId: Value)

  /** The three answers of `POST /add`: 400 with the required names, 201 with the created data,
      or 500 when the store fails. */
  datatype AddOutcome = MissingFields(required: seq<string>) | Created(data: PropertyData) | AddFailed

  function AddProperty(b: PropertyBody, available: bool): AddOutcome
  {
    if !Truthy(b.title) || !Truthy(b.description) || !Truthy(b.address) || !Truthy(b.city)
       || !Truthy(b.state) || !Truthy(b.pincode) || !Truthy(b.price) || !Truthy(b.propertyType)
       || !Truthy(b.userId)
    then MissingFields(RequiredFields)
    else if !available then AddFailed
    else Created(PropertyData(
      b.title, b.description, b.address, b.city, b.state, b.pincode,
      ParseNumber(b.price),
      b.propertyType,
      if Truthy(b.phone) then b.phone else Null,
      if Truthy(b.bedrooms) then ParseNumber(b.bedrooms) else NullNumber,
      if Truthy(b.area) then ParseNumber(b.area) else NullNumber,
      if Truthy(b.areaUnit) then b.areaUnit else Null,
      if Truthy(b.forType) then b.forType else Text("SALE"),
      b.userId))
  }

  /** The request is refused with the nine required names exactly when one of the required
      fields is missing or falsy, whatever the store's state; otherwise it creates when the
      store is reachable. */
  lemma AddPropertyValidation(b: PropertyBody, available: bool)
    ensures AddProperty(b, available).MissingFields? <==>
              exists i :: 0 <= i < |RequiredValues(b)| && !Truthy(RequiredValues(b)[i])
    ensures AddProperty(b, available).MissingFields? ==> AddProperty(b, available).required == RequiredFields
    ensures AddProperty(b, available).Created? <==>
              available && forall i :: 0 <= i < |RequiredValues(b)| ==> Truthy(RequiredValues(b)[i])
  {
    var vs := RequiredValues(b);
    if AddProperty(b, available).MissingFields? {
      if !Truthy(b.title) { assert !Truthy(vs[0]); }
      else if !Truthy(b.description) { assert !Truthy(vs[1]); }
      else if !Truthy(b.address) { assert !Truthy(vs[2]); }
      else if !Truthy(b.city) { assert !Truthy(vs[3]); }
      else if !Truthy(b.state) { assert !Truthy(vs[4]); }
      else if !Truthy(b.pincode) { assert !Truthy(vs[5]); }
      else if !Truthy(b.price) { assert !Truthy(vs[6]); }
      else if !Truthy(b.propertyType) { assert !Truthy(vs[7]); }
      else { assert !Truthy(vs[8]); }
    }
  }

  /** The created data keeps the required fields, with the price parsed; it stores `forType` as
      given when truthy and `"SALE"` otherwise, and each optional column as given (a number
      column parsed) when truthy and as null otherwise; so no optional column holds a falsy value
      other than null, and `forType` is never falsy. */
  lemma AddPropertyDefaults(b: PropertyBody, available: bool)
    ensures AddProperty(b, available).Created? ==>
              var d := AddProperty(b, available).data;
              && d.title == b.title && d.description == b.description && d.address == b.address
              && d.city == b.city && d.state == b.state && d.pincode == b.pincode
              && d.propertyType == b.propertyType && d.userId == b.userId
              && d.price == ParseNumber(b.price) && d.price != NullNumber
              && (Truthy(b.forType) ==> d.forType == b.forType)
              && (!Truthy(b.forType) ==> d.forType == Text("SALE"))
              && Truthy(d.forType)
              && (Truthy(b.phone) ==> d.phone == b.phone)
              && (d.phone == Null <==> !Truthy(b.phone))
              && (Truthy(d.phone) || d.phone == Null)
              && (Truthy(b.areaUnit) ==> d.areaUnit == b.areaUnit)
              && (d.areaUnit == Null <==> !Truthy(b.areaUnit))
              && (Truthy(d.areaUnit) || d.areaUnit == Null)
              && (Truthy(b.bedrooms) ==> d.bedrooms == ParseNumber(b.bedrooms))
              && (d.bedrooms == NullNumber <==> !Truthy(b.bedrooms))
              && (Truthy(b.area) ==> d.area == ParseNumber(b.area))
              && (d.area == NullNumber <==> !Truthy(b.area))
  {
    if AddProperty(b, available).Created? {
      var d := AddProperty(b, available).data;
      assert Truthy(Text("SALE")) by { assert "SALE"[0] == 'S'; }
      if Truthy(b.bedrooms) { assert ParseNumber(b.bedrooms) != NullNumber; }
      if Truthy(b.area) { assert ParseNumber(b.area) != NullNumber; }
    }
  }
}
