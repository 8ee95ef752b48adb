/**
 * The search server of hw4_test_coverage: it checks the access token and the
 * query parameters, filters the dataset's rows by a query, sorts them by
 * name, id or age, and returns one page of them as users. The dataset is a
 * parameter (the rows of dataset.xml).
 */
module SearchServer {
  import opened Wrappers
  import opened GoStrings
  import opened Strconv
  import opened Seqs
  import opened Sorting
  import opened UrlValues

  /** A row of the dataset, with the fields the server reads. */
  datatype Row = Row(id: int, age: int, firstName: string, lastName: string, gender: string, about: string)

  /** A user as the server returns it. */
  datatype User = User(id: int, name: string, age: int, about: string, gender: string)

  function FullName(r: Row): string {
    r.firstName + " " + r.lastName
  }

  /** toUser */
  function ToUser(r: Row): (u: User)
    ensures u.name == FullName(r)
    ensures u.id == r.id && u.age == r.age && u.about == r.about && u.gender == r.gender
  {
    User(r.id, r.firstName + " " + r.lastName, r.age, r.about, r.gender)
  }

  // ---------------------------------------------------------------------
  // Filtering

  predicate Matches(query: string, r: Row) {
    Contains(FullName(r), query) || Contains(r.about, query)
  }

  /** The rows that match the query, in their order. */
  function Selected(query: string, rows: seq<Row>): seq<Row> {
    if rows == [] then []
    else Selected(query, rows[..|rows| - 1]) +
         (if Matches(query, rows[|rows| - 1]) then [rows[|rows| - 1]] else [])
  }

  /** FilterByQuery: the empty query keeps every row. */
  method FilterByQuery(query: string, rows: seq<Row>) returns (res: seq<Row>)
    ensures res == Selected(query, rows)
  {
    if query == "" {
      SelectedEmptyQuery(rows);
      return rows;
    }
    res := [];
    for i := 0 to |rows|
      invariant res == Selected(query, rows[..i])
    {
      assert rows[..i + 1][..i] == rows[..i];
      if Contains(rows[i].firstName + " " + rows[i].lastName, query) || Contains(rows[i].about, query) {
        res := res + [rows[i]];
      }
    }
    assert rows[..|rows|] == rows;
  }

  /** A row is selected iff it is one of the rows and the query occurs in its
      full name or in its about text. */
  lemma {:induction false} SelectedMembers(query: string, rows: seq<Row>, r: Row)
    ensures r in Selected(query, rows) <==> r in rows && Matches(query, r)
  {
    if rows != [] {
      var init := rows[..|rows| - 1];
      SelectedMembers(query, init, r);
      assert rows == init + [rows[|rows| - 1]];
    }
  }

  /** Selection keeps the rows' order: it distributes over concatenation. */
  lemma {:induction false} SelectedConcat(query: string, xs: seq<Row>, ys: seq<Row>)
    ensures Selected(query, xs + ys) == Selected(query, xs) + Selected(query, ys)
  {
    if ys == [] {
      assert xs + ys == xs;
    } else {
      var init := ys[..|ys| - 1];
      SelectedConcat(query, xs, init);
      assert (xs + ys)[..|xs + ys| - 1] == xs + init;
    }
  }

  /** The empty query occurs in every string, so the early return of
      FilterByQuery agrees with the filter. */
  lemma {:induction false} SelectedEmptyQuery(rows: seq<Row>)
    ensures Selected("", rows) == rows
  {
    if rows != [] {
      SelectedEmptyQuery(rows[..|rows| - 1]);
      assert OccursAt(FullName(rows[|rows| - 1]), "", 0);
      assert rows == rows[..|rows| - 1] + [rows[|rows| - 1]];
    }
  }

  // ---------------------------------------------------------------------
  // Sorting

  /** The fields rows can be sorted by; "" means the name. */
  datatype Key = NameKey | IdKey | AgeKey

  function FieldKey(orderField: string): Option<Key> {
    if orderField == "Name" || orderField == "" then Some(NameKey)
    else if orderField == "Id" then Some(IdKey)
    else if orderField == "Age" then Some(AgeKey)
    else None
  }

  /** The value a row is sorted by. */
  datatype KeyValue = Text(s: string) | Number(n: int)

  function KeyOf(k: Key, r: Row): KeyValue {
    match k
    case NameKey => Text(FullName(r))
    case IdKey => Number(r.id)
    case AgeKey => Number(r.age)
  }

  /** Go's `<=` on names and on numbers (a name never meets a number). */
  predicate KeyLeq(a: KeyValue, b: KeyValue) {
    match (a, b)
    case (Text(x), Text(y)) => LessEq(x, y)
    case (Number(x), Number(y)) => x <= y
    case (Text(_), Number(_)) => true
    case (Number(_), Text(_)) => false
  }

  /** orderBy -1 sorts ascending, 1 descending. */
  function KeyOrder(descending: bool): (KeyValue, KeyValue) -> bool {
    (a: KeyValue, b: KeyValue) => if descending then KeyLeq(b, a) else KeyLeq(a, b)
  }

  /** "x may stand before y" for sort.Slice with the `less` of sorting. */
  function RowOrder(k: Key, descending: bool): (Row, Row) -> bool {
    (x: Row, y: Row) => KeyOrder(descending)(KeyOf(k, x), KeyOf(k, y))
  }

  lemma KeyOrderIsOrder(descending: bool)
    ensures Total(KeyOrder(descending))
    ensures Transitive(KeyOrder(descending))
    ensures Antisymmetric(KeyOrder(descending))
  {
    LessEqTotalOrder();
  }

  lemma RowOrderIsOrder(k: Key, descending: bool)
    ensures Total(RowOrder(k, descending)) && Transitive(RowOrder(k, descending))
  {
    var le, kle := RowOrder(k, descending), KeyOrder(descending);
    KeyOrderIsOrder(descending);
    forall x, y ensures le(x, y) || le(y, x) {
      assert kle(KeyOf(k, x), KeyOf(k, y)) || kle(KeyOf(k, y), KeyOf(k, x));
    }
    forall x, y, z | le(x, y) && le(y, z) ensures le(x, z) {
      assert kle(KeyOf(k, x), KeyOf(k, y)) && kle(KeyOf(k, y), KeyOf(k, z));
    }
  }

  /** sorting: an unknown field is an error whatever orderBy is; a known field
      with orderBy -1 or 1 sorts the rows in place; any other orderBy leaves
      them as they are. */
  method SortRows(rows: array<Row>, orderField: string, orderBy: int) returns (err: Option<string>)
    modifies rows
    ensures FieldKey(orderField).None? ==> err == Some("ErrorBadOrderField") && rows[..] == old(rows[..])
    ensures FieldKey(orderField).Some? ==> err == None
    ensures FieldKey(orderField).Some? && orderBy != -1 && orderBy != 1 ==> rows[..] == old(rows[..])
    ensures FieldKey(orderField).Some? && (orderBy == -1 || orderBy == 1) ==>
              SortedBy(rows[..], RowOrder(FieldKey(orderField).value, orderBy == 1)) &&
              multiset(rows[..]) == old(multiset(rows[..]))
  {
    var key := FieldKey(orderField);
    if key.None? {
      return Some("ErrorBadOrderField");
    }
    if orderBy == -1 || orderBy == 1 {
      RowOrderIsOrder(key.value, orderBy == 1);
      SortInPlace(rows, RowOrder(key.value, orderBy == 1));
    }
    return None;
  }

  /** The keys of sorted rows are the input's keys in sorted order; only rows
      whose keys tie may come out in either order. */
  lemma SortedRowKeys(s: seq<Row>, t: seq<Row>, k: Key, descending: bool)
    requires SortedBy(t, RowOrder(k, descending)) && multiset(t) == multiset(s)
    ensures Map((r: Row) => KeyOf(k, r), t) == InsertionSort(Map((r: Row) => KeyOf(k, r), s), KeyOrder(descending))
  {
    KeyOrderIsOrder(descending);
    SortedByKey(s, t, RowOrder(k, descending), (r: Row) => KeyOf(k, r), KeyOrder(descending));
  }

  /** sort.Slice is not stable: two rows of equal age are sorted in either order. */
  lemma TiesEitherOrder(a: Row, b: Row, descending: bool)
    requires a.age == b.age
    ensures SortedBy([a, b], RowOrder(AgeKey, descending))
    ensures SortedBy([b, a], RowOrder(AgeKey, descending))
  {
    assert KeyOf(AgeKey, a) == KeyOf(AgeKey, b) == Number(a.age);
    assert KeyOrder(descending)(Number(a.age), Number(a.age));
  }

  // ---------------------------------------------------------------------
  // The handler

  /** What SearchService answers. */
  datatype Response =
    | Unauthorized                // 401 "Bad AccessToken"
    | BadRequest(error: string)   // 400 with a SearchErrorResponse
    | BadJson                     // 400 with a body that is not the expected JSON
    | Internal                    // 500 "TestInternalServerError"
    | BadUser                     // 200 with a JSON string instead of users
    | Users(users: seq<User>)     // 200 with the page
    | Panic                       // a slice out of range

  /** The parameters once they have passed the checks. */
  datatype Params = Params(query: string, orderField: string, orderBy: int, offset: int, limit: int)

  /** The checks made before the dataset is read, in the order they are made. */
  function Validate(accessToken: string, q: Values): (r: Result<Params, Response>)
    ensures r.Success? <==>
              && accessToken != ""
              && Get(q, "query") !in {"wrong_json", "internal", "bad_user"}
              && Atoi(Get(q, "order_by")).Some? && Atoi(Get(q, "order_by")).value in {-1, 0, 1}
              && Atoi(Get(q, "offset")).Some? && Atoi(Get(q, "offset")).value >= 0
              && Atoi(Get(q, "limit")).Some?
    ensures r.Success? ==> r.value.query == Get(q, "query") && r.value.orderField == Get(q, "order_field")
  {
    var query := Get(q, "query");
    if accessToken == "" then Failure(Unauthorized)
    else if query == "wrong_json" then Failure(BadJson)
    else if query == "internal" then Failure(Internal)
    else if query == "bad_user" then Failure(BadUser)
    else match Atoi(Get(q, "order_by"))
      case None => Failure(BadRequest("order_by should be integer"))
      case Some(orderBy) =>
        if orderBy != 1 && orderBy != 0 && orderBy != -1 then Failure(BadRequest("order_by should be 1,0 or -1"))
        else match Atoi(Get(q, "offset"))
          case None => Failure(BadRequest("offset should be integer"))
          case Some(offset) =>
            if offset < 0 then Failure(BadRequest("offset should >  0"))
            else match Atoi(Get(q, "limit"))
              case None => Failure(BadRequest("limit should be integer"))
              case Some(limit) => Success(Params(query, Get(q, "order_field"), orderBy, offset, limit))
  }

  /** Accepted parameters: an order_by of -1, 0 or 1 and an offset of at least 0. */
  lemma ValidateAccepts(accessToken: string, q: Values)
    ensures Validate(accessToken, q).Success? ==>
              var p := Validate(accessToken, q).value;
              accessToken != "" && -1 <= p.orderBy <= 1 && p.offset >= 0 &&
              Atoi(Get(q, "order_by")) == Some(p.orderBy) &&
              Atoi(Get(q, "offset")) == Some(p.offset) &&
              Atoi(Get(q, "limit")) == Some(p.limit)
    ensures accessToken == "" ==> Validate(accessToken, q) == Failure(Unauthorized)
  {
  }

  /** A parameter that is missing is not an integer: order_by, offset and
      limit must all be given. */
  lemma ValidateNeedsOrderBy(accessToken: string, q: Values)
    requires accessToken != "" && "order_by" !in q
    ensures Validate(accessToken, q).Failure?
  {
    assert Get(q, "order_by") == "";
  }

  /** res[offset:] cut to its first limit rows. */
  function Page(rows: seq<Row>, offset: nat, limit: nat): (page: seq<Row>)
    requires offset <= |rows|
    ensures |page| == if limit < |rows| - offset then limit else |rows| - offset
    ensures forall i :: 0 <= i < |page| ==> page[i] == rows[offset + i]
  {
    var rest := rows[offset..];
    if limit < |rest| then rest[..limit] else rest
  }

  /** SearchService, with the dataset given. `sorted` is the filtered rows in
      the order sorting left them. */
  method SearchService(accessToken: string, q: Values, dataset: seq<Row>)
    returns (resp: Response, ghost sorted: seq<Row>)
    ensures Validate(accessToken, q).Failure? ==> resp == Validate(accessToken, q).error
    ensures Validate(accessToken, q).Success? ==>
              var p := Validate(accessToken, q).value;
              var res := Selected(p.query, dataset);
              if FieldKey(p.orderField).None? then resp == BadRequest("ErrorBadOrderField")
              else
                && multiset(sorted) == multiset(res)
                && |sorted| == |res|
                && (p.orderBy == 0 ==> sorted == res)
                && (p.orderBy != 0 ==> SortedBy(sorted, RowOrder(FieldKey(p.orderField).value, p.orderBy == 1)))
                && resp == if p.offset > |res| || p.limit < 0 then Panic
                           else Users(Map(ToUser, Page(sorted, p.offset, p.limit)))
  {
    sorted := [];
    var v := Validate(accessToken, q);
    if v.Failure? {
      return v.error, sorted;
    }
    var p := v.value;
    var res := FilterByQuery(p.query, dataset);
    var err, rows := SortSelected(res, p.orderField, p.orderBy);
    sorted := rows;
    if err.Some? {
      return BadRequest(err.value), sorted;
    }
    resp := PageOfUsers(rows, p.offset, p.limit);
  }

  /** The filtered rows copied into an array and sorted there, as sorting
      does on the slice. */
  method SortSelected(res: seq<Row>, orderField: string, orderBy: int) returns (err: Option<string>, sorted: seq<Row>)
    ensures FieldKey(orderField).None? ==> err == Some("ErrorBadOrderField")
    ensures FieldKey(orderField).Some? ==>
              && err == None
              && multiset(sorted) == multiset(res)
              && (orderBy != -1 && orderBy != 1 ==> sorted == res)
              && (orderBy == -1 || orderBy == 1 ==>
                    SortedBy(sorted, RowOrder(FieldKey(orderField).value, orderBy == 1)))
  {
    var a := new Row[|res|](i requires 0 <= i < |res| => res[i]);
    assert a[..] == res;
    err := SortRows(a, orderField, orderBy);
    sorted := a[..];
  }

  /** The end of SearchService: the page from `offset`, at most `limit` rows,
      as users; slicing past the end or to a negative length panics. */
  method PageOfUsers(rows: seq<Row>, offset: int, limit: int) returns (resp: Response)
    ensures resp == if offset < 0 || offset > |rows| || limit < 0 then Panic
                    else Users(Map(ToUser, Page(rows, offset, limit)))
  {
    if offset < 0 || offset > |rows| {
      return Panic;
    }
    var page := rows[offset..];
    if limit < |page| {
      if limit < 0 {
        return Panic;
      }
      page := page[..limit];
    }
    assert page == Page(rows, offset, limit);
    var users: seq<User> := [];
    for i := 0 to |page|
      invariant users == Map(ToUser, page[..i])
    {
      MapSnoc(ToUser, page, i);
      users := users + [ToUser(page[i])];
    }
    assert page[..|page|] == page;
    return Users(users);
  }
}
