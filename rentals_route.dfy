/**
 * The rental-history and statistics routes of the dashboard API
 * (packages/backend/src/api/routes/rentals.ts): query-string pagination with
 * JavaScript's `parseInt`/`Math.max`/`Math.min`/`Math.ceil`, the per-user
 * filter every query carries, and the choice of the "most rented" vehicle.
 */
module RentalsRoute {
  import opened Common
  import opened Text
  import opened Store

  /** A JavaScript number as these routes see it: an integer or NaN. */
  datatype Num = Finite(n: int) | NaN

  /** `parseInt(s, 10)`: leading whitespace, an optional sign, then the longest run of decimal digits. */
  function ParseInt(s: string): (r: Num)
    ensures r.Finite? ==> exists k :: 0 <= k < |s| && IsDigit(s[k])
  {
    var i := SkipWs(s, 0);
    var j := if i < |s| && (s[i] == '-' || s[i] == '+') then i + 1 else i;
    var k := RunEnd(s, j, IsDigit);
    if k == j then NaN
    else
      assert IsDigit(s[j]);
      var v: int := DigitsValue(s[j..k]);
      Finite(if i < |s| && s[i] == '-' then -v else v)
  }

  /** `parseInt` reads back every integer's decimal rendering. */
  lemma ParseIntReadBack(n: int)
    ensures ParseInt(IntToString(n)) == Finite(n)
  {
    var s := IntToString(n);
    var d := NatToString(if n >= 0 then n else -n);
    var j := if n >= 0 then 0 else 1;
    assert s[j..] == d;
    assert NotWhitespace(s[0]) by {
      if n >= 0 { assert IsDigit(s[0]); }
    }
    SkipWsOver(s, 0, "");
    forall k | j <= k < |s| ensures IsDigit(s[k]) {
      assert s[k] == d[k - j];
    }
    RunEndIs(s, j, |s|, IsDigit);
    assert s[j..|s|] == d;
  }

  /** The defaults `"1"` and `"20"` read as 1 and 20. */
  lemma ParseDefaults()
    ensures ParseInt("1") == Finite(1) && ParseInt("20") == Finite(DefaultLimit)
  {
    ParseIntReadBack(1);
    assert IntToString(1) == "1";
    ParseIntReadBack(20);
    assert NatToString(2) == "2";
    assert IntToString(20) == "20";
  }

  /** A query value is truthy when present and non-empty. */
  predicate Truthy(q: Option<string>) {
    q.Some? && q.value != ""
  }

  /** `q || d` */
  function OrDefault(q: Option<string>, d: string): string {
    if Truthy(q) then q.value else d
  }

  /** `Math.max(lo, x)`: NaN stays NaN. */
  function MaxWith(lo: int, x: Num): Num {
    if x.NaN? then NaN else Finite(if x.n < lo then lo else x.n)
  }

  /** `Math.min(hi, x)`: NaN stays NaN. */
  function MinWith(hi: int, x: Num): Num {
    if x.NaN? then NaN else Finite(if x.n > hi then hi else x.n)
  }

  const DefaultLimit: int := 20
  const MaxLimit: int := 50

  /** `Math.max(1, parseInt(page || "1", 10))` */
  function PageOf(q: Option<string>): (r: Num)
    ensures r.Finite? ==> r.n >= 1
    ensures !Truthy(q) ==> r == Finite(1)
  {
    ParseDefaults();
    MaxWith(1, ParseInt(OrDefault(q, "1")))
  }

  /** `Math.min(50, Math.max(1, parseInt(limit || "20", 10)))` */
  function LimitOf(q: Option<string>): (r: Num)
    ensures r.Finite? ==> 1 <= r.n <= MaxLimit
    ensures !Truthy(q) ==> r == Finite(DefaultLimit)
  {
    ParseDefaults();
    MinWith(MaxLimit, MaxWith(1, ParseInt(OrDefault(q, "20"))))
  }

  /** A numeric page parameter is clamped from below at 1. */
  lemma PageOfNumber(p: int)
    ensures PageOf(Some(IntToString(p))) == Finite(if p < 1 then 1 else p)
  {
    ParseIntReadBack(p);
  }

  /** A numeric limit parameter is clamped into 1..50. */
  lemma LimitOfNumber(l: int)
    ensures LimitOf(Some(IntToString(l))) == Finite(if l < 1 then 1 else if l > MaxLimit then MaxLimit else l)
  {
    ParseIntReadBack(l);
  }

  /** `(page - 1) * limit`: the number of rows the page skips. */
  function Offset(page: int, limit: int): nat
    requires page >= 1 && limit >= 1
  {
    (page - 1) * limit
  }

  /** `Math.ceil(total / limit)` */
  function Pages(total: nat, limit: int): (r: nat)
    requires limit >= 1
    ensures r * limit >= total
    ensures r > 0 ==> (r - 1) * limit < total
  {
    total / limit + (if total % limit == 0 then 0 else 1)
  }

  /** Every row of the result set lies on exactly the page its position names, and that page exists. */
  lemma {:induction false} RowOnPage(total: nat, limit: int, i: nat)
    requires limit >= 1 && i < total
    ensures var p := i / limit + 1;
      1 <= p <= Pages(total, limit) && Offset(p, limit) <= i < Offset(p, limit) + limit
  {
    var p := i / limit + 1;
    var pages := Pages(total, limit);
    assert Offset(p, limit) == (i / limit) * limit;
    assert i == (i / limit) * limit + i % limit;
    assert p <= pages by {
      if pages <= i / limit {
        MulMonotone(pages, i / limit, limit);
      }
    }
  }

  lemma MulMonotone(a: nat, b: nat, c: nat)
    requires a <= b
    ensures a * c <= b * c
  {
  }

  /** One predicate of the `where` clause. */
  datatype Condition =
    | UserIs(userId: nat)
    | RentedFrom(from: int)
    | RentedTo(to: int)
    | VehicleIs(vehicleId: Num)
    | ServerIs(server: string)

  /** SQL's `=`, `>=`, `<=`; comparing with NaN matches nothing. */
  predicate Holds(r: Rental, c: Condition) {
    match c
    case UserIs(u) => r.userId == u
    case RentedFrom(t) => r.rentedAt >= t
    case RentedTo(t) => r.rentedAt <= t
    case VehicleIs(v) => v.Finite? && r.vehicleId == v.n
    case ServerIs(s) => r.server == s
  }

  predicate HoldsAll(r: Rental, cs: seq<Condition>) {
    forall k :: 0 <= k < |cs| ==> Holds(r, cs[k])
  }

  /** The history filters; `from` and `to` are instants in milliseconds. */
  datatype Query = Query(
    page: Option<string>,
    limit: Option<string>,
    from: Option<int>,
    to: Option<int>,
    vehicleId: Option<string>,
    server: Option<string>)

  /** The conditions of `/api/rentals`: the caller's rows, then each filter given. */
  function HistoryConditions(userId: nat, q: Query): (cs: seq<Condition>)
    ensures |cs| >= 1 && cs[0] == UserIs(userId)
    ensures q.from.Some? <==> RentedFrom(if q.from.Some? then q.from.value else 0) in cs
    ensures q.to.Some? <==> RentedTo(if q.to.Some? then q.to.value else 0) in cs
    ensures Truthy(q.vehicleId) <==> VehicleIs(ParseInt(if q.vehicleId.Some? then q.vehicleId.value else "")) in cs
    ensures Truthy(q.server) <==> ServerIs(if q.server.Some? then q.server.value else "") in cs
  {
    [UserIs(userId)]
    + (if q.from.Some? then [RentedFrom(q.from.value)] else [])
    + (if q.to.Some? then [RentedTo(q.to.value)] else [])
    + (if Truthy(q.vehicleId) then [VehicleIs(ParseInt(q.vehicleId.value))] else [])
    + (if Truthy(q.server) then [ServerIs(q.server.value)] else [])
  }

  /** A rental row with its id. */
  datatype Row = Row(id: nat, rental: Rental)

  /** The rows of `rentals` with ids from `from + 1` on that satisfy every condition, in table order. */
  function Selected(rentals: seq<Rental>, cs: seq<Condition>, from: nat): (r: seq<Row>)
    requires from <= |rentals|
    ensures forall x :: x in r ==>
      (from < x.id <= |rentals| && x.rental == rentals[x.id - 1] && HoldsAll(x.rental, cs))
    decreases |rentals| - from
  {
    if from == |rentals| then []
    else
      var rest := Selected(rentals, cs, from + 1);
      if HoldsAll(rentals[from], cs) then [Row(from + 1, rentals[from])] + rest else rest
  }

  /** Every row that satisfies the conditions is selected. */
  lemma {:induction false} SelectedComplete(rentals: seq<Rental>, cs: seq<Condition>, from: nat, i: nat)
    requires from <= i < |rentals| && HoldsAll(rentals[i], cs)
    ensures Row(i + 1, rentals[i]) in Selected(rentals, cs, from)
    decreases |rentals| - from
  {
    if from < i {
      SelectedComplete(rentals, cs, from + 1, i);
    }
  }

  /** `.innerJoin(vehicles, eq(rentals.vehicleId, vehicles.id))`: rows whose vehicle exists. */
  function Joined(rows: seq<Row>, vehicleCount: nat): (r: seq<Row>)
    ensures forall k :: 0 <= k < |r| ==> r[k] in rows && IsRowId(vehicleCount, r[k].rental.vehicleId)
    ensures forall x :: x in rows && IsRowId(vehicleCount, x.rental.vehicleId) ==> x in r
  {
    if rows == [] then []
    else (if IsRowId(vehicleCount, rows[0].rental.vehicleId) then [rows[0]] else []) + Joined(rows[1..], vehicleCount)
  }

  predicate LaterFirst(rows: seq<Row>) {
    forall i, j :: 0 <= i < j < |rows| ==> rows[i].rental.rentedAt >= rows[j].rental.rentedAt
  }

  /** The position of the first row rented strictly before `t`. */
  function FirstEarlier(rows: seq<Row>, t: int): (k: nat)
    ensures k <= |rows|
    ensures forall i :: 0 <= i < k ==> rows[i].rental.rentedAt >= t
    ensures k < |rows| ==> rows[k].rental.rentedAt < t
  {
    if rows == [] || rows[0].rental.rentedAt < t then 0 else 1 + FirstEarlier(rows[1..], t)
  }

  /** Inserts a row before the first one rented strictly earlier. */
  function InsertByRentedAt(x: Row, rows: seq<Row>): (r: seq<Row>)
    ensures |r| == |rows| + 1
  {
    var k := FirstEarlier(rows, x.rental.rentedAt);
    rows[..k] + [x] + rows[k..]
  }

  /** Inserting adds exactly the new row. */
  lemma InsertByRentedAtAdds(x: Row, rows: seq<Row>)
    ensures multiset(InsertByRentedAt(x, rows)) == multiset(rows) + multiset{x}
  {
    var k := FirstEarlier(rows, x.rental.rentedAt);
    assert rows == rows[..k] + rows[k..];
  }

  /** Inserting keeps the rows latest first. */
  lemma InsertByRentedAtOrder(x: Row, rows: seq<Row>)
    requires LaterFirst(rows)
    ensures LaterFirst(InsertByRentedAt(x, rows))
  {
    var k := FirstEarlier(rows, x.rental.rentedAt);
    var r := InsertByRentedAt(x, rows);
    forall i, j | 0 <= i < j < |r|
      ensures r[i].rental.rentedAt >= r[j].rental.rentedAt
    {
      InsertedPair(x, rows, k, i, j);
    }
  }

  /** One pair of positions of the inserted rows, for `InsertByRentedAtOrder`. */
  lemma InsertedPair(x: Row, rows: seq<Row>, k: nat, i: nat, j: nat)
    requires LaterFirst(rows) && k == FirstEarlier(rows, x.rental.rentedAt)
    requires i < j < |rows| + 1
    ensures InsertByRentedAt(x, rows)[i].rental.rentedAt >= InsertByRentedAt(x, rows)[j].rental.rentedAt
  {
    SplicedAt(x, rows, k, i);
    SplicedAt(x, rows, k, j);
    if j > k {
      assert rows[k].rental.rentedAt >= rows[j - 1].rental.rentedAt;
    }
  }

  /** Position `i` of `rows` with `x` put in at `k`. */
  lemma SplicedAt(x: Row, rows: seq<Row>, k: nat, i: nat)
    requires k <= |rows| && i <= |rows|
    ensures (rows[..k] + [x] + rows[k..])[i] == if i < k then rows[i] else if i == k then x else rows[i - 1]
  {
  }

  /**
   * `.orderBy(desc(rentals.rentedAt))`: latest first. SQL leaves the order of
   * equal dates open; the model fixes one of the allowed orders, table order.
   */
  function ByRentedAtDesc(rows: seq<Row>): seq<Row>
    decreases |rows|
  {
    if rows == [] then []
    else InsertByRentedAt(rows[|rows| - 1], ByRentedAtDesc(rows[..|rows| - 1]))
  }

  /** The ordered rows are latest first ... */
  lemma {:induction false} ByRentedAtDescOrder(rows: seq<Row>)
    ensures LaterFirst(ByRentedAtDesc(rows))
    decreases |rows|
  {
    if rows != [] {
      ByRentedAtDescOrder(rows[..|rows| - 1]);
      InsertByRentedAtOrder(rows[|rows| - 1], ByRentedAtDesc(rows[..|rows| - 1]));
    }
  }

  /** ... and are the same rows, as often as before. */
  lemma {:induction false} ByRentedAtDescPermutes(rows: seq<Row>)
    ensures multiset(ByRentedAtDesc(rows)) == multiset(rows)
    decreases |rows|
  {
    if rows != [] {
      var init := rows[..|rows| - 1];
      ByRentedAtDescPermutes(init);
      InsertByRentedAtAdds(rows[|rows| - 1], ByRentedAtDesc(init));
      assert rows == init + [rows[|rows| - 1]];
    }
  }

  /** `.limit(limit).offset(offset)` */
  function Window<T>(xs: seq<T>, offset: nat, limit: nat): (r: seq<T>)
    ensures |r| <= limit
    ensures forall k :: 0 <= k < |r| ==> offset + k < |xs| && r[k] == xs[offset + k]
    ensures offset + limit <= |xs| ==> |r| == limit
  {
    if offset >= |xs| then [] else if offset + limit >= |xs| then xs[offset..] else xs[offset..offset + limit]
  }

  /** The answers of the route. */
  datatype Response =
    | Unauthorized
    | Listing(items: seq<Row>, total: nat, page: int, pages: nat)
    | NaNPaging

  /** `GET /api/rentals` for the user the middleware resolved (`dbUserId`). */
  function History(rentals: seq<Rental>, vehicleCount: nat, dbUserId: Option<nat>, q: Query): Response {
    if dbUserId.None? || dbUserId.value == 0 then Unauthorized
    else
      var page := PageOf(q.page);
      var limit := LimitOf(q.limit);
      if page.NaN? || limit.NaN? then NaNPaging
      else
        var rows := Selected(rentals, HistoryConditions(dbUserId.value, q), 0);
        var items := Window(ByRentedAtDesc(Joined(rows, vehicleCount)), Offset(page.n, limit.n), limit.n);
        Listing(items, |rows|, page.n, Pages(|rows|, limit.n))
  }

  /** A listing holds only the caller's rentals, at most a page of them, and the page count covers the total. */
  lemma HistoryOnlyOwnRows(rentals: seq<Rental>, vehicleCount: nat, dbUserId: Option<nat>, q: Query)
    ensures var r := History(rentals, vehicleCount, dbUserId, q);
      r.Listing? ==>
        (&& dbUserId.Some? && |r.items| <= MaxLimit && r.page >= 1
         && r.total <= r.pages * MaxLimit
         && forall x :: x in r.items ==>
              (&& x.rental.userId == dbUserId.value
               && IsRowId(|rentals|, x.id) && x.rental == rentals[x.id - 1]
               && IsRowId(vehicleCount, x.rental.vehicleId)))
  {
    var r := History(rentals, vehicleCount, dbUserId, q);
    if r.Listing? {
      var cs := HistoryConditions(dbUserId.value, q);
      var rows := Selected(rentals, cs, 0);
      var limit := LimitOf(q.limit).n;
      var page := PageOf(q.page).n;
      ListedAreJoined(rows, vehicleCount, Offset(page, limit), limit);
      forall x | x in r.items
        ensures x.rental.userId == dbUserId.value
      {
        assert Holds(x.rental, cs[0]);
      }
      MulMonotone(limit, MaxLimit, r.pages);
    }
  }

  /** The rows of a page come from the selection and have their vehicle row. */
  lemma ListedAreJoined(rows: seq<Row>, vehicleCount: nat, offset: nat, limit: nat)
    ensures forall x :: x in Window(ByRentedAtDesc(Joined(rows, vehicleCount)), offset, limit) ==>
      x in rows && IsRowId(vehicleCount, x.rental.vehicleId)
  {
    var sorted := ByRentedAtDesc(Joined(rows, vehicleCount));
    var w := Window(sorted, offset, limit);
    forall x | x in w ensures x in rows && IsRowId(vehicleCount, x.rental.vehicleId) {
      var k :| 0 <= k < |w| && w[k] == x;
      assert sorted[offset + k] == x;
      ByRentedAtDescPermutes(Joined(rows, vehicleCount));
      assert x in multiset(sorted);
    }
  }

  /** `/api/rentals` refuses a request the middleware did not tie to a user. */
  lemma HistoryNeedsUser(rentals: seq<Rental>, vehicleCount: nat, q: Query)
    ensures History(rentals, vehicleCount, None, q) == Unauthorized
    ensures History(rentals, vehicleCount, Some(0), q) == Unauthorized
  {
  }

  /** The conditions of `/api/rentals/stats`: the caller's rows since the period start, then the filters given. */
  function StatsConditions(userId: nat, periodStart: int, vehicleId: Option<string>, server: Option<string>): (cs: seq<Condition>)
    ensures |cs| >= 2 && cs[0] == UserIs(userId) && cs[1] == RentedFrom(periodStart)
  {
    [UserIs(userId), RentedFrom(periodStart)]
    + (if Truthy(vehicleId) then [VehicleIs(ParseInt(vehicleId.value))] else [])
    + (if Truthy(server) then [ServerIs(server.value)] else [])
  }

  /** Every row the statistics aggregate is the caller's. */
  lemma StatsOnlyOwnRows(rentals: seq<Rental>, userId: nat, periodStart: int, vehicleId: Option<string>, server: Option<string>)
    ensures var rows := Selected(rentals, StatsConditions(userId, periodStart, vehicleId, server), 0);
      forall k :: 0 <= k < |rows| ==> rows[k].rental.userId == userId && rows[k].rental.rentedAt >= periodStart
  {
    var cs := StatsConditions(userId, periodStart, vehicleId, server);
    var rows := Selected(rentals, cs, 0);
    forall k | 0 <= k < |rows| ensures rows[k].rental.userId == userId && rows[k].rental.rentedAt >= periodStart {
      assert Holds(rows[k].rental, cs[0]) && Holds(rows[k].rental, cs[1]);
    }
  }

  /** One row of the per-vehicle breakdown (`byVehicle`). */
  datatype VehicleTotal = VehicleTotal(vehicleId: nat, name: string, count: nat, revenue: int)

  datatype MostRented = MostRented(id: nat, name: string, count: nat)

  predicate ByRevenueDesc(byVehicle: seq<VehicleTotal>) {
    forall i, j :: 0 <= i < j < |byVehicle| ==> byVehicle[i].revenue >= byVehicle[j].revenue
  }

  function Chosen(v: VehicleTotal): MostRented {
    MostRented(v.vehicleId, v.name, v.count)
  }

  /** `mostRentedVehicle`: the first row of the breakdown, or none when it is empty. */
  function MostRentedOf(byVehicle: seq<VehicleTotal>): (r: Option<MostRented>)
    ensures r.None? <==> byVehicle == []
    ensures r.Some? ==> r.value == Chosen(byVehicle[0])
  {
    if byVehicle == [] then None
    else Some(MostRented(byVehicle[0].vehicleId, byVehicle[0].name, byVehicle[0].count))
  }

  /** Since the breakdown is ordered by revenue, the vehicle chosen earned the most; its count need not be the largest. */
  lemma MostRentedEarnsMost(byVehicle: seq<VehicleTotal>)
    requires ByRevenueDesc(byVehicle) && byVehicle != []
    ensures MostRentedOf(byVehicle).Some?
    ensures forall k :: 0 <= k < |byVehicle| ==> byVehicle[0].revenue >= byVehicle[k].revenue
    ensures MostRentedOf(byVehicle).value.id == byVehicle[0].vehicleId
  {
  }

  /** A breakdown where the top earner is not the vehicle rented most often. */
  lemma MostRentedIsNotMostOften()
    ensures var byVehicle := [VehicleTotal(1, "Sultan", 1, 9000), VehicleTotal(2, "Elegy", 3, 3000)];
      ByRevenueDesc(byVehicle) && MostRentedOf(byVehicle).value.id == 1 && byVehicle[1].count > byVehicle[0].count
  {
  }
}
