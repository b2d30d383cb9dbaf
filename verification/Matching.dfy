/** Finding drivers for a booking: the geo search filtered by status, the vehicle check of each
    driver found, and the 70/30 ranking. Query results are parameters: the GEOSEARCH reply, the
    driver table, and the fleet (who drives for which user, and which vehicle is assigned). */
module Matching {
  import opened Wrappers
  import opened Transport
  import opened StableSort

  type UserId = string
  type DriverId = string

  datatype DriverStatus = Online | Offline | OnTrip
  datatype Nearby = Nearby(driverId: DriverId, distance: real)
  datatype Driver = Driver(id: DriverId, userId: UserId)
  datatype Fleet = Fleet(driverOf: map<UserId, DriverId>, vehicleOf: map<DriverId, Vehicle>)
  datatype MatchedDriver = MatchedDriver(driver: Driver, distance: real, matchScore: int, vehicleId: string)

  // ----- findClosestDriver -----

  const SEARCH_LIMIT := 3

  predicate IsOnline(d: DriverId, statuses: map<DriverId, DriverStatus>) {
    d in statuses && statuses[d].Online?
  }

  function OnlineOnly(geo: seq<Nearby>, statuses: map<DriverId, DriverStatus>): seq<Nearby> {
    if geo == [] then []
    else OnlineOnly(geo[..|geo| - 1], statuses)
         + if IsOnline(geo[|geo| - 1].driverId, statuses) then [geo[|geo| - 1]] else []
  }

  function Closest(geo: seq<Nearby>, statuses: map<DriverId, DriverStatus>): seq<Nearby> {
    SliceTo(OnlineOnly(geo, statuses), SEARCH_LIMIT)
  }

  method FindClosestDriver(geo: seq<Nearby>, statuses: map<DriverId, DriverStatus>) returns (r: Option<seq<Nearby>>)
    ensures r == if OnlineOnly(geo, statuses) == [] then None else Some(Closest(geo, statuses))
  {
    var driversNearMe: seq<Nearby> := [];
    for i := 0 to |geo|
      invariant driversNearMe == OnlineOnly(geo[..i], statuses)
    {
      assert geo[..i + 1][..i] == geo[..i];
      if IsOnline(geo[i].driverId, statuses) {
        driversNearMe := driversNearMe + [geo[i]];
      }
    }
    assert geo[..|geo|] == geo;
    r := if |driversNearMe| > 0 then Some(SliceTo(driversNearMe, 3)) else None;
  }

  /** `at` names increasing positions of geo: an in-order pick. */
  ghost predicate PickedAt(s: seq<Nearby>, geo: seq<Nearby>, at: seq<nat>) {
    && |at| == |s|
    && (forall i :: 0 <= i < |at| ==> at[i] < |geo| && s[i] == geo[at[i]])
    && (forall i, j :: 0 <= i < j < |at| ==> at[i] < at[j])
  }

  /** Positions of the online drivers in the reply. */
  function OnlineAt(geo: seq<Nearby>, statuses: map<DriverId, DriverStatus>): seq<nat> {
    if geo == [] then []
    else OnlineAt(geo[..|geo| - 1], statuses) + if IsOnline(geo[|geo| - 1].driverId, statuses) then [|geo| - 1] else []
  }

  lemma {:induction false} OnlineAtMembers(geo: seq<Nearby>, statuses: map<DriverId, DriverStatus>, g: nat)
    ensures g in OnlineAt(geo, statuses) <==> g < |geo| && IsOnline(geo[g].driverId, statuses)
  {
    if geo != [] {
      OnlineAtMembers(geo[..|geo| - 1], statuses, g);
    }
  }

  lemma {:induction false} OnlineIsPick(geo: seq<Nearby>, statuses: map<DriverId, DriverStatus>)
    ensures PickedAt(OnlineOnly(geo, statuses), geo, OnlineAt(geo, statuses))
  {
    if geo != [] {
      var init := geo[..|geo| - 1];
      OnlineIsPick(init, statuses);
      var at := OnlineAt(init, statuses);
      forall i | 0 <= i < |at| ensures at[i] < |init| && geo[at[i]] == init[at[i]] {}
    }
  }

  /** What the search returns: at most three drivers, each ONLINE, picked in order from the reply;
      fewer than three only when no other is online, and no online driver left out is nearer. */
  lemma ClosestFacts(geo: seq<Nearby>, statuses: map<DriverId, DriverStatus>) returns (at: seq<nat>)
    ensures |Closest(geo, statuses)| <= 3
    ensures PickedAt(Closest(geo, statuses), geo, at)
    ensures forall g :: g in at ==> g < |geo| && geo[g].driverId in statuses && statuses[geo[g].driverId] == Online
    ensures forall g :: 0 <= g < |geo| && geo[g].driverId in statuses && statuses[geo[g].driverId] == Online && g !in at
              ==> |at| == 3 && at[2] < g
  {
    var all := OnlineAt(geo, statuses);
    OnlineIsPick(geo, statuses);
    var k := |Closest(geo, statuses)|;
    at := all[..k];
    forall g | g in at ensures g < |geo| && geo[g].driverId in statuses && statuses[geo[g].driverId] == Online {
      OnlineAtMembers(geo, statuses, g);
    }
    forall g | 0 <= g < |geo| && geo[g].driverId in statuses && statuses[geo[g].driverId] == Online && g !in at
      ensures |at| == 3 && at[2] < g
    {
      OnlineAtMembers(geo, statuses, g);
      LeftOut(all, k, g);
    }
  }

  lemma LeftOut(all: seq<nat>, k: nat, g: nat)
    requires k <= |all| && g in all && g !in all[..k]
    requires forall i, j :: 0 <= i < j < |all| ==> all[i] < all[j]
    ensures k < |all| && forall i :: 0 <= i < k ==> all[i] < g
  {
    forall i | 0 <= i < k ensures all[i] in all[..k] { assert all[..k][i] == all[i]; }
    var j :| 0 <= j < |all| && all[j] == g;
  }

  // ----- findMatchingDrivers -----

  predicate HasId(s: seq<Nearby>, d: DriverId) { exists i :: 0 <= i < |s| && s[i].driverId == d }

  /** The table rows `In(driverIds)`, in table order. */
  function RowsIn(table: seq<Driver>, nearby: seq<Nearby>): seq<Driver> {
    if table == [] then []
    else RowsIn(table[..|table| - 1], nearby) + if HasId(nearby, table[|table| - 1].id) then [table[|table| - 1]] else []
  }

  /** `nearby.find(nd => nd.driverId === id)?.distance ?? 0` */
  function DistanceOf(nearby: seq<Nearby>, d: DriverId): real {
    if nearby == [] then 0.0
    else if nearby[0].driverId == d then nearby[0].distance
    else DistanceOf(nearby[1..], d)
  }

  /** The first entry of the reply that names the driver gives this distance. */
  ghost predicate FoundAt(nearby: seq<Nearby>, d: DriverId, distance: real) {
    exists k :: && 0 <= k < |nearby| && nearby[k] == Nearby(d, distance)
                && forall j :: 0 <= j < k ==> nearby[j].driverId != d
  }

  lemma {:induction false} DistanceIsFirst(nearby: seq<Nearby>, d: DriverId, distance: real)
    ensures FoundAt(nearby, d, distance) <==> HasId(nearby, d) && DistanceOf(nearby, d) == distance
  {
    if nearby != [] {
      var rest := nearby[1..];
      DistanceIsFirst(rest, d, distance);
      if nearby[0].driverId == d {
        assert HasId(nearby, d);
        if distance == nearby[0].distance { assert nearby[0] == Nearby(d, distance); }
      } else {
        forall k | 0 <= k < |rest| ensures rest[k] == nearby[k + 1] {}
        assert HasId(rest, d) <==> HasId(nearby, d) by {
          if HasId(nearby, d) { var i :| 0 <= i < |nearby| && nearby[i].driverId == d; assert rest[i - 1].driverId == d; }
        }
        if FoundAt(rest, d, distance) {
          var k :| 0 <= k < |rest| && rest[k] == Nearby(d, distance) && forall j :: 0 <= j < k ==> rest[j].driverId != d;
          assert nearby[k + 1] == Nearby(d, distance);
          forall j | 0 <= j < k + 1 ensures nearby[j].driverId != d { assert j > 0 ==> rest[j - 1] == nearby[j]; }
        }
        if FoundAt(nearby, d, distance) {
          var k :| 0 <= k < |nearby| && nearby[k] == Nearby(d, distance) && forall j :: 0 <= j < k ==> nearby[j].driverId != d;
          assert rest[k - 1] == Nearby(d, distance);
        }
      }
    }
  }

  /** The entry a driver gets on the cargo path: none without a vehicle, with one that cannot
      carry the cargo, or when the lookup of that driver throws. */
  function CargoMatch(d: Driver, nearby: seq<Nearby>, fleet: Fleet, faults: set<DriverId>, c: Cargo): seq<MatchedDriver> {
    if d.id in faults || d.id !in fleet.vehicleOf then []
    else
      var v := fleet.vehicleOf[d.id];
      var r := ValidateVehicle(v, c);
      if r.canHandle then [MatchedDriver(d, DistanceOf(nearby, d.id), r.matchScore, v.id)] else []
  }

  function CargoMatches(ds: seq<Driver>, nearby: seq<Nearby>, fleet: Fleet, faults: set<DriverId>, c: Cargo): seq<MatchedDriver> {
    if ds == [] then []
    else CargoMatches(ds[..|ds| - 1], nearby, fleet, faults, c) + CargoMatch(ds[|ds| - 1], nearby, fleet, faults, c)
  }

  /** Without cargo requirements every driver found matches, with the driver's id as vehicle reference. */
  function PlainMatches(ds: seq<Driver>, nearby: seq<Nearby>): seq<MatchedDriver> {
    seq(|ds|, i requires 0 <= i < |ds| => MatchedDriver(ds[i], DistanceOf(nearby, ds[i].id), 100, ds[i].id))
  }

  function MinReal(a: real, b: real): real { if a <= b then a else b }

  /** 70% match score, 30% closeness. */
  function RankKey(m: MatchedDriver): real {
    m.matchScore as real * 0.7 + (100.0 - MinReal(m.distance * 10.0, 100.0)) * 0.3
  }

  datatype Outcome = BadRequest | Matches(drivers: seq<MatchedDriver>)

  function MatchingDrivers(
    pickup: Option<(real, real)>, cargo: Option<Cargo>, limit: int,
    geo: seq<Nearby>, statuses: map<DriverId, DriverStatus>,
    table: seq<Driver>, fleet: Fleet, faults: set<DriverId>): Outcome
  {
    if pickup.None? || pickup.value.0 == 0.0 || pickup.value.1 == 0.0 then BadRequest
    else
      var nearby := Closest(geo, statuses);
      var ds := RowsIn(table, nearby);
      if cargo.None? then Matches(SliceTo(PlainMatches(ds, nearby), limit))
      else Matches(SortDesc(CargoMatches(ds, nearby, fleet, faults, cargo.value), RankKey))
  }

  method FindMatchingDrivers(
    pickup: Option<(real, real)>, cargo: Option<Cargo>, limit: int,
    geo: seq<Nearby>, statuses: map<DriverId, DriverStatus>,
    table: seq<Driver>, fleet: Fleet, faults: set<DriverId>)
    returns (outcome: Outcome)
    ensures outcome == MatchingDrivers(pickup, cargo, limit, geo, statuses, table, fleet, faults)
    ensures outcome.BadRequest? <==> pickup == None || 0.0 in {pickup.value.0, pickup.value.1}
  {
    if pickup.None? || pickup.value.0 == 0.0 || pickup.value.1 == 0.0 {
      return BadRequest;
    }
    var found := FindClosestDriver(geo, statuses);
    if found.None? || |found.value| == 0 {
      NobodyNear(table);
      return Matches([]);
    }
    var nearby := found.value;
    var drivers := RowsIn(table, nearby);
    if cargo.None? {
      var all := CollectAll(table, drivers, nearby);
      return Matches(SliceTo(all, limit));
    }
    var matches := CollectFeasible(drivers, nearby, fleet, faults, cargo.value);
    outcome := Matches(SortDesc(matches, RankKey));
  }

  /** The loop of the path without cargo requirements. */
  method CollectAll(table: seq<Driver>, drivers: seq<Driver>, nearby: seq<Nearby>) returns (matches: seq<MatchedDriver>)
    requires drivers == RowsIn(table, nearby)
    ensures matches == PlainMatches(drivers, nearby)
  {
    matches := [];
    for i := 0 to |drivers|
      invariant matches == PlainMatches(drivers, nearby)[..i]
    {
      RowsInMembers(table, nearby, drivers[i]);
      if HasId(nearby, drivers[i].id) {
        matches := matches + [MatchedDriver(drivers[i], DistanceOf(nearby, drivers[i].id), 100, drivers[i].id)];
      }
    }
  }

  /** The loop of the cargo path: a driver that cannot be validated is skipped. */
  method CollectFeasible(drivers: seq<Driver>, nearby: seq<Nearby>, fleet: Fleet, faults: set<DriverId>, c: Cargo)
    returns (matches: seq<MatchedDriver>)
    ensures matches == CargoMatches(drivers, nearby, fleet, faults, c)
  {
    matches := [];
    for i := 0 to |drivers|
      invariant matches == CargoMatches(drivers[..i], nearby, fleet, faults, c)
    {
      var driver := drivers[i];
      assert drivers[..i + 1][..i] == drivers[..i];
      if driver.id !in faults && driver.id in fleet.vehicleOf {
        var vehicle := fleet.vehicleOf[driver.id];
        var validation := Validate(vehicle, c);
        if validation.canHandle {
          matches := matches + [MatchedDriver(driver, DistanceOf(nearby, driver.id), validation.matchScore, vehicle.id)];
        }
      }
    }
    assert drivers[..|drivers|] == drivers;
  }

  lemma {:induction false} NobodyNear(table: seq<Driver>)
    ensures RowsIn(table, []) == []
  {
    if table != [] { NobodyNear(table[..|table| - 1]); }
  }

  lemma {:induction false} RowsInMembers(table: seq<Driver>, nearby: seq<Nearby>, d: Driver)
    ensures d in RowsIn(table, nearby) <==> d in table && HasId(nearby, d.id)
  {
    if table != [] {
      RowsInMembers(table[..|table| - 1], nearby, d);
      assert table == table[..|table| - 1] + [table[|table| - 1]];
    }
  }

  lemma {:induction false} CargoMatchesMembers(ds: seq<Driver>, nearby: seq<Nearby>, fleet: Fleet, faults: set<DriverId>, c: Cargo, m: MatchedDriver)
    ensures m in CargoMatches(ds, nearby, fleet, faults, c)
            <==> m.driver in ds && m in CargoMatch(m.driver, nearby, fleet, faults, c)
  {
    if ds != [] {
      CargoMatchesMembers(ds[..|ds| - 1], nearby, fleet, faults, c, m);
      assert ds == ds[..|ds| - 1] + [ds[|ds| - 1]];
    }
  }

  // ----- the order of the offers -----

  lemma {:induction false} RowsInOrder(table: seq<Driver>, nearby: seq<Nearby>, x: Driver, y: Driver)
    requires Before(RowsIn(table, nearby), x, y)
    ensures Before(table, x, y)
  {
    var init, last := table[..|table| - 1], table[|table| - 1];
    assert table == init + [last];
    BeforeSnoc(init, last, x, y);
    RowsInMembers(init, nearby, x);
    if HasId(nearby, last.id) { BeforeSnoc(RowsIn(init, nearby), last, x, y); } else { assert RowsIn(init, nearby) + [] == RowsIn(init, nearby); }
    if Before(RowsIn(init, nearby), x, y) { RowsInOrder(init, nearby, x, y); }
  }

  lemma {:induction false} CargoMatchesOrder(
    ds: seq<Driver>, nearby: seq<Nearby>, fleet: Fleet, faults: set<DriverId>, c: Cargo, x: MatchedDriver, y: MatchedDriver)
    requires Before(CargoMatches(ds, nearby, fleet, faults, c), x, y)
    ensures Before(ds, x.driver, y.driver)
  {
    var init, last := ds[..|ds| - 1], ds[|ds| - 1];
    assert ds == init + [last];
    var ms, m := CargoMatches(init, nearby, fleet, faults, c), CargoMatch(last, nearby, fleet, faults, c);
    BeforeSnoc(init, last, x.driver, y.driver);
    CargoMatchesMembers(init, nearby, fleet, faults, c, x);
    if m != [] { BeforeSnoc(ms, m[0], x, y); } else { assert ms + m == ms; }
    if Before(ms, x, y) { CargoMatchesOrder(init, nearby, fleet, faults, c, x, y); }
  }

  /** What of its distance counts: nothing more beyond 10 km. */
  function Kilometres(m: MatchedDriver): real { if m.distance >= 10.0 then 10.0 else m.distance }

  /** The order of the offers in their columns. A point of match score weighs 0.7 and a kilometre up to
      the tenth 3.0: the offer that is ahead on balance comes first; on equal balance they come in the
      order of the driver table. */
  lemma OffersInOrder(
    pickup: (real, real), c: Cargo, limit: int, geo: seq<Nearby>, statuses: map<DriverId, DriverStatus>,
    table: seq<Driver>, fleet: Fleet, faults: set<DriverId>, i: nat, j: nat)
    requires pickup.0 != 0.0 && pickup.1 != 0.0
    requires MatchingDrivers(Some(pickup), Some(c), limit, geo, statuses, table, fleet, faults).Matches?
    requires var ms := MatchingDrivers(Some(pickup), Some(c), limit, geo, statuses, table, fleet, faults).drivers; i < |ms| && j < |ms|
    ensures var ms := MatchingDrivers(Some(pickup), Some(c), limit, geo, statuses, table, fleet, faults).drivers;
            var score, way := 7 * (ms[i].matchScore - ms[j].matchScore), 30.0 * (Kilometres(ms[i]) - Kilometres(ms[j]));
            && (score as real > way ==> i < j)
            && (score as real == way && i < j ==> Before(table, ms[i].driver, ms[j].driver))
  {
    var nearby := Closest(geo, statuses);
    var cs := CargoMatches(RowsIn(table, nearby), nearby, fleet, faults, c);
    var ms := SortDesc(cs, RankKey);
    SortDescFacts(cs, RankKey);
    var x, y := ms[i], ms[j];
    KeyInColumns(x);
    KeyInColumns(y);
    assert j < i ==> RankKey(y) >= RankKey(x);
    if RankKey(x) == RankKey(y) && i < j {
      assert Before(ms, x, y);
      WithKeyBefore(ms, RankKey, x, y);
      WithKeyBefore(cs, RankKey, x, y);
      CargoMatchesOrder(RowsIn(table, nearby), nearby, fleet, faults, c, x, y);
      RowsInOrder(table, nearby, x.driver, y.driver);
    }
  }

  lemma KeyInColumns(m: MatchedDriver)
    ensures 10.0 * RankKey(m) == (7 * m.matchScore) as real + 300.0 - 30.0 * Kilometres(m)
  {
  }

  predicate DistinctIds(table: seq<Driver>) {
    forall i, j :: 0 <= i < j < |table| ==> table[i].id != table[j].id
  }

  ghost function MatchIds(ms: seq<MatchedDriver>): set<DriverId> { set m | m in ms :: m.driver.id }

  lemma {:induction false} MatchesAreDistinct(ds: seq<Driver>, nearby: seq<Nearby>, fleet: Fleet, faults: set<DriverId>, c: Cargo)
    requires DistinctIds(ds)
    ensures var ms := CargoMatches(ds, nearby, fleet, faults, c);
            |MatchIds(ms)| == |ms|
  {
    if ds != [] {
      var init, last := ds[..|ds| - 1], ds[|ds| - 1];
      MatchesAreDistinct(init, nearby, fleet, faults, c);
      var ms, m := CargoMatches(init, nearby, fleet, faults, c), CargoMatch(last, nearby, fleet, faults, c);
      if m != [] {
        forall x | x in ms ensures x.driver.id != last.id {
          CargoMatchesMembers(init, nearby, fleet, faults, c, x);
          var i :| 0 <= i < |init| && init[i] == x.driver;
          assert ds[i].id != ds[|ds| - 1].id;
        }
        assert MatchIds(ms + m) == MatchIds(ms) + {last.id};
      } else {
        assert ms + m == ms;
      }
    }
  }

  lemma {:induction false} RowsInDistinct(table: seq<Driver>, nearby: seq<Nearby>)
    requires DistinctIds(table)
    ensures DistinctIds(RowsIn(table, nearby))
  {
    if table != [] {
      var init, last := table[..|table| - 1], table[|table| - 1];
      RowsInDistinct(init, nearby);
      var r := RowsIn(init, nearby);
      forall i | 0 <= i < |r| ensures r[i].id != last.id {
        RowsInMembers(init, nearby, r[i]);
        var k :| 0 <= k < |init| && init[k] == r[i];
        assert table[k].id != table[|table| - 1].id;
      }
    }
  }

  lemma {:induction false} FewIds(nearby: seq<Nearby>) returns (ids: set<DriverId>)
    ensures |ids| <= |nearby|
    ensures forall d :: d in ids <==> HasId(nearby, d)
  {
    ids := {};
    if nearby != [] {
      var init := nearby[..|nearby| - 1];
      var ids0 := FewIds(init);
      ids := ids0 + {nearby[|nearby| - 1].driverId};
      forall d ensures d in ids <==> HasId(nearby, d) {
        if d in ids0 { var i :| 0 <= i < |init| && init[i].driverId == d; assert nearby[i].driverId == d; }
        if HasId(nearby, d) && d != nearby[|nearby| - 1].driverId {
          var i :| 0 <= i < |nearby| && nearby[i].driverId == d;
          assert init[i].driverId == d;
        }
      }
    }
  }

  lemma RankedMembers(ds: seq<Driver>, nearby: seq<Nearby>, fleet: Fleet, faults: set<DriverId>, c: Cargo, m: MatchedDriver)
    ensures m in SortDesc(CargoMatches(ds, nearby, fleet, faults, c), RankKey)
            <==> m.driver in ds && m in CargoMatch(m.driver, nearby, fleet, faults, c)
  {
    var cs := CargoMatches(ds, nearby, fleet, faults, c);
    SortDescFacts(cs, RankKey);
    assert m in SortDesc(cs, RankKey) <==> m in multiset(SortDesc(cs, RankKey));
    CargoMatchesMembers(ds, nearby, fleet, faults, c, m);
  }

  /** No driver is offered twice, and no more drivers are offered than were found. */
  lemma RankedIsSmall(table: seq<Driver>, nearby: seq<Nearby>, fleet: Fleet, faults: set<DriverId>, c: Cargo)
    requires DistinctIds(table)
    ensures var ms := SortDesc(CargoMatches(RowsIn(table, nearby), nearby, fleet, faults, c), RankKey);
            |MatchIds(ms)| == |ms| <= |nearby|
  {
    var ds := RowsIn(table, nearby);
    var cs := CargoMatches(ds, nearby, fleet, faults, c);
    var ms := SortDesc(cs, RankKey);
    SortDescFacts(cs, RankKey);
    RowsInDistinct(table, nearby);
    MatchesAreDistinct(ds, nearby, fleet, faults, c);
    forall m ensures m in ms <==> m in cs { assert m in ms <==> m in multiset(ms); }
    assert MatchIds(ms) == MatchIds(cs);
    var ids := FewIds(nearby);
    forall d | d in MatchIds(ms) ensures d in ids {
      var m :| m in ms && m.driver.id == d;
      RankedMembers(ds, nearby, fleet, faults, c, m);
      RowsInMembers(table, nearby, m.driver);
    }
    SubsetSize(MatchIds(ms), ids);
  }

  ghost function DriverIds(ds: seq<Driver>): set<DriverId> { set d | d in ds :: d.id }

  lemma DriverIdsSnoc(ds: seq<Driver>, d: Driver)
    ensures DriverIds(ds + [d]) == DriverIds(ds) + {d.id}
  {
  }

  lemma LastIdIsNew(ds: seq<Driver>)
    requires ds != [] && DistinctIds(ds)
    ensures DistinctIds(ds[..|ds| - 1]) && ds[|ds| - 1].id !in DriverIds(ds[..|ds| - 1])
  {
    forall d | d in ds[..|ds| - 1] ensures d.id != ds[|ds| - 1].id {
      var i :| 0 <= i < |ds| - 1 && ds[i] == d;
    }
  }

  lemma {:induction false} DistinctIdsCount(ds: seq<Driver>)
    requires DistinctIds(ds)
    ensures |DriverIds(ds)| == |ds|
  {
    if ds != [] {
      LastIdIsNew(ds);
      DistinctIdsCount(ds[..|ds| - 1]);
      DriverIdsSnoc(ds[..|ds| - 1], ds[|ds| - 1]);
      assert ds == ds[..|ds| - 1] + [ds[|ds| - 1]];
    }
  }

  lemma RowsAreFew(table: seq<Driver>, nearby: seq<Nearby>)
    requires DistinctIds(table)
    ensures DistinctIds(RowsIn(table, nearby)) && |RowsIn(table, nearby)| <= |nearby|
  {
    var ds := RowsIn(table, nearby);
    RowsInDistinct(table, nearby);
    DistinctIdsCount(ds);
    var ids := FewIds(nearby);
    forall d | d in ds ensures d.id in ids { RowsInMembers(table, nearby, d); }
    SubsetSize(DriverIds(ds), ids);
  }

  /** Without cargo requirements the offers are the rows found, in table order and up to the limit,
      vehicle or not, each with score 100: three at most, no driver twice. */
  lemma PlainPathFacts(
    pickup: (real, real), limit: nat, geo: seq<Nearby>, statuses: map<DriverId, DriverStatus>,
    table: seq<Driver>, fleet: Fleet, faults: set<DriverId>)
    requires pickup.0 != 0.0 && pickup.1 != 0.0 && DistinctIds(table)
    ensures MatchingDrivers(Some(pickup), None, limit, geo, statuses, table, fleet, faults).Matches?
    ensures var ms := MatchingDrivers(Some(pickup), None, limit, geo, statuses, table, fleet, faults).drivers;
            var ds := RowsIn(table, Closest(geo, statuses));
            && |ds| <= 3 && DistinctIds(ds)
            && (forall d :: d in ds <==> d in table && exists km :: FoundAt(Closest(geo, statuses), d.id, km))
            && (forall x, y :: Before(ds, x, y) ==> Before(table, x, y))
            && |ms| == (if limit <= |ds| then limit else |ds|)
            && forall i :: 0 <= i < |ms| ==> && ms[i].driver == ds[i] && ms[i].matchScore == 100 && ms[i].vehicleId == ds[i].id
                                             && FoundAt(Closest(geo, statuses), ds[i].id, ms[i].distance)
  {
    var nearby := Closest(geo, statuses);
    RowsAreFew(table, nearby);
    forall d ensures d in RowsIn(table, nearby) <==> d in table && exists km :: FoundAt(nearby, d.id, km) {
      RowsInMembers(table, nearby, d);
      DistanceIsFirst(nearby, d.id, DistanceOf(nearby, d.id));
      if km :| FoundAt(nearby, d.id, km) { DistanceIsFirst(nearby, d.id, km); }
    }
    forall d | d in RowsIn(table, nearby) ensures FoundAt(nearby, d.id, DistanceOf(nearby, d.id)) {
      RowsInMembers(table, nearby, d);
      DistanceIsFirst(nearby, d.id, DistanceOf(nearby, d.id));
    }
    forall x, y | Before(RowsIn(table, nearby), x, y) ensures Before(table, x, y) { RowsInOrder(table, nearby, x, y); }
    var _ := ClosestFacts(geo, statuses);
  }

  /** The driver was found near by, has a vehicle, and the vehicle carries the cargo. */
  ghost predicate IsOffer(m: MatchedDriver, table: seq<Driver>, nearby: seq<Nearby>, fleet: Fleet, faults: set<DriverId>, c: Cargo) {
    && m.driver in table && FoundAt(nearby, m.driver.id, m.distance)
    && m.driver.id !in faults && m.driver.id in fleet.vehicleOf
    && var v := fleet.vehicleOf[m.driver.id];
    && Carries(v, Some(c))
    && m.matchScore == ValidateVehicle(v, c).matchScore && m.vehicleId == v.id
  }

  /** The cargo path offers exactly the drivers found near by whose vehicle carries the cargo,
      best key first (ties in table order), at most three and no driver twice. */
  lemma CargoPathFacts(
    pickup: (real, real), c: Cargo, limit: int, geo: seq<Nearby>, statuses: map<DriverId, DriverStatus>,
    table: seq<Driver>, fleet: Fleet, faults: set<DriverId>)
    requires pickup.0 != 0.0 && pickup.1 != 0.0 && DistinctIds(table)
    ensures MatchingDrivers(Some(pickup), Some(c), limit, geo, statuses, table, fleet, faults).Matches?
    ensures var ms := MatchingDrivers(Some(pickup), Some(c), limit, geo, statuses, table, fleet, faults).drivers;
            && Descending(ms, RankKey)
            && |MatchIds(ms)| == |ms| <= 3
            && forall m :: m in ms <==> IsOffer(m, table, Closest(geo, statuses), fleet, faults, c)
  {
    var nearby := Closest(geo, statuses);
    var ds := RowsIn(table, nearby);
    var ms := SortDesc(CargoMatches(ds, nearby, fleet, faults, c), RankKey);
    SortDescFacts(CargoMatches(ds, nearby, fleet, faults, c), RankKey);
    RankedIsSmall(table, nearby, fleet, faults, c);
    forall m ensures m in ms <==> IsOffer(m, table, nearby, fleet, faults, c) {
      RankedMembers(ds, nearby, fleet, faults, c, m);
      RowsInMembers(table, nearby, m.driver);
      OfferInColumns(m, table, nearby, fleet, faults, c);
    }
  }

  lemma OfferInColumns(m: MatchedDriver, table: seq<Driver>, nearby: seq<Nearby>, fleet: Fleet, faults: set<DriverId>, c: Cargo)
    ensures IsOffer(m, table, nearby, fleet, faults, c)
            <==> m.driver in table && HasId(nearby, m.driver.id) && m in CargoMatch(m.driver, nearby, fleet, faults, c)
  {
    DistanceIsFirst(nearby, m.driver.id, m.distance);
    if m.driver.id in fleet.vehicleOf { ValidateVehicleAccepts(fleet.vehicleOf[m.driver.id], c); }
  }

  lemma {:induction false} SubsetSize(a: set<DriverId>, b: set<DriverId>)
    requires a <= b
    ensures |a| <= |b|
  {
    if a != {} {
      var x :| x in a;
      SubsetSize(a - {x}, b - {x});
    }
  }

  /** The ranking in the terms of its two ingredients: keys of valid entries lie in 0..100, and a
      driver at least as near with a better score always comes before the other. */
  lemma BetterAndNearerComesFirst(ms: seq<MatchedDriver>, i: nat, j: nat)
    requires Descending(ms, RankKey) && i < |ms| && j < |ms|
    requires forall m :: m in ms ==> 0 <= m.matchScore <= 100 && m.distance >= 0.0
    ensures 0.0 <= RankKey(ms[i]) <= 100.0
    ensures ms[i].matchScore > ms[j].matchScore && ms[i].distance <= ms[j].distance ==> i < j
    ensures ms[i].matchScore == ms[j].matchScore && ms[i].distance < ms[j].distance && ms[i].distance < 10.0 ==> i < j
  {
    assert ms[i] in ms && ms[j] in ms;
    assert j < i ==> RankKey(ms[j]) >= RankKey(ms[i]);
  }
}
