/** Vehicle/cargo matching: the compatibility table, the per-vehicle strategies with their
    score arithmetic, and `validateVehicle`. Numbers are reals; a nullable column or an
    absent optional field is `None`, and JavaScript's "falsy" number test is `Truthy`. */
module Transport {
  import opened Wrappers

  datatype CargoType = Bulk | Packaged | Passengers | Mining | General

  /** `Flatbed` and unknown names are not in the VehicleType enum, but the factory accepts them. */
  datatype VehicleType = Trailer | TipperTruck | Bus | MiningTransport | Other | Flatbed | Unknown(name: string)

  datatype Cargo = Cargo(
    weight: real,
    volume: Option<real>,
    cargoType: CargoType,
    requiresFlatbed: bool,
    requiresDump: bool,
    requiresPassengerSeats: bool)

  datatype Vehicle = Vehicle(
    id: string,
    vehicleType: VehicleType,
    capacity: Option<real>,
    vehicleCapacity: Option<real>,
    vehicleVolume: Option<real>,
    hasFlatbed: bool,
    hasDumpCapability: bool,
    passengerSeats: Option<int>)

  datatype Reason =
    | TypeMismatch | OverVehicleCapacity | OverVolume | NoFlatbed | NoDump | NoSeats
    | StrategyRefuses | OverStrategyCapacity

  datatype MatchResult = MatchResult(canHandle: bool, matchScore: int, reason: Option<Reason>)

  function Refused(reason: Reason): MatchResult { MatchResult(false, 0, Some(reason)) }

  predicate Truthy(n: Option<real>) { n.Some? && n.value != 0.0 }

  // ----- compatibility table -----

  const COMPATIBILITY: seq<(VehicleType, seq<CargoType>)> := [
    (Trailer, [Packaged, General, Bulk]),
    (TipperTruck, [Bulk, Mining, Packaged]),
    (Bus, [Passengers]),
    (MiningTransport, [Mining, Bulk]),
    (Other, [General, Packaged])]

  predicate CanVehicleHandleCargoType(vehicleType: VehicleType, cargoType: CargoType) {
    exists i :: 0 <= i < |COMPATIBILITY| && COMPATIBILITY[i].0 == vehicleType && cargoType in COMPATIBILITY[i].1
  }

  function TypesFrom(entries: seq<(VehicleType, seq<CargoType>)>, cargoType: CargoType): seq<VehicleType> {
    if entries == [] then []
    else (if cargoType in entries[0].1 then [entries[0].0] else []) + TypesFrom(entries[1..], cargoType)
  }

  function GetCompatibleVehicleTypes(cargoType: CargoType): seq<VehicleType> {
    TypesFrom(COMPATIBILITY, cargoType)
  }

  lemma {:induction false} TypesFromMembers(entries: seq<(VehicleType, seq<CargoType>)>, cargoType: CargoType, t: VehicleType)
    ensures t in TypesFrom(entries, cargoType)
            <==> exists i :: 0 <= i < |entries| && entries[i].0 == t && cargoType in entries[i].1
  {
    if entries != [] {
      TypesFromMembers(entries[1..], cargoType, t);
      if i :| 0 <= i < |entries| && entries[i].0 == t && cargoType in entries[i].1 {
        if i > 0 { assert entries[1..][i - 1] == entries[i]; }
      }
      if t in TypesFrom(entries[1..], cargoType) {
        var j :| 0 <= j < |entries[1..]| && entries[1..][j].0 == t && cargoType in entries[1..][j].1;
        assert entries[j + 1] == entries[1..][j];
      }
    }
  }

  /** The two readers of the table agree. */
  lemma CompatibleTypesAgree(vehicleType: VehicleType, cargoType: CargoType)
    ensures vehicleType in GetCompatibleVehicleTypes(cargoType) <==> CanVehicleHandleCargoType(vehicleType, cargoType)
  {
    TypesFromMembers(COMPATIBILITY, cargoType, vehicleType);
  }

  // ----- utilisation = weight / capacity, compared without dividing -----

  /** `lo <= load/cap <= hi`; a zero capacity gives NaN or an infinity, which is never in range. */
  predicate UtilisedWithin(load: real, cap: real, lo: real, hi: real) {
    if cap > 0.0 then lo * cap <= load <= hi * cap
    else cap < 0.0 && hi * cap <= load <= lo * cap
  }

  /** `load/cap < bound`; with a zero capacity only minus infinity is below the bound. */
  predicate UtilisedBelow(load: real, cap: real, bound: real) {
    if cap > 0.0 then load < bound * cap
    else if cap < 0.0 then load > bound * cap
    else load < 0.0
  }

  lemma UtilisationIsDivision(load: real, cap: real, lo: real, hi: real)
    requires cap != 0.0
    ensures UtilisedWithin(load, cap, lo, hi) <==> lo <= load / cap <= hi
    ensures UtilisedBelow(load, cap, lo) <==> load / cap < lo
  {
    var u := load / cap;
    assert load == u * cap;
    if cap > 0.0 {
      MulOrder(lo, u, cap); MulOrder(u, hi, cap);
      MulOrder(u, lo, cap);
    } else {
      MulOrder(lo, u, -cap); MulOrder(u, hi, -cap);
      MulOrder(u, lo, -cap);
      assert lo * -cap == -(lo * cap) && u * -cap == -(u * cap) && hi * -cap == -(hi * cap);
    }
  }

  lemma MulOrder(x: real, y: real, c: real)
    requires c > 0.0
    ensures x <= y <==> x * c <= y * c
    ensures x < y <==> x * c < y * c
  {
    if x < y {
      assert (y - x) * c > 0.0;
    } else if y < x {
      assert (x - y) * c > 0.0;
    }
  }

  function Ceil(x: real): int { -((-x).Floor) }

  // ----- strategies: specification -----

  predicate CanHandleCargo(t: VehicleType, c: Cargo) {
    match t
    case Trailer => !c.cargoType.Passengers? && !c.requiresDump
    case TipperTruck => !c.cargoType.Passengers? && (c.requiresDump || !c.cargoType.Packaged?)
    case Bus => c.cargoType.Passengers?
    case MiningTransport => !c.cargoType.Passengers?
    case Flatbed => !c.cargoType.Passengers? && if c.cargoType.Bulk? then c.requiresFlatbed && !c.requiresDump else true
    case _ => (c.cargoType.General? || c.cargoType.Packaged?)
              && !c.requiresDump && !c.requiresFlatbed && !c.requiresPassengerSeats
  }

  /** What is held against the capacity: kilograms, or for a bus the passengers they stand for. */
  function Load(t: VehicleType, c: Cargo): real {
    if t.Bus? then Ceil(c.weight / 75.0) as real else c.weight
  }

  function CargoBonus(t: VehicleType, c: CargoType): int {
    match t
    case Trailer => (match c case Packaged => 20 case General => 15 case Bulk => -15 case _ => 0)
    case TipperTruck => (match c case Bulk => 25 case Mining => 15 case _ => 0)
    case Bus => 0
    case MiningTransport => (match c case Mining => 30 case Bulk => 20 case Packaged => -20 case _ => 0)
    case Flatbed => (match c case Packaged => 10 case General => 10 case _ => 0)
    case _ => (match c case General => 15 case Packaged => 10 case _ => 0)
  }

  function RequirementBonus(t: VehicleType, c: Cargo): int {
    match t
    case Trailer => if c.requiresFlatbed then -25 else 0
    case TipperTruck => (if c.requiresDump then 20 else 0) + (if c.requiresFlatbed then -30 else 0)
    case Bus => if c.requiresPassengerSeats then 10 else 0
    case MiningTransport => (if c.requiresDump then 10 else 0) + (if c.weight > 10000.0 then 15 else 0)
    case Flatbed => (if c.requiresFlatbed then 25 else 0) + (if c.cargoType.Mining? && !c.requiresDump then 15 else 0)
    case _ => 0
  }

  function UtilisationBonus(t: VehicleType, load: real, cap: real): int {
    match t
    case Trailer => if UtilisedWithin(load, cap, 0.75, 0.95) then 10 else if UtilisedBelow(load, cap, 0.4) then -10 else 0
    case TipperTruck => if UtilisedWithin(load, cap, 0.8, 0.95) then 10 else if UtilisedBelow(load, cap, 0.5) then -5 else 0
    case Bus => if UtilisedWithin(load, cap, 0.7, 0.9) then 5 else 0
    case MiningTransport => if UtilisedWithin(load, cap, 0.85, 0.98) then 10 else 0
    case Flatbed => if UtilisedWithin(load, cap, 0.8, 0.95) then 10 else if UtilisedBelow(load, cap, 0.5) then -5 else 0
    case _ => if UtilisedWithin(load, cap, 0.7, 0.9) then 10 else 0
  }

  function BaseScore(t: VehicleType): int {
    match t
    case Trailer => 75
    case Bus => 90
    case Other => 50
    case Unknown(_) => 50
    case _ => 70
  }

  /** The score before it is clamped to 0..100. */
  function RawScore(t: VehicleType, c: Cargo, cap: real): int {
    BaseScore(t) + CargoBonus(t, c.cargoType) + RequirementBonus(t, c) + UtilisationBonus(t, Load(t, c), cap)
  }

  function Min(a: int, b: int): int { if a <= b then a else b }
  function Max(a: int, b: int): int { if a >= b then a else b }

  function MatchScore(t: VehicleType, c: Cargo, cap: real): MatchResult {
    if !CanHandleCargo(t, c) then Refused(StrategyRefuses)
    else if Load(t, c) > cap then Refused(OverStrategyCapacity)
    else MatchResult(true, Min(100, Max(0, RawScore(t, c, cap))), None)
  }

  // ----- strategies: as the classes compute them -----

  method TrailerMatchScore(c: Cargo, cap: real) returns (r: MatchResult)
    ensures r == MatchScore(Trailer, c, cap)
  {
    if c.cargoType == Passengers || c.requiresDump { return Refused(StrategyRefuses); }
    if c.weight > cap { return Refused(OverStrategyCapacity); }
    var score := 75;
    if c.cargoType == Packaged { score := score + 20; }
    if c.cargoType == General { score := score + 15; }
    if c.requiresFlatbed { score := score - 25; }
    if c.cargoType == Bulk { score := score - 15; }
    if UtilisedWithin(c.weight, cap, 0.75, 0.95) {
      score := score + 10;
    } else if UtilisedBelow(c.weight, cap, 0.4) {
      score := score - 10;
    }
    r := MatchResult(true, Min(100, Max(0, score)), None);
  }

  method TipperMatchScore(c: Cargo, cap: real) returns (r: MatchResult)
    ensures r == MatchScore(TipperTruck, c, cap)
  {
    if c.cargoType == Passengers { return Refused(StrategyRefuses); }
    if !(c.cargoType == Bulk || c.requiresDump) && c.cargoType !in [Mining, General] {
      return Refused(StrategyRefuses);
    }
    if c.weight > cap { return Refused(OverStrategyCapacity); }
    var score := 70;
    if c.cargoType == Bulk { score := score + 25; }
    if c.requiresDump { score := score + 20; }
    if c.cargoType == Mining { score := score + 15; }
    if c.requiresFlatbed { score := score - 30; }
    if UtilisedWithin(c.weight, cap, 0.8, 0.95) {
      score := score + 10;
    } else if UtilisedBelow(c.weight, cap, 0.5) {
      score := score - 5;
    }
    r := MatchResult(true, Min(100, Max(0, score)), None);
  }

  method MiningMatchScore(c: Cargo, cap: real) returns (r: MatchResult)
    ensures r == MatchScore(MiningTransport, c, cap)
  {
    if c.cargoType == Passengers { return Refused(StrategyRefuses); }
    if c.weight > cap { return Refused(OverStrategyCapacity); }
    var score := 70;
    if c.cargoType == Mining { score := score + 30; }
    if c.cargoType == Bulk { score := score + 20; }
    if c.requiresDump { score := score + 10; }
    if c.weight > 10000.0 { score := score + 15; }
    if c.cargoType == Packaged { score := score - 20; }
    if UtilisedWithin(c.weight, cap, 0.85, 0.98) { score := score + 10; }
    r := MatchResult(true, Min(100, Max(0, score)), None);
  }

  /** No lower clamp here: a bus never loses points. */
  method BusMatchScore(c: Cargo, cap: real) returns (r: MatchResult)
    ensures r == MatchScore(Bus, c, cap)
  {
    if c.cargoType != Passengers { return Refused(StrategyRefuses); }
    var estimatedPassengers := Ceil(c.weight / 75.0) as real;
    if estimatedPassengers > cap { return Refused(OverStrategyCapacity); }
    var score := 90;
    if c.requiresPassengerSeats { score := score + 10; }
    if UtilisedWithin(estimatedPassengers, cap, 0.7, 0.9) { score := score + 5; }
    r := MatchResult(true, Min(100, score), None);
  }

  method GenericMatchScore(t: VehicleType, c: Cargo, cap: real) returns (r: MatchResult)
    requires t.Other? || t.Unknown?
    ensures r == MatchScore(t, c, cap)
  {
    if c.cargoType == Passengers { return Refused(StrategyRefuses); }
    if c.requiresDump || c.requiresFlatbed || c.requiresPassengerSeats { return Refused(StrategyRefuses); }
    if c.cargoType !in [General, Packaged] { return Refused(StrategyRefuses); }
    if c.weight > cap { return Refused(OverStrategyCapacity); }
    var score := 50;
    if c.cargoType == General { score := score + 15; }
    if c.cargoType == Packaged { score := score + 10; }
    if UtilisedWithin(c.weight, cap, 0.7, 0.9) { score := score + 10; }
    r := MatchResult(true, Min(100, score), None);
  }

  method FlatbedMatchScore(c: Cargo, cap: real) returns (r: MatchResult)
    ensures r == MatchScore(Flatbed, c, cap)
  {
    if c.cargoType == Bulk && c.requiresDump { return Refused(StrategyRefuses); }
    if c.cargoType == Passengers { return Refused(StrategyRefuses); }
    if !c.requiresFlatbed && c.cargoType !in [Packaged, General, Mining] { return Refused(StrategyRefuses); }
    if c.weight > cap { return Refused(OverStrategyCapacity); }
    var score := 70;
    if c.requiresFlatbed { score := score + 25; }
    if c.cargoType in [Packaged, General] { score := score + 10; }
    if c.cargoType == Mining && !c.requiresDump { score := score + 15; }
    if UtilisedWithin(c.weight, cap, 0.8, 0.95) {
      score := score + 10;
    } else if UtilisedBelow(c.weight, cap, 0.5) {
      score := score - 5;
    }
    r := MatchResult(true, Min(100, Max(0, score)), None);
  }

  /** `createTransport(type).matchScore(...)`: unknown names fall back to the generic strategy. */
  method TransportMatchScore(t: VehicleType, c: Cargo, cap: real) returns (r: MatchResult)
    ensures r == MatchScore(t, c, cap)
  {
    match t
    case Trailer => r := TrailerMatchScore(c, cap);
    case TipperTruck => r := TipperMatchScore(c, cap);
    case Bus => r := BusMatchScore(c, cap);
    case MiningTransport => r := MiningMatchScore(c, cap);
    case Flatbed => r := FlatbedMatchScore(c, cap);
    case _ => r := GenericMatchScore(t, c, cap);
  }

  // ----- validateVehicle -----

  /** `vehicleCapacity || capacity || 5000` */
  function EffectiveCapacity(v: Vehicle): real {
    if Truthy(v.vehicleCapacity) then v.vehicleCapacity.value
    else if Truthy(v.capacity) then v.capacity.value
    else 5000.0
  }

  function ValidateVehicle(v: Vehicle, c: Cargo): MatchResult {
    if !CanVehicleHandleCargoType(v.vehicleType, c.cargoType) then Refused(TypeMismatch)
    else if Truthy(v.vehicleCapacity) && c.weight > v.vehicleCapacity.value then Refused(OverVehicleCapacity)
    else if Truthy(c.volume) && Truthy(v.vehicleVolume) && c.volume.value > v.vehicleVolume.value then Refused(OverVolume)
    else if c.requiresFlatbed && !v.hasFlatbed then Refused(NoFlatbed)
    else if c.requiresDump && !v.hasDumpCapability then Refused(NoDump)
    else if c.requiresPassengerSeats && (v.passengerSeats.None? || v.passengerSeats.value < 1) then Refused(NoSeats)
    else MatchScore(v.vehicleType, c, EffectiveCapacity(v))
  }

  /** The pairs that get through both the table and the strategy. A tipper is listed for
      packaged goods, but its strategy takes them only when they must be dumped. */
  predicate Suits(t: VehicleType, c: Cargo) {
    match t
    case Trailer => c.cargoType in {Packaged, General, Bulk} && !c.requiresDump
    case TipperTruck => c.cargoType in {Bulk, Mining} || (c.cargoType.Packaged? && c.requiresDump)
    case Bus => c.cargoType.Passengers?
    case MiningTransport => c.cargoType in {Mining, Bulk}
    case Other => c.cargoType in {General, Packaged} && !c.requiresDump && !c.requiresFlatbed && !c.requiresPassengerSeats
    case _ => false
  }

  /** A capacity column that is null or 0 says nothing. */
  predicate Given(column: Option<real>) { column.Some? && !(column.value == 0.0) }

  /** What a capacity of cap holds: kilograms, or for a bus 75 kg to every full seat. */
  predicate Holds(t: VehicleType, cap: real, kilograms: real) {
    if t.Bus? then kilograms <= 75.0 * cap.Floor as real else kilograms <= cap
  }

  /** The vehicle capacity, when given, holds the weight both as kilograms and as the load; without it
      the capacity column holds the load; without either it is 5000. A given volume fits a given one. */
  predicate Fits(v: Vehicle, c: Cargo) {
    && (if Given(v.vehicleCapacity) then c.weight <= v.vehicleCapacity.value && Holds(v.vehicleType, v.vehicleCapacity.value, c.weight)
        else if Given(v.capacity) then Holds(v.vehicleType, v.capacity.value, c.weight)
        else Holds(v.vehicleType, 5000.0, c.weight))
    && (Given(c.volume) && Given(v.vehicleVolume) ==> c.volume.value <= v.vehicleVolume.value)
  }

  predicate Equipped(v: Vehicle, c: Cargo) {
    && (c.requiresFlatbed ==> v.hasFlatbed)
    && (c.requiresDump ==> v.hasDumpCapability)
    && (c.requiresPassengerSeats ==> v.passengerSeats.Some? && v.passengerSeats.value >= 1)
  }

  /** Vehicle v carries the cargo, if there are requirements for it. */
  predicate Carries(v: Vehicle, cargo: Option<Cargo>) {
    cargo.Some? ==> Suits(v.vehicleType, cargo.value) && Fits(v, cargo.value) && Equipped(v, cargo.value)
  }

  lemma TableEntries(t: VehicleType, c: CargoType)
    ensures CanVehicleHandleCargoType(t, c) <==>
      match t
      case Trailer => c in {Packaged, General, Bulk}
      case TipperTruck => c in {Bulk, Mining, Packaged}
      case Bus => c.Passengers?
      case MiningTransport => c in {Mining, Bulk}
      case Other => c in {General, Packaged}
      case _ => false
  {
    assert COMPATIBILITY[0] == (Trailer, [Packaged, General, Bulk]);
    assert COMPATIBILITY[1] == (TipperTruck, [Bulk, Mining, Packaged]);
    assert COMPATIBILITY[2] == (Bus, [Passengers]);
    assert COMPATIBILITY[3] == (MiningTransport, [Mining, Bulk]);
    assert COMPATIBILITY[4] == (Other, [General, Packaged]);
  }

  /** Exactly which loads a vehicle is accepted for. */
  lemma ValidateVehicleAccepts(v: Vehicle, c: Cargo)
    ensures ValidateVehicle(v, c).canHandle <==> Suits(v.vehicleType, c) && Fits(v, c) && Equipped(v, c)
  {
    TableEntries(v.vehicleType, c.cargoType);
    LoadIsHeld(v.vehicleType, c, EffectiveCapacity(v));
  }

  /** The load a capacity is compared with: the weight, or the least number of passengers of 75 kg
      that make it up. */
  lemma LoadIsLeast(t: VehicleType, c: Cargo, n: int)
    ensures !t.Bus? ==> Load(t, c) == c.weight
    ensures t.Bus? ==> (Load(t, c) <= n as real <==> c.weight <= 75.0 * n as real)
  {
    CeilAtMost(c.weight / 75.0, n);
    Seventyfifth(c.weight, n as real);
  }

  lemma CeilAtMost(x: real, n: int)
    ensures Ceil(x) <= n <==> x <= n as real
    ensures Ceil(x) as real <= n as real <==> x <= n as real
  {
    var f := (-x).Floor;
    assert f as real <= -x < (f + 1) as real;
  }

  lemma Seventyfifth(w: real, n: real)
    ensures w / 75.0 <= n <==> w <= 75.0 * n
  {
  }

  lemma LoadIs(t: VehicleType, c: Cargo, load: real)
    requires if t.Bus? then load == load.Floor as real && 75.0 * (load - 1.0) < c.weight <= 75.0 * load else load == c.weight
    ensures Load(t, c) == load
  {
    if t.Bus? {
      LoadIsLeast(t, c, load.Floor);
      LoadIsLeast(t, c, load.Floor - 1);
      var n := Ceil(c.weight / 75.0);
      assert load.Floor as real - 1.0 < n as real <= load.Floor as real;
      assert n == load.Floor;
    }
  }

  lemma LoadIsHeld(t: VehicleType, c: Cargo, cap: real)
    ensures Load(t, c) <= cap <==> Holds(t, cap, c.weight)
  {
    if t.Bus? {
      LoadIsLeast(t, c, cap.Floor);
      FloorAtLeast(Ceil(c.weight / 75.0), cap);
    }
  }

  lemma FloorAtLeast(n: int, cap: real)
    ensures n as real <= cap <==> n as real <= cap.Floor as real
  {
    var f := cap.Floor;
    assert f as real <= cap < (f + 1) as real;
    if n as real <= cap { assert n as real < (f + 1) as real; assert n < f + 1; }
  }

  // ----- refusals and scores, as the strategies' tables have them -----

  /** Why a vehicle is refused: the first of the checks that fails. */
  lemma RefusalsAreTheFirstFailure(v: Vehicle, c: Cargo)
    ensures var r := ValidateVehicle(v, c);
            if !CanVehicleHandleCargoType(v.vehicleType, c.cargoType) then r == MatchResult(false, 0, Some(TypeMismatch))
            else if Given(v.vehicleCapacity) && v.vehicleCapacity.value < c.weight then r == MatchResult(false, 0, Some(OverVehicleCapacity))
            else if Given(c.volume) && Given(v.vehicleVolume) && v.vehicleVolume.value < c.volume.value then r == MatchResult(false, 0, Some(OverVolume))
            else if c.requiresFlatbed && !v.hasFlatbed then r == MatchResult(false, 0, Some(NoFlatbed))
            else if c.requiresDump && !v.hasDumpCapability then r == MatchResult(false, 0, Some(NoDump))
            else if c.requiresPassengerSeats && (v.passengerSeats == None || v.passengerSeats.value <= 0) then r == MatchResult(false, 0, Some(NoSeats))
            else if !Takes(v.vehicleType, c) then r == MatchResult(false, 0, Some(StrategyRefuses))
            else if !Fits(v, c) then r == MatchResult(false, 0, Some(OverStrategyCapacity))
            else r.canHandle && r.reason == None
  {
    ValidateVehicleAccepts(v, c);
    TableEntries(v.vehicleType, c.cargoType);
  }

  /** What the strategies take, before they look at the capacity. */
  predicate Takes(t: VehicleType, c: Cargo) {
    match t
    case Trailer => c.cargoType in {Bulk, Packaged, Mining, General} && !c.requiresDump
    case TipperTruck => c.cargoType in {Bulk, Mining, General} || (c.cargoType.Packaged? && c.requiresDump)
    case Bus => c.cargoType == Passengers
    case MiningTransport => c.cargoType in {Bulk, Packaged, Mining, General}
    case Flatbed => c.cargoType in {Packaged, General, Mining} || (c.cargoType.Bulk? && c.requiresFlatbed && !c.requiresDump)
    case Other => c.cargoType in {General, Packaged} && {true} !! {c.requiresDump, c.requiresFlatbed, c.requiresPassengerSeats}
    case Unknown(_) => c.cargoType in {General, Packaged} && {true} !! {c.requiresDump, c.requiresFlatbed, c.requiresPassengerSeats}
  }

  /** The points of a load that fills the capacity to the fraction u. */
  function Points(t: VehicleType, c: Cargo, u: real): int {
    match t
    case Trailer =>
      (match c.cargoType case Packaged => 95 case General => 90 case Bulk => 60 case _ => 75)
      + (if c.requiresFlatbed then -25 else 0)
      + (if u < 0.4 then -10 else if 0.75 <= u <= 0.95 then 10 else 0)
    case TipperTruck =>
      (match c.cargoType case Bulk => 95 case Mining => 85 case _ => 70)
      + (if c.requiresDump then 20 else 0) + (if c.requiresFlatbed then -30 else 0)
      + (if u < 0.5 then -5 else if 0.8 <= u <= 0.95 then 10 else 0)
    case Bus => (if c.requiresPassengerSeats then 100 else 90) + (if 0.7 <= u <= 0.9 then 5 else 0)
    case MiningTransport =>
      (match c.cargoType case Mining => 100 case Bulk => 90 case Packaged => 50 case _ => 70)
      + (if c.requiresDump then 10 else 0) + (if c.weight > 10000.0 then 15 else 0) + (if 0.85 <= u <= 0.98 then 10 else 0)
    case Flatbed =>
      (match c.cargoType case Mining => (if c.requiresDump then 70 else 85) case Bulk => 70 case _ => 80)
      + (if c.requiresFlatbed then 25 else 0)
      + (if u < 0.5 then -5 else if 0.8 <= u <= 0.95 then 10 else 0)
    case _ => (if c.cargoType == General then 65 else 60) + (if 0.7 <= u <= 0.9 then 10 else 0)
  }

  /** What each strategy answers for a positive capacity: it takes the load exactly if it takes such
      cargo and holds the weight, and then scores its points for it, 100 at most. */
  lemma StrategyTable(t: VehicleType, c: Cargo, cap: real, load: real)
    requires cap > 0.0
    requires if t.Bus? then load == load.Floor as real && 75.0 * (load - 1.0) < c.weight <= 75.0 * load else load == c.weight
    ensures var r := MatchScore(t, c, cap);
            if !Takes(t, c) then r == MatchResult(false, 0, Some(StrategyRefuses))
            else if !Holds(t, cap, c.weight) then r == MatchResult(false, 0, Some(OverStrategyCapacity))
            else r.canHandle && r.reason == None && r.matchScore == (if Points(t, c, load / cap) > 100 then 100 else Points(t, c, load / cap))
  {
    LoadIs(t, c, load);
    LoadIsHeld(t, c, cap);
    PointsAreRaw(t, c, load, cap);
  }

  lemma PointsAreRaw(t: VehicleType, c: Cargo, load: real, cap: real)
    requires cap > 0.0
    ensures CanHandleCargo(t, c) <==> Takes(t, c)
    ensures Takes(t, c) ==> Points(t, c, load / cap) >= 25
    ensures Takes(t, c) ==> Points(t, c, load / cap) == BaseScore(t) + CargoBonus(t, c.cargoType) + RequirementBonus(t, c) + UtilisationBonus(t, load, cap)
  {
    UtilisationIsDivision(load, cap, 0.7, 0.9);
    UtilisationIsDivision(load, cap, 0.75, 0.95);
    UtilisationIsDivision(load, cap, 0.8, 0.95);
    UtilisationIsDivision(load, cap, 0.85, 0.98);
    UtilisationIsDivision(load, cap, 0.4, 0.5);
    UtilisationIsDivision(load, cap, 0.5, 0.5);
  }

  lemma CarriesExactly(v: Vehicle, cargo: Option<Cargo>)
    ensures Carries(v, cargo) <==> cargo.None? || ValidateVehicle(v, cargo.value).canHandle
  {
    if cargo.Some? { ValidateVehicleAccepts(v, cargo.value); }
  }

  /** A refusal scores 0 and says why; an acceptance scores 25 to 100, and the raw score was
      already at least 25, so the clamp at 0 is never what keeps it there. */
  lemma ScoreBounds(v: Vehicle, c: Cargo)
    ensures !ValidateVehicle(v, c).canHandle ==> ValidateVehicle(v, c).matchScore == 0 && ValidateVehicle(v, c).reason.Some?
    ensures ValidateVehicle(v, c).canHandle ==>
              && RawScore(v.vehicleType, c, EffectiveCapacity(v)) >= 25
              && 25 <= ValidateVehicle(v, c).matchScore <= 100 && ValidateVehicle(v, c).reason.None?
              && ValidateVehicle(v, c).matchScore == Min(100, RawScore(v.vehicleType, c, EffectiveCapacity(v)))
  {
    ValidateVehicleAccepts(v, c);
  }

  /** 25 is reached, so the bound cannot be raised. */
  lemma LowestScoreReached()
    ensures exists v: Vehicle, c: Cargo :: ValidateVehicle(v, c).canHandle && ValidateVehicle(v, c).matchScore == 25
  {
    var v := Vehicle("v", Trailer, None, Some(1000.0), None, true, false, None);
    var c := Cargo(1.0, None, Bulk, true, false, false);
    TableEntries(Trailer, Bulk);
    assert UtilisedBelow(1.0, 1000.0, 0.4);
    assert ValidateVehicle(v, c).matchScore == 25;
  }

  /** With a non-negative weight the utilisation of an accepted load divides by a positive number. */
  lemma PositiveCapacity(v: Vehicle, c: Cargo)
    requires c.weight >= 0.0 && ValidateVehicle(v, c).canHandle
    ensures EffectiveCapacity(v) > 0.0
  {
    ValidateVehicleAccepts(v, c);
    CeilMonotone(0.0, c.weight / 75.0);
  }

  /** The capacity an accepted load is scored against. */
  function CapacityColumn(v: Vehicle): real {
    if Given(v.vehicleCapacity) then v.vehicleCapacity.value else if Given(v.capacity) then v.capacity.value else 5000.0
  }

  /** What an accepted vehicle scores: the points of its strategy at the fraction of that capacity. */
  lemma AcceptedScore(v: Vehicle, c: Cargo, load: real)
    requires c.weight >= 0.0 && ValidateVehicle(v, c).canHandle
    requires if v.vehicleType.Bus? then load == load.Floor as real && 75.0 * (load - 1.0) < c.weight <= 75.0 * load else load == c.weight
    ensures CapacityColumn(v) > 0.0
    ensures var points := Points(v.vehicleType, c, load / CapacityColumn(v));
            ValidateVehicle(v, c).matchScore == if points > 100 then 100 else points
  {
    PositiveCapacity(v, c);
    assert EffectiveCapacity(v) == CapacityColumn(v);
    StrategyTable(v.vehicleType, c, CapacityColumn(v), load);
  }

  lemma CeilMonotone(x: real, y: real)
    requires x <= y
    ensures Ceil(x) <= Ceil(y)
    ensures 0.0 <= x ==> 0 <= Ceil(x)
  {
    assert (-y).Floor as real <= -y <= -x < (-x).Floor as real + 1.0;
  }

  /** The same cargo, lighter, and of a volume not larger than the one specified. */
  predicate Lighter(c': Cargo, c: Cargo) {
    && c' == c.(weight := c'.weight, volume := c'.volume)
    && c'.weight <= c.weight
    && (Truthy(c'.volume) ==> Truthy(c.volume) && c'.volume.value <= c.volume.value)
  }

  lemma FeasibilityIsDownwardClosed(v: Vehicle, c: Cargo, c': Cargo)
    requires ValidateVehicle(v, c).canHandle && Lighter(c', c)
    ensures ValidateVehicle(v, c').canHandle
  {
    ValidateVehicleAccepts(v, c);
    ValidateVehicleAccepts(v, c');
    CeilMonotone(c'.weight / 75.0, c.weight / 75.0);
  }

  /** `validateVehicle`, branch by branch, calling the strategy object for the type. */
  method Validate(v: Vehicle, c: Cargo) returns (r: MatchResult)
    ensures r == ValidateVehicle(v, c)
    ensures r.canHandle <==> Suits(v.vehicleType, c) && Fits(v, c) && Equipped(v, c)
  {
    ValidateVehicleAccepts(v, c);
    if !CanVehicleHandleCargoType(v.vehicleType, c.cargoType) { return Refused(TypeMismatch); }
    if Truthy(v.vehicleCapacity) && c.weight > v.vehicleCapacity.value { return Refused(OverVehicleCapacity); }
    if Truthy(c.volume) && Truthy(v.vehicleVolume) && c.volume.value > v.vehicleVolume.value {
      return Refused(OverVolume);
    }
    if c.requiresFlatbed && !v.hasFlatbed { return Refused(NoFlatbed); }
    if c.requiresDump && !v.hasDumpCapability { return Refused(NoDump); }
    if c.requiresPassengerSeats && (v.passengerSeats.None? || v.passengerSeats.value < 1) {
      return Refused(NoSeats);
    }
    var cap := if Truthy(v.vehicleCapacity) then v.vehicleCapacity.value
               else if Truthy(v.capacity) then v.capacity.value else 5000.0;
    r := TransportMatchScore(v.vehicleType, c, cap);
  }
}
