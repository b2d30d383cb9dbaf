/** Choosing among vehicles: the one-pass search for the best match, the ranked suggestions,
    and the indexed search of the transport factory. */
module Logistics {
  import opened Wrappers
  import opened Transport
  import opened StableSort

  datatype VehicleMatch = VehicleMatch(vehicle: Vehicle, matchScore: int, canHandle: bool, reason: Option<Reason>)

  function MatchOf(v: Vehicle, c: Cargo): VehicleMatch {
    var r := ValidateVehicle(v, c);
    VehicleMatch(v, r.matchScore, r.canHandle, r.reason)
  }

  function ScoreAll(vs: seq<Vehicle>, c: Cargo): seq<VehicleMatch> {
    seq(|vs|, i requires 0 <= i < |vs| => MatchOf(vs[i], c))
  }

  function CanHandleOnly(ms: seq<VehicleMatch>): seq<VehicleMatch> {
    if ms == [] then []
    else CanHandleOnly(ms[..|ms| - 1]) + if ms[|ms| - 1].canHandle then [ms[|ms| - 1]] else []
  }

  function Score(m: VehicleMatch): real { m.matchScore as real }

  function Feasible(vs: seq<Vehicle>, c: Cargo): seq<VehicleMatch> { CanHandleOnly(ScoreAll(vs, c)) }

  /** map, filter, sort by descending score, slice(0, limit) */
  function SuggestVehicles(vs: seq<Vehicle>, c: Cargo, limit: int): seq<VehicleMatch> {
    SliceTo(SortDesc(Feasible(vs, c), Score), limit)
  }

  function First(ms: seq<VehicleMatch>): Option<VehicleMatch> {
    if ms == [] then None else Some(ms[0])
  }

  lemma FeasibleSnoc(vs: seq<Vehicle>, v: Vehicle, c: Cargo)
    ensures Feasible(vs + [v], c) == Feasible(vs, c) + if MatchOf(v, c).canHandle then [MatchOf(v, c)] else []
  {
    assert ScoreAll(vs + [v], c)[..|vs|] == ScoreAll(vs, c);
  }

  lemma {:induction false} FeasibleMembers(vs: seq<Vehicle>, c: Cargo, m: VehicleMatch)
    ensures m in Feasible(vs, c) <==> exists i :: 0 <= i < |vs| && m == MatchOf(vs[i], c) && m.canHandle
  {
    if vs != [] {
      var init, last := vs[..|vs| - 1], vs[|vs| - 1];
      assert vs == init + [last];
      FeasibleSnoc(init, last, c);
      FeasibleMembers(init, c, m);
      if i :| 0 <= i < |vs| && m == MatchOf(vs[i], c) && m.canHandle {
        assert i < |init| ==> init[i] == vs[i];
      }
    }
  }

  lemma NoneFeasible(vs: seq<Vehicle>, c: Cargo)
    ensures SortDesc(Feasible(vs, c), Score) == [] <==> forall v :: v in vs ==> !ValidateVehicle(v, c).canHandle
  {
    SortDescFacts(Feasible(vs, c), Score);
    forall v | v in vs ensures MatchOf(v, c) in Feasible(vs, c) <==> ValidateVehicle(v, c).canHandle {
      FeasibleMembers(vs, c, MatchOf(v, c));
    }
    if Feasible(vs, c) != [] {
      FeasibleMembers(vs, c, Feasible(vs, c)[0]);
    }
  }

  /** Vehicle `at` is feasible, and beats every feasible one before it and none behind beats it. */
  ghost predicate FirstBest(vs: seq<Vehicle>, c: Cargo, at: nat)
    requires at < |vs|
  {
    && ValidateVehicle(vs[at], c).canHandle
    && forall k :: 0 <= k < |vs| && ValidateVehicle(vs[k], c).canHandle ==>
         if k < at then ValidateVehicle(vs[k], c).matchScore < ValidateVehicle(vs[at], c).matchScore
         else ValidateVehicle(vs[k], c).matchScore <= ValidateVehicle(vs[at], c).matchScore
  }

  /** The positions of the feasible vehicles. */
  ghost function FeasibleAt(vs: seq<Vehicle>, c: Cargo): set<nat> {
    set i: nat | i < |vs| && ValidateVehicle(vs[i], c).canHandle
  }

  lemma FeasibleAtSnoc(init: seq<Vehicle>, last: Vehicle, c: Cargo)
    ensures FeasibleAt(init + [last], c) == FeasibleAt(init, c) + if ValidateVehicle(last, c).canHandle then {|init|} else {}
    ensures |init| !in FeasibleAt(init, c)
  {
  }

  /** What the search knows after the vehicles vs: nothing feasible, or the first best at `at`. */
  ghost predicate BestSoFar(vs: seq<Vehicle>, c: Cargo, best: Option<VehicleMatch>, at: nat) {
    if best.None? then forall k :: 0 <= k < |vs| ==> !ValidateVehicle(vs[k], c).canHandle
    else at < |vs| && best.value == MatchOf(vs[at], c) && FirstBest(vs, c, at)
  }

  function Better(best: Option<VehicleMatch>, v: Vehicle, r: MatchResult): Option<VehicleMatch> {
    if r.canHandle && (best.None? || r.matchScore > best.value.matchScore)
    then Some(VehicleMatch(v, r.matchScore, r.canHandle, r.reason)) else best
  }

  lemma BestSoFarSnoc(init: seq<Vehicle>, v: Vehicle, c: Cargo, best: Option<VehicleMatch>, at: nat)
    requires BestSoFar(init, c, best, at)
    ensures var better := Better(best, v, ValidateVehicle(v, c));
            BestSoFar(init + [v], c, better, if better == best then at else |init|)
  {
    var vs := init + [v];
    assert forall k :: 0 <= k < |init| ==> vs[k] == init[k];
    if best.Some? { assert init[at] == vs[at]; }
  }

  lemma HeadSnoc(init: seq<Vehicle>, v: Vehicle, c: Cargo)
    ensures First(SortDesc(Feasible(init + [v], c), Score))
            == Better(First(SortDesc(Feasible(init, c), Score)), v, ValidateVehicle(v, c))
  {
    FeasibleSnoc(init, v, c);
    SortDescHead(Feasible(init, c), MatchOf(v, c), Score);
    assert Feasible(init, c) + [] == Feasible(init, c);
  }

  lemma {:induction false} FeasibleCount(vs: seq<Vehicle>, c: Cargo)
    ensures |Feasible(vs, c)| == |FeasibleAt(vs, c)|
  {
    if vs == [] {
      assert FeasibleAt(vs, c) == {};
    } else {
      var init, last := vs[..|vs| - 1], vs[|vs| - 1];
      assert vs == init + [last];
      FeasibleSnoc(init, last, c);
      FeasibleCount(init, c);
      FeasibleAtSnoc(init, last, c);
    }
  }

  /** The loop keeps the first strictly better vehicle. Its answer is the head of the ranked
      suggestions whatever their limit, ties included, and null exactly when there are none. */
  method FindBestMatchFromVehicles(vs: seq<Vehicle>, c: Cargo) returns (best: Option<VehicleMatch>)
    ensures forall limit: int :: limit >= 1 ==> best == First(SuggestVehicles(vs, c, limit))
    ensures best.None? <==> forall v :: v in vs ==> !ValidateVehicle(v, c).canHandle
    ensures best.Some? ==> exists at :: 0 <= at < |vs| && best.value.vehicle == vs[at] && FirstBest(vs, c, at)
    ensures best.Some? ==> var r := ValidateVehicle(best.value.vehicle, c); best == Some(VehicleMatch(best.value.vehicle, r.matchScore, true, r.reason))
  {
    best := None;
    ghost var at := 0;
    var i := 0;
    assert vs[..0] == [];
    while i < |vs|
      invariant 0 <= i <= |vs|
      invariant best == First(SortDesc(Feasible(vs[..i], c), Score))
      invariant BestSoFar(vs[..i], c, best, at)
    {
      var vehicle := vs[i];
      var result := Validate(vehicle, c);
      assert vs[..i + 1] == vs[..i] + [vehicle];
      HeadSnoc(vs[..i], vehicle, c);
      BestSoFarSnoc(vs[..i], vehicle, c, best, at);
      if result.canHandle && (best.None? || result.matchScore > best.value.matchScore) {
        best := Some(VehicleMatch(vehicle, result.matchScore, result.canHandle, result.reason));
        at := i;
      }
      i := i + 1;
    }
    assert vs[..i] == vs;
    NoneFeasible(vs, c);
  }

  /** A cut of a descending list: nothing behind the cut beats anything before it. */
  lemma CutDominates(ranked: seq<VehicleMatch>, k: nat)
    requires Descending(ranked, Score) && k <= |ranked|
    ensures multiset(ranked[..k]) + multiset(ranked[k..]) == multiset(ranked) && Descending(ranked[..k], Score)
    ensures forall m, o :: m in ranked[..k] && o in ranked[k..] ==> m.matchScore >= o.matchScore
  {
    assert ranked == ranked[..k] + ranked[k..];
    forall m, o | m in ranked[..k] && o in ranked[k..] ensures m.matchScore >= o.matchScore {
      var i :| 0 <= i < k && ranked[i] == m;
      var j :| k <= j < |ranked| && ranked[j] == o;
      assert Score(ranked[i]) >= Score(ranked[j]);
    }
  }

  /** The suggestions are feasible and best first, and together with the ones cut off by the
      limit they are all the feasible vehicles; none of those cut off beats one returned. */
  lemma SuggestionsAreTheBest(vs: seq<Vehicle>, c: Cargo, limit: int)
    returns (omitted: seq<VehicleMatch>)
    ensures multiset(SuggestVehicles(vs, c, limit)) + multiset(omitted) == multiset(Feasible(vs, c))
    ensures Descending(SuggestVehicles(vs, c, limit), Score)
    ensures forall m, o :: m in SuggestVehicles(vs, c, limit) && o in omitted ==> m.matchScore >= o.matchScore
    ensures 0 <= limit < |Feasible(vs, c)| ==> |SuggestVehicles(vs, c, limit)| == limit
    ensures |Feasible(vs, c)| <= limit ==> omitted == []
    ensures |SuggestVehicles(vs, c, limit)| + |omitted| == |FeasibleAt(vs, c)|
    ensures forall v :: v in vs && ValidateVehicle(v, c).canHandle ==>
              exists m :: m in SuggestVehicles(vs, c, limit) + omitted && m.vehicle == v
  {
    var ranked := SortDesc(Feasible(vs, c), Score);
    SortDescFacts(Feasible(vs, c), Score);
    var k := |SuggestVehicles(vs, c, limit)|;
    assert SuggestVehicles(vs, c, limit) == ranked[..k];
    omitted := ranked[k..];
    CutDominates(ranked, k);
    FeasibleCount(vs, c);
    assert ranked == ranked[..k] + ranked[k..];
    forall v | v in vs && ValidateVehicle(v, c).canHandle
      ensures exists m :: m in SuggestVehicles(vs, c, limit) + omitted && m.vehicle == v
    {
      FeasibleMembers(vs, c, MatchOf(v, c));
      assert MatchOf(v, c) in multiset(ranked);
      assert MatchOf(v, c) in ranked;
    }
  }

  lemma SuggestionsAreFeasible(vs: seq<Vehicle>, c: Cargo, limit: int, m: VehicleMatch)
    requires m in SuggestVehicles(vs, c, limit)
    ensures m.vehicle in vs && m.canHandle && m.matchScore == ValidateVehicle(m.vehicle, c).matchScore
    ensures 25 <= m.matchScore <= 100 && m.reason == None
  {
    InFeasible(vs, c, limit, m);
    ScoreBounds(m.vehicle, c);
  }

  lemma InFeasible(vs: seq<Vehicle>, c: Cargo, limit: int, m: VehicleMatch)
    requires m in SuggestVehicles(vs, c, limit)
    ensures m.vehicle in vs && m == MatchOf(m.vehicle, c) && m.canHandle
  {
    SortDescFacts(Feasible(vs, c), Score);
    assert m in multiset(SortDesc(Feasible(vs, c), Score));
    FeasibleMembers(vs, c, m);
  }

  datatype IndexedMatch = IndexedMatch(vehicleIndex: nat, result: MatchResult)

  function ScoreAt(vs: seq<(VehicleType, real)>, i: nat, c: Cargo): MatchResult
    requires i < |vs|
  {
    MatchScore(vs[i].0, c, vs[i].1)
  }

  /** The factory's search: the first index with the highest score among the feasible ones. */
  method FindBestMatch(vs: seq<(VehicleType, real)>, c: Cargo) returns (best: Option<IndexedMatch>)
    ensures best.None? <==> forall i :: 0 <= i < |vs| ==> !ScoreAt(vs, i, c).canHandle
    ensures best.Some? ==>
              var b := best.value;
              && b.vehicleIndex < |vs| && b.result == ScoreAt(vs, b.vehicleIndex, c) && b.result.canHandle
              && (forall i :: 0 <= i < |vs| && ScoreAt(vs, i, c).canHandle ==> ScoreAt(vs, i, c).matchScore <= b.result.matchScore)
              && (forall i :: 0 <= i < b.vehicleIndex && ScoreAt(vs, i, c).canHandle ==> ScoreAt(vs, i, c).matchScore < b.result.matchScore)
  {
    best := None;
    for index := 0 to |vs|
      invariant best.None? <==> forall i :: 0 <= i < index ==> !ScoreAt(vs, i, c).canHandle
      invariant best.Some? ==>
                  var b := best.value;
                  && b.vehicleIndex < index && b.result == ScoreAt(vs, b.vehicleIndex, c) && b.result.canHandle
                  && (forall i :: 0 <= i < index && ScoreAt(vs, i, c).canHandle ==> ScoreAt(vs, i, c).matchScore <= b.result.matchScore)
                  && (forall i :: 0 <= i < b.vehicleIndex && ScoreAt(vs, i, c).canHandle ==> ScoreAt(vs, i, c).matchScore < b.result.matchScore)
    {
      var result := TransportMatchScore(vs[index].0, c, vs[index].1);
      assert result == ScoreAt(vs, index, c);
      if result.canHandle && (best.None? || result.matchScore > best.value.result.matchScore) {
        best := Some(IndexedMatch(index, result));
      }
    }
  }
}
