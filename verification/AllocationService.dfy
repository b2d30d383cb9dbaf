/** The allocation handlers as the services run them: statement by statement over mutable Redis
    keys, the booking table and the job queue. Each handler is proved to have the net effect that
    module Allocation specifies. */
module AllocationService {
  import opened Wrappers
  import opened Transport
  import opened Matching
  import opened Allocation

  function ToSet(ids: seq<UserId>): set<UserId> { set u | u in ids }

  class BookingStateService {
    var now: int
    var pending: map<BookingId, Entry<set<UserId>>>
    var contacted: map<BookingId, Entry<set<UserId>>>
    var alloc: map<BookingId, Entry<Allocation>>
    var locks: map<BookingId, Entry<UserId>>
    var requests: map<UserId, Entry<BookingId>>

    constructor ()
      ensures now == 0 && pending == map[] && contacted == map[] && alloc == map[] && locks == map[] && requests == map[]
    {
      now := 0;
      pending, contacted, alloc, locks, requests := map[], map[], map[], map[], map[];
    }

    /** The clock moves and every key whose time has come disappears. */
    method PassTime(dt: nat)
      modifies this
      ensures now == old(now) + dt
      ensures pending == Live(old(pending), now) && contacted == Live(old(contacted), now) && alloc == Live(old(alloc), now)
      ensures locks == Live(old(locks), now) && requests == Live(old(requests), now)
    {
      now := now + dt;
      pending, contacted, alloc := Live(pending, now), Live(contacted, now), Live(alloc, now);
      locks, requests := Live(locks, now), Live(requests, now);
    }

    method SetPendingDrivers(b: BookingId, ids: seq<UserId>)
      modifies `pending
      ensures pending == if ids == [] then old(pending)
                         else old(pending)[b := Entry(Members(old(pending), b) + ToSet(ids), now + KEY_TTL)]
    {
      if |ids| > 0 {
        pending := pending[b := Entry(Members(pending, b) + ToSet(ids), now + 300_000)];
      }
    }

    method StoreContactedDrivers(b: BookingId, ids: seq<UserId>)
      modifies `contacted
      ensures contacted == if ids == [] then old(contacted)
                           else old(contacted)[b := Entry(Members(old(contacted), b) + ToSet(ids), now + CONTACTED_TTL)]
    {
      if |ids| > 0 {
        contacted := contacted[b := Entry(Members(contacted, b) + ToSet(ids), now + 86_400_000)];
      }
    }

    /** SREM; Redis drops a set that becomes empty. */
    method RemoveDriver(b: BookingId, u: UserId)
      modifies `pending
      ensures Members(pending, b) == Members(old(pending), b) - {u}
      ensures b in pending <==> Members(old(pending), b) - {u} != {}
      ensures b in pending ==> b in old(pending) && pending[b].expiresAt == old(pending)[b].expiresAt
      ensures pending - {b} == old(pending) - {b}
    {
      if b in pending {
        var left := pending[b].value - {u};
        pending := if left == {} then pending - {b} else pending[b := pending[b].(value := left)];
      }
    }

    /** SMEMBERS, in whatever order Redis lists them. */
    method GetPendingDrivers(b: BookingId) returns (ids: seq<UserId>)
      ensures forall u :: u in ids <==> u in Members(pending, b)
      ensures |ids| == |Members(pending, b)|
    {
      ids := [];
      var rest := if b in pending then pending[b].value else {};
      while rest != {}
        invariant rest <= Members(pending, b)
        invariant forall u :: u in ids <==> u in Members(pending, b) - rest
        invariant |ids| == |Members(pending, b)| - |rest|
        decreases |rest|
      {
        var u :| u in rest;
        ids := ids + [u];
        rest := rest - {u};
      }
    }

    method IsDriverPending(b: BookingId, u: UserId) returns (r: bool)
      ensures r <==> u in Members(pending, b)
    {
      r := b in pending && u in pending[b].value;
    }

    method SetAllocationStatus(b: BookingId, status: AllocationStatus, acceptedBy: Option<UserId>)
      modifies `alloc
      ensures alloc == old(alloc)[b := Entry(Allocation(status, acceptedBy), now + KEY_TTL)]
    {
      alloc := alloc[b := Entry(Allocation(status, acceptedBy), now + 300_000)];
    }

    method GetAllocationStatus(b: BookingId) returns (r: Option<Allocation>)
      ensures r == if b in alloc then Some(alloc[b].value) else None
    {
      r := if b in alloc then Some(alloc[b].value) else None;
    }

    /** SET NX EX 30 */
    method LockBooking(b: BookingId, u: UserId) returns (acquired: bool)
      modifies `locks
      ensures acquired <==> b !in old(locks)
      ensures locks == if acquired then old(locks)[b := Entry(u, now + LOCK_TTL)] else old(locks)
    {
      acquired := b !in locks;
      if acquired { locks := locks[b := Entry(u, now + 30_000)]; }
    }

    /** DEL, whoever holds the lock. */
    method UnlockBooking(b: BookingId)
      modifies `locks
      ensures locks == old(locks) - {b}
    {
      locks := locks - {b};
    }

    method SetDriverPendingRequest(u: UserId, b: BookingId)
      modifies `requests
      ensures requests == old(requests)[u := Entry(b, now + KEY_TTL)]
    {
      requests := requests[u := Entry(b, now + 300_000)];
    }

    method GetDriverPendingRequest(u: UserId) returns (r: Option<BookingId>)
      ensures r == if u in requests then Some(requests[u].value) else None
    {
      r := if u in requests then Some(requests[u].value) else None;
    }

    method ClearDriverPendingRequest(u: UserId)
      modifies `requests
      ensures requests == old(requests) - {u}
    {
      requests := requests - {u};
    }

    method ClearBookingState(b: BookingId)
      modifies `pending, `alloc, `locks
      ensures pending == old(pending) - {b} && alloc == old(alloc) - {b} && locks == old(locks) - {b}
    {
      pending, alloc, locks := pending - {b}, alloc - {b}, locks - {b};
    }
  }

  /** The awaited call of the acceptance handler that throws. `Releasing(k)` throws when k drivers
      have been released, if there are that many to release. */
  datatype FaultPoint = Nowhere | Locking | Query | Save | StatusWrite | Releasing(k: nat) | JobRemoval | StateClearing

  predicate Realises(effect: Fault, at: FaultPoint) {
    match at
    case Nowhere => effect.NoFault?
    case Locking => effect.AtLock?
    case Query => effect.AtQuery?
    case Save => effect.AtSave?
    case StatusWrite => effect.AtStatusWrite?
    case Releasing(_) => effect.NoFault? || (effect.AfterStatus? && !effect.jobRemoved)
    case JobRemoval => effect.AfterStatus? && !effect.jobRemoved
    case StateClearing => effect.AfterStatus? && effect.jobRemoved
  }

  /** The awaited call of booking creation that throws. The requests of the drivers are set
      concurrently, so that those of the others are set when some fail. */
  datatype DispatchFault = NoThrow | Search | PendingWrite | ContactedWrite | Status | Requests(failing: set<UserId>) | Enqueue

  function CutOf(at: DispatchFault, users: set<UserId>): Cut {
    match at
    case NoThrow => Whole
    case Search => BeforeOffer
    case PendingWrite => BeforeOffer
    case ContactedWrite => AfterPending
    case Status => AfterContacted
    case Requests(failing) => if failing !! users then Whole else AfterStatusOf(users - failing)
    case Enqueue => AfterStatusOf(users)
  }

  function UserIds(drivers: seq<MatchedDriver>): set<UserId> { set m | m in drivers :: m.driver.userId }

  function UserIdList(drivers: seq<MatchedDriver>): seq<UserId> {
    if drivers == [] then [] else [drivers[0].driver.userId] + UserIdList(drivers[1..])
  }

  lemma {:induction false} UserIdListMembers(drivers: seq<MatchedDriver>)
    ensures |UserIdList(drivers)| == |drivers|
    ensures ToSet(UserIdList(drivers)) == UserIds(drivers)
    ensures drivers != [] ==> UserIds(drivers) != {}
  {
    if drivers != [] {
      assert drivers == [drivers[0]] + drivers[1..];
      UserIdListMembers(drivers[1..]);
      assert drivers[0].driver.userId in UserIds(drivers);
      assert UserIds(drivers) == {drivers[0].driver.userId} + UserIds(drivers[1..]);
    }
  }

  lemma OfferOneMore(m: map<UserId, Entry<BookingId>>, ids: seq<UserId>, failing: set<UserId>, i: nat, b: BookingId, t: int)
    requires i < |ids|
    ensures m + Offers(ToSet(ids[..i + 1]) - failing, b, t)
            == if ids[i] in failing then m + Offers(ToSet(ids[..i]) - failing, b, t)
               else (m + Offers(ToSet(ids[..i]) - failing, b, t))[ids[i] := Entry(b, t)]
    ensures ToSet(ids[..i + 1]) == ToSet(ids[..i]) + {ids[i]}
  {
    assert ids[..i + 1] == ids[..i] + [ids[i]];
    assert ToSet(ids[..i + 1]) == ToSet(ids[..i]) + {ids[i]};
    if ids[i] in failing {
      assert ToSet(ids[..i + 1]) - failing == ToSet(ids[..i]) - failing;
    } else {
      assert ToSet(ids[..i + 1]) - failing == ToSet(ids[..i]) - failing + {ids[i]};
    }
  }

  class BookingAllocationService {
    const redis: BookingStateService
    var rows: map<BookingId, Row>
    var jobs: map<BookingId, int>

    ghost function Snapshot(): State
      reads this, redis
    {
      State(redis.now, rows, redis.pending, redis.contacted, redis.alloc, redis.locks, redis.requests, jobs)
    }

    constructor (redis: BookingStateService)
      requires redis.now == 0 && redis.pending == map[] && redis.contacted == map[] && redis.alloc == map[]
      requires redis.locks == map[] && redis.requests == map[]
      ensures this.redis == redis && Snapshot() == Init()
    {
      this.redis := redis;
      rows, jobs := map[], map[];
    }

    /** The loop over the drivers: each gets this booking as its pending request, unless that call
        fails. */
    method SendOffers(b: BookingId, ids: seq<UserId>, failing: set<UserId>) returns (threw: bool)
      modifies redis`requests
      ensures threw <==> !(failing !! ToSet(ids))
      ensures redis.requests == old(redis.requests) + Offers(ToSet(ids) - failing, b, redis.now + KEY_TTL)
    {
      ghost var was, t := redis.requests, redis.now + KEY_TTL;
      var i := 0;
      threw := false;
      assert was + Offers(ToSet(ids[..0]) - failing, b, t) == was;
      while i < |ids|
        invariant i <= |ids|
        invariant threw <==> !(failing !! ToSet(ids[..i]))
        invariant redis.requests == was + Offers(ToSet(ids[..i]) - failing, b, t)
      {
        if ids[i] in failing {
          threw := true;
        } else {
          redis.SetDriverPendingRequest(ids[i], b);
        }
        OfferOneMore(was, ids, failing, i, b, t);
        i := i + 1;
      }
      assert ids[..i] == ids;
    }

    /** The three writes that record the batch, or those before a throw. */
    method RecordBatch(b: BookingId, ids: seq<UserId>, at: DispatchFault) returns (threw: bool)
      requires ids != []
      modifies redis`pending, redis`contacted, redis`alloc
      ensures threw <==> at.PendingWrite? || at.ContactedWrite? || at.Status?
      ensures redis.pending == if at.PendingWrite? then old(redis.pending)
                               else old(redis.pending)[b := Entry(Members(old(redis.pending), b) + ToSet(ids), redis.now + KEY_TTL)]
      ensures redis.contacted == if at.PendingWrite? || at.ContactedWrite? then old(redis.contacted)
                                 else old(redis.contacted)[b := Entry(Members(old(redis.contacted), b) + ToSet(ids), redis.now + CONTACTED_TTL)]
      ensures redis.alloc == if threw then old(redis.alloc)
                             else old(redis.alloc)[b := Entry(Allocation(AllocPending, None), redis.now + KEY_TTL)]
    {
      if at.PendingWrite? { return true; }
      redis.SetPendingDrivers(b, ids);
      if at.ContactedWrite? { return true; }
      redis.StoreContactedDrivers(b, ids);
      if at.Status? { return true; }
      redis.SetAllocationStatus(b, AllocPending, None);
      threw := false;
    }

    /** What follows: the requests of the drivers and then the timeout job. */
    method RequestAndEnqueue(b: BookingId, ids: seq<UserId>, at: DispatchFault) returns (threw: bool)
      modifies this`jobs, redis`requests
      ensures threw <==> at.Enqueue? || (at.Requests? && !(at.failing !! ToSet(ids)))
      ensures redis.requests == old(redis.requests)
                + Offers(ToSet(ids) - (if at.Requests? then at.failing else {}), b, redis.now + KEY_TTL)
      ensures jobs == if threw || b in old(jobs) then old(jobs) else old(jobs)[b := redis.now + JOB_DELAY]
    {
      threw := SendOffers(b, ids, if at.Requests? then at.failing else {});
      threw := threw || at.Enqueue?;
      if !threw && b !in jobs { jobs := jobs[b := redis.now + 60_000]; }
    }

    method Dispatch(b: BookingId, ids: seq<UserId>, at: DispatchFault) returns (threw: bool)
      requires ids != [] && !at.Search?
      modifies this`jobs, redis
      ensures threw <==> !CutOf(at, ToSet(ids)).Whole?
      ensures Snapshot() == SendBatch(old(Snapshot()), b, ToSet(ids), CutOf(at, ToSet(ids)))
    {
      ghost var was := Snapshot();
      RequestedUsers(at, ToSet(ids), redis.requests, b, redis.now + KEY_TTL);
      threw := RecordBatch(b, ids, at);
      if threw {
        DispatchEffect(was, Snapshot(), b, ToSet(ids), at);
        return;
      }
      threw := RequestAndEnqueue(b, ids, at);
      DispatchEffect(was, Snapshot(), b, ToSet(ids), at);
    }

    lemma DispatchEffect(s: State, t: State, b: BookingId, users: set<UserId>, at: DispatchFault)
      requires !at.Search?
      requires t.now == s.now && t.rows == s.rows && t.locks == s.locks
      requires t.pending == if at.PendingWrite? then s.pending
                            else s.pending[b := Entry(Members(s.pending, b) + users, s.now + KEY_TTL)]
      requires t.contacted == if at.PendingWrite? || at.ContactedWrite? then s.contacted
                              else s.contacted[b := Entry(Members(s.contacted, b) + users, s.now + CONTACTED_TTL)]
      requires t.alloc == if at.PendingWrite? || at.ContactedWrite? || at.Status? then s.alloc
                          else s.alloc[b := Entry(Allocation(AllocPending, None), s.now + KEY_TTL)]
      requires t.requests == s.requests + Offers(Requested(users, CutOf(at, users)), b, s.now + KEY_TTL)
      requires t.jobs == if !CutOf(at, users).Whole? || b in s.jobs then s.jobs else s.jobs[b := s.now + JOB_DELAY]
      ensures t == SendBatch(s, b, users, CutOf(at, users))
    {
    }

    lemma RequestedUsers(at: DispatchFault, users: set<UserId>, m: map<UserId, Entry<BookingId>>, b: BookingId, t: int)
      ensures m + Offers({}, b, t) == m
      ensures Requested(users, CutOf(at, users)) ==
                if at.NoThrow? || at.Requests? || at.Enqueue? then users - (if at.Requests? then at.failing else {}) else {}
    {
    }

    method SendBatchRequest(b: BookingId, drivers: seq<MatchedDriver>, at: DispatchFault) returns (threw: bool)
      requires !at.Search?
      modifies this`jobs, redis
      ensures threw <==> drivers == [] || !CutOf(at, UserIds(drivers)).Whole?
      ensures Snapshot() == if drivers == [] then old(Snapshot())
                            else SendBatch(old(Snapshot()), b, UserIds(drivers), CutOf(at, UserIds(drivers)))
    {
      if |drivers| == 0 { return true; }
      UserIdListMembers(drivers);
      threw := Dispatch(b, UserIdList(drivers), at);
    }

    /** `create`: the row is saved first; the batch goes out when drivers were found. Whatever that
        throws is caught, and the row stays. */
    method CreateBooking(b: BookingId, cargo: Option<Cargo>, matching: seq<MatchedDriver>, at: DispatchFault)
      returns (driversNotified: nat)
      requires b !in rows
      modifies this, redis
      ensures Snapshot() == Create(old(Snapshot()), b, cargo, UserIds(matching), CutOf(at, UserIds(matching)))
      ensures rows == old(rows)[b := Row(Pending, None, None, cargo)]
      ensures at.NoThrow? && matching != [] ==>
                && b in redis.pending && b in jobs
                && forall m :: m in matching ==> && m.driver.userId in redis.pending[b].value && m.driver.userId in redis.requests
                                                 && redis.requests[m.driver.userId].value == b
      ensures driversNotified == if CutOf(at, UserIds(matching)).Whole? then |matching| else 0
    {
      rows := rows[b := Row(Pending, None, None, cargo)];
      if at.Search? {
        assert redis.requests + Offers({}, b, redis.now + KEY_TTL) == redis.requests;
        return 0;
      }
      if |matching| == 0 { return 0; }
      assert matching[0].driver.userId in UserIds(matching);
      var threw := SendBatchRequest(b, matching, at);
      driversNotified := if threw then 0 else |matching|;
    }

    method HandleDriverResponse(b: BookingId, u: UserId, accepted: bool, fleet: Fleet, at: FaultPoint, unlockThrows: bool)
      returns (r: Response, ghost effect: Fault)
      modifies this, redis
      ensures Realises(effect, at)
      ensures (Snapshot(), r) == Respond(old(Snapshot()), b, u, accepted, fleet, effect, unlockThrows)
    {
      effect := EffectOf(at);
      var isPending := redis.IsDriverPending(b, u);
      if !isPending { return Unavailable, effect; }
      if accepted {
        r, effect := HandleAcceptance(b, u, fleet, at, unlockThrows);
      } else {
        r := HandleRejection(b, u);
      }
    }

    ghost function EffectOf(at: FaultPoint): (e: Fault)
      ensures Realises(e, at)
    {
      match at
      case Nowhere => NoFault
      case Locking => AtLock
      case Query => AtQuery
      case Save => AtSave
      case StatusWrite => AtStatusWrite
      case Releasing(_) => AfterStatus({}, false)
      case JobRemoval => AfterStatus({}, false)
      case StateClearing => AfterStatus({}, true)
    }

    /** Fetch the driver's vehicle and, when the booking has cargo requirements, validate it. */
    method CheckVehicle(cargo: Option<Cargo>, driverId: DriverId, fleet: Fleet) returns (refusal: Option<Response>)
      ensures refusal == VehicleCheck(cargo, driverId, fleet)
    {
      if driverId !in fleet.vehicleOf { return Some(NoVehicle); }
      if cargo.Some? {
        var validation := Validate(fleet.vehicleOf[driverId], cargo.value);
        if !validation.canHandle { return Some(VehicleCannotHandle); }
      }
      refusal := None;
    }

    method HandleAcceptance(b: BookingId, u: UserId, fleet: Fleet, at: FaultPoint, unlockThrows: bool)
      returns (r: Response, ghost effect: Fault)
      modifies this, redis
      ensures Realises(effect, at)
      ensures (Snapshot(), r) == Accept(old(Snapshot()), b, u, fleet, effect, unlockThrows)
    {
      effect := EffectOf(at);
      if at.Locking? { return Crashed, effect; }
      var lockAcquired := redis.LockBooking(b, u);
      if !lockAcquired { return LostRace, effect; }
      ghost var was := old(Snapshot());
      r, effect := TryAcceptance(b, u, fleet, at);
      LockTakenAndDropped(was.locks, b, Entry(u, was.now + LOCK_TTL));
      TryIgnoresLocks(was, was.locks[b := Entry(u, was.now + LOCK_TTL)], b, u, fleet, effect);
      if !r.Success? && !r.NoLongerPending? {
        if unlockThrows { return Crashed, effect; }
        redis.UnlockBooking(b);
      }
    }

    lemma LockTakenAndDropped(locks: map<BookingId, Entry<UserId>>, b: BookingId, e: Entry<UserId>)
      requires b !in locks
      ensures locks[b := e] - {b} == locks == locks - {b}
    {
    }

    /** The try block leaves the lock taken before it alone, unless it succeeds, which clears it with
        the booking's other keys. */
    lemma TryIgnoresLocks(s: State, locks: map<BookingId, Entry<UserId>>, b: BookingId, u: UserId, fleet: Fleet, fault: Fault)
      ensures var (t, r) := TryAccept(s, b, u, fleet, fault);
              && t.locks == (if r.Success? then s.locks - {b} else s.locks)
              && TryAccept(s.(locks := locks), b, u, fleet, fault)
                 == (t.(locks := if r.Success? then locks - {b} else locks), r)
    {
    }

    /** The body of the try block, entered with the lock held. */
    method TryAcceptance(b: BookingId, u: UserId, fleet: Fleet, at: FaultPoint)
      returns (r: Response, ghost effect: Fault)
      requires !at.Locking?
      modifies this, redis
      ensures Realises(effect, at)
      ensures (Snapshot(), r) == TryAccept(old(Snapshot()), b, u, fleet, effect)
    {
      effect := EffectOf(at);
      if at.Query? { return Crashed, effect; }
      if u !in fleet.driverOf { return DriverNotFound, effect; }
      if b !in rows { return BookingNotFound, effect; }
      var driverId := fleet.driverOf[u];
      var booking := rows[b];
      if !booking.status.Pending? { return NoLongerPending, effect; }
      var refusal := CheckVehicle(booking.cargo, driverId, fleet);
      if refusal.Some? { return refusal.value, effect; }
      if at.Save? { return Crashed, effect; }
      booking := booking.(driverId := Some(driverId), vehicleId := Some(fleet.vehicleOf[driverId].id), status := Accepted);
      rows := rows[b := booking];
      if at.StatusWrite? { return Crashed, effect; }
      r, effect := FinishAcceptance(b, u, at);
      if !r.Crashed? { r := Success(booking); }
    }

    /** Clears the pending request of this driver and then, one by one, of the others. */
    method ReleaseDrivers(b: BookingId, u: UserId, at: FaultPoint) returns (crashed: bool, ghost released: set<UserId>)
      modifies redis`requests
      ensures released <= Members(redis.pending, b) + {u}
      ensures redis.requests == old(redis.requests) - released
      ensures crashed ==> at.Releasing?
      ensures !crashed ==> released == Members(redis.pending, b) + {u}
    {
      released := {};
      if at == Releasing(0) { return true, released; }
      redis.ClearDriverPendingRequest(u);
      released := {u};
      var pendingUserIds := redis.GetPendingDrivers(b);
      for i := 0 to |pendingUserIds|
        invariant released == {u} + set x | x in pendingUserIds[..i]
        invariant redis.requests == old(redis.requests) - released
      {
        if at == Releasing(i + 1) { return true, released; }
        var other := pendingUserIds[i];
        if other != u { redis.ClearDriverPendingRequest(other); }
        assert pendingUserIds[..i + 1] == pendingUserIds[..i] + [other];
        released := released + {other};
      }
      assert pendingUserIds[..|pendingUserIds|] == pendingUserIds;
      crashed := false;
    }

    /** Everything after the save: the status write, releasing this driver and the others, removing
        the job, clearing the booking's keys. Returns Crashed as soon as a call throws. */
    method FinishAcceptance(b: BookingId, u: UserId, at: FaultPoint)
      returns (r: Response, ghost effect: Fault)
      requires at.Nowhere? || at.Releasing? || at.JobRemoval? || at.StateClearing?
      modifies this`jobs, redis
      ensures Realises(effect, at) && (effect.NoFault? || effect.AfterStatus?)
      ensures r == if effect.NoFault? then Unavailable else Crashed
      ensures effect.AfterStatus? ==>
                && Snapshot() == old(Snapshot()).(
                     alloc := old(redis.alloc)[b := Entry(Allocation(AllocAccepted, Some(u)), redis.now + KEY_TTL)],
                     requests := old(redis.requests) - (effect.released * (Members(old(redis.pending), b) + {u})),
                     jobs := if effect.jobRemoved then old(jobs) - {b} else old(jobs))
      ensures effect.NoFault? ==>
                && Snapshot() == ClearBooking(old(Snapshot()), b).(
                     requests := old(redis.requests) - (Members(old(redis.pending), b) + {u}),
                     jobs := old(jobs) - {b})
    {
      redis.SetAllocationStatus(b, AllocAccepted, Some(u));
      var crashed, released := ReleaseDrivers(b, u, at);
      assert released * (Members(old(redis.pending), b) + {u}) == released;
      if crashed || at.JobRemoval? { return Crashed, AfterStatus(released, false); }
      jobs := jobs - {b};
      if at.StateClearing? { return Crashed, AfterStatus(released, true); }
      redis.ClearBookingState(b);
      assert redis.alloc == old(redis.alloc) - {b};
      return Unavailable, NoFault;
    }

    method HandleRejection(b: BookingId, u: UserId) returns (r: Response)
      modifies this, redis
      ensures r.RejectedOk?
      ensures Snapshot() == Reject(old(Snapshot()), b, u)
    {
      redis.RemoveDriver(b, u);
      redis.ClearDriverPendingRequest(u);
      assert Snapshot() == Withdraw(old(Snapshot()), b, u) by { WithdrawnMap(old(redis.pending), redis.pending, b, u); }
      var remaining := redis.GetPendingDrivers(b);
      if |remaining| == 0 {
        HandleTimeout(b);
      }
      r := RejectedOk;
    }

    lemma WithdrawnMap(was: map<BookingId, Entry<set<UserId>>>, m: map<BookingId, Entry<set<UserId>>>, b: BookingId, u: UserId)
      requires Members(m, b) == Members(was, b) - {u}
      requires b in m <==> Members(was, b) - {u} != {}
      requires b in m ==> b in was && m[b].expiresAt == was[b].expiresAt
      requires m - {b} == was - {b}
      ensures m == if Members(was, b) - {u} == {} then was - {b} else was[b := was[b].(value := Members(was, b) - {u})]
    {
      forall k | k != b ensures k in m <==> k in was
      {
        assert k in m <==> k in m - {b};
        assert k in was <==> k in was - {b};
      }
      forall k | k in m && k != b ensures m[k] == was[k]
      {
        assert (m - {b})[k] == (was - {b})[k];
      }
    }

    method HandleTimeout(b: BookingId)
      modifies this, redis
      ensures Snapshot() == Timeout(old(Snapshot()), b)
    {
      var allocation := redis.GetAllocationStatus(b);
      if allocation.Some? && allocation.value.status.AllocAccepted? { return; }
      if b !in rows { return; }
      var booking := rows[b].(status := Cancelled);
      rows := rows[b := booking];
      redis.SetAllocationStatus(b, AllocTimeout, None);
      var pendingUserIds := redis.GetPendingDrivers(b);
      ghost var released: set<UserId> := {};
      for i := 0 to |pendingUserIds|
        invariant rows == old(rows)[b := booking] && jobs == old(jobs)
        invariant unchanged(redis`now, redis`pending, redis`contacted, redis`locks)
        invariant redis.alloc - {b} == old(redis.alloc) - {b}
        invariant released == set x | x in pendingUserIds[..i]
        invariant redis.requests == old(redis.requests) - released
      {
        redis.ClearDriverPendingRequest(pendingUserIds[i]);
        assert pendingUserIds[..i + 1] == pendingUserIds[..i] + [pendingUserIds[i]];
        released := released + {pendingUserIds[i]};
      }
      assert released == PendingOf(old(Snapshot()), b);
      redis.ClearBookingState(b);
    }

    /** The queue worker: the job leaves the queue and its handler runs. */
    method ProcessTimeoutJob(b: BookingId)
      requires b in jobs && jobs[b] <= redis.now
      modifies this, redis
      ensures Snapshot() == JobFires(old(Snapshot()), b)
    {
      jobs := jobs - {b};
      HandleTimeout(b);
    }
  }

  class BookingGateway {
    const allocation: BookingAllocationService

    constructor (allocation: BookingAllocationService)
      ensures this.allocation == allocation
    {
      this.allocation := allocation;
    }

    /** A driver's socket closed: reject the request it had pending, and time the booking out early
        when it was the last driver. */
    method HandleDriverDisconnection(u: UserId)
      modifies allocation, allocation.redis
      ensures allocation.Snapshot() == Disconnect(old(allocation.Snapshot()), u)
    {
      var pendingBookingId := allocation.redis.GetDriverPendingRequest(u);
      if pendingBookingId.None? { return; }
      var b := pendingBookingId.value;
      allocation.redis.RemoveDriver(b, u);
      allocation.redis.ClearDriverPendingRequest(u);
      assert allocation.Snapshot() == Withdraw(old(allocation.Snapshot()), b, u) by {
        allocation.WithdrawnMap(old(allocation.redis.pending), allocation.redis.pending, b, u);
      }
      var remaining := allocation.redis.GetPendingDrivers(b);
      if |remaining| == 0 {
        allocation.HandleTimeout(b);
      }
    }
  }
}
