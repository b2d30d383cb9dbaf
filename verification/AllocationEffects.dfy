/** What each handler does to the booking table, the Redis keys and the queue, key by key, in every
    reachable state, and what it answers. */
module AllocationEffects {
  import opened Wrappers
  import opened Transport
  import opened Matching
  import opened Allocation
  import opened AllocationSafety

  predicate OnOffer(s: State, b: BookingId, u: UserId) { b in s.pending && u in s.pending[b].value }

  lemma Reachable(es: seq<Event>)
    ensures Inv(Run(Init(), es))
  {
    InitIsOk();
    RunKeepsInv(Init(), es);
  }

  // ----- time and creation -----

  ghost predicate KeysUntil<K(!new), V(!new)>(was: map<K, Entry<V>>, m: map<K, Entry<V>>, now: int) {
    (forall k :: k in m <==> k in was && now < was[k].expiresAt) && (forall k :: k in m ==> m[k] == was[k])
  }

  /** When time passes exactly the keys whose time has come disappear, and nothing else happens. */
  lemma TimeDropsExpiredKeys(s: State, dt: nat)
    ensures var t := Step(s, TimePasses(dt));
            && t.now == s.now + dt && t.rows == s.rows && t.jobs == s.jobs
            && KeysUntil(s.pending, t.pending, t.now) && KeysUntil(s.contacted, t.contacted, t.now)
            && KeysUntil(s.alloc, t.alloc, t.now) && KeysUntil(s.locks, t.locks, t.now) && KeysUntil(s.requests, t.requests, t.now)
  {
  }

  /** A whole dispatch, in seconds: pending set, status and requests for 300, contacted for 24 hours, a
      job in 60. A driver's earlier request is overwritten; no other booking is touched. */
  lemma WholeDispatch(es: seq<Event>, b: BookingId, cargo: Option<Cargo>, users: set<UserId>)
    requires b !in Run(Init(), es).rows && users != {}
    ensures var s := Run(Init(), es);
            var t := Step(s, Creation(b, cargo, users, Whole));
            && t.now == s.now && t.locks == s.locks && t.rows == s.rows[b := Row(Pending, None, None, cargo)]
            && t.pending == s.pending[b := Entry(users, s.now + 300_000)]
            && t.contacted == s.contacted[b := Entry(users, s.now + 86_400_000)]
            && t.alloc == s.alloc[b := Entry(Allocation(AllocPending, None), s.now + 300_000)]
            && t.jobs == s.jobs[b := s.now + 60_000]
            && t.requests.Keys == s.requests.Keys + users
            && (forall u :: u in users ==> t.requests[u] == Entry(b, s.now + 300_000))
            && (forall u :: u in s.requests && u !in users ==> t.requests[u] == s.requests[u])
  {
    Reachable(es);
    assert BookingOk(Run(Init(), es), b);
    var nobody: set<UserId> := {};
    assert nobody + users == users;
  }

  /** A dispatch cut short, or to nobody, writes what comes before the cut: the row always, then the
      pending set, the contacted set, the status and some of the requests, but never the job. */
  lemma CutDispatch(es: seq<Event>, b: BookingId, cargo: Option<Cargo>, users: set<UserId>, cut: Cut)
    requires b !in Run(Init(), es).rows && (users == {} || cut != Whole)
    ensures var s := Run(Init(), es);
            var t := Step(s, Creation(b, cargo, users, cut));
            && t.now == s.now && t.locks == s.locks && t.jobs == s.jobs && t.rows == s.rows[b := Row(Pending, None, None, cargo)]
            && (users == {} || cut == BeforeOffer ==>
                  t.pending == s.pending && t.contacted == s.contacted && t.alloc == s.alloc)
            && (users != {} && cut != BeforeOffer ==>
                  && t.pending == s.pending[b := Entry(users, s.now + 300_000)]
                  && (if cut == AfterPending then t.contacted == s.contacted
                      else t.contacted == s.contacted[b := Entry(users, s.now + 86_400_000)])
                  && (if cut.AfterStatusOf? then t.alloc == s.alloc[b := Entry(Allocation(AllocPending, None), s.now + 300_000)]
                      else t.alloc == s.alloc))
  {
    Reachable(es);
    assert BookingOk(Run(Init(), es), b);
    var nobody: set<UserId> := {};
    assert nobody + users == users;
  }

  /** And the requests: those of the drivers reached after the status write name the booking, all
      others stay. */
  lemma CutRequests(es: seq<Event>, b: BookingId, cargo: Option<Cargo>, users: set<UserId>, cut: Cut)
    requires b !in Run(Init(), es).rows && (users == {} || cut != Whole)
    ensures var s := Run(Init(), es);
            var t := Step(s, Creation(b, cargo, users, cut));
            var reached := if cut.AfterStatusOf? then users * cut.requested else {};
            && t.requests.Keys == s.requests.Keys + reached
            && (forall u :: u in t.requests ==> t.requests[u] == if u in reached then Entry(b, s.now + 300_000) else s.requests[u])
  {
    var s := Run(Init(), es);
    assert users != {} ==> Step(s, Creation(b, cargo, users, cut)).requests == s.requests + Offers(Requested(users, cut), b, s.now + KEY_TTL);
  }

  // ----- answers -----

  /** What a driver who accepts is told, and when nothing at all has happened. The checks are made in
      this order. */
  lemma AnswersToAcceptance(es: seq<Event>, b: BookingId, u: UserId, fleet: Fleet)
    ensures var s := Run(Init(), es);
            var (t, r) := Respond(s, b, u, true, fleet, NoFault, false);
            if !OnOffer(s, b, u) then r == Unavailable && t == s
            else if b in s.locks then r == LostRace && t == s
            else if u !in fleet.driverOf then r == DriverNotFound && t == s
            else if b !in s.rows then false
            else if s.rows[b].status != Pending then r == NoLongerPending && t == s.(locks := s.locks[b := Entry(u, s.now + 30_000)])
            else if fleet.driverOf[u] !in fleet.vehicleOf then r == NoVehicle && t == s
            else if !Carries(fleet.vehicleOf[fleet.driverOf[u]], s.rows[b].cargo) then r == VehicleCannotHandle && t == s
            else r == Success(Row(Accepted, Some(fleet.driverOf[u]), Some(fleet.vehicleOf[fleet.driverOf[u]].id), s.rows[b].cargo))
  {
    Reachable(es);
    var s := Run(Init(), es);
    assert PendingOk(s, b);
    if OnOffer(s, b, u) && u in fleet.driverOf && fleet.driverOf[u] in fleet.vehicleOf {
      CarriesExactly(fleet.vehicleOf[fleet.driverOf[u]], s.rows[b].cargo);
    }
  }

  /** A success, key by key: the row is the one reported; pending set, status, lock and job of the
      booking are gone, and so are the requests of its drivers, whatever they name. */
  lemma SuccessEffects(s: State, b: BookingId, u: UserId, fleet: Fleet, fault: Fault, unlockThrows: bool)
    requires Respond(s, b, u, true, fleet, fault, unlockThrows).1.Success?
    ensures var (t, r) := Respond(s, b, u, true, fleet, fault, unlockThrows);
            && OnOffer(s, b, u) && b !in s.locks && b in s.rows && s.rows[b].status == Pending
            && t.now == s.now && t.rows == s.rows[b := r.row] && t.contacted == s.contacted
            && t.pending == s.pending - {b} && t.alloc == s.alloc - {b} && t.locks == s.locks && t.jobs == s.jobs - {b}
            && t.requests == s.requests - s.pending[b].value
  {
    assert s.pending[b].value + {u} == s.pending[b].value;
  }

  /** An acceptance that dies early has saved nothing; one that dies at its status write has saved the
      row and no more; one that dies later has also written ACCEPTED for 300 s, released some of the
      drivers and perhaps removed the job. The lock is left, for 30 s, only when the unlock throws. */
  lemma CutEffects(s: State, b: BookingId, u: UserId, fleet: Fleet, fault: Fault, unlockThrows: bool)
    requires Respond(s, b, u, true, fleet, fault, unlockThrows).1.Crashed?
    ensures var t := Respond(s, b, u, true, fleet, fault, unlockThrows).0;
            && t.now == s.now && t.pending == s.pending && t.contacted == s.contacted
            && t.locks == (if unlockThrows && !fault.AtLock? then s.locks[b := Entry(u, s.now + 30_000)] else s.locks)
            && (t.rows == s.rows ==> SameButLocks(t, s))
            && (t.rows != s.rows ==>
                  && b in s.rows && s.rows[b].status == Pending && b in t.rows && t.rows == s.rows[b := t.rows[b]]
                  && t.rows[b].status == Accepted && t.rows[b].cargo == s.rows[b].cargo
                  && if fault.AtStatusWrite? then t.alloc == s.alloc && t.requests == s.requests && t.jobs == s.jobs
                     else fault.AfterStatus?
                          && t.alloc == s.alloc[b := Entry(Allocation(AllocAccepted, Some(u)), s.now + 300_000)]
                          && t.requests == s.requests - (fault.released * s.pending[b].value)
                          && t.jobs == if fault.jobRemoved then s.jobs - {b} else s.jobs)
  {
    if OnOffer(s, b, u) {
      AcceptIsTry(s, b, u, fleet, fault, unlockThrows);
      assert s.pending[b].value + {u} == s.pending[b].value;
    }
  }

  // ----- rejections, disconnects and timeouts -----

  predicate SaysAccepted(s: State, b: BookingId) { b in s.alloc && s.alloc[b].value.status == AllocAccepted }

  /** A rejection, key by key. It takes effect only for a driver the booking is on offer to; that
      driver's request goes, whatever it names; the last one cancels the booking and clears its keys
      unless Redis says ACCEPTED; the job stays queued. */
  lemma RejectionEffects(es: seq<Event>, b: BookingId, u: UserId, fleet: Fleet, fault: Fault, unlockThrows: bool)
    ensures var s := Run(Init(), es);
            var (t, r) := Respond(s, b, u, false, fleet, fault, unlockThrows);
            if !OnOffer(s, b, u) then r == Unavailable && t == s
            else
              && r == RejectedOk
              && t.now == s.now && t.contacted == s.contacted && t.jobs == s.jobs && t.requests == s.requests - {u}
              && t.pending == (if s.pending[b].value == {u} then s.pending - {b}
                               else s.pending[b := Entry(s.pending[b].value - {u}, s.pending[b].expiresAt)])
              && if s.pending[b].value == {u} && !SaysAccepted(s, b)
                 then b in s.rows && t.rows == s.rows[b := s.rows[b].(status := Cancelled)]
                      && t.alloc == s.alloc - {b} && t.locks == s.locks - {b}
                 else t.rows == s.rows && t.alloc == s.alloc && t.locks == s.locks
  {
    Reachable(es);
    var s := Run(Init(), es);
    assert PendingOk(s, b);
    if OnOffer(s, b, u) {
      assert s.pending[b].value - {u} == {} <==> s.pending[b].value == {u};
      assert s.requests - {u} - {} == s.requests - {u};
      assert s.pending - {b} - {b} == s.pending - {b};
    }
  }

  /** A disconnect is the rejection of the request the driver has pending, and nothing without one. */
  lemma DisconnectIsRejection(es: seq<Event>, u: UserId, fleet: Fleet, fault: Fault, unlockThrows: bool)
    ensures var s := Run(Init(), es);
            Step(s, Disconnection(u)) ==
              if u in s.requests then Respond(s, s.requests[u].value, u, false, fleet, fault, unlockThrows).0 else s
  {
    Reachable(es);
    assert RequestOk(Run(Init(), es), u);
  }

  /** A due job, key by key. It leaves the queue; unless Redis says ACCEPTED it cancels the booking,
      keeping driver, vehicle and cargo of the row, clears the booking's keys and the requests of its
      drivers. A job that is not queued or not due does not run. */
  lemma JobEffects(es: seq<Event>, b: BookingId)
    ensures var s := Run(Init(), es);
            var t := Step(s, JobRun(b));
            if b !in s.jobs || s.now < s.jobs[b] then t == s
            else
              && t.now == s.now && t.contacted == s.contacted && t.jobs == s.jobs - {b}
              && if SaysAccepted(s, b)
                 then t.rows == s.rows && t.pending == s.pending && t.alloc == s.alloc && t.locks == s.locks && t.requests == s.requests
                 else && b in s.rows && t.rows == s.rows[b := s.rows[b].(status := Cancelled)]
                      && t.pending == s.pending - {b} && t.alloc == s.alloc - {b} && t.locks == s.locks - {b}
                      && t.requests == s.requests - (if b in s.pending then s.pending[b].value else {})
  {
    Reachable(es);
    assert BookingOk(Run(Init(), es), b);
  }
}
