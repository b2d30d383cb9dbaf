/** The booking allocation protocol, one handler at a time, with a clock. The state is the
    booking table, the Redis keys with their expiry times, and the queue of timeout jobs. A key
    whose time has come is gone, so `Advance` drops it. Times are in milliseconds. */
module Allocation {
  import opened Wrappers
  import opened Transport
  import opened Matching

  type BookingId = string

  const KEY_TTL := 300_000
  const LOCK_TTL := 30_000
  const CONTACTED_TTL := 86_400_000
  const JOB_DELAY := 60_000

  datatype BookingStatus = Pending | Accepted | InProgress | Completed | Cancelled
  datatype Row = Row(status: BookingStatus, driverId: Option<DriverId>, vehicleId: Option<string>, cargo: Option<Cargo>)

  datatype AllocationStatus = AllocPending | AllocAccepted | AllocTimeout
  datatype Allocation = Allocation(status: AllocationStatus, acceptedBy: Option<UserId>)

  datatype Entry<V> = Entry(value: V, expiresAt: int)

  datatype State = State(
    now: int,
    rows: map<BookingId, Row>,
    pending: map<BookingId, Entry<set<UserId>>>,
    contacted: map<BookingId, Entry<set<UserId>>>,
    alloc: map<BookingId, Entry<Allocation>>,
    locks: map<BookingId, Entry<UserId>>,
    requests: map<UserId, Entry<BookingId>>,
    jobs: map<BookingId, int>)

  function Init(): State { State(0, map[], map[], map[], map[], map[], map[], map[]) }

  function Live<K, V>(m: map<K, Entry<V>>, now: int): map<K, Entry<V>> {
    map k | k in m && now < m[k].expiresAt :: m[k]
  }

  function PendingOf(s: State, b: BookingId): set<UserId> { if b in s.pending then s.pending[b].value else {} }

  function Members(m: map<BookingId, Entry<set<UserId>>>, b: BookingId): set<UserId> { if b in m then m[b].value else {} }

  // ----- the handlers -----

  /** How the acceptance handler may be cut short by a failing call: at the lock, at a query before
      the row is saved, at the save, at the Redis status write, or at one of the calls after it, when some of
      the drivers have been released and the job may already be removed. */
  datatype Fault = NoFault | AtLock | AtQuery | AtSave | AtStatusWrite | AfterStatus(released: set<UserId>, jobRemoved: bool)

  /** How far the dispatch of a new booking gets before a call throws: not as far as Redis (a failing
      search for drivers included), to the pending set, to the contacted set, or to the requests of
      some drivers. In each of these cases no timeout job is queued. */
  datatype Cut = Whole | BeforeOffer | AfterPending | AfterContacted | AfterStatusOf(requested: set<UserId>)

  datatype Response =
    | Unavailable | LostRace | NoLongerPending | Success(row: Row) | RejectedOk
    | DriverNotFound | BookingNotFound | NoVehicle | VehicleCannotHandle | Crashed

  function Advance(s: State, dt: nat): State {
    var now := s.now + dt;
    s.(now := now, pending := Live(s.pending, now), contacted := Live(s.contacted, now), alloc := Live(s.alloc, now),
       locks := Live(s.locks, now), requests := Live(s.requests, now))
  }

  function Offers(users: set<UserId>, b: BookingId, expiresAt: int): map<UserId, Entry<BookingId>> {
    map u | u in users :: Entry(b, expiresAt)
  }

  /** The users whose pending request the dispatch gets to set. */
  function Requested(users: set<UserId>, cut: Cut): set<UserId> {
    match cut
    case Whole => users
    case AfterStatusOf(requested) => requested * users
    case _ => {}
  }

  /** Offers a booking to a batch of users. A job id already queued is not queued again. */
  function SendBatch(s: State, b: BookingId, users: set<UserId>, cut: Cut): State {
    s.(pending := if cut.BeforeOffer? then s.pending
                  else s.pending[b := Entry(Members(s.pending, b) + users, s.now + KEY_TTL)],
       contacted := if cut.BeforeOffer? || cut.AfterPending? then s.contacted
                    else s.contacted[b := Entry(Members(s.contacted, b) + users, s.now + CONTACTED_TTL)],
       alloc := if cut.AfterStatusOf? || cut.Whole? then s.alloc[b := Entry(Allocation(AllocPending, None), s.now + KEY_TTL)]
                else s.alloc,
       requests := s.requests + Offers(Requested(users, cut), b, s.now + KEY_TTL),
       jobs := if !cut.Whole? || b in s.jobs then s.jobs else s.jobs[b := s.now + JOB_DELAY])
  }

  /** A new booking, saved as PENDING; it is offered only when drivers were found. What the dispatch
      throws is caught, and the row stays. */
  function Create(s: State, b: BookingId, cargo: Option<Cargo>, users: set<UserId>, cut: Cut): State
    requires b !in s.rows
  {
    var saved := s.(rows := s.rows[b := Row(Pending, None, None, cargo)]);
    if users == {} then saved else SendBatch(saved, b, users, cut)
  }

  predicate AllocatedAsAccepted(s: State, b: BookingId) { b in s.alloc && s.alloc[b].value.status.AllocAccepted? }

  function ClearBooking(s: State, b: BookingId): State {
    s.(pending := s.pending - {b}, alloc := s.alloc - {b}, locks := s.locks - {b})
  }

  function Timeout(s: State, b: BookingId): State {
    if AllocatedAsAccepted(s, b) || b !in s.rows then s
    else ClearBooking(s, b).(rows := s.rows[b := s.rows[b].(status := Cancelled)],
                             requests := s.requests - PendingOf(s, b))
  }

  /** SREM and DEL: the driver leaves the pending set, which vanishes when empty. */
  function Withdraw(s: State, b: BookingId, u: UserId): State {
    s.(pending := if PendingOf(s, b) - {u} == {} then s.pending - {b}
                  else s.pending[b := s.pending[b].(value := PendingOf(s, b) - {u})],
       requests := s.requests - {u})
  }

  function Reject(s: State, b: BookingId, u: UserId): State {
    var s1 := Withdraw(s, b, u);
    if PendingOf(s1, b) == {} then Timeout(s1, b) else s1
  }

  function Disconnect(s: State, u: UserId): State {
    if u in s.requests then Reject(s, s.requests[u].value, u) else s
  }

  /** The vehicle the acceptance would assign, or why it is refused. Without cargo requirements
      only the presence of a vehicle is checked. */
  function VehicleCheck(cargo: Option<Cargo>, d: DriverId, fleet: Fleet): Option<Response> {
    if d !in fleet.vehicleOf then Some(NoVehicle)
    else if cargo.Some? && !ValidateVehicle(fleet.vehicleOf[d], cargo.value).canHandle then Some(VehicleCannotHandle)
    else None
  }

  function AcceptedRow(row: Row, d: DriverId, fleet: Fleet): Row
    requires d in fleet.vehicleOf
  {
    row.(status := Accepted, driverId := Some(d), vehicleId := Some(fleet.vehicleOf[d].id))
  }

  /** What ends the try block of the acceptance handler before it saves the row, if anything does. */
  function EndsBeforeSave(row: Option<Row>, u: UserId, fleet: Fleet, fault: Fault): Option<Response> {
    if fault.AtQuery? then Some(Crashed)
    else if u !in fleet.driverOf then Some(DriverNotFound)
    else if row.None? then Some(BookingNotFound)
    else if !row.value.status.Pending? then Some(NoLongerPending)
    else
      var refusal := VehicleCheck(row.value.cargo, fleet.driverOf[u], fleet);
      if refusal.Some? then refusal else if fault.AtSave? then Some(Crashed) else None
  }

  /** The save and what follows it. */
  function SaveAndFinish(s: State, b: BookingId, u: UserId, row: Row, fault: Fault): (State, Response) {
    var saved := s.(rows := s.rows[b := row]);
    match fault
    case AtStatusWrite => (saved, Crashed)
    case AfterStatus(released, jobRemoved) =>
      (saved.(alloc := s.alloc[b := Entry(Allocation(AllocAccepted, Some(u)), s.now + KEY_TTL)],
              requests := s.requests - (released * (PendingOf(s, b) + {u})),
              jobs := if jobRemoved then s.jobs - {b} else s.jobs), Crashed)
    case _ =>
      (ClearBooking(saved, b).(requests := s.requests - (PendingOf(s, b) + {u}), jobs := s.jobs - {b}), Success(row))
  }

  function TryAccept(s: State, b: BookingId, u: UserId, fleet: Fleet, fault: Fault): (State, Response) {
    var row := if b in s.rows then Some(s.rows[b]) else None;
    var ending := EndsBeforeSave(row, u, fleet, fault);
    if ending.Some? then (s, ending.value)
    else SaveAndFinish(s, b, u, AcceptedRow(row.value, fleet.driverOf[u], fleet), fault)
  }

  /** The lock is gone after a success and given back after a throw, unless the unlock throws as
      well; the early return on a decided booking keeps it. */
  predicate KeepsLock(r: Response, unlockThrows: bool) { r.NoLongerPending? || (!r.Success? && unlockThrows) }

  function Accept(s: State, b: BookingId, u: UserId, fleet: Fleet, fault: Fault, unlockThrows: bool): (State, Response) {
    if fault.AtLock? then (s, Crashed)
    else if b in s.locks then (s, LostRace)
    else
      var (t, r) := TryAccept(s, b, u, fleet, fault);
      (t.(locks := if KeepsLock(r, unlockThrows) then s.locks[b := Entry(u, s.now + LOCK_TTL)] else s.locks),
       if r.Success? || r.NoLongerPending? || !unlockThrows then r else Crashed)
  }

  function Respond(s: State, b: BookingId, u: UserId, accepted: bool, fleet: Fleet, fault: Fault, unlockThrows: bool)
    : (State, Response)
  {
    if u !in PendingOf(s, b) then (s, Unavailable)
    else if accepted then Accept(s, b, u, fleet, fault, unlockThrows)
    else (Reject(s, b, u), RejectedOk)
  }

  function JobFires(s: State, b: BookingId): State {
    Timeout(s.(jobs := s.jobs - {b}), b)
  }

  // ----- runs -----

  datatype Event =
    | TimePasses(dt: nat)
    | Creation(booking: BookingId, cargo: Option<Cargo>, users: set<UserId>, cut: Cut)
    | Reply(booking: BookingId, user: UserId, accepted: bool, fleet: Fleet, fault: Fault, unlockThrows: bool)
    | Disconnection(user: UserId)
    | JobRun(booking: BookingId)

  /** An event that cannot happen (a used booking id, a job not queued or not yet due) changes nothing. */
  function Step(s: State, e: Event): State {
    match e
    case TimePasses(dt) => Advance(s, dt)
    case Creation(b, cargo, users, cut) => if b in s.rows then s else Create(s, b, cargo, users, cut)
    case Reply(b, u, accepted, fleet, fault, unlockThrows) => Respond(s, b, u, accepted, fleet, fault, unlockThrows).0
    case Disconnection(u) => Disconnect(s, u)
    case JobRun(b) => if b in s.jobs && s.jobs[b] <= s.now then JobFires(s, b) else s
  }

  function Run(s: State, es: seq<Event>): State
    decreases |es|
  {
    if es == [] then s else Run(Step(s, es[0]), es[1..])
  }

  /** The queued timeout job of b, if any, still runs less than 300 s after the dispatch. */
  predicate JobInTime(s: State, b: BookingId) {
    b in s.jobs ==> s.now < s.jobs[b] - JOB_DELAY + KEY_TTL
  }

  /** The job of b is in time throughout; nothing is asked of other bookings. */
  predicate JobTimely(s: State, es: seq<Event>, b: BookingId)
    decreases |es|
  {
    es == [] || (JobInTime(Step(s, es[0]), b) && JobTimely(Step(s, es[0]), es[1..], b))
  }

  /** e is not an acceptance of b that dies between its save and its status write. */
  predicate StatusWritten(e: Event, b: BookingId) { e.Reply? && e.booking == b ==> !e.fault.AtStatusWrite? }

  /** What timeout safety of b needs of a run; nothing about other bookings. */
  ghost predicate Orderly(s: State, es: seq<Event>, b: BookingId) {
    JobTimely(s, es, b) && forall i :: 0 <= i < |es| ==> StatusWritten(es[i], b)
  }

  // ----- index agreement: an invariant of every run -----

  predicate PendingOk(s: State, b: BookingId) {
    b in s.pending ==>
      && b in s.rows && s.pending[b].value != {}
      && s.now < s.pending[b].expiresAt <= s.now + KEY_TTL
  }

  /** A driver's pending request names a booking whose pending set holds the driver, and it does
      not outlive that set. */
  predicate RequestOk(s: State, u: UserId) {
    u in s.requests ==>
      var b := s.requests[u].value;
      b in s.pending && u in s.pending[b].value && s.requests[u].expiresAt <= s.pending[b].expiresAt
  }

  ghost predicate IndexInv(s: State) {
    && (forall b :: PendingOk(s, b))
    && (forall u :: RequestOk(s, u))
  }

  lemma AdvanceKeepsIndex(s: State, dt: nat)
    requires IndexInv(s)
    ensures IndexInv(Advance(s, dt))
  {
    var t := Advance(s, dt);
    forall b ensures PendingOk(t, b) { assert PendingOk(s, b); }
    forall u ensures RequestOk(t, u) { assert RequestOk(s, u); }
  }

  lemma CreateKeepsIndex(s: State, b: BookingId, cargo: Option<Cargo>, users: set<UserId>, cut: Cut)
    requires IndexInv(s) && b !in s.rows
    ensures IndexInv(Create(s, b, cargo, users, cut))
  {
    var t := Create(s, b, cargo, users, cut);
    assert PendingOk(s, b);
    forall x ensures PendingOk(t, x) { assert PendingOk(s, x); }
    forall u ensures RequestOk(t, u) {
      assert RequestOk(s, u);
      if users != {} && u in Requested(users, cut) {
        assert t.requests[u] == Entry(b, s.now + KEY_TTL);
      } else if u in s.requests {
        assert t.requests[u] == s.requests[u];
      }
    }
  }

  lemma TimeoutKeepsIndex(s: State, b: BookingId)
    requires IndexInv(s)
    ensures IndexInv(Timeout(s, b))
  {
    var t := Timeout(s, b);
    forall x ensures PendingOk(t, x) { assert PendingOk(s, x); }
    forall u ensures RequestOk(t, u) { assert RequestOk(s, u); }
  }

  lemma WithdrawKeepsIndex(s: State, b: BookingId, u: UserId)
    requires IndexInv(s)
    ensures IndexInv(Withdraw(s, b, u))
  {
    var t := Withdraw(s, b, u);
    forall x ensures PendingOk(t, x) { assert PendingOk(s, x); }
    forall v ensures RequestOk(t, v) { assert RequestOk(s, v); }
  }

  lemma TryAcceptKeepsIndex(s: State, b: BookingId, u: UserId, fleet: Fleet, fault: Fault)
    requires IndexInv(s) && u in PendingOf(s, b)
    ensures IndexInv(TryAccept(s, b, u, fleet, fault).0)
  {
    var t := TryAccept(s, b, u, fleet, fault).0;
    forall x ensures PendingOk(t, x) { assert PendingOk(s, x); }
    forall v ensures RequestOk(t, v) { assert RequestOk(s, v); }
  }

  /** The index does not depend on the locks. */
  lemma LocksKeepIndex(s: State, t: State)
    requires IndexInv(s) && SameButLocks(s, t)
    ensures IndexInv(t)
  {
    forall x ensures PendingOk(t, x) { assert PendingOk(s, x); }
    forall v ensures RequestOk(t, v) { assert RequestOk(s, v); }
  }

  predicate SameButLocks(s: State, t: State) {
    && s.now == t.now && s.rows == t.rows && s.pending == t.pending && s.contacted == t.contacted
    && s.alloc == t.alloc && s.requests == t.requests && s.jobs == t.jobs
  }

  /** Apart from the locks an acceptance that gets the lock does what its try block does. */
  lemma AcceptIsTry(s: State, b: BookingId, u: UserId, fleet: Fleet, fault: Fault, unlockThrows: bool)
    ensures SameButLocks(Accept(s, b, u, fleet, fault, unlockThrows).0,
                         if fault.AtLock? || b in s.locks then s else TryAccept(s, b, u, fleet, fault).0)
  {
  }

  lemma AcceptKeepsIndex(s: State, b: BookingId, u: UserId, fleet: Fleet, fault: Fault, unlockThrows: bool)
    requires IndexInv(s) && u in PendingOf(s, b)
    ensures IndexInv(Accept(s, b, u, fleet, fault, unlockThrows).0)
  {
    var t := Accept(s, b, u, fleet, fault, unlockThrows).0;
    AcceptIsTry(s, b, u, fleet, fault, unlockThrows);
    if fault.AtLock? || b in s.locks {
      LocksKeepIndex(s, t);
    } else {
      TryAcceptKeepsIndex(s, b, u, fleet, fault);
      LocksKeepIndex(TryAccept(s, b, u, fleet, fault).0, t);
    }
  }

  lemma RejectKeepsIndex(s: State, b: BookingId, u: UserId)
    requires IndexInv(s)
    ensures IndexInv(Reject(s, b, u))
  {
    WithdrawKeepsIndex(s, b, u);
    TimeoutKeepsIndex(Withdraw(s, b, u), b);
  }

  lemma StepKeepsIndex(s: State, e: Event)
    requires IndexInv(s)
    ensures IndexInv(Step(s, e))
  {
    match e
    case TimePasses(dt) => AdvanceKeepsIndex(s, dt);
    case Creation(b, cargo, users, cut) => if b !in s.rows { CreateKeepsIndex(s, b, cargo, users, cut); }
    case Reply(b, u, accepted, fleet, fault, unlockThrows) =>
      if u in PendingOf(s, b) {
        if accepted { AcceptKeepsIndex(s, b, u, fleet, fault, unlockThrows); } else { RejectKeepsIndex(s, b, u); }
      }
    case Disconnection(u) => if u in s.requests { RejectKeepsIndex(s, s.requests[u].value, u); }
    case JobRun(b) =>
      var s1 := s.(jobs := s.jobs - {b});
      forall x ensures PendingOk(s1, x) { assert PendingOk(s, x); }
      forall u ensures RequestOk(s1, u) { assert RequestOk(s, u); }
      TimeoutKeepsIndex(s1, b);
  }

  lemma {:induction false} RunKeepsIndex(s: State, es: seq<Event>)
    requires IndexInv(s)
    ensures IndexInv(Run(s, es))
    decreases |es|
  {
    if es != [] {
      StepKeepsIndex(s, es[0]);
      RunKeepsIndex(Step(s, es[0]), es[1..]);
    }
  }

  // ----- pending drivers were contacted -----

  predicate ContactedOk(s: State, b: BookingId) {
    b in s.pending ==>
      && b in s.contacted && s.pending[b].value <= s.contacted[b].value
      && s.pending[b].expiresAt <= s.contacted[b].expiresAt
  }

  /** e is not a dispatch of b that dies between writing its pending and its contacted drivers. */
  predicate RecordsContacts(e: Event, b: BookingId) { e.Creation? && e.booking == b ==> !e.cut.AfterPending? }

  lemma RejectKeepsContacted(s: State, b': BookingId, u: UserId, b: BookingId)
    requires ContactedOk(s, b) && u in PendingOf(s, b')
    ensures ContactedOk(Reject(s, b', u), b)
  {
    assert ContactedOk(Withdraw(s, b', u), b);
  }

  lemma TryAcceptKeepsContacted(s: State, b': BookingId, u: UserId, fleet: Fleet, fault: Fault, b: BookingId)
    requires ContactedOk(s, b)
    ensures ContactedOk(TryAccept(s, b', u, fleet, fault).0, b)
  {
  }

  lemma AcceptKeepsContacted(s: State, b': BookingId, u: UserId, fleet: Fleet, fault: Fault, unlockThrows: bool, b: BookingId)
    requires ContactedOk(s, b)
    ensures ContactedOk(Accept(s, b', u, fleet, fault, unlockThrows).0, b)
  {
    AcceptIsTry(s, b', u, fleet, fault, unlockThrows);
    TryAcceptKeepsContacted(s, b', u, fleet, fault, b);
  }

  lemma StepKeepsContacted(s: State, e: Event, b: BookingId)
    requires Inv(s) && ContactedOk(s, b) && RecordsContacts(e, b)
    ensures ContactedOk(Step(s, e), b)
  {
    match e
    case TimePasses(dt) =>
    case Creation(b', cargo, users, cut) => assert BookingOk(s, b');
    case Reply(b', u, accepted, fleet, fault, unlockThrows) =>
      if u in PendingOf(s, b') {
        if accepted { AcceptKeepsContacted(s, b', u, fleet, fault, unlockThrows, b); } else { RejectKeepsContacted(s, b', u, b); }
      }
    case Disconnection(u) =>
      assert RequestOk(s, u);
      if u in s.requests { RejectKeepsContacted(s, s.requests[u].value, u, b); }
    case JobRun(b') =>
  }

  lemma {:induction false} RunKeepsContacted(s: State, es: seq<Event>, b: BookingId)
    requires Inv(s) && ContactedOk(s, b) && forall i :: 0 <= i < |es| ==> RecordsContacts(es[i], b)
    ensures ContactedOk(Run(s, es), b)
    decreases |es|
  {
    if es != [] {
      StepKeepsInv(s, es[0]);
      StepKeepsContacted(s, es[0], b);
      forall i | 0 <= i < |es[1..]| ensures RecordsContacts(es[1..][i], b) { assert es[1..][i] == es[i + 1]; }
      RunKeepsContacted(Step(s, es[0]), es[1..], b);
    }
  }

  // ----- rows and keys agree: an invariant of every run -----

  predicate BookingOk(s: State, b: BookingId) {
    && (b !in s.rows ==> b !in s.pending && b !in s.contacted && b !in s.alloc && b !in s.locks && b !in s.jobs)
    && (b in s.jobs ==> s.jobs[b] <= s.now + JOB_DELAY)
    && (AllocatedAsAccepted(s, b) ==> s.rows[b].status.Accepted?)
    && (b in s.locks ==> s.now < s.locks[b].expiresAt)
  }

  ghost predicate Inv(s: State) {
    IndexInv(s) && forall b :: BookingOk(s, b)
  }

  lemma AdvanceKeepsInv(s: State, dt: nat)
    requires Inv(s)
    ensures Inv(Advance(s, dt))
  {
    var t := Advance(s, dt);
    AdvanceKeepsIndex(s, dt);
    forall b ensures BookingOk(t, b) { assert PendingOk(s, b) && BookingOk(s, b); }
  }

  /** t has one booking more than s, PENDING, perhaps with keys and a job. */
  predicate OneMoreBooking(s: State, t: State, b: BookingId) {
    && b !in s.rows && t.now == s.now && t.locks == s.locks
    && b in t.rows && t.rows[b].status.Pending? && t.rows == s.rows[b := t.rows[b]]
    && (t.contacted == s.contacted || (b in t.contacted && t.contacted == s.contacted[b := t.contacted[b]]))
    && (t.pending == s.pending || (b in t.pending && t.pending == s.pending[b := t.pending[b]]))
    && (t.alloc == s.alloc || (b in t.alloc && !t.alloc[b].value.status.AllocAccepted? && t.alloc == s.alloc[b := t.alloc[b]]))
    && (t.jobs == s.jobs || t.jobs == s.jobs[b := s.now + JOB_DELAY])
  }

  lemma CreateAddsOne(s: State, b: BookingId, cargo: Option<Cargo>, users: set<UserId>, cut: Cut)
    requires b !in s.rows
    ensures OneMoreBooking(s, Create(s, b, cargo, users, cut), b)
  {
    var t := Create(s, b, cargo, users, cut);
    if users != {} {
      assert t.alloc == if cut.AfterStatusOf? || cut.Whole? then s.alloc[b := Entry(Allocation(AllocPending, None), s.now + KEY_TTL)]
                        else s.alloc;
      assert t.contacted == if cut.BeforeOffer? || cut.AfterPending? then s.contacted
                            else s.contacted[b := Entry(Members(s.contacted, b) + users, s.now + CONTACTED_TTL)];
      assert t.pending == if cut.BeforeOffer? then s.pending
                          else s.pending[b := Entry(Members(s.pending, b) + users, s.now + KEY_TTL)];
    }
  }

  lemma OneMoreKeepsBookings(s: State, t: State, b: BookingId, x: BookingId)
    requires OneMoreBooking(s, t, b) && BookingOk(s, x)
    ensures BookingOk(t, x)
  {
  }

  lemma CreateKeepsInv(s: State, b: BookingId, cargo: Option<Cargo>, users: set<UserId>, cut: Cut)
    requires Inv(s) && b !in s.rows
    ensures Inv(Create(s, b, cargo, users, cut))
  {
    CreateKeepsIndex(s, b, cargo, users, cut);
    CreateAddsOne(s, b, cargo, users, cut);
    forall x ensures BookingOk(Create(s, b, cargo, users, cut), x) {
      OneMoreKeepsBookings(s, Create(s, b, cargo, users, cut), b, x);
    }
  }

  lemma TimeoutKeepsInv(s: State, b: BookingId)
    requires Inv(s)
    ensures Inv(Timeout(s, b))
  {
    var t := Timeout(s, b);
    TimeoutKeepsIndex(s, b);
    forall x ensures BookingOk(t, x) { assert BookingOk(s, x); }
  }

  lemma WithdrawKeepsInv(s: State, b: BookingId, u: UserId)
    requires Inv(s)
    ensures Inv(Withdraw(s, b, u))
  {
    var t := Withdraw(s, b, u);
    WithdrawKeepsIndex(s, b, u);
    forall x ensures BookingOk(t, x) { assert BookingOk(s, x); }
  }

  lemma RejectKeepsInv(s: State, b: BookingId, u: UserId)
    requires Inv(s)
    ensures Inv(Reject(s, b, u))
  {
    WithdrawKeepsInv(s, b, u);
    TimeoutKeepsInv(Withdraw(s, b, u), b);
  }

  lemma TryAcceptKeepsInv(s: State, b: BookingId, u: UserId, fleet: Fleet, fault: Fault)
    requires Inv(s) && u in PendingOf(s, b)
    ensures Inv(TryAccept(s, b, u, fleet, fault).0)
  {
    var t := TryAccept(s, b, u, fleet, fault).0;
    TryAcceptKeepsIndex(s, b, u, fleet, fault);
    assert BookingOk(s, b);
    forall x ensures BookingOk(t, x) { assert BookingOk(s, x); }
  }

  lemma AcceptKeepsInv(s: State, b: BookingId, u: UserId, fleet: Fleet, fault: Fault, unlockThrows: bool)
    requires Inv(s) && u in PendingOf(s, b)
    ensures Inv(Accept(s, b, u, fleet, fault, unlockThrows).0)
  {
    var t := Accept(s, b, u, fleet, fault, unlockThrows).0;
    AcceptIsTry(s, b, u, fleet, fault, unlockThrows);
    AcceptKeepsIndex(s, b, u, fleet, fault, unlockThrows);
    TryAcceptKeepsInv(s, b, u, fleet, fault);
    assert PendingOk(s, b);
    forall x ensures BookingOk(t, x) {
      assert BookingOk(s, x) && BookingOk(s, b);
      AcceptedLocks(s, b, u, fleet, fault, unlockThrows, x);
      if fault.AtLock? || b in s.locks {
        RelockedOk(s, t, x);
      } else {
        RelockedOk(TryAccept(s, b, u, fleet, fault).0, t, x);
      }
    }
  }

  /** Whatever is locked after an acceptance of b is b or was locked before. */
  lemma AcceptedLocks(s: State, b: BookingId, u: UserId, fleet: Fleet, fault: Fault, unlockThrows: bool, x: BookingId)
    ensures var t := Accept(s, b, u, fleet, fault, unlockThrows).0;
            x in t.locks ==> (x == b && t.locks[x] == Entry(u, s.now + LOCK_TTL)) || (x in s.locks && t.locks[x] == s.locks[x])
  {
  }

  lemma RelockedOk(s: State, t: State, x: BookingId)
    requires SameButLocks(s, t) && BookingOk(s, x)
    requires x in t.locks ==> x in t.rows && t.now < t.locks[x].expiresAt
    ensures BookingOk(t, x)
  {
  }

  lemma DequeueKeepsInv(s: State, b: BookingId)
    requires Inv(s)
    ensures Inv(s.(jobs := s.jobs - {b}))
  {
    var t := s.(jobs := s.jobs - {b});
    forall x ensures PendingOk(t, x) && BookingOk(t, x) { assert PendingOk(s, x) && BookingOk(s, x); }
    forall u ensures RequestOk(t, u) { assert RequestOk(s, u); }
  }

  lemma StepKeepsInv(s: State, e: Event)
    requires Inv(s)
    ensures Inv(Step(s, e))
  {
    match e
    case TimePasses(dt) => AdvanceKeepsInv(s, dt);
    case Creation(b, cargo, users, cut) => if b !in s.rows { CreateKeepsInv(s, b, cargo, users, cut); }
    case Reply(b, u, accepted, fleet, fault, unlockThrows) =>
      if u in PendingOf(s, b) {
        if accepted { AcceptKeepsInv(s, b, u, fleet, fault, unlockThrows); } else { RejectKeepsInv(s, b, u); }
      }
    case Disconnection(u) => if u in s.requests { RejectKeepsInv(s, s.requests[u].value, u); }
    case JobRun(b) =>
      DequeueKeepsInv(s, b);
      TimeoutKeepsInv(s.(jobs := s.jobs - {b}), b);
  }

  /** Every run, with any faults and any delays. */
  lemma {:induction false} RunKeepsInv(s: State, es: seq<Event>)
    requires Inv(s)
    ensures Inv(Run(s, es))
    decreases |es|
  {
    if es != [] {
      StepKeepsInv(s, es[0]);
      RunKeepsInv(Step(s, es[0]), es[1..]);
    }
  }

  // ----- an accepted booking is guarded: an invariant of each orderly booking -----

  /** Redis will say ACCEPTED for b until t at least. */
  predicate SaysAcceptedUntil(s: State, b: BookingId, t: int) {
    AllocatedAsAccepted(s, b) && s.alloc[b].expiresAt >= t
  }

  /** While drivers may still reject b, or its job may still run, b is PENDING or Redis says ACCEPTED. */
  predicate Guarded(s: State, b: BookingId) {
    b in s.rows ==>
      && (b in s.pending ==>
            s.rows[b].status.Pending? || (s.rows[b].status.Accepted? && SaysAcceptedUntil(s, b, s.pending[b].expiresAt)))
      && (b in s.jobs && s.rows[b].status.Accepted? ==> SaysAcceptedUntil(s, b, s.jobs[b] - JOB_DELAY + KEY_TTL))
  }

  lemma RejectKeepsGuard(s: State, b': BookingId, u: UserId, b: BookingId)
    requires Inv(s) && Guarded(s, b)
    ensures Guarded(Reject(s, b', u), b)
  {
    assert Guarded(Withdraw(s, b', u), b);
  }

  lemma TryAcceptKeepsGuard(s: State, b': BookingId, u: UserId, fleet: Fleet, fault: Fault, b: BookingId)
    requires PendingOk(s, b) && BookingOk(s, b) && Guarded(s, b) && (b' == b ==> !fault.AtStatusWrite?)
    ensures Guarded(TryAccept(s, b', u, fleet, fault).0, b)
  {
  }

  lemma AcceptKeepsGuard(s: State, b': BookingId, u: UserId, fleet: Fleet, fault: Fault, unlockThrows: bool, b: BookingId)
    requires Inv(s) && Guarded(s, b) && (b' == b ==> !fault.AtStatusWrite?)
    ensures Guarded(Accept(s, b', u, fleet, fault, unlockThrows).0, b)
  {
    assert BookingOk(s, b) && PendingOk(s, b);
    AcceptIsTry(s, b', u, fleet, fault, unlockThrows);
    TryAcceptKeepsGuard(s, b', u, fleet, fault, b);
  }

  lemma AdvanceKeepsGuard(s: State, dt: nat, b: BookingId)
    requires Guarded(s, b) && JobInTime(Advance(s, dt), b)
    ensures Guarded(Advance(s, dt), b)
  {
  }

  lemma OneMoreKeepsGuard(s: State, t: State, b': BookingId, b: BookingId)
    requires OneMoreBooking(s, t, b') && Guarded(s, b)
    ensures Guarded(t, b)
  {
  }

  lemma CreateKeepsGuard(s: State, b': BookingId, cargo: Option<Cargo>, users: set<UserId>, cut: Cut, b: BookingId)
    requires Guarded(s, b) && b' !in s.rows
    ensures Guarded(Create(s, b', cargo, users, cut), b)
  {
    CreateAddsOne(s, b', cargo, users, cut);
    OneMoreKeepsGuard(s, Create(s, b', cargo, users, cut), b', b);
  }

  lemma JobKeepsGuard(s: State, b': BookingId, b: BookingId)
    requires Guarded(s, b)
    ensures Guarded(JobFires(s, b'), b)
  {
    assert Guarded(s.(jobs := s.jobs - {b'}), b);
  }

  lemma StepKeepsGuard(s: State, e: Event, b: BookingId)
    requires Inv(s) && Guarded(s, b) && StatusWritten(e, b) && JobInTime(Step(s, e), b)
    ensures Guarded(Step(s, e), b)
  {
    match e
    case TimePasses(dt) => AdvanceKeepsGuard(s, dt, b);
    case Creation(b', cargo, users, cut) => if b' !in s.rows { CreateKeepsGuard(s, b', cargo, users, cut, b); }
    case Reply(b', u, accepted, fleet, fault, unlockThrows) =>
      if u in PendingOf(s, b') {
        if accepted { AcceptKeepsGuard(s, b', u, fleet, fault, unlockThrows, b); } else { RejectKeepsGuard(s, b', u, b); }
      }
    case Disconnection(u) => if u in s.requests { RejectKeepsGuard(s, s.requests[u].value, u, b); }
    case JobRun(b') => JobKeepsGuard(s, b', b);
  }

  lemma {:induction false} RunKeepsGuard(s: State, es: seq<Event>, b: BookingId)
    requires Inv(s) && Guarded(s, b) && Orderly(s, es, b)
    ensures Guarded(Run(s, es), b)
    decreases |es|
  {
    if es != [] {
      OrderlyTail(s, es, b);
      StepKeepsInv(s, es[0]);
      StepKeepsGuard(s, es[0], b);
      RunKeepsGuard(Step(s, es[0]), es[1..], b);
    }
  }

  lemma OrderlyTail(s: State, es: seq<Event>, b: BookingId)
    requires es != [] && Orderly(s, es, b)
    ensures StatusWritten(es[0], b) && JobInTime(Step(s, es[0]), b) && Orderly(Step(s, es[0]), es[1..], b)
  {
    forall i | 0 <= i < |es[1..]| ensures StatusWritten(es[1..][i], b) { assert es[1..][i] == es[i + 1]; }
  }
}
