/** The same protocol at the granularity of a single await, for one booking: any number of
    acceptance attempts interleave with each other, with rejections and disconnects, with timeout
    handlers, with the dispatcher's status write and with expiring keys. Attempts carry an id, so
    that one user may be accepting several times at once. */
module AllocationRace {
  import opened Wrappers
  import opened Transport
  import opened Matching
  import opened Allocation

  /** `owner` is the attempt that set the key; Redis itself stores only the user. */
  datatype Lock = Lock(owner: nat, user: UserId, expiresAt: int)

  /** Where an acceptance attempt stands: each value is the await it is about to make. */
  datatype Pc =
    | CheckPending
    | TakeLock
    | FindDriver
    | FindBooking(driver: DriverId)
    | FindVehicle(driver: DriverId, read: Row)
    | SaveRow(driver: DriverId, vehicle: Vehicle, read: Row)
    | WriteStatus
    | ReleaseAndDequeue
    | ClearKeys
    | Unlocking(saved: bool)
    | Ended(success: bool)

  datatype Attempt = Attempt(user: UserId, lockedAt: int, pc: Pc)

  /** A rejection, a disconnect or a timeout job on its way through removing and handleTimeout. */
  datatype CancelPc =
    | CheckRejecter(user: UserId)
    | RemoveUser(user: UserId)
    | CountRemaining
    | ReadStatus
    | ReadRow
    | SaveCancelled(read: Row)
    | WriteTimeout
    | ClearCancelled
    | Finished

  datatype Saved = Saved(attempt: nat, user: UserId, row: Row)

  datatype RaceState = RaceState(
    now: int,
    row: Row,
    pending: set<UserId>,
    alloc: Option<AllocationStatus>,
    lock: Option<Lock>,
    attempts: map<nat, Attempt>,
    cancels: map<nat, CancelPc>,
    saves: seq<Saved>,
    successes: seq<nat>)

  /** A PENDING booking whose pending set has just been written. */
  function Dispatched(cargo: Option<Cargo>, users: set<UserId>): RaceState {
    RaceState(0, Row(Pending, None, None, cargo), users, None, None, map[], map[], [], [])
  }

  /** What the awaited call answers: a row or nothing, or it throws. */
  datatype Reply = Reply(throws: bool, driver: Option<DriverId>, vehicle: Option<Vehicle>)

  datatype RaceEvent =
    | TimePasses(dt: nat)
    | PendingExpires
    | StatusExpires
    | DispatcherWritesStatus
    | AcceptArrives(a: nat, user: UserId)
    | AcceptSteps(a: nat, reply: Reply)
    | RejectArrives(p: nat, user: UserId)
    | DisconnectArrives(p: nat, user: UserId)
    | JobArrives(p: nat)
    | CancelSteps(p: nat, throws: bool)

  function SetPc(s: RaceState, a: nat, pc: Pc): RaceState
    requires a in s.attempts
  {
    s.(attempts := s.attempts[a := s.attempts[a].(pc := pc)])
  }

  function StepAttempt(s: RaceState, a: nat, r: Reply): RaceState
    requires a in s.attempts
  {
    var u := s.attempts[a].user;
    match s.attempts[a].pc
    case CheckPending => SetPc(s, a, if !r.throws && u in s.pending then TakeLock else Ended(false))
    case TakeLock =>
      if r.throws || s.lock.Some? then SetPc(s, a, Ended(false))
      else s.(lock := Some(Lock(a, u, s.now + LOCK_TTL)),
              attempts := s.attempts[a := Attempt(u, s.now, FindDriver)])
    case FindDriver => SetPc(s, a, if r.throws || r.driver.None? then Unlocking(false) else FindBooking(r.driver.value))
    case FindBooking(d) =>
      SetPc(s, a, if r.throws then Unlocking(false)
                  else if !s.row.status.Pending? then Ended(false)
                  else FindVehicle(d, s.row))
    case FindVehicle(d, read) =>
      SetPc(s, a, if r.throws || r.vehicle.None? then Unlocking(false)
                  else if read.cargo.Some? && !ValidateVehicle(r.vehicle.value, read.cargo.value).canHandle then Unlocking(false)
                  else SaveRow(d, r.vehicle.value, read))
    case SaveRow(d, v, read) =>
      if r.throws then SetPc(s, a, Unlocking(false))
      else
        var row := read.(status := Accepted, driverId := Some(d), vehicleId := Some(v.id));
        SetPc(s, a, WriteStatus).(row := row, saves := s.saves + [Saved(a, u, row)])
    case WriteStatus =>
      if r.throws then SetPc(s, a, Unlocking(true)) else SetPc(s, a, ReleaseAndDequeue).(alloc := Some(AllocAccepted))
    case ReleaseAndDequeue => SetPc(s, a, if r.throws then Unlocking(true) else ClearKeys)
    case ClearKeys =>
      if r.throws then SetPc(s, a, Unlocking(true))
      else SetPc(s, a, Ended(true)).(pending := {}, alloc := None, lock := None, successes := s.successes + [a])
    case Unlocking(_) =>
      if r.throws then SetPc(s, a, Ended(false)) else SetPc(s, a, Ended(false)).(lock := None)
    case Ended(_) => s
  }

  function SetCancel(s: RaceState, p: nat, pc: CancelPc): RaceState { s.(cancels := s.cancels[p := pc]) }

  function StepCancel(s: RaceState, p: nat, throws: bool): RaceState
    requires p in s.cancels
  {
    if throws then SetCancel(s, p, Finished)
    else
      match s.cancels[p]
      case CheckRejecter(u) => SetCancel(s, p, if u in s.pending then RemoveUser(u) else Finished)
      case RemoveUser(u) => SetCancel(s, p, CountRemaining).(pending := s.pending - {u})
      case CountRemaining => SetCancel(s, p, if s.pending == {} then ReadStatus else Finished)
      case ReadStatus => SetCancel(s, p, if s.alloc == Some(AllocAccepted) then Finished else ReadRow)
      case ReadRow => SetCancel(s, p, SaveCancelled(s.row))
      case SaveCancelled(read) => SetCancel(s, p, WriteTimeout).(row := read.(status := Cancelled))
      case WriteTimeout => SetCancel(s, p, ClearCancelled).(alloc := Some(AllocTimeout))
      case ClearCancelled => SetCancel(s, p, Finished).(pending := {}, alloc := None, lock := None)
      case Finished => s
  }

  function RaceStep(s: RaceState, e: RaceEvent): RaceState {
    match e
    case TimePasses(dt) =>
      s.(now := s.now + dt, lock := if s.lock.Some? && s.lock.value.expiresAt <= s.now + dt then None else s.lock)
    case PendingExpires => s.(pending := {})
    case StatusExpires => s.(alloc := None)
    case DispatcherWritesStatus => s.(alloc := Some(AllocPending))
    case AcceptArrives(a, u) => if a in s.attempts then s else s.(attempts := s.attempts[a := Attempt(u, s.now, CheckPending)])
    case AcceptSteps(a, r) => if a in s.attempts then StepAttempt(s, a, r) else s
    case RejectArrives(p, u) => if p in s.cancels then s else SetCancel(s, p, CheckRejecter(u))
    case DisconnectArrives(p, u) => if p in s.cancels then s else SetCancel(s, p, RemoveUser(u))
    case JobArrives(p) => if p in s.cancels then s else SetCancel(s, p, ReadStatus)
    case CancelSteps(p, throws) => if p in s.cancels then StepCancel(s, p, throws) else s
  }

  function Race(s: RaceState, es: seq<RaceEvent>): RaceState
    decreases |es|
  {
    if es == [] then s else Race(RaceStep(s, es[0]), es[1..])
  }

  /** Between taking the lock and saving the row, or giving the lock up without having saved. */
  predicate InSection(pc: Pc) {
    pc.FindDriver? || pc.FindBooking? || pc.FindVehicle? || pc.SaveRow? || pc == Unlocking(false)
  }

  /** Has read the booking as PENDING and not yet saved it. */
  predicate HasRead(pc: Pc) { pc.FindVehicle? || pc.SaveRow? }

  predicate AfterSave(pc: Pc) {
    pc.WriteStatus? || pc.ReleaseAndDequeue? || pc.ClearKeys? || pc == Unlocking(true) || pc == Ended(true)
  }

  /** Every attempt in its section is still within the life of the lock it took. */
  ghost predicate InTime(s: RaceState) {
    forall a :: a in s.attempts && InSection(s.attempts[a].pc) ==> s.now < s.attempts[a].lockedAt + LOCK_TTL
  }

  ghost predicate Timely(s: RaceState, es: seq<RaceEvent>)
    decreases |es|
  {
    es == [] || (InTime(RaceStep(s, es[0])) && Timely(RaceStep(s, es[0]), es[1..]))
  }

  // ----- the invariant -----

  predicate OwnsLock(s: RaceState, a: nat)
    requires a in s.attempts
  {
    s.lock.Some? && s.lock.value.owner == a && s.lock.value.expiresAt == s.attempts[a].lockedAt + LOCK_TTL
  }

  predicate AttemptOk(s: RaceState, a: nat) {
    a in s.attempts ==>
      var pc := s.attempts[a].pc;
      && (s.row.status.Pending? && InSection(pc) ==> OwnsLock(s, a))
      && (HasRead(pc) ==> s.saves == [])
      && (AfterSave(pc) ==> s.saves != [] && s.saves[0].attempt == a)
  }

  /** While the booking is PENDING whoever is in the section is the lock owner; at most one attempt
      has read it as PENDING, and none has once somebody saved; a cleaned-up booking is decided. */
  ghost predicate RaceInv(s: RaceState) {
    && (forall a :: AttemptOk(s, a))
    && (forall a, b :: a in s.attempts && b in s.attempts && HasRead(s.attempts[a].pc) && HasRead(s.attempts[b].pc) ==> a == b)
    && (s.row.status.Pending? ==> s.saves == [])
    && |s.saves| <= 1
    && (s.row.status.Accepted? ==> s.saves != [] && s.row == s.saves[0].row)
    && (forall p :: p in s.cancels && (s.cancels[p].WriteTimeout? || s.cancels[p].ClearCancelled?) ==> !s.row.status.Pending?)
    && (forall x :: x in s.successes ==> x in s.attempts && s.attempts[x].pc == Ended(true))
    && |s.successes| <= 1
  }

  lemma TakeLockKeepsInv(s: RaceState, a: nat, r: Reply)
    requires RaceInv(s) && a in s.attempts && (s.attempts[a].pc.CheckPending? || s.attempts[a].pc.TakeLock?)
    ensures RaceInv(StepAttempt(s, a, r))
  {
    var t := StepAttempt(s, a, r);
    forall x ensures AttemptOk(t, x) { assert AttemptOk(s, x); }
  }

  lemma ReadRowKeepsInv(s: RaceState, a: nat, r: Reply)
    requires RaceInv(s) && a in s.attempts && s.attempts[a].pc.FindBooking?
    ensures RaceInv(StepAttempt(s, a, r))
  {
    var t := StepAttempt(s, a, r);
    assert AttemptOk(s, a);
    forall b | b in s.attempts ensures !(s.row.status.Pending? && HasRead(s.attempts[b].pc)) { assert AttemptOk(s, b); }
    forall x ensures AttemptOk(t, x) { assert AttemptOk(s, x); }
  }

  lemma OtherwiseKeepsInv(s: RaceState, a: nat, r: Reply)
    requires RaceInv(s) && a in s.attempts
    requires var pc := s.attempts[a].pc;
             pc.FindDriver? || pc.FindVehicle? || pc == Unlocking(false) || pc == Ended(false) || (pc.SaveRow? && r.throws)
    ensures RaceInv(StepAttempt(s, a, r))
  {
    var t := StepAttempt(s, a, r);
    assert AttemptOk(s, a);
    forall x ensures AttemptOk(t, x) { assert AttemptOk(s, x); }
  }

  lemma SaveKeepsInv(s: RaceState, a: nat, r: Reply)
    requires RaceInv(s) && a in s.attempts && s.attempts[a].pc.SaveRow? && !r.throws
    ensures RaceInv(StepAttempt(s, a, r))
  {
    var t := StepAttempt(s, a, r);
    assert AttemptOk(s, a);
    forall x ensures AttemptOk(t, x) { assert AttemptOk(s, x); }
  }

  lemma AfterSaveKeepsInv(s: RaceState, a: nat, r: Reply)
    requires RaceInv(s) && a in s.attempts && AfterSave(s.attempts[a].pc)
    ensures RaceInv(StepAttempt(s, a, r))
  {
    var t := StepAttempt(s, a, r);
    assert AttemptOk(s, a);
    assert t.saves == s.saves && t.row == s.row && t.cancels == s.cancels;
    if s.successes != [] {
      assert s.successes[0] in s.successes && AttemptOk(s, s.successes[0]);
    }
    forall x ensures AttemptOk(t, x) { assert AttemptOk(s, x); }
  }

  lemma CancelKeepsInv(s: RaceState, p: nat, throws: bool)
    requires RaceInv(s) && p in s.cancels
    ensures RaceInv(StepCancel(s, p, throws))
  {
    var t := StepCancel(s, p, throws);
    forall x ensures AttemptOk(t, x) { assert AttemptOk(s, x); }
  }

  /** The clock, expiring keys, the dispatcher's write and arrivals. */
  lemma QuietStepKeepsInv(s: RaceState, e: RaceEvent)
    requires RaceInv(s) && InTime(RaceStep(s, e)) && !e.AcceptSteps? && !e.CancelSteps?
    ensures RaceInv(RaceStep(s, e))
  {
    var t := RaceStep(s, e);
    assert t.saves == s.saves && t.row == s.row && t.successes == s.successes;
    forall x ensures AttemptOk(t, x) { assert AttemptOk(s, x); }
  }

  lemma RaceStepKeepsInv(s: RaceState, e: RaceEvent)
    requires RaceInv(s) && InTime(RaceStep(s, e))
    ensures RaceInv(RaceStep(s, e))
  {
    match e
    case AcceptSteps(a, r) =>
      if a in s.attempts {
        var pc := s.attempts[a].pc;
        if AfterSave(pc) {
          AfterSaveKeepsInv(s, a, r);
        } else if pc.SaveRow? && !r.throws {
          SaveKeepsInv(s, a, r);
        } else if pc.CheckPending? || pc.TakeLock? {
          TakeLockKeepsInv(s, a, r);
        } else if pc.FindBooking? {
          ReadRowKeepsInv(s, a, r);
        } else {
          OtherwiseKeepsInv(s, a, r);
        }
      }
    case CancelSteps(p, throws) => if p in s.cancels { CancelKeepsInv(s, p, throws); }
    case _ => QuietStepKeepsInv(s, e);
  }

  lemma {:induction false} RaceKeepsInv(s: RaceState, es: seq<RaceEvent>)
    requires RaceInv(s) && Timely(s, es)
    ensures RaceInv(Race(s, es))
    decreases |es|
  {
    if es != [] {
      RaceStepKeepsInv(s, es[0]);
      RaceKeepsInv(RaceStep(s, es[0]), es[1..]);
    }
  }

  /** Single winner. However attempts, rejections, disconnects, timeouts, crashes and key expiries
      interleave, if every attempt gets from lock to save (or unlock) within the life of the lock,
      the booking is saved as ACCEPTED at most once and at most one attempt is told it succeeded:
      the one that saved. */
  lemma SingleWinner(cargo: Option<Cargo>, users: set<UserId>, es: seq<RaceEvent>)
    requires Timely(Dispatched(cargo, users), es)
    ensures var t := Race(Dispatched(cargo, users), es);
            && |t.saves| <= 1 && |t.successes| <= 1
            && (t.successes != [] ==> t.saves != [] && t.successes == [t.saves[0].attempt])
            && (t.saves != [] ==> !t.row.status.Pending?)
            && (t.row.status.Accepted? ==> t.saves != [] && t.row == t.saves[0].row)
  {
    var s := Dispatched(cargo, users);
    assert RaceInv(s);
    RaceKeepsInv(s, es);
    var t := Race(s, es);
    if t.successes != [] {
      assert t.successes[0] in t.successes;
      assert AttemptOk(t, t.successes[0]);
    }
  }

  // ----- who may win: laws of every run, timely or not -----

  /** In one of the first m steps a call of attempt a answered with driver d. */
  ghost predicate GaveDriver(es: seq<RaceEvent>, m: nat, a: nat, d: DriverId)
    requires m <= |es|
  {
    exists i :: 0 <= i < m && es[i].AcceptSteps? && es[i].a == a && !es[i].reply.throws && es[i].reply.driver == Some(d)
  }

  /** In one of the first m steps a call of attempt a answered with vehicle v. */
  ghost predicate GaveVehicle(es: seq<RaceEvent>, m: nat, a: nat, v: Vehicle)
    requires m <= |es|
  {
    exists i :: 0 <= i < m && es[i].AcceptSteps? && es[i].a == a && !es[i].reply.throws && es[i].reply.vehicle == Some(v)
  }

  /** At one of the first m steps, a step of attempt a, user u was on the pending set. */
  ghost predicate WasPending(s: RaceState, es: seq<RaceEvent>, m: nat, a: nat, u: UserId)
    requires m <= |es|
  {
    exists i :: 0 <= i < m && es[i].AcceptSteps? && es[i].a == a && !es[i].reply.throws && u in Race(s, es[..i]).pending
  }

  /** The save of an attempt whose user was pending, for the driver looked up and with a vehicle that
      was looked up and carries the cargo of the booking. */
  ghost predicate Earned(s: RaceState, es: seq<RaceEvent>, m: nat, x: Saved)
    requires m <= |es|
  {
    && WasPending(s, es, m, x.attempt, x.user)
    && x.row.status == Accepted && x.row.cargo == s.row.cargo
    && (exists d :: x.row.driverId == Some(d) && GaveDriver(es, m, x.attempt, d))
    && (exists v: Vehicle :: x.row.vehicleId == Some(v.id) && GaveVehicle(es, m, x.attempt, v) && Carries(v, s.row.cargo))
  }

  /** What an attempt has to show for the place it has reached. */
  ghost predicate AttemptEarns(s: RaceState, es: seq<RaceEvent>, m: nat, a: nat, at: Attempt)
    requires m <= |es|
  {
    && (!at.pc.CheckPending? && at.pc != Ended(false) ==> WasPending(s, es, m, a, at.user))
    && (at.pc.FindBooking? || at.pc.FindVehicle? || at.pc.SaveRow? ==> GaveDriver(es, m, a, at.pc.driver))
    && (at.pc.FindVehicle? || at.pc.SaveRow? ==> at.pc.read.cargo == s.row.cargo)
    && (at.pc.SaveRow? ==> GaveVehicle(es, m, a, at.pc.vehicle) && Carries(at.pc.vehicle, s.row.cargo))
  }

  ghost predicate AllEarn(s: RaceState, es: seq<RaceEvent>, m: nat)
    requires m <= |es|
  {
    var t := Race(s, es[..m]);
    && t.row.cargo == s.row.cargo
    && (forall a :: a in t.attempts ==> AttemptEarns(s, es, m, a, t.attempts[a]))
    && (forall p :: p in t.cancels && t.cancels[p].SaveCancelled? ==> t.cancels[p].read.cargo == s.row.cargo)
    && (forall i :: 0 <= i < |t.saves| ==> Earned(s, es, m, t.saves[i]))
  }

  lemma EarnedStays(s: RaceState, es: seq<RaceEvent>, m: nat)
    requires m < |es|
    ensures forall a, u :: WasPending(s, es, m, a, u) ==> WasPending(s, es, m + 1, a, u)
    ensures forall a, d :: GaveDriver(es, m, a, d) ==> GaveDriver(es, m + 1, a, d)
    ensures forall a, v :: GaveVehicle(es, m, a, v) ==> GaveVehicle(es, m + 1, a, v)
    ensures forall x :: Earned(s, es, m, x) ==> Earned(s, es, m + 1, x)
  {
  }

  /** Where the place an attempt moves to comes from. */
  predicate MovesTo(t: RaceState, at: Attempt, r: Reply, at': Attempt) {
    && at'.user == at.user
    && (!at'.pc.CheckPending? && at'.pc != Ended(false) ==>
          if at.pc.CheckPending? then !r.throws && at.user in t.pending else at.pc != Ended(false))
    && (at'.pc.FindBooking? ==> at.pc.FindDriver? && !r.throws && r.driver == Some(at'.pc.driver))
    && (at'.pc.FindVehicle? ==> at.pc.FindBooking? && at'.pc.driver == at.pc.driver && at'.pc.read == t.row)
    && (at'.pc.SaveRow? ==>
          && at.pc.FindVehicle? && at'.pc.driver == at.pc.driver && at'.pc.read == at.pc.read
          && !r.throws && r.vehicle == Some(at'.pc.vehicle) && Carries(at'.pc.vehicle, at.pc.read.cargo))
  }

  lemma AttemptMoves(t: RaceState, a: nat, r: Reply)
    requires a in t.attempts
    ensures var t' := StepAttempt(t, a, r);
            && t'.attempts.Keys == t.attempts.Keys && MovesTo(t, t.attempts[a], r, t'.attempts[a])
            && t'.cancels == t.cancels
            && (forall x :: x in t.attempts && x != a ==> t'.attempts[x] == t.attempts[x])
            && (!(t.attempts[a].pc.SaveRow? && !r.throws) ==> t'.saves == t.saves && t'.row == t.row)
  {
    var pc := t.attempts[a].pc;
    if pc.FindVehicle? && r.vehicle.Some? { CarriesExactly(r.vehicle.value, pc.read.cargo); }
  }

  /** The attempt that moves has what its new place asks for. */
  lemma MoverEarns(s: RaceState, es: seq<RaceEvent>, m: nat, t: RaceState, a: nat, r: Reply, at: Attempt, at': Attempt)
    requires m < |es| && es[m] == AcceptSteps(a, r) && t == Race(s, es[..m])
    requires AttemptEarns(s, es, m, a, at) && t.row.cargo == s.row.cargo && MovesTo(t, at, r, at')
    ensures AttemptEarns(s, es, m + 1, a, at')
  {
    EarnedStays(s, es, m);
    if at.pc.CheckPending? && !r.throws && at.user in t.pending { assert WasPending(s, es, m + 1, a, at.user); }
    if at'.pc.FindBooking? { assert GaveDriver(es, m + 1, a, at'.pc.driver); }
    if at'.pc.SaveRow? { assert GaveVehicle(es, m + 1, a, at'.pc.vehicle); }
  }

  lemma EarnedBy(s: RaceState, es: seq<RaceEvent>, m: nat, x: Saved, d: DriverId, v: Vehicle)
    requires m <= |es| && WasPending(s, es, m, x.attempt, x.user)
    requires GaveDriver(es, m, x.attempt, d) && GaveVehicle(es, m, x.attempt, v) && Carries(v, s.row.cargo)
    requires x.row == Row(Accepted, Some(d), Some(v.id), s.row.cargo)
    ensures Earned(s, es, m, x)
  {
  }

  lemma SaveStep(t: RaceState, a: nat, r: Reply)
    requires a in t.attempts && t.attempts[a].pc.SaveRow? && !r.throws
    ensures var t', pc := StepAttempt(t, a, r), t.attempts[a].pc;
            && t'.row == Row(Accepted, Some(pc.driver), Some(pc.vehicle.id), pc.read.cargo)
            && t'.saves == t.saves + [Saved(a, t.attempts[a].user, t'.row)]
  {
  }

  lemma SaveIsEarned(s: RaceState, es: seq<RaceEvent>, m: nat, t: RaceState, a: nat, r: Reply)
    requires m < |es| && es[m] == AcceptSteps(a, r) && t == Race(s, es[..m]) && a in t.attempts
    requires AttemptEarns(s, es, m, a, t.attempts[a]) && t.attempts[a].pc.SaveRow? && !r.throws
    ensures var t' := StepAttempt(t, a, r);
            && t'.saves == t.saves + [Saved(a, t.attempts[a].user, t'.row)] && t'.row.cargo == s.row.cargo
            && Earned(s, es, m, Saved(a, t.attempts[a].user, t'.row))
  {
    var pc := t.attempts[a].pc;
    SaveStep(t, a, r);
    EarnedBy(s, es, m, Saved(a, t.attempts[a].user, StepAttempt(t, a, r).row), pc.driver, pc.vehicle);
  }

  /** What events other than the steps of attempts do to what the law speaks of. */
  lemma OtherEvents(t: RaceState, e: RaceEvent)
    requires !e.AcceptSteps?
    ensures var t' := RaceStep(t, e);
            && t'.saves == t.saves
            && (forall a :: a in t'.attempts ==> (a in t.attempts && t'.attempts[a] == t.attempts[a]) || t'.attempts[a].pc.CheckPending?)
            && (forall p :: p in t'.cancels && t'.cancels[p].SaveCancelled? ==>
                  (p in t.cancels && t'.cancels[p] == t.cancels[p]) || t'.cancels[p].read == t.row)
            && (t'.row == t.row || exists p :: p in t.cancels && t.cancels[p].SaveCancelled? && t'.row == t.cancels[p].read.(status := Cancelled))
  {
  }

  lemma AttemptStepEarns(s: RaceState, es: seq<RaceEvent>, m: nat, t: RaceState, a: nat, r: Reply)
    requires m < |es| && AllEarn(s, es, m) && es[m] == AcceptSteps(a, r) && t == Race(s, es[..m]) && a in t.attempts
    requires Race(s, es[..m + 1]) == StepAttempt(t, a, r)
    ensures AllEarn(s, es, m + 1)
  {
    AttemptMoves(t, a, r);
    var t' := StepAttempt(t, a, r);
    if t.attempts[a].pc.SaveRow? && !r.throws { SaveIsEarned(s, es, m, t, a, r); }
    forall x | x in t'.attempts ensures AttemptEarns(s, es, m + 1, x, t'.attempts[x]) {
      if x == a { MoverEarns(s, es, m, t, a, r, t.attempts[a], t'.attempts[a]); } else { AttemptStillEarns(s, es, m, x, t.attempts[x]); }
    }
    forall i | 0 <= i < |t'.saves| ensures Earned(s, es, m + 1, t'.saves[i]) {
      assert i < |t.saves| ==> t'.saves[i] == t.saves[i];
      StillEarned(s, es, m, t'.saves[i]);
    }
  }

  lemma StillEarned(s: RaceState, es: seq<RaceEvent>, m: nat, x: Saved)
    requires m < |es| && Earned(s, es, m, x)
    ensures Earned(s, es, m + 1, x)
  {
    EarnedStays(s, es, m);
  }

  lemma AttemptStillEarns(s: RaceState, es: seq<RaceEvent>, m: nat, a: nat, at: Attempt)
    requires m < |es| && AttemptEarns(s, es, m, a, at)
    ensures AttemptEarns(s, es, m + 1, a, at)
  {
    EarnedStays(s, es, m);
  }

  lemma StepEarns(s: RaceState, es: seq<RaceEvent>, m: nat)
    requires m < |es| && AllEarn(s, es, m)
    ensures AllEarn(s, es, m + 1)
  {
    RaceNext(s, es, m);
    var t, e := Race(s, es[..m]), es[m];
    if e.AcceptSteps? {
      if e.a in t.attempts { AttemptStepEarns(s, es, m, t, e.a, e.reply); } else { EarnedStays(s, es, m); }
    } else {
      EarnedStays(s, es, m);
      OtherEvents(t, e);
    }
  }

  lemma {:induction false} RaceEarns(s: RaceState, es: seq<RaceEvent>, m: nat)
    requires m <= |es| && s.attempts == map[] && s.cancels == map[] && s.saves == []
    ensures AllEarn(s, es, m)
  {
    if m == 0 {
      assert es[..0] == [];
    } else {
      RaceEarns(s, es, m - 1);
      StepEarns(s, es, m - 1);
    }
  }

  /** Whoever wins was entitled to. In every run, timely or not, each ACCEPTED save was made by an
      attempt whose user was on the pending set at an earlier step, for a driver and with a vehicle
      that calls of this attempt had answered, and the vehicle suits, holds and is equipped for the
      cargo of the booking; and the row's cargo never changes. */
  lemma WinnersAreEntitled(cargo: Option<Cargo>, users: set<UserId>, es: seq<RaceEvent>)
    ensures var s := Dispatched(cargo, users);
            && Race(s, es).row.cargo == cargo
            && forall i :: 0 <= i < |Race(s, es).saves| ==> Earned(s, es, |es|, Race(s, es).saves[i])
  {
    var s := Dispatched(cargo, users);
    RaceEarns(s, es, |es|);
    assert es[..|es|] == es;
  }

  /** What handler p has to show for where it stands. */
  ghost predicate HandlerEarns(s: RaceState, es: seq<RaceEvent>, m: nat, p: nat, pc: CancelPc)
    requires m <= |es|
  {
    && (pc.RemoveUser? ==>
          exists i :: && 0 <= i < m
                      && (es[i] == DisconnectArrives(p, pc.user) || (es[i] == CancelSteps(p, false) && pc.user in Race(s, es[..i]).pending)))
    && (pc.ReadStatus? ==>
          exists i :: && 0 <= i < m && Rests(es, i, m, p)
                      && (es[i] == JobArrives(p) || (es[i] == CancelSteps(p, false) && Race(s, es[..i]).pending == {})))
  }

  lemma HandlerStillEarns(s: RaceState, es: seq<RaceEvent>, m: nat, p: nat, pc: CancelPc)
    requires m < |es| && HandlerEarns(s, es, m, p, pc) && !(es[m].CancelSteps? && es[m].p == p)
    ensures HandlerEarns(s, es, m + 1, p, pc)
  {
    if pc.ReadStatus? {
      var i :| && 0 <= i < m && Rests(es, i, m, p)
               && (es[i] == JobArrives(p) || (es[i] == CancelSteps(p, false) && Race(s, es[..i]).pending == {}));
      assert Rests(es, i, m + 1, p);
    }
  }

  lemma {:induction false} HandlersEarn(s: RaceState, es: seq<RaceEvent>, m: nat, p: nat)
    requires m <= |es| && s.cancels == map[] && p in Race(s, es[..m]).cancels
    ensures HandlerEarns(s, es, m, p, Race(s, es[..m]).cancels[p])
  {
    assert es[..0] == [];
    if m > 0 {
      var n := m - 1;
      RaceNext(s, es, n);
      var t, e := Race(s, es[..n]), es[n];
      if p in t.cancels && !(e.CancelSteps? && e.p == p) {
        HandlersEarn(s, es, n, p);
        HandlerRests(t, e, p);
        HandlerStillEarns(s, es, n, p, t.cancels[p]);
      } else {
        HandlerMoves(t, e, p);
        assert Rests(es, n, m, p);
      }
    }
  }

  lemma HandlerRests(t: RaceState, e: RaceEvent, p: nat)
    requires p in t.cancels && !(e.CancelSteps? && e.p == p)
    ensures p in RaceStep(t, e).cancels && RaceStep(t, e).cancels[p] == t.cancels[p]
  {
  }

  lemma HandlerMoves(t: RaceState, e: RaceEvent, p: nat)
    requires p in RaceStep(t, e).cancels && (p !in t.cancels || (e.CancelSteps? && e.p == p))
    ensures var pc := RaceStep(t, e).cancels[p];
            && (pc.RemoveUser? ==> e == DisconnectArrives(p, pc.user) || (e == CancelSteps(p, false) && pc.user in t.pending))
            && (pc.ReadStatus? ==> e == JobArrives(p) || (e == CancelSteps(p, false) && t.pending == {}))
  {
  }

  /** Who may cancel. In every run a handler reads the status, with step m, only if it is a timeout
      job that has just started, or a rejection or disconnect whose last move found the pending set
      empty; and it removes a user only if it is that user's disconnect, or found the user pending. */
  lemma CancelsAreEntitled(cargo: Option<Cargo>, users: set<UserId>, es: seq<RaceEvent>, m: nat, p: nat)
    requires m < |es| && p in Race(Dispatched(cargo, users), es[..m]).cancels
    ensures var s := Dispatched(cargo, users);
            var pc := Race(s, es[..m]).cancels[p];
            && (pc.ReadStatus? ==>
                  exists i :: && 0 <= i < m && Rests(es, i, m, p)
                              && (es[i] == JobArrives(p) || (es[i] == CancelSteps(p, false) && Race(s, es[..i]).pending == {})))
            && (pc.RemoveUser? ==>
                  exists i :: && 0 <= i < m
                              && (es[i] == DisconnectArrives(p, pc.user) || (es[i] == CancelSteps(p, false) && pc.user in Race(s, es[..i]).pending)))
  {
    HandlersEarn(Dispatched(cargo, users), es, m, p);
  }

  /** Nobody joins the pending set, and whoever leaves it was removed alone by a rejection or
      disconnect, or the whole set went: by expiry, after a success or after a cancellation. */
  lemma WhoLeavesPending(s: RaceState, e: RaceEvent)
    ensures var t := RaceStep(s, e);
            || t.pending == s.pending
            || (e.CancelSteps? && !e.throws && e.p in s.cancels && s.cancels[e.p].RemoveUser? && t.pending == s.pending - {s.cancels[e.p].user})
            || (t.pending == {} && (|| e.PendingExpires?
                                    || (e.AcceptSteps? && t.successes == s.successes + [e.a])
                                    || (e.CancelSteps? && t.cancels != s.cancels && t.alloc == None && t.lock == None)))
  {
  }

  /** A success is told only after its own save, and with the booking's keys gone; an attempt that
      saved nothing and ends its lock section gives the lock up, unless that call throws or the
      booking was decided. */
  lemma HowAttemptsEnd(s: RaceState, a: nat, r: Reply)
    requires a in s.attempts
    ensures var t := StepAttempt(s, a, r);
            && (t.successes != s.successes ==>
                  t.successes == s.successes + [a] && AfterSave(s.attempts[a].pc) && t.pending == {} && t.alloc == None && t.lock == None)
            && (s.attempts[a].pc.Unlocking? && !r.throws ==> t.lock == None)
            && (InSection(s.attempts[a].pc) && t.attempts[a].pc == Ended(false) ==>
                  t.lock == None || r.throws || !s.row.status.Pending?)
  {
  }

  // ----- what the two assumptions are for -----

  lemma {:induction false} RaceConcat(s: RaceState, xs: seq<RaceEvent>, ys: seq<RaceEvent>)
    ensures Race(s, xs + ys) == Race(Race(s, xs), ys)
    ensures Timely(s, xs + ys) <==> Timely(s, xs) && Timely(Race(s, xs), ys)
    decreases |xs|
  {
    if xs == [] {
      assert xs + ys == ys;
    } else {
      assert (xs + ys)[0] == xs[0] && (xs + ys)[1..] == xs[1..] + ys;
      RaceConcat(RaceStep(s, xs[0]), xs[1..], ys);
    }
  }

  /** n undisturbed steps of attempt a, every call answering r. */
  function Steps(a: nat, r: Reply, n: nat): seq<RaceEvent> {
    if n == 0 then [] else [AcceptSteps(a, r)] + Steps(a, r, n - 1)
  }

  lemma OneStep(s: RaceState, a: nat, r: Reply, n: nat)
    requires n > 0 && a in s.attempts
    ensures Race(s, Steps(a, r, n)) == Race(StepAttempt(s, a, r), Steps(a, r, n - 1))
    ensures Timely(s, Steps(a, r, n)) <==> InTime(StepAttempt(s, a, r)) && Timely(StepAttempt(s, a, r), Steps(a, r, n - 1))
  {
    assert Steps(a, r, n)[1..] == Steps(a, r, n - 1);
  }

  predicate Answers(r: Reply) { !r.throws && r.driver.Some? && r.vehicle.Some? }

  /** Two steps take a fresh attempt into the section, three more to the brink of the save. */
  lemma ReachSection(s: RaceState, a: nat, r: Reply)
    requires a in s.attempts && s.attempts[a].pc.CheckPending? && s.attempts[a].user in s.pending
    requires s.lock.None? && !r.throws
    ensures var t := s.(lock := Some(Lock(a, s.attempts[a].user, s.now + LOCK_TTL)),
                        attempts := s.attempts[a := Attempt(s.attempts[a].user, s.now, FindDriver)]);
            && Race(s, Steps(a, r, 5)) == Race(t, Steps(a, r, 3))
            && (InTime(s) ==> InTime(t) && (Timely(t, Steps(a, r, 3)) ==> Timely(s, Steps(a, r, 5))))
  {
    OneStep(s, a, r, 5);
    var s1 := StepAttempt(s, a, r);
    OneStep(s1, a, r, 4);
    var s2 := StepAttempt(s1, a, r);
    assert s2.attempts == s.attempts[a := Attempt(s.attempts[a].user, s.now, FindDriver)];
  }

  lemma ReadAndCheck(s: RaceState, a: nat, r: Reply)
    requires a in s.attempts && s.attempts[a].pc.FindDriver?
    requires s.row.status.Pending? && s.row.cargo.None? && Answers(r)
    ensures Race(s, Steps(a, r, 3)) == SetPc(s, a, SaveRow(r.driver.value, r.vehicle.value, s.row))
    ensures InTime(s) ==> Timely(s, Steps(a, r, 3))
  {
    OneStep(s, a, r, 3);
    var s1 := StepAttempt(s, a, r);
    OneStep(s1, a, r, 2);
    var s2 := StepAttempt(s1, a, r);
    OneStep(s2, a, r, 1);
    var s3 := StepAttempt(s2, a, r);
    assert s3.attempts == s.attempts[a := s3.attempts[a]];
  }

  lemma ReachSave(s: RaceState, a: nat, r: Reply)
    requires a in s.attempts && s.attempts[a].pc.CheckPending? && s.attempts[a].user in s.pending
    requires s.lock.None? && s.row.status.Pending? && s.row.cargo.None? && Answers(r)
    ensures Race(s, Steps(a, r, 5)) == s.(
              lock := Some(Lock(a, s.attempts[a].user, s.now + LOCK_TTL)),
              attempts := s.attempts[a := Attempt(s.attempts[a].user, s.now, SaveRow(r.driver.value, r.vehicle.value, s.row))])
    ensures InTime(s) ==> Timely(s, Steps(a, r, 5))
  {
    ReachSection(s, a, r);
    var t := s.(lock := Some(Lock(a, s.attempts[a].user, s.now + LOCK_TTL)),
                attempts := s.attempts[a := Attempt(s.attempts[a].user, s.now, FindDriver)]);
    ReadAndCheck(t, a, r);
    assert t.attempts[a := t.attempts[a].(pc := SaveRow(r.driver.value, r.vehicle.value, s.row))]
        == s.attempts[a := Attempt(s.attempts[a].user, s.now, SaveRow(r.driver.value, r.vehicle.value, s.row))];
  }

  /** Three steps after the save the booking's keys are gone and the attempt reports success. */
  lemma ReportSuccess(s: RaceState, a: nat, r: Reply)
    requires a in s.attempts && s.attempts[a].pc.WriteStatus? && Answers(r)
    ensures Race(s, Steps(a, r, 3)) == s.(
              successes := s.successes + [a], pending := {}, alloc := None, lock := None,
              attempts := s.attempts[a := s.attempts[a].(pc := Ended(true))])
    ensures InTime(s) ==> Timely(s, Steps(a, r, 3))
  {
    OneStep(s, a, r, 3);
    var s1 := StepAttempt(s, a, r);
    OneStep(s1, a, r, 2);
    var s2 := StepAttempt(s1, a, r);
    OneStep(s2, a, r, 1);
    var s3 := StepAttempt(s2, a, r);
    assert s3.attempts == s.attempts[a := s3.attempts[a]];
  }

  /** Four steps save the booking and report success. */
  lemma Finish(s: RaceState, a: nat, r: Reply)
    requires a in s.attempts && s.attempts[a].pc.SaveRow? && Answers(r)
    ensures var pc := s.attempts[a].pc;
            var row := pc.read.(status := Accepted, driverId := Some(pc.driver), vehicleId := Some(pc.vehicle.id));
            Race(s, Steps(a, r, 4)) == s.(
              row := row, saves := s.saves + [Saved(a, s.attempts[a].user, row)], successes := s.successes + [a],
              pending := {}, alloc := None, lock := None,
              attempts := s.attempts[a := s.attempts[a].(pc := Ended(true))])
    ensures InTime(s) ==> Timely(s, Steps(a, r, 4))
  {
    OneStep(s, a, r, 4);
    var s1 := StepAttempt(s, a, r);
    ReportSuccess(s1, a, r);
    assert s1.attempts[a := s1.attempts[a].(pc := Ended(true))] == s.attempts[a := s.attempts[a].(pc := Ended(true))];
  }

  /** Attempt 1 pauses for dt on the brink of its save while attempt 2 runs. */
  function PausedRun(u: UserId, w: UserId, r: Reply, dt: nat): seq<RaceEvent> {
    [AcceptArrives(1, u), AcceptArrives(2, w)] + Steps(1, r, 5) + [RaceEvent.TimePasses(dt)]
    + Steps(2, r, 5) + Steps(1, r, 4) + Steps(2, r, 4)
  }

  lemma {:induction false} EndedStays(s: RaceState, a: nat, r: Reply, n: nat)
    requires a in s.attempts && s.attempts[a].pc.Ended?
    ensures Race(s, Steps(a, r, n)) == s
  {
    if n > 0 {
      OneStep(s, a, r, n);
      EndedStays(s, a, r, n - 1);
    }
  }

  lemma LoseRace(s: RaceState, a: nat, r: Reply)
    requires a in s.attempts && s.attempts[a].pc.CheckPending? && s.lock.Some?
    ensures Race(s, Steps(a, r, 5)) == s.(attempts := s.attempts[a := s.attempts[a].(pc := Ended(false))])
  {
    OneStep(s, a, r, 5);
    var s1 := StepAttempt(s, a, r);
    OneStep(s1, a, r, 4);
    var s2 := StepAttempt(s1, a, r);
    EndedStays(s2, a, r, 3);
    assert s2.attempts == s.attempts[a := s.attempts[a].(pc := Ended(false))];
  }

  /** The time limit is exact: with a pause of dt before the save, the booking has one winner if
      and only if dt is shorter than the 30 s of the lock; otherwise both attempts save and both
      are told they succeeded. */
  lemma LockLifeIsExact(users: set<UserId>, u: UserId, w: UserId, r: Reply, dt: nat)
    requires u in users && w in users && Answers(r)
    ensures var t := Race(Dispatched(None, users), PausedRun(u, w, r, dt));
            if dt < 30_000 then t.successes == [1] && |t.saves| == 1 else t.successes == [1, 2] && |t.saves| == 2
  {
    var s0 := Dispatched(None, users);
    var arrive := [AcceptArrives(1, u), AcceptArrives(2, w)];
    var pause := [RaceEvent.TimePasses(dt)];
    RaceConcat(s0, arrive + Steps(1, r, 5) + pause + Steps(2, r, 5) + Steps(1, r, 4), Steps(2, r, 4));
    RaceConcat(s0, arrive + Steps(1, r, 5) + pause + Steps(2, r, 5), Steps(1, r, 4));
    RaceConcat(s0, arrive + Steps(1, r, 5) + pause, Steps(2, r, 5));
    RaceConcat(s0, arrive + Steps(1, r, 5), pause);
    RaceConcat(s0, arrive, Steps(1, r, 5));
    var s1 := RaceStep(RaceStep(s0, AcceptArrives(1, u)), AcceptArrives(2, w));
    assert arrive[1..] == [AcceptArrives(2, w)] && arrive[1..][1..] == [];
    assert Race(RaceStep(s0, arrive[0]), arrive[1..]) == s1;
    ReachSave(s1, 1, r);
    var s2 := Race(s1, Steps(1, r, 5));
    var s3 := RaceStep(s2, RaceEvent.TimePasses(dt));
    assert pause[1..] == [];
    assert Race(s2, pause) == s3;
    if dt < LOCK_TTL {
      LoseRace(s3, 2, r);
      var s4 := Race(s3, Steps(2, r, 5));
      Finish(s4, 1, r);
      EndedStays(Race(s4, Steps(1, r, 4)), 2, r, 4);
    } else {
      ReachSave(s3, 2, r);
      var s4 := Race(s3, Steps(2, r, 5));
      Finish(s4, 1, r);
      Finish(Race(s4, Steps(1, r, 4)), 2, r);
    }
  }

  /** The status is written, the job is queued and fires 60 s later, and a driver accepts. */
  function StartOfUndo(u: UserId): seq<RaceEvent> {
    [DispatcherWritesStatus, RaceEvent.TimePasses(JOB_DELAY), JobArrives(0)]
    + [CancelSteps(0, false), CancelSteps(0, false), AcceptArrives(1, u)]
  }

  lemma ThreeSteps(s: RaceState, e1: RaceEvent, e2: RaceEvent, e3: RaceEvent)
    ensures Race(s, [e1, e2, e3]) == RaceStep(RaceStep(RaceStep(s, e1), e2), e3)
    ensures Timely(s, [e1, e2, e3])
            <==> InTime(RaceStep(s, e1)) && InTime(RaceStep(RaceStep(s, e1), e2))
                 && InTime(RaceStep(RaceStep(RaceStep(s, e1), e2), e3))
  {
    var s1 := RaceStep(s, e1);
    var s2 := RaceStep(s1, e2);
    var s3 := RaceStep(s2, e3);
    assert [e1, e2, e3][1..] == [e2, e3] && [e2, e3][1..] == [e3] && [e3][1..] == [];
    assert Race(s3, []) == s3 && Timely(s3, []);
    assert Race(s2, [e3]) == s3 && (Timely(s2, [e3]) <==> InTime(s3));
    assert Race(s1, [e2, e3]) == s3 && (Timely(s1, [e2, e3]) <==> InTime(s2) && InTime(s3));
  }

  /** A job that has read the status and is about to read the row, and a fresh acceptance. */
  lemma UndoStarts(users: set<UserId>, u: UserId)
    ensures var s := Dispatched(None, users);
            && Timely(s, StartOfUndo(u))
            && Race(s, StartOfUndo(u)) == s.(now := JOB_DELAY, alloc := Some(AllocPending),
                                            cancels := map[0 := SaveCancelled(s.row)],
                                            attempts := map[1 := Attempt(u, JOB_DELAY, CheckPending)])
  {
    var s := Dispatched(None, users);
    var first := [DispatcherWritesStatus, RaceEvent.TimePasses(JOB_DELAY), JobArrives(0)];
    var second := [CancelSteps(0, false), CancelSteps(0, false), AcceptArrives(1, u)];
    RaceConcat(s, first, second);
    ThreeSteps(s, first[0], first[1], first[2]);
    var t := s.(now := JOB_DELAY, alloc := Some(AllocPending), cancels := map[0 := ReadStatus]);
    assert Race(s, first) == t;
    ThreeSteps(t, second[0], second[1], second[2]);
    var t2 := t.(cancels := map[0 := ReadRow]);
    assert RaceStep(t, second[0]) == t2;
    assert RaceStep(t2, second[1]) == t.(cancels := map[0 := SaveCancelled(s.row)]);
  }

  lemma FourParts(s: RaceState, xs: seq<RaceEvent>, ys: seq<RaceEvent>, zs: seq<RaceEvent>, last: seq<RaceEvent>)
    ensures Race(s, xs + ys + zs + last) == Race(Race(Race(Race(s, xs), ys), zs), last)
    ensures Timely(s, xs + ys + zs + last)
            <==> Timely(s, xs) && Timely(Race(s, xs), ys) && Timely(Race(Race(s, xs), ys), zs)
                 && Timely(Race(Race(Race(s, xs), ys), zs), last)
  {
    RaceConcat(s, xs + ys + zs, last);
    RaceConcat(s, xs + ys, zs);
    RaceConcat(s, xs, ys);
  }

  lemma UndoEnds(s: RaceState, read: Row)
    requires s.cancels == map[0 := SaveCancelled(read)] && InTime(s)
    ensures Race(s, [CancelSteps(0, false)]) == s.(cancels := map[0 := WriteTimeout], row := read.(status := Cancelled))
    ensures Timely(s, [CancelSteps(0, false)])
  {
    var t := RaceStep(s, CancelSteps(0, false));
    assert t.cancels == map[0 := WriteTimeout];
    assert [CancelSteps(0, false)][1..] == [] && Race(t, []) == t;
  }

  // ----- when an acceptance survives, await by await -----

  /** Handler p, taking step i of the run, finds a status other than ACCEPTED and goes on to cancel. */
  ghost predicate PassesGuard(s: RaceState, es: seq<RaceEvent>, i: nat, p: nat)
    requires i < |es|
  {
    var t := Race(s, es[..i]);
    es[i] == CancelSteps(p, false) && p in t.cancels && t.cancels[p].ReadStatus? && t.alloc != Some(AllocAccepted)
  }

  /** Handler p saves CANCELLED with step j of the run. */
  ghost predicate Cancels(s: RaceState, es: seq<RaceEvent>, j: nat, p: nat)
    requires j < |es|
  {
    var t := Race(s, es[..j]);
    es[j] == CancelSteps(p, false) && p in t.cancels && t.cancels[p].SaveCancelled?
  }

  predicate PastGuard(pc: CancelPc) { pc.ReadRow? || pc.SaveCancelled? }

  /** Handler p makes no move in the steps strictly between lo and hi. */
  predicate Rests(es: seq<RaceEvent>, lo: nat, hi: nat, p: nat)
    requires hi <= |es|
  {
    forall k :: lo < k < hi ==> !(es[k].CancelSteps? && es[k].p == p)
  }

  /** The move of handler p after the one at i is at k, and its call does not throw. */
  predicate NextMove(es: seq<RaceEvent>, i: nat, k: nat, p: nat)
    requires k < |es|
  {
    i < k && Rests(es, i, k, p) && es[k] == CancelSteps(p, false)
  }

  lemma RaceNext(s: RaceState, es: seq<RaceEvent>, i: nat)
    requires i < |es|
    ensures Race(s, es[..i + 1]) == RaceStep(Race(s, es[..i]), es[i])
    ensures Timely(s, es) ==> Timely(s, es[..i]) && InTime(Race(s, es[..i + 1]))
  {
    assert es == es[..i] + es[i..] && es[..i + 1] == es[..i] + [es[i]];
    RaceConcat(s, es[..i], es[i..]);
    RaceConcat(s, es[..i], [es[i]]);
    var t := Race(s, es[..i]);
    assert [es[i]][1..] == [] && Race(RaceStep(t, es[i]), []) == RaceStep(t, es[i]);
    assert es[i..][0] == es[i];
  }

  /** A handler past the guard has passed it at some step, and has not moved since, or once. */
  ghost predicate CameFrom(s: RaceState, es: seq<RaceEvent>, m: nat, p: nat, pc: CancelPc)
    requires m <= |es|
  {
    if pc.ReadRow? then exists i :: 0 <= i < m && PassesGuard(s, es, i, p) && Rests(es, i, m, p)
    else exists i, k :: 0 <= i < k < m && PassesGuard(s, es, i, p) && NextMove(es, i, k, p) && Rests(es, k, m, p)
  }

  lemma {:induction false} PassedBefore(s: RaceState, es: seq<RaceEvent>, m: nat, p: nat)
    requires s.cancels == map[] && m <= |es|
    requires p in Race(s, es[..m]).cancels && PastGuard(Race(s, es[..m]).cancels[p])
    ensures CameFrom(s, es, m, p, Race(s, es[..m]).cancels[p])
  {
    assert es[..0] == [];
    if m > 0 {
      RaceNext(s, es, m - 1);
      var t, e := Race(s, es[..m - 1]), es[m - 1];
      if p in t.cancels && PastGuard(t.cancels[p]) {
        PassedBefore(s, es, m - 1, p);
        StaysPast(t, e, p);
        StillCameFrom(s, es, m - 1, p, t.cancels[p]);
      } else {
        StartsPast(t, e, p);
        assert PassesGuard(s, es, m - 1, p) && Rests(es, m - 1, m, p);
      }
    }
  }

  lemma StillCameFrom(s: RaceState, es: seq<RaceEvent>, m: nat, p: nat, pc: CancelPc)
    requires m < |es| && PastGuard(pc) && CameFrom(s, es, m, p, pc)
    ensures !(es[m].CancelSteps? && es[m].p == p) ==> CameFrom(s, es, m + 1, p, pc)
    ensures pc.ReadRow? && es[m] == CancelSteps(p, false) ==>
              exists i, k :: 0 <= i < k < m + 1 && PassesGuard(s, es, i, p) && NextMove(es, i, k, p) && Rests(es, k, m + 1, p)
  {
    if pc.ReadRow? {
      var i :| 0 <= i < m && PassesGuard(s, es, i, p) && Rests(es, i, m, p);
      if !(es[m].CancelSteps? && es[m].p == p) { assert Rests(es, i, m + 1, p); }
      if es[m] == CancelSteps(p, false) { assert NextMove(es, i, m, p) && Rests(es, m, m + 1, p); }
    } else {
      var i, k :| 0 <= i < k < m && PassesGuard(s, es, i, p) && NextMove(es, i, k, p) && Rests(es, k, m, p);
      if !(es[m].CancelSteps? && es[m].p == p) { assert Rests(es, k, m + 1, p); }
    }
  }

  /** A handler past the guard stays where it is until it moves, and then goes from reading to saving. */
  lemma StaysPast(s: RaceState, e: RaceEvent, p: nat)
    requires p in s.cancels && PastGuard(s.cancels[p])
    ensures var t := RaceStep(s, e);
            && p in t.cancels
            && (!(e.CancelSteps? && e.p == p) ==> t.cancels[p] == s.cancels[p])
            && (PastGuard(t.cancels[p]) && e.CancelSteps? && e.p == p ==>
                  e == CancelSteps(p, false) && s.cancels[p].ReadRow? && t.cancels[p].SaveCancelled?)
            && (e == CancelSteps(p, false) && s.cancels[p].ReadRow? ==> t.cancels[p].SaveCancelled?)
  {
  }

  lemma StartsPast(s: RaceState, e: RaceEvent, p: nat)
    requires p in s.cancels ==> !PastGuard(s.cancels[p])
    requires p in RaceStep(s, e).cancels && PastGuard(RaceStep(s, e).cancels[p])
    ensures e == CancelSteps(p, false) && p in s.cancels && s.cancels[p].ReadStatus? && s.alloc != Some(AllocAccepted)
  {
  }

  /** Once somebody has saved, the row changes only when a handler saves CANCELLED, and for good. */
  lemma SavedRowStep(s: RaceState, e: RaceEvent)
    requires RaceInv(s) && s.saves != []
    ensures RaceStep(s, e).saves == s.saves
    ensures if e.CancelSteps? && !e.throws && e.p in s.cancels && s.cancels[e.p].SaveCancelled?
            then RaceStep(s, e).row.status.Cancelled? else RaceStep(s, e).row == s.row
  {
    if e.AcceptSteps? { assert AttemptOk(s, e.a); }
  }

  lemma {:induction false} SurvivesOrCancelled(s: RaceState, es: seq<RaceEvent>, n: nat, m: nat)
    requires RaceInv(s) && Timely(s, es) && n <= m <= |es| && Race(s, es[..n]).row.status.Accepted?
    ensures if exists j, p :: n <= j < m && Cancels(s, es, j, p)
            then Race(s, es[..m]).row.status.Cancelled?
            else Race(s, es[..m]).row == Race(s, es[..n]).row
    ensures RaceInv(Race(s, es[..m])) && Race(s, es[..m]).saves != []
  {
    if m == n {
      assert es == es[..n] + es[n..];
      RaceConcat(s, es[..n], es[n..]);
      RaceKeepsInv(s, es[..n]);
    } else {
      SurvivesOrCancelled(s, es, n, m - 1);
      RaceNext(s, es, m - 1);
      var t, e := Race(s, es[..m - 1]), es[m - 1];
      RaceStepKeepsInv(t, e);
      SavedRowStep(t, e);
      if e.CancelSteps? && !e.throws && e.p in t.cancels && t.cancels[e.p].SaveCancelled? {
        assert Cancels(s, es, m - 1, e.p);
      } else {
        var k := m - 1;
        forall p ensures !Cancels(s, es, k, p) {}
        assert (exists j, p :: n <= j < m && Cancels(s, es, j, p)) <==> (exists j, p :: n <= j < m - 1 && Cancels(s, es, j, p));
      }
    }
  }

  /** A booking ACCEPTED after n steps is ACCEPTED at the end unless a handler saves CANCELLED after
      that; a handler that does has found another status than ACCEPTED before. */
  lemma SurvivesUnlessCancelled(cargo: Option<Cargo>, users: set<UserId>, es: seq<RaceEvent>, n: nat)
    requires Timely(Dispatched(cargo, users), es) && n <= |es|
    requires Race(Dispatched(cargo, users), es[..n]).row.status.Accepted?
    ensures var s := Dispatched(cargo, users);
            var undone := exists i, j, p :: 0 <= i < j < |es| && n <= j && PassesGuard(s, es, i, p) && Cancels(s, es, j, p);
            && (Race(s, es).row.status.Accepted? <==> !undone)
            && (if undone then Race(s, es).row.status.Cancelled? else Race(s, es).row == Race(s, es[..n]).row)
  {
    var s := Dispatched(cargo, users);
    SurvivesOrCancelled(s, es, n, |es|);
    assert es[..|es|] == es;
    forall j, p | n <= j < |es| && Cancels(s, es, j, p)
      ensures exists i :: 0 <= i < j && PassesGuard(s, es, i, p)
    {
      PassedBefore(s, es, j, p);
    }
  }

  /** The winner writes ACCEPTED to the status key. */
  predicate WritesAccepted(s: RaceState, e: RaceEvent) {
    e.AcceptSteps? && !e.reply.throws && e.a in s.attempts && s.attempts[e.a].pc.WriteStatus?
  }

  /** Something else happens to the status key: it expires, is cleared after a success or a timeout,
      or is overwritten by the dispatcher or a timeout. */
  predicate LosesAccepted(s: RaceState, e: RaceEvent) {
    || e.StatusExpires? || e.DispatcherWritesStatus?
    || (e.AcceptSteps? && !e.reply.throws && e.a in s.attempts && s.attempts[e.a].pc.ClearKeys?)
    || (e.CancelSteps? && !e.throws && e.p in s.cancels && (s.cancels[e.p].WriteTimeout? || s.cancels[e.p].ClearCancelled?))
  }

  lemma StatusStep(s: RaceState, e: RaceEvent)
    ensures RaceStep(s, e).alloc == Some(AllocAccepted)
            <==> WritesAccepted(s, e) || (s.alloc == Some(AllocAccepted) && !LosesAccepted(s, e))
  {
  }

  /** The winner writes ACCEPTED with step i, and the key is not lost again before step m. */
  ghost predicate AcceptedStands(s: RaceState, es: seq<RaceEvent>, i: nat, m: nat)
    requires i < m <= |es|
  {
    WritesAccepted(Race(s, es[..i]), es[i]) && forall j :: i < j < m ==> !LosesAccepted(Race(s, es[..j]), es[j])
  }

  /** What the guard sees, from the history alone: ACCEPTED if and only if the winner has written it
      and nothing has expired, cleared or overwritten the key since. So a handler passes the guard
      before that write or after one of these, be it the success clearing the booking's keys. */
  lemma {:induction false} GuardSeesAcceptedExactly(s: RaceState, es: seq<RaceEvent>, m: nat)
    requires s.alloc != Some(AllocAccepted) && m <= |es|
    ensures Race(s, es[..m]).alloc == Some(AllocAccepted)
            <==> exists i :: 0 <= i < m && AcceptedStands(s, es, i, m)
  {
    if m == 0 {
      assert es[..0] == [];
    } else {
      var n := m - 1;
      GuardSeesAcceptedExactly(s, es, n);
      RaceNext(s, es, n);
      var t, e := Race(s, es[..n]), es[n];
      StatusStep(t, e);
      assert AcceptedStands(s, es, n, m) <==> WritesAccepted(t, e);
      if i :| 0 <= i < n && AcceptedStands(s, es, i, n) {
        assert !LosesAccepted(t, e) ==> AcceptedStands(s, es, i, m);
      }
      forall i | 0 <= i < n && AcceptedStands(s, es, i, m) ensures AcceptedStands(s, es, i, n) && !LosesAccepted(t, e) {}
    }
  }

  // ----- the same from the schedule and the status reads alone -----

  /** Step i is an unfailing status read of handler p that the history does not guard: whenever the
      winner had written ACCEPTED, the key was expired, cleared or overwritten again. */
  ghost predicate ReadsUnguarded(s: RaceState, es: seq<RaceEvent>, i: nat, p: nat)
    requires i < |es|
  {
    && es[i] == CancelSteps(p, false)
    && (var t := Race(s, es[..i]); p in t.cancels && t.cancels[p].ReadStatus?)
    && !exists k :: 0 <= k < i && AcceptedStands(s, es, k, i)
  }

  /** p's next two calls after step i, at k and j, both go through. */
  predicate GoesOn(es: seq<RaceEvent>, i: nat, k: nat, j: nat, p: nat)
    requires j < |es| && k < |es|
  {
    NextMove(es, i, k, p) && NextMove(es, k, j, p)
  }

  lemma UnguardedPasses(s: RaceState, es: seq<RaceEvent>, i: nat, p: nat)
    requires s.alloc != Some(AllocAccepted) && i < |es|
    ensures ReadsUnguarded(s, es, i, p) <==> PassesGuard(s, es, i, p)
  {
    GuardSeesAcceptedExactly(s, es, i);
  }

  /** A handler stays past its guard while it rests. */
  lemma {:induction false} RestsWhereItIs(s: RaceState, es: seq<RaceEvent>, lo: nat, hi: nat, p: nat)
    requires lo < hi <= |es| && Rests(es, lo, hi, p)
    requires p in Race(s, es[..lo + 1]).cancels && PastGuard(Race(s, es[..lo + 1]).cancels[p])
    ensures p in Race(s, es[..hi]).cancels && Race(s, es[..hi]).cancels[p] == Race(s, es[..lo + 1]).cancels[p]
    decreases hi
  {
    if hi > lo + 1 {
      RestsWhereItIs(s, es, lo, hi - 1, p);
      RaceNext(s, es, hi - 1);
      StaysPast(Race(s, es[..hi - 1]), es[hi - 1], p);
    }
  }

  /** Past the guard nothing stands between a handler and its save but its own two calls. */
  lemma GoingOnCancels(s: RaceState, es: seq<RaceEvent>, i: nat, k: nat, j: nat, p: nat)
    requires i < k < j < |es| && PassesGuard(s, es, i, p) && GoesOn(es, i, k, j, p)
    ensures Cancels(s, es, j, p)
  {
    RaceNext(s, es, i);
    RestsWhereItIs(s, es, i, k, p);
    RaceNext(s, es, k);
    StaysPast(Race(s, es[..k]), es[k], p);
    RestsWhereItIs(s, es, k, j, p);
  }

  lemma CancelsWasUnguarded(s: RaceState, es: seq<RaceEvent>, j: nat, p: nat)
    requires s.cancels == map[] && s.alloc != Some(AllocAccepted) && j < |es| && Cancels(s, es, j, p)
    ensures exists i, k :: 0 <= i < k < j && ReadsUnguarded(s, es, i, p) && GoesOn(es, i, k, j, p)
  {
    PassedBefore(s, es, j, p);
    var i, k :| 0 <= i < k < j && PassesGuard(s, es, i, p) && NextMove(es, i, k, p) && Rests(es, k, j, p);
    UnguardedPasses(s, es, i, p);
    assert GoesOn(es, i, k, j, p);
  }

  /** Exactly when an acceptance survives, over all timely interleavings: the booking ACCEPTED after
      n steps is ACCEPTED at the end, its row unchanged, if and only if there is no handler that read
      the status at a step i, before or after the acceptance, when the winner's write of ACCEPTED was
      not there to be seen, and whose next two calls go through, the second after step n. Otherwise
      the booking ends CANCELLED. */
  lemma AcceptanceSurvivesExactly(cargo: Option<Cargo>, users: set<UserId>, es: seq<RaceEvent>, n: nat)
    requires Timely(Dispatched(cargo, users), es) && n <= |es|
    requires Race(Dispatched(cargo, users), es[..n]).row.status.Accepted?
    ensures var s := Dispatched(cargo, users);
            var undone := exists i, k, j, p ::
              0 <= i < k < j < |es| && n <= j && ReadsUnguarded(s, es, i, p) && GoesOn(es, i, k, j, p);
            && (Race(s, es).row.status.Accepted? <==> !undone)
            && (if undone then Race(s, es).row.status.Cancelled? else Race(s, es).row == Race(s, es[..n]).row)
  {
    var s := Dispatched(cargo, users);
    SurvivesUnlessCancelled(cargo, users, es, n);
    forall i, k, j, p | 0 <= i < k < j < |es| && n <= j && ReadsUnguarded(s, es, i, p) && GoesOn(es, i, k, j, p)
      ensures PassesGuard(s, es, i, p) && Cancels(s, es, j, p)
    {
      UnguardedPasses(s, es, i, p);
      GoingOnCancels(s, es, i, k, j, p);
    }
    forall j, p | n <= j < |es| && Cancels(s, es, j, p)
      ensures exists i, k :: 0 <= i < k < j && ReadsUnguarded(s, es, i, p) && GoesOn(es, i, k, j, p)
    {
      CancelsWasUnguarded(s, es, j, p);
    }
  }

  /** The guard alone: when nobody is past it and every later status read finds ACCEPTED, the saved
      row stays as it is. */
  lemma {:induction false} GuardedRowSurvives(s: RaceState, es: seq<RaceEvent>)
    requires RaceInv(s) && Timely(s, es) && s.saves != []
    requires forall p :: p in s.cancels ==> !PastGuard(s.cancels[p])
    requires forall i, p :: 0 <= i < |es| ==> !PassesGuard(s, es, i, p)
    ensures Race(s, es).row == s.row
    decreases |es|
  {
    if es != [] {
      var t := RaceStep(s, es[0]);
      assert es[..0] == [];
      forall p | p in t.cancels ensures !PastGuard(t.cancels[p]) {
        assert !PassesGuard(s, es, 0, p);
        if PastGuard(t.cancels[p]) {
          StartsPast(s, es[0], p);
          assert false;
        }
      }
      forall i, p | 0 <= i < |es[1..]| ensures !PassesGuard(t, es[1..], i, p) {
        assert es[..i + 1][1..] == es[1..][..i];
        assert !PassesGuard(s, es, i + 1, p);
      }
      RaceStepKeepsInv(s, es[0]);
      SavedRowStep(s, es[0]);
      GuardedRowSurvives(t, es[1..]);
    }
  }

  /** A timeout that passes the guard before the winner's status write: it has read the booking as
      PENDING, the acceptance completes and reports success, and then the timeout saves CANCELLED.
      So the timeout safety of module AllocationSafety is a fact about whole handlers only. */
  lemma TimeoutCanUndoAcceptance(users: set<UserId>, u: UserId, r: Reply)
    requires u in users && Answers(r)
    ensures exists es :: Timely(Dispatched(None, users), es)
                         && Race(Dispatched(None, users), es).successes == [1]
                         && Race(Dispatched(None, users), es).row.status.Cancelled?
  {
    var s0 := Dispatched(None, users);
    FourParts(s0, StartOfUndo(u), Steps(1, r, 5), Steps(1, r, 4), [CancelSteps(0, false)]);
    UndoStarts(users, u);
    var s1 := Race(s0, StartOfUndo(u));
    ReachSave(s1, 1, r);
    var s2 := Race(s1, Steps(1, r, 5));
    Finish(s2, 1, r);
    var s3 := Race(s2, Steps(1, r, 4));
    UndoEnds(s3, s0.row);
  }

  /** The status is written, and a second later one driver rejects and another accepts. */
  function StartOfRejection(u: UserId, w: UserId): seq<RaceEvent> {
    [DispatcherWritesStatus, RaceEvent.TimePasses(1000), RejectArrives(0, w)]
    + [CancelSteps(0, false), CancelSteps(0, false), AcceptArrives(1, u)]
  }

  /** A rejection that has removed its driver and is about to count, and a fresh acceptance. */
  lemma RejectionStarts(users: set<UserId>, u: UserId, w: UserId)
    requires w in users
    ensures var s := Dispatched(None, users);
            && Timely(s, StartOfRejection(u, w))
            && Race(s, StartOfRejection(u, w)) == s.(now := 1000, pending := users - {w}, alloc := Some(AllocPending),
                                                     cancels := map[0 := CountRemaining],
                                                     attempts := map[1 := Attempt(u, 1000, CheckPending)])
  {
    var s := Dispatched(None, users);
    var first := [DispatcherWritesStatus, RaceEvent.TimePasses(1000), RejectArrives(0, w)];
    var second := [CancelSteps(0, false), CancelSteps(0, false), AcceptArrives(1, u)];
    RaceConcat(s, first, second);
    ThreeSteps(s, first[0], first[1], first[2]);
    var t := s.(now := 1000, alloc := Some(AllocPending), cancels := map[0 := CheckRejecter(w)]);
    assert Race(s, first) == t;
    ThreeSteps(t, second[0], second[1], second[2]);
    var t2 := t.(cancels := map[0 := RemoveUser(w)]);
    assert RaceStep(t, second[0]) == t2;
    assert RaceStep(t2, second[1]) == t.(pending := users - {w}, cancels := map[0 := CountRemaining]);
  }

  function EndOfRejection(): seq<RaceEvent> {
    [CancelSteps(0, false), CancelSteps(0, false), CancelSteps(0, false), CancelSteps(0, false)]
  }

  /** With the keys of the booking gone, the rejection finds nobody pending and no status. */
  lemma RejectionEnds(s: RaceState)
    requires s.cancels == map[0 := CountRemaining] && s.pending == {} && s.alloc.None? && InTime(s)
    ensures Race(s, EndOfRejection()) == s.(cancels := map[0 := WriteTimeout], row := s.row.(status := Cancelled))
    ensures Timely(s, EndOfRejection())
  {
    var es := EndOfRejection();
    var es1, es2, es3 := es[1..], es[2..], es[3..];
    assert es1[1..] == es2 && es2[1..] == es3 && es3[1..] == [];
    var s1 := s.(cancels := map[0 := ReadStatus]);
    var s2 := s.(cancels := map[0 := ReadRow]);
    var s3 := s.(cancels := map[0 := SaveCancelled(s.row)]);
    var s4 := s.(cancels := map[0 := WriteTimeout], row := s.row.(status := Cancelled));
    UndoEnds(s3, s.row);
    assert es3 == [CancelSteps(0, false)];
    assert Timely(s3, es3) && Race(s3, es3) == s4;
    assert RaceStep(s2, es2[0]) == s3;
    assert Timely(s2, es2) && Race(s2, es2) == s4;
    assert RaceStep(s1, es1[0]) == s2;
    assert Timely(s1, es1) && Race(s1, es1) == s4;
    assert RaceStep(s, es[0]) == s1;
  }

  /** A rejection that passes the guard after the success has cleared the booking's keys: all its
      reads come after the success, which left no pending driver and no status behind, so it takes
      itself for the last rejection and saves CANCELLED over the ACCEPTED row it reads. */
  lemma RejectionCanUndoAcceptance(users: set<UserId>, u: UserId, w: UserId, r: Reply)
    requires u in users && w in users && u != w && Answers(r)
    ensures exists es, n ::
      && 0 <= n <= |es| && Timely(Dispatched(None, users), es)
      && Race(Dispatched(None, users), es[..n]).successes == [1]
      && Race(Dispatched(None, users), es[..n]).row.status.Accepted?
      && Race(Dispatched(None, users), es[..n]).cancels == map[0 := CountRemaining]
      && Race(Dispatched(None, users), es).row.status.Cancelled?
  {
    var s0 := Dispatched(None, users);
    var first := StartOfRejection(u, w) + Steps(1, r, 5) + Steps(1, r, 4);
    FourParts(s0, StartOfRejection(u, w), Steps(1, r, 5), Steps(1, r, 4), EndOfRejection());
    RaceConcat(s0, first, EndOfRejection());
    RejectionStarts(users, u, w);
    var s1 := Race(s0, StartOfRejection(u, w));
    ReachSave(s1, 1, r);
    var s2 := Race(s1, Steps(1, r, 5));
    Finish(s2, 1, r);
    var s3 := Race(s2, Steps(1, r, 4));
    FourParts(s0, StartOfRejection(u, w), Steps(1, r, 5), Steps(1, r, 4), []);
    assert first + [] == first && Race(s0, first) == s3;
    RejectionEnds(s3);
    var es := first + EndOfRejection();
    assert es[..|first|] == first;
    assert Race(s0, es[..|first|]) == s3;
  }
}
