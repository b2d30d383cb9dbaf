/** What the runs of the allocation protocol guarantee: decided bookings stay decided, offered
    bookings do not get stuck, the driver index agrees with the pending sets, and assignments are
    sound and available to every driver they were offered to. */
module AllocationSafety {
  import opened Wrappers
  import opened Transport
  import opened StableSort
  import opened Matching
  import opened Allocation

  lemma InitIsOk()
    ensures Inv(Init())
  {
    forall b ensures BookingOk(Init(), b) {}
  }

  lemma {:induction false} RunConcat(s: State, xs: seq<Event>, ys: seq<Event>)
    ensures Run(s, xs + ys) == Run(Run(s, xs), ys)
    ensures forall b :: JobTimely(s, xs + ys, b) <==> JobTimely(s, xs, b) && JobTimely(Run(s, xs), ys, b)
    decreases |xs|
  {
    if xs == [] {
      assert xs + ys == ys;
    } else {
      assert (xs + ys)[0] == xs[0] && (xs + ys)[1..] == xs[1..] + ys;
      RunConcat(Step(s, xs[0]), xs[1..], ys);
    }
  }

  // ----- timeout safety -----

  predicate Decided(s: State, b: BookingId) {
    b in s.rows && (s.rows[b].status.Accepted? || s.rows[b].status.Cancelled?)
  }

  lemma TimeoutFreezes(s: State, b': BookingId, b: BookingId)
    requires Decided(s, b) && (b' == b ==> s.rows[b].status.Cancelled? || AllocatedAsAccepted(s, b))
    ensures b in Timeout(s, b').rows && Timeout(s, b').rows[b] == s.rows[b]
  {
  }

  lemma RejectFreezes(s: State, b': BookingId, u: UserId, b: BookingId)
    requires Guarded(s, b) && Decided(s, b) && u in PendingOf(s, b')
    ensures b in Reject(s, b', u).rows && Reject(s, b', u).rows[b] == s.rows[b]
  {
    TimeoutFreezes(Withdraw(s, b', u), b', b);
  }

  lemma AcceptFreezes(s: State, b': BookingId, u: UserId, fleet: Fleet, fault: Fault, unlockThrows: bool, b: BookingId)
    requires Decided(s, b)
    ensures var t := Accept(s, b', u, fleet, fault, unlockThrows).0; b in t.rows && t.rows[b] == s.rows[b]
  {
    AcceptIsTry(s, b', u, fleet, fault, unlockThrows);
  }

  lemma StepFreezes(s: State, e: Event, b: BookingId)
    requires Inv(s) && Guarded(s, b) && Decided(s, b)
    ensures b in Step(s, e).rows && Step(s, e).rows[b] == s.rows[b]
  {
    match e
    case Reply(b', u, accepted, fleet, fault, unlockThrows) =>
      if u in PendingOf(s, b') {
        if accepted { AcceptFreezes(s, b', u, fleet, fault, unlockThrows, b); } else { RejectFreezes(s, b', u, b); }
      }
    case Disconnection(u) =>
      assert RequestOk(s, u);
      if u in s.requests { RejectFreezes(s, s.requests[u].value, u, b); }
    case JobRun(b') => if b' in s.jobs { TimeoutFreezes(s.(jobs := s.jobs - {b'}), b', b); }
    case TimePasses(dt) =>
    case Creation(b', cargo, users, cut) =>
  }

  /** No timeout job, last rejection or disconnect ever changes a decided booking: once ACCEPTED
      (or CANCELLED) a row keeps its status, driver and vehicle for the rest of the run, provided
      the booking's own job is in time and no acceptance of it loses its status write. */
  lemma {:induction false} DecidedRowsAreFrozen(s: State, es: seq<Event>, b: BookingId)
    requires Inv(s) && Guarded(s, b) && Orderly(s, es, b) && Decided(s, b)
    ensures b in Run(s, es).rows && Run(s, es).rows[b] == s.rows[b]
    decreases |es|
  {
    if es != [] {
      OrderlyTail(s, es, b);
      StepFreezes(s, es[0], b);
      StepKeepsInv(s, es[0]);
      StepKeepsGuard(s, es[0], b);
      DecidedRowsAreFrozen(Step(s, es[0]), es[1..], b);
    }
  }

  /** The same over whole runs from the empty system, comparing any two moments. */
  lemma TimeoutSafety(before: seq<Event>, after: seq<Event>, b: BookingId)
    requires Orderly(Init(), before + after, b) && Decided(Run(Init(), before), b)
    ensures b in Run(Init(), before + after).rows
    ensures Run(Init(), before + after).rows[b] == Run(Init(), before).rows[b]
  {
    RunConcat(Init(), before, after);
    assert forall i :: 0 <= i < |before| ==> before[i] == (before + after)[i];
    assert forall i :: 0 <= i < |after| ==> after[i] == (before + after)[|before| + i];
    InitIsOk();
    RunKeepsInv(Init(), before);
    RunKeepsGuard(Init(), before, b);
    DecidedRowsAreFrozen(Run(Init(), before), after, b);
  }

  predicate CanTake(s: State, b: BookingId, u: UserId, fleet: Fleet) {
    && b in s.rows && s.rows[b].status.Pending? && u in PendingOf(s, b) && b !in s.locks
    && u in fleet.driverOf && VehicleCheck(s.rows[b].cargo, fleet.driverOf[u], fleet).None?
  }

  /** Why jobs must be in time. When an acceptance dies after its status write and leaves the job
      queued, the booking survives that job exactly if the job runs within 300 s of the write. */
  lemma CutAcceptanceSurvivesExactly(
    s: State, b: BookingId, u: UserId, fleet: Fleet, released: set<UserId>, unlockThrows: bool, dt: nat)
    requires Inv(s) && CanTake(s, b, u, fleet) && b in s.jobs && s.jobs[b] <= s.now + dt
    ensures var t := Run(s, [Reply(b, u, true, fleet, AfterStatus(released, false), unlockThrows), TimePasses(dt), JobRun(b)]);
            b in t.rows && t.rows[b].status == if dt < 300_000 then Accepted else Cancelled
  {
    assert BookingOk(s, b);
    var e1, e2, e3 := Reply(b, u, true, fleet, AfterStatus(released, false), unlockThrows), TimePasses(dt), JobRun(b);
    RunThree(s, e1, e2, e3);
    AcceptIsTry(s, b, u, fleet, AfterStatus(released, false), unlockThrows);
    var s1 := Step(s, e1);
    assert s1.alloc[b] == Entry(Allocation(AllocAccepted, Some(u)), s.now + KEY_TTL);
    assert s1.now == s.now && b in s1.jobs && s1.jobs[b] == s.jobs[b] && b in s1.rows && s1.rows[b].status.Accepted?;
    var s2 := Step(s1, e2);
    assert AllocatedAsAccepted(s2, b) <==> dt < KEY_TTL;
  }

  /** Why the status write must not be lost: when the acceptance dies between saving the row and
      that write, the queued job cancels the accepted booking whenever it runs. */
  lemma LostStatusWriteIsCancelled(s: State, b: BookingId, u: UserId, fleet: Fleet, unlockThrows: bool, dt: nat)
    requires Inv(s) && CanTake(s, b, u, fleet) && b in s.jobs && s.jobs[b] <= s.now + dt
    ensures var e := Reply(b, u, true, fleet, AtStatusWrite, unlockThrows);
            var t := Run(s, [e, TimePasses(dt), JobRun(b)]);
            b in Step(s, e).rows && Step(s, e).rows[b].status.Accepted? && b in t.rows && t.rows[b].status.Cancelled?
  {
    assert BookingOk(s, b);
    var e1, e2, e3 := Reply(b, u, true, fleet, AtStatusWrite, unlockThrows), TimePasses(dt), JobRun(b);
    RunThree(s, e1, e2, e3);
    AcceptIsTry(s, b, u, fleet, AtStatusWrite, unlockThrows);
    var s1 := Step(s, e1);
    assert s1.alloc == s.alloc && s1.jobs == s.jobs && b in s1.rows && s1.rows[b].status.Accepted?;
    assert !AllocatedAsAccepted(Step(s1, e2), b);
  }

  lemma RunThree(s: State, e1: Event, e2: Event, e3: Event)
    ensures Run(s, [e1, e2, e3]) == Step(Step(Step(s, e1), e2), e3)
  {
    assert [e1, e2, e3][1..] == [e2, e3] && [e2, e3][1..] == [e3];
    assert Run(Step(Step(s, e1), e2), [e3]) == Step(Step(Step(s, e1), e2), e3);
  }

  // ----- no stuck booking -----

  /** b was offered at time t0; while PENDING it still has drivers to answer and a job to end it. */
  predicate OfferedAt(s: State, b: BookingId, t0: int) {
    && b in s.rows
    && (s.rows[b].status.Pending? ==>
          && b in s.jobs && s.jobs[b] == t0 + JOB_DELAY
          && b in s.pending && s.pending[b].expiresAt == t0 + KEY_TTL)
  }

  lemma RejectKeepsOffered(s: State, b': BookingId, u: UserId, b: BookingId, t0: int)
    requires Inv(s) && OfferedAt(s, b, t0) && u in PendingOf(s, b')
    ensures OfferedAt(Reject(s, b', u), b, t0)
  {
    assert BookingOk(s, b) && PendingOk(s, b') && BookingOk(s, b');
    var s1 := Withdraw(s, b', u);
    if b' != b || PendingOf(s1, b) != {} {
      assert OfferedAt(s1, b, t0);
    }
  }

  lemma AcceptKeepsOffered(
    s: State, b': BookingId, u: UserId, fleet: Fleet, fault: Fault, unlockThrows: bool, b: BookingId, t0: int)
    requires OfferedAt(s, b, t0)
    ensures OfferedAt(Accept(s, b', u, fleet, fault, unlockThrows).0, b, t0)
  {
    AcceptIsTry(s, b', u, fleet, fault, unlockThrows);
  }

  lemma StepKeepsOffered(s: State, e: Event, b: BookingId, t0: int)
    requires Inv(s) && OfferedAt(s, b, t0) && JobInTime(Step(s, e), b)
    ensures OfferedAt(Step(s, e), b, t0)
  {
    match e
    case TimePasses(dt) =>
    case Creation(b', cargo, users, cut) =>
    case Reply(b', u, accepted, fleet, fault, unlockThrows) =>
      if u in PendingOf(s, b') {
        if accepted { AcceptKeepsOffered(s, b', u, fleet, fault, unlockThrows, b, t0); } else { RejectKeepsOffered(s, b', u, b, t0); }
      }
    case Disconnection(u) =>
      assert RequestOk(s, u);
      if u in s.requests { RejectKeepsOffered(s, s.requests[u].value, u, b, t0); }
    case JobRun(b') => assert BookingOk(s, b);
  }

  lemma {:induction false} RunKeepsOffered(s: State, es: seq<Event>, b: BookingId, t0: int)
    requires Inv(s) && OfferedAt(s, b, t0) && JobInTime(s, b) && JobTimely(s, es, b)
    ensures OfferedAt(Run(s, es), b, t0) && JobInTime(Run(s, es), b)
    decreases |es|
  {
    if es != [] {
      StepKeepsOffered(s, es[0], b, t0);
      StepKeepsInv(s, es[0]);
      RunKeepsOffered(Step(s, es[0]), es[1..], b, t0);
    }
  }

  /** In every run, with any fault of the dispatches and acceptances of other bookings and of the
      acceptances of this one: a booking dispatched whole, whose own job is in time, has, as long as
      it is PENDING, a driver left to answer and a queued job, and it is decided within 300 s of its
      dispatch. */
  lemma NoStuckBooking(before: seq<Event>, b: BookingId, cargo: Option<Cargo>, users: set<UserId>, after: seq<Event>)
    requires b !in Run(Init(), before).rows && users != {}
    requires JobTimely(Step(Run(Init(), before), Creation(b, cargo, users, Whole)), after, b)
    ensures var s := Run(Init(), before);
            var t := Run(Step(s, Creation(b, cargo, users, Whole)), after);
            && b in t.rows
            && (t.rows[b].status.Pending? ==> PendingOf(t, b) != {} && b in t.jobs)
            && (t.now >= s.now + 300_000 ==> !t.rows[b].status.Pending?)
  {
    InitIsOk();
    RunKeepsInv(Init(), before);
    var s := Run(Init(), before);
    var s1 := Step(s, Creation(b, cargo, users, Whole));
    assert BookingOk(s, b);
    StepKeepsInv(s, Creation(b, cargo, users, Whole));
    assert OfferedAt(s1, b, s.now);
    RunKeepsOffered(s1, after, b, s.now);
    RunKeepsInv(s1, after);
    assert PendingOk(Run(s1, after), b);
  }

  // ----- bookings that do get stuck -----

  /** PENDING with nobody to answer and no job to end it. */
  predicate Orphan(s: State, b: BookingId) {
    b in s.rows && s.rows[b].status.Pending? && b !in s.pending && b !in s.jobs
  }

  /** No job will end b, and what is left of its offer expires 300 s after t0 at the latest. */
  predicate Jobless(s: State, b: BookingId, t0: int) {
    && b in s.rows
    && (s.rows[b].status.Pending? ==> b !in s.jobs && (b in s.pending ==> s.pending[b].expiresAt <= t0 + KEY_TTL))
  }

  lemma RejectKeepsJobless(s: State, b': BookingId, u: UserId, b: BookingId, t0: int)
    requires Jobless(s, b, t0) && u in PendingOf(s, b')
    ensures Jobless(Reject(s, b', u), b, t0)
    ensures Orphan(s, b) ==> Orphan(Reject(s, b', u), b)
  {
    assert Jobless(Withdraw(s, b', u), b, t0);
  }

  lemma TryAcceptKeepsJobless(s: State, b': BookingId, u: UserId, fleet: Fleet, fault: Fault, b: BookingId, t0: int)
    requires Jobless(s, b, t0) && u in PendingOf(s, b')
    ensures Jobless(TryAccept(s, b', u, fleet, fault).0, b, t0)
    ensures Orphan(s, b) ==> Orphan(TryAccept(s, b', u, fleet, fault).0, b)
  {
  }

  lemma AcceptKeepsJobless(
    s: State, b': BookingId, u: UserId, fleet: Fleet, fault: Fault, unlockThrows: bool, b: BookingId, t0: int)
    requires Jobless(s, b, t0) && u in PendingOf(s, b')
    ensures Jobless(Accept(s, b', u, fleet, fault, unlockThrows).0, b, t0)
    ensures Orphan(s, b) ==> Orphan(Accept(s, b', u, fleet, fault, unlockThrows).0, b)
  {
    AcceptIsTry(s, b', u, fleet, fault, unlockThrows);
    TryAcceptKeepsJobless(s, b', u, fleet, fault, b, t0);
  }

  lemma CreateKeepsJobless(s: State, b': BookingId, cargo: Option<Cargo>, users: set<UserId>, cut: Cut, b: BookingId, t0: int)
    requires Jobless(s, b, t0) && b' !in s.rows
    ensures Jobless(Create(s, b', cargo, users, cut), b, t0)
    ensures Orphan(s, b) ==> Orphan(Create(s, b', cargo, users, cut), b)
  {
    CreateAddsOne(s, b', cargo, users, cut);
  }

  lemma StepKeepsJobless(s: State, e: Event, b: BookingId, t0: int)
    requires IndexInv(s) && Jobless(s, b, t0)
    ensures Jobless(Step(s, e), b, t0)
    ensures Orphan(s, b) ==> Orphan(Step(s, e), b)
  {
    match e
    case TimePasses(dt) =>
    case Creation(b', cargo, users, cut) => if b' !in s.rows { CreateKeepsJobless(s, b', cargo, users, cut, b, t0); }
    case Reply(b', u, accepted, fleet, fault, unlockThrows) =>
      if u in PendingOf(s, b') {
        if accepted { AcceptKeepsJobless(s, b', u, fleet, fault, unlockThrows, b, t0); } else { RejectKeepsJobless(s, b', u, b, t0); }
      }
    case Disconnection(u) =>
      assert RequestOk(s, u);
      if u in s.requests { RejectKeepsJobless(s, s.requests[u].value, u, b, t0); }
    case JobRun(b') =>
  }

  lemma {:induction false} RunKeepsJobless(s: State, es: seq<Event>, b: BookingId, t0: int)
    requires IndexInv(s) && Jobless(s, b, t0)
    ensures Jobless(Run(s, es), b, t0)
    ensures Orphan(s, b) ==> Orphan(Run(s, es), b)
    decreases |es|
  {
    if es != [] {
      StepKeepsJobless(s, es[0], b, t0);
      StepKeepsIndex(s, es[0]);
      RunKeepsJobless(Step(s, es[0]), es[1..], b, t0);
    }
  }

  /** Once PENDING without pending driver and job, a booking is so in every later run. */
  lemma OrphansStay(before: seq<Event>, after: seq<Event>, b: BookingId)
    requires Orphan(Run(Init(), before), b)
    ensures Orphan(Run(Run(Init(), before), after), b)
  {
    RunKeepsIndex(Init(), before);
    RunKeepsJobless(Run(Init(), before), after, b, 0);
  }

  /** The other half of NoStuckBooking. A booking for which no driver was found, or whose dispatch
      died before its job was queued, is never timed out: if its drivers have not decided it within
      300 s, it is PENDING in every later run, whatever happens in between and afterwards. */
  lemma CutDispatchStrands(
    before: seq<Event>, b: BookingId, cargo: Option<Cargo>, users: set<UserId>, cut: Cut, during: seq<Event>, after: seq<Event>)
    requires b !in Run(Init(), before).rows && (users == {} || !cut.Whole?)
    ensures var s := Run(Init(), before);
            var t := Run(Step(s, Creation(b, cargo, users, cut)), during);
            && b in t.rows
            && (t.rows[b].status.Pending? && (t.now >= s.now + 300_000 || users == {} || cut.BeforeOffer?) ==>
                  Orphan(t, b) && Orphan(Run(t, after), b))
  {
    InitIsOk();
    RunKeepsInv(Init(), before);
    var s := Run(Init(), before);
    var s1 := Step(s, Creation(b, cargo, users, cut));
    assert BookingOk(s, b);
    StepKeepsInv(s, Creation(b, cargo, users, cut));
    RunKeepsInv(s1, during);
    var t := Run(s1, during);
    RunKeepsJobless(s1, during, b, s.now);
    assert PendingOk(t, b);
    RunKeepsJobless(t, after, b, s.now);
  }

  /** A whole dispatch left alone is ended by its job, however late that runs. */
  lemma LateJobEnds(s: State, b: BookingId, cargo: Option<Cargo>, users: set<UserId>, dt: nat)
    requires Inv(s) && b !in s.rows && users != {} && dt >= KEY_TTL
    ensures var t := Step(Step(Step(s, Creation(b, cargo, users, Whole)), TimePasses(dt)), JobRun(b));
            b in t.rows && t.rows[b].status.Cancelled?
  {
    assert BookingOk(s, b);
    var s1 := Step(s, Creation(b, cargo, users, Whole));
    assert !AllocatedAsAccepted(s1, b) && b in s1.rows && b in s1.jobs && s1.jobs[b] == s1.now + JOB_DELAY;
    DueJobEnds(s1, b, dt);
  }

  lemma DueJobEnds(s: State, b: BookingId, dt: nat)
    requires b in s.rows && b in s.jobs && s.jobs[b] <= s.now + dt && !AllocatedAsAccepted(s, b)
    ensures var t := Step(Step(s, TimePasses(dt)), JobRun(b)); b in t.rows && t.rows[b].status.Cancelled?
  {
    assert !AllocatedAsAccepted(Step(s, TimePasses(dt)), b);
  }

  /** Both halves at once: left alone for 300 s or more and then given to the queue worker, a new
      booking is still PENDING, and for good, exactly if it was not dispatched whole to somebody. */
  lemma StuckExactly(
    before: seq<Event>, b: BookingId, cargo: Option<Cargo>, users: set<UserId>, cut: Cut, dt: nat, after: seq<Event>)
    requires b !in Run(Init(), before).rows && dt >= 300_000
    ensures var t := Run(Run(Init(), before), [Creation(b, cargo, users, cut), TimePasses(dt), JobRun(b)]);
            && b in t.rows
            && (t.rows[b].status.Pending? <==> users == {} || !cut.Whole?)
            && (t.rows[b].status.Pending? ==> Orphan(Run(t, after), b))
  {
    var s := Run(Init(), before);
    var e1, e2, e3 := Creation(b, cargo, users, cut), TimePasses(dt), JobRun(b);
    RunThree(s, e1, e2, e3);
    InitIsOk();
    RunKeepsInv(Init(), before);
    if users == {} || !cut.Whole? {
      RunTwo(Step(s, e1), e2, e3);
      CutDispatchStrands(before, b, cargo, users, cut, [e2, e3], after);
      LeftAlone(s, e1, dt, b);
    } else {
      LateJobEnds(s, b, cargo, users, dt);
    }
  }

  lemma LeftAlone(s: State, e: Event, dt: nat, b: BookingId)
    requires Inv(s) && e.Creation? && e.booking == b && b !in s.rows && (e.users == {} || !e.cut.Whole?)
    ensures var t := Step(Step(Step(s, e), TimePasses(dt)), JobRun(b));
            t.now == s.now + dt && t.rows == s.rows[b := Row(Pending, None, None, e.cargo)]
  {
    assert BookingOk(s, b);
  }

  lemma RunTwo(s: State, e1: Event, e2: Event)
    ensures Run(s, [e1, e2]) == Step(Step(s, e1), e2)
  {
    assert [e1, e2][1..] == [e2] && [e2][1..] == [];
    assert Run(Step(s, e1), [e2]) == Run(Step(Step(s, e1), e2), []);
  }

  /** In every reachable state a rejection (or a disconnect, next lemma) that acts on a booking
      strictly shrinks its pending set and no other, and the one that empties it also takes the
      booking out of PENDING. */
  lemma RejectionMakesProgress(es: seq<Event>, b: BookingId, u: UserId)
    requires u in PendingOf(Run(Init(), es), b)
    ensures var s := Run(Init(), es);
            var t := Reject(s, b, u);
            && PendingOf(t, b) == PendingOf(s, b) - {u}
            && b in t.rows
            && (PendingOf(t, b) == {} ==> !t.rows[b].status.Pending?)
            && (forall x :: x != b ==> PendingOf(t, x) == PendingOf(s, x))
  {
    InitIsOk();
    RunKeepsInv(Init(), es);
    var s := Run(Init(), es);
    assert BookingOk(s, b) && PendingOk(s, b);
  }

  lemma DisconnectMakesProgress(es: seq<Event>, u: UserId)
    requires u in Run(Init(), es).requests
    ensures var s := Run(Init(), es);
            var t, b := Disconnect(s, u), s.requests[u].value;
            && u in PendingOf(s, b) && u !in t.requests
            && PendingOf(t, b) == PendingOf(s, b) - {u}
            && b in t.rows
            && (PendingOf(t, b) == {} ==> !t.rows[b].status.Pending?)
            && (forall x :: x != b ==> PendingOf(t, x) == PendingOf(s, x))
  {
    var s := Run(Init(), es);
    IndexAgreement(es, u, s.requests[u].value);
    RejectionMakesProgress(es, s.requests[u].value, u);
  }

  // ----- index agreement -----

  /** No dispatch of b in es dies between writing its pending and its contacted drivers. */
  ghost predicate Recorded(es: seq<Event>, b: BookingId) { forall i :: 0 <= i < |es| ==> RecordsContacts(es[i], b) }

  /** In every reachable state, of any run: a driver's pending request names a booking whose pending
      set holds the driver, and pending drivers were contacted. */
  lemma IndexAgreement(es: seq<Event>, u: UserId, b: BookingId)
    ensures var s := Run(Init(), es);
            && (u in s.requests && s.requests[u].value == b ==> u in PendingOf(s, b))
            && (Recorded(es, b) ==> PendingOf(s, b) <= Members(s.contacted, b))
  {
    RunKeepsIndex(Init(), es);
    var s := Run(Init(), es);
    assert RequestOk(s, u);
    InitIsOk();
    if Recorded(es, b) { RunKeepsContacted(Init(), es, b); }
  }

  /** And the condition is needed: right after a dispatch to somebody its pending drivers are among
      the contacted exactly if it did not die between the two writes. */
  lemma ContactsRecordedExactly(es: seq<Event>, b: BookingId, cargo: Option<Cargo>, users: set<UserId>, cut: Cut)
    requires b !in Run(Init(), es).rows && users != {}
    ensures var t := Step(Run(Init(), es), Creation(b, cargo, users, cut));
            PendingOf(t, b) <= Members(t.contacted, b) <==> !cut.AfterPending?
  {
    InitIsOk();
    RunKeepsInv(Init(), es);
    var s := Run(Init(), es);
    assert BookingOk(s, b);
    if cut.AfterPending? {
      var u :| u in users;
      assert u in PendingOf(Step(s, Creation(b, cargo, users, cut)), b);
    }
  }

  /** Whoever is told of success was contacted, and nobody is left believing the booking is still
      on offer. */
  lemma WinnerWasContacted(es: seq<Event>, b: BookingId, u: UserId, fleet: Fleet, fault: Fault, unlockThrows: bool)
    requires Respond(Run(Init(), es), b, u, true, fleet, fault, unlockThrows).1.Success?
    ensures Recorded(es, b) ==> u in Members(Run(Init(), es).contacted, b)
    ensures var t := Respond(Run(Init(), es), b, u, true, fleet, fault, unlockThrows).0;
            && PendingOf(t, b) == {} && b !in t.jobs && b !in t.locks
            && forall d :: d in t.requests ==> t.requests[d].value != b
  {
    IndexAgreement(es, u, b);
    var s := Run(Init(), es);
    forall d | d in s.requests && s.requests[d].value == b ensures d in PendingOf(s, b) {
      IndexAgreement(es, d, b);
    }
  }

  // ----- assignment soundness -----

  /** In state s event e took b from PENDING to this ACCEPTED row, for a driver on the pending set
      of b and with a vehicle that carries the cargo. */
  predicate Justifies(s: State, e: Event, b: BookingId, row: Row) {
    && e.Reply? && e.booking == b && e.accepted && e.user in PendingOf(s, b) && e.user in e.fleet.driverOf
    && b in s.rows && s.rows[b].status.Pending? && b in Step(s, e).rows && Step(s, e).rows[b] == row
    && var d := e.fleet.driverOf[e.user];
    && d in e.fleet.vehicleOf && row.driverId == Some(d) && row.vehicleId == Some(e.fleet.vehicleOf[d].id)
    && row.cargo == s.rows[b].cargo
    && Carries(e.fleet.vehicleOf[d], row.cargo)
  }

  /** Timeouts, and with them rejections, disconnects and jobs, accept nothing. */
  lemma RejectAcceptsNothing(s: State, b': BookingId, u: UserId, b: BookingId)
    requires b in Reject(s, b', u).rows && Reject(s, b', u).rows[b].status.Accepted?
    ensures b in s.rows && s.rows[b] == Reject(s, b', u).rows[b]
  {
    assert Withdraw(s, b', u).rows == s.rows;
  }

  lemma AcceptWrites(s: State, b': BookingId, u: UserId, fleet: Fleet, fault: Fault, unlockThrows: bool, b: BookingId)
    requires var t := Accept(s, b', u, fleet, fault, unlockThrows).0; b in t.rows && t.rows[b].status.Accepted?
    ensures b in s.rows
    ensures var row := Accept(s, b', u, fleet, fault, unlockThrows).0.rows[b];
            row == s.rows[b]
            || (b' == b && s.rows[b].status.Pending? && u in fleet.driverOf
                && VehicleCheck(s.rows[b].cargo, fleet.driverOf[u], fleet).None?
                && fleet.driverOf[u] in fleet.vehicleOf && row == AcceptedRow(s.rows[b], fleet.driverOf[u], fleet))
  {
    AcceptIsTry(s, b', u, fleet, fault, unlockThrows);
  }

  lemma AcceptJustifies(s: State, e: Event, b: BookingId)
    requires e.Reply? && e.accepted && e.user in PendingOf(s, e.booking)
    requires b in Step(s, e).rows && Step(s, e).rows[b].status.Accepted?
    ensures (b in s.rows && s.rows[b] == Step(s, e).rows[b]) || Justifies(s, e, b, Step(s, e).rows[b])
  {
    var t := Step(s, e);
    assert t == Accept(s, e.booking, e.user, e.fleet, e.fault, e.unlockThrows).0;
    AcceptWrites(s, e.booking, e.user, e.fleet, e.fault, e.unlockThrows, b);
    CheckedVehicleCarries(s.rows[b].cargo, e);
  }

  lemma CheckedVehicleCarries(cargo: Option<Cargo>, e: Event)
    requires e.Reply?
    ensures e.user in e.fleet.driverOf ==>
              var d := e.fleet.driverOf[e.user];
              VehicleCheck(cargo, d, e.fleet).None? <==> d in e.fleet.vehicleOf && Carries(e.fleet.vehicleOf[d], cargo)
  {
    if e.user in e.fleet.driverOf && e.fleet.driverOf[e.user] in e.fleet.vehicleOf && cargo.Some? {
      ValidateVehicleAccepts(e.fleet.vehicleOf[e.fleet.driverOf[e.user]], cargo.value);
    }
  }

  lemma StepJustifies(s: State, e: Event, b: BookingId)
    requires b in Step(s, e).rows && Step(s, e).rows[b].status.Accepted?
    ensures (b in s.rows && s.rows[b] == Step(s, e).rows[b]) || Justifies(s, e, b, Step(s, e).rows[b])
  {
    match e
    case Reply(b', u, accepted, fleet, fault, unlockThrows) =>
      if u in PendingOf(s, b') {
        if accepted { AcceptJustifies(s, e, b); } else { RejectAcceptsNothing(s, b', u, b); }
      }
    case Disconnection(u) => if u in s.requests { RejectAcceptsNothing(s, s.requests[u].value, u, b); }
    case _ =>
  }

  /** Every ACCEPTED row of every run that was not there at the start was written by a reply of the
      run, in the state that reply found. */
  lemma {:induction false} AcceptedBookingsAreJustified(s: State, es: seq<Event>, b: BookingId)
    requires b in Run(s, es).rows && Run(s, es).rows[b].status.Accepted?
    ensures (b in s.rows && s.rows[b] == Run(s, es).rows[b])
            || exists i :: 0 <= i < |es| && Justifies(Run(s, es[..i]), es[i], b, Run(s, es).rows[b])
    decreases |es|
  {
    if es != [] {
      var s1 := Step(s, es[0]);
      AcceptedBookingsAreJustified(s1, es[1..], b);
      if i :| 0 <= i < |es[1..]| && Justifies(Run(s1, es[1..][..i]), es[1..][i], b, Run(s, es).rows[b]) {
        assert es[..i + 1][1..] == es[1..][..i];
        assert Justifies(Run(s, es[..i + 1]), es[i + 1], b, Run(s, es).rows[b]);
      } else {
        StepJustifies(s, es[0], b);
        assert Run(s, es[..0]) == s;
      }
    }
  }

  // ----- the cargo of a booking is that of its creation -----

  lemma AcceptKeepsCargo(s: State, b': BookingId, u: UserId, fleet: Fleet, fault: Fault, unlockThrows: bool, b: BookingId)
    requires b in s.rows
    ensures var t := Accept(s, b', u, fleet, fault, unlockThrows).0; b in t.rows && t.rows[b].cargo == s.rows[b].cargo
  {
    AcceptIsTry(s, b', u, fleet, fault, unlockThrows);
  }

  lemma StepKeepsCargo(s: State, e: Event, b: BookingId)
    requires b in s.rows
    ensures b in Step(s, e).rows && Step(s, e).rows[b].cargo == s.rows[b].cargo
  {
    match e
    case Reply(b', u, accepted, fleet, fault, unlockThrows) =>
      if u in PendingOf(s, b') {
        if accepted { AcceptKeepsCargo(s, b', u, fleet, fault, unlockThrows, b); } else { assert Withdraw(s, b', u).rows == s.rows; }
      }
    case Disconnection(u) => if u in s.requests { assert Withdraw(s, s.requests[u].value, u).rows == s.rows; }
    case _ =>
  }

  lemma {:induction false} RunKeepsCargo(s: State, es: seq<Event>, b: BookingId)
    requires b in s.rows
    ensures b in Run(s, es).rows && Run(s, es).rows[b].cargo == s.rows[b].cargo
    decreases |es|
  {
    if es != [] {
      StepKeepsCargo(s, es[0], b);
      RunKeepsCargo(Step(s, es[0]), es[1..], b);
    }
  }

  /** A booking is saved with the cargo it is created with, PENDING and unassigned, whatever becomes of
      its dispatch, and it keeps that cargo in every later run. */
  lemma CargoIsKept(before: seq<Event>, b: BookingId, cargo: Option<Cargo>, users: set<UserId>, cut: Cut, after: seq<Event>)
    requires b !in Run(Init(), before).rows
    ensures var s1 := Step(Run(Init(), before), Creation(b, cargo, users, cut));
            && s1.rows == Run(Init(), before).rows[b := Row(Pending, None, None, cargo)]
            && b in Run(s1, after).rows && Run(s1, after).rows[b].cargo == cargo
  {
    RunKeepsCargo(Step(Run(Init(), before), Creation(b, cargo, users, cut)), after, b);
  }

  /** Event k of es creates b. */
  ghost predicate CreatedAt(es: seq<Event>, k: nat, b: BookingId)
    requires k < |es|
  {
    es[k].Creation? && es[k].booking == b && b !in Run(Init(), es[..k]).rows
  }

  lemma PrefixRun(es: seq<Event>, n: nat, m: nat)
    requires n <= m <= |es|
    ensures Run(Init(), es[..m]) == Run(Run(Init(), es[..n]), es[n..m])
  {
    assert es[..m] == es[..n] + es[n..m];
    RunConcat(Init(), es[..n], es[n..m]);
  }

  lemma NextRun(es: seq<Event>, n: nat)
    requires n < |es|
    ensures Run(Init(), es[..n + 1]) == Step(Run(Init(), es[..n]), es[n])
  {
    PrefixRun(es, n, n + 1);
    assert es[n..n + 1] == [es[n]] && [es[n]][1..] == [];
  }

  lemma RejectAddsNoRow(s: State, b': BookingId, u: UserId, b: BookingId)
    ensures b in Reject(s, b', u).rows ==> b in s.rows
  {
    assert Withdraw(s, b', u).rows == s.rows;
  }

  lemma AcceptAddsNoRow(s: State, b': BookingId, u: UserId, fleet: Fleet, fault: Fault, unlockThrows: bool, b: BookingId)
    ensures b in Accept(s, b', u, fleet, fault, unlockThrows).0.rows ==> b in s.rows
  {
    AcceptIsTry(s, b', u, fleet, fault, unlockThrows);
  }

  lemma OnlyCreationAdds(s: State, e: Event, b: BookingId)
    ensures b in Step(s, e).rows ==> b in s.rows || (e.Creation? && e.booking == b)
  {
    match e
    case Reply(b', u, accepted, fleet, fault, unlockThrows) =>
      if accepted { AcceptAddsNoRow(s, b', u, fleet, fault, unlockThrows, b); } else { RejectAddsNoRow(s, b', u, b); }
    case Disconnection(u) => if u in s.requests { RejectAddsNoRow(s, s.requests[u].value, u, b); }
    case _ =>
  }

  lemma {:induction false} RowsAreCreated(es: seq<Event>, n: nat, b: BookingId)
    requires n <= |es| && b in Run(Init(), es[..n]).rows
    ensures exists k :: 0 <= k < n && CreatedAt(es, k, b)
  {
    assert es[..0] == [];
    if n > 0 {
      NextRun(es, n - 1);
      OnlyCreationAdds(Run(Init(), es[..n - 1]), es[n - 1], b);
      if b in Run(Init(), es[..n - 1]).rows {
        RowsAreCreated(es, n - 1, b);
      } else {
        assert CreatedAt(es, n - 1, b);
      }
    }
  }

  /** Reply i of es made b ACCEPTED with this row, for a driver pending and contacted at that moment. */
  ghost predicate AcceptedBy(es: seq<Event>, i: nat, b: BookingId, row: Row)
    requires i < |es|
  {
    && Justifies(Run(Init(), es[..i]), es[i], b, row)
    && (Recorded(es, b) ==> es[i].user in Members(Run(Init(), es[..i]).contacted, b))
  }

  lemma JustifiedIsAccepted(es: seq<Event>, i: nat, b: BookingId, row: Row)
    requires i < |es| && Justifies(Run(Init(), es[..i]), es[i], b, row)
    ensures AcceptedBy(es, i, b, row)
  {
    var s, u := Run(Init(), es[..i]), es[i].user;
    assert u in PendingOf(s, b);
    if Recorded(es, b) {
      forall k | 0 <= k < i ensures RecordsContacts(es[..i][k], b) { assert es[..i][k] == es[k]; }
      IndexAgreement(es[..i], u, b);
    }
  }

  /** Every ACCEPTED booking of every run, orderly or not and also when its acceptance died later, was
      created by an event of the run and accepted by a later reply, of a driver who was pending and
      contacted at that moment and whose vehicle carries the cargo the booking was created with. */
  lemma AcceptedBookingsOfRuns(es: seq<Event>, b: BookingId) returns (k: nat, i: nat)
    requires b in Run(Init(), es).rows && Run(Init(), es).rows[b].status.Accepted?
    ensures k < i < |es| && CreatedAt(es, k, b) && AcceptedBy(es, i, b, Run(Init(), es).rows[b])
    ensures Run(Init(), es).rows[b].cargo == es[k].cargo
    ensures var d := es[i].fleet.driverOf[es[i].user];
            && Run(Init(), es).rows[b] == Row(Accepted, Some(d), Some(es[i].fleet.vehicleOf[d].id), es[k].cargo)
            && Carries(es[i].fleet.vehicleOf[d], es[k].cargo)
  {
    var row := Run(Init(), es).rows[b];
    AcceptedBookingsAreJustified(Init(), es, b);
    i :| i < |es| && Justifies(Run(Init(), es[..i]), es[i], b, row);
    JustifiedIsAccepted(es, i, b, row);
    RowsAreCreated(es, i, b);
    k :| k < i && CreatedAt(es, k, b);
    CreatedCargoStays(es, k, b);
    JustifiedRow(Run(Init(), es[..i]), es[i], b, row);
  }

  lemma CreatedCargoStays(es: seq<Event>, k: nat, b: BookingId)
    requires k < |es| && CreatedAt(es, k, b)
    ensures b in Run(Init(), es).rows && Run(Init(), es).rows[b].cargo == es[k].cargo
  {
    NextRun(es, k);
    PrefixRun(es, k + 1, |es|);
    assert es[..|es|] == es;
    RunKeepsCargo(Run(Init(), es[..k + 1]), es[k + 1..|es|], b);
  }

  lemma JustifiedRow(s: State, e: Event, b: BookingId, row: Row)
    requires Justifies(s, e, b, row) && row.status.Accepted?
    ensures e.Reply? && e.user in e.fleet.driverOf && e.fleet.driverOf[e.user] in e.fleet.vehicleOf
    ensures var d := e.fleet.driverOf[e.user];
            row == Row(Accepted, Some(d), Some(e.fleet.vehicleOf[d].id), row.cargo) && Carries(e.fleet.vehicleOf[d], row.cargo)
  {
  }

  /** A matched driver whose vehicle is unchanged is refused on vehicle grounds exactly when the
      booking has no cargo requirements and the driver no vehicle: that path offers unchecked. */
  lemma MatchedDriverRefusedExactly(
    pickup: (real, real), cargo: Option<Cargo>, limit: int, geo: seq<Nearby>, statuses: map<DriverId, DriverStatus>,
    table: seq<Driver>, fleet: Fleet, faults: set<DriverId>, m: MatchedDriver, later: Fleet)
    requires pickup.0 != 0.0 && pickup.1 != 0.0
    requires m in MatchingDrivers(Some(pickup), cargo, limit, geo, statuses, table, fleet, faults).drivers
    requires m.driver.id in fleet.vehicleOf <==> m.driver.id in later.vehicleOf
    requires m.driver.id in fleet.vehicleOf ==> fleet.vehicleOf[m.driver.id] == later.vehicleOf[m.driver.id]
    ensures VehicleCheck(cargo, m.driver.id, later).Some? <==> cargo.None? && m.driver.id !in fleet.vehicleOf
    ensures cargo.Some? ==> m.driver.id in later.vehicleOf && later.vehicleOf[m.driver.id].id == m.vehicleId
  {
    if cargo.Some? {
      var nearby := Closest(geo, statuses);
      var cs := CargoMatches(RowsIn(table, nearby), nearby, fleet, faults, cargo.value);
      SortDescFacts(cs, RankKey);
      assert m in multiset(SortDesc(cs, RankKey));
      CargoMatchesMembers(RowsIn(table, nearby), nearby, fleet, faults, cargo.value, m);
    }
  }

  /** e accepts b, and the unlock throws when it comes to that. */
  predicate LosesUnlock(e: Event, b: BookingId) { e.Reply? && e.booking == b && e.accepted && e.unlockThrows }

  lemma StepExplainsLock(s: State, e: Event, b: BookingId)
    requires Inv(s) && b in Step(s, e).rows && Step(s, e).rows[b].status.Pending? && b in Step(s, e).locks
    ensures (b in s.rows && s.rows[b].status.Pending? && b in s.locks && s.locks[b] == Step(s, e).locks[b])
            || (LosesUnlock(e, b) && Step(s, e).locks[b] == Entry(e.user, s.now + LOCK_TTL))
  {
    assert BookingOk(s, b);
    match e
    case Reply(b', u, accepted, fleet, fault, unlockThrows) =>
      if u in PendingOf(s, b') {
        if accepted { AcceptExplainsLock(s, b', u, fleet, fault, unlockThrows, b); }
        else { assert Withdraw(s, b', u).locks == s.locks; }
      }
    case Disconnection(u) => if u in s.requests { assert Withdraw(s, s.requests[u].value, u).locks == s.locks; }
    case Creation(b', cargo, users, cut) => if b' !in s.rows { CreateAddsOne(s, b', cargo, users, cut); }
    case TimePasses(dt) =>
    case JobRun(b') =>
  }

  lemma AcceptExplainsLock(s: State, b': BookingId, u: UserId, fleet: Fleet, fault: Fault, unlockThrows: bool, b: BookingId)
    requires var t := Accept(s, b', u, fleet, fault, unlockThrows).0; b in t.rows && t.rows[b].status.Pending? && b in t.locks
    ensures b in s.rows && s.rows[b].status.Pending?
    ensures var t := Accept(s, b', u, fleet, fault, unlockThrows).0;
            (b in s.locks && s.locks[b] == t.locks[b])
            || (b' == b && unlockThrows && t.locks[b] == Entry(u, s.now + LOCK_TTL))
  {
  }

  lemma {:induction false} RunExplainsLock(s: State, es: seq<Event>, b: BookingId)
    requires Inv(s) && b in Run(s, es).rows && Run(s, es).rows[b].status.Pending? && b in Run(s, es).locks
    ensures (b in s.rows && s.rows[b].status.Pending? && b in s.locks && s.locks[b] == Run(s, es).locks[b])
            || exists i :: && 0 <= i < |es| && LosesUnlock(es[i], b)
                           && Run(s, es).locks[b] == Entry(es[i].user, Run(s, es[..i]).now + LOCK_TTL)
    decreases |es|
  {
    if es != [] {
      var s1, t := Step(s, es[0]), Run(s, es);
      StepKeepsInv(s, es[0]);
      RunExplainsLock(s1, es[1..], b);
      if i :| 0 <= i < |es[1..]| && LosesUnlock(es[1..][i], b)
              && t.locks[b] == Entry(es[1..][i].user, Run(s1, es[1..][..i]).now + LOCK_TTL)
      {
        assert es[..i + 1][1..] == es[1..][..i];
        assert LosesUnlock(es[i + 1], b);
      } else {
        StepExplainsLock(s, es[0], b);
        assert Run(s, es[..0]) == s;
      }
    }
  }

  /** Between handlers a PENDING booking is locked only by an acceptance whose unlock threw less than
      30 s ago. */
  lemma PendingLockIsALostUnlock(es: seq<Event>, b: BookingId)
    requires b in Run(Init(), es).rows && Run(Init(), es).rows[b].status.Pending? && b in Run(Init(), es).locks
    ensures exists i :: 0 <= i < |es| && LosesUnlock(es[i], b) && Run(Init(), es).now < Run(Init(), es[..i]).now + 30_000
  {
    InitIsOk();
    RunExplainsLock(Init(), es, b);
    RunKeepsInv(Init(), es);
    assert BookingOk(Run(Init(), es), b);
  }

  /** End to end: in any run whatever, while a booking with cargo is PENDING, any driver it was
      matched with who is still on its pending set can take it, with the very vehicle matched,
      unless a lost unlock (previous lemma) still locks it; then the driver loses the race. */
  lemma MatchedDriverCanAccept(
    es: seq<Event>, b: BookingId, c: Cargo, m: MatchedDriver, later: Fleet,
    pickup: (real, real), limit: int, geo: seq<Nearby>, statuses: map<DriverId, DriverStatus>,
    table: seq<Driver>, fleet: Fleet, faults: set<DriverId>, unlockThrows: bool)
    requires pickup.0 != 0.0 && pickup.1 != 0.0
    requires m in MatchingDrivers(Some(pickup), Some(c), limit, geo, statuses, table, fleet, faults).drivers
    requires b in Run(Init(), es).rows
    requires Run(Init(), es).rows[b].status.Pending? && Run(Init(), es).rows[b].cargo == Some(c)
    requires m.driver.userId in PendingOf(Run(Init(), es), b)
    requires m.driver.userId in later.driverOf && later.driverOf[m.driver.userId] == m.driver.id
    requires m.driver.id in fleet.vehicleOf <==> m.driver.id in later.vehicleOf
    requires m.driver.id in fleet.vehicleOf ==> fleet.vehicleOf[m.driver.id] == later.vehicleOf[m.driver.id]
    ensures var s := Run(Init(), es);
            var (t, r) := Respond(s, b, m.driver.userId, true, later, NoFault, unlockThrows);
            if b in s.locks then r.LostRace? && t == s
            else r == Success(Row(Accepted, Some(m.driver.id), Some(m.vehicleId), Some(c)))
                 && b in t.rows && t.rows[b] == Row(Accepted, Some(m.driver.id), Some(m.vehicleId), Some(c))
  {
    var s := Run(Init(), es);
    MatchedDriverRefusedExactly(pickup, Some(c), limit, geo, statuses, table, fleet, faults, m, later);
    assert s.rows[b] == Row(Pending, s.rows[b].driverId, s.rows[b].vehicleId, Some(c));
  }
}
