/** Refresh-token sessions: creation, refresh, the three revocations, and the deletion of expired
    rows, as operations on the user_sessions table, and what whole runs of them guarantee. */
module Sessions {
  import opened Wrappers

  type SessionId = string
  type Token = string
  type UserId = string

  datatype Session = Session(
    userId: UserId,
    refreshToken: Token,
    expiresAt: int,
    isActive: bool,
    lastUsedAt: int,
    revokedAt: Option<int>,
    revokeReason: Option<string>)

  type Table = map<SessionId, Session>
  datatype Store = Store(now: int, sessions: Table)

  function EmptyStore(): Store { Store(0, map[]) }

  predicate TokenTaken(m: Table, token: Token) { exists id :: id in m && m[id].refreshToken == token }

  predicate HoldsActive(m: Table, token: Token, id: SessionId) {
    id in m && m[id].refreshToken == token && m[id].isActive
  }

  /** findOne({ refreshToken, isActive: true }) */
  ghost function FindActive(m: Table, token: Token): Option<SessionId> {
    if h :| HoldsActive(m, token, h) then Some(h) else None
  }

  function Revoked(s: Session, now: int, reason: string): Session {
    s.(isActive := false, revokedAt := Some(now), revokeReason := Some(reason))
  }

  /** One UPDATE: the rows in `which` are revoked. */
  function RevokeRows(st: Store, which: set<SessionId>, reason: string): Store {
    st.(sessions := map id | id in st.sessions ::
      if id in which then Revoked(st.sessions[id], st.now, reason) else st.sessions[id])
  }

  function IdsOfToken(m: Table, token: Token): set<SessionId> { set id | id in m && m[id].refreshToken == token }

  function ActiveIdsOfUser(m: Table, user: UserId): set<SessionId> {
    set id | id in m && m[id].userId == user && m[id].isActive
  }

  function Expired(st: Store): set<SessionId> { set id | id in st.sessions && st.sessions[id].expiresAt < st.now }

  function ExpiredOf(st: Store, user: Option<UserId>): set<SessionId> {
    set id | id in Expired(st) && (user.None? || user.value == "" || st.sessions[id].userId == user.value)
  }

  /** A new active row; a used id or token violates a unique constraint and nothing is stored. */
  function CreateSession(st: Store, id: SessionId, user: UserId, token: Token, expiresAt: int): Store {
    if id in st.sessions || TokenTaken(st.sessions, token) then st
    else st.(sessions := st.sessions[id := Session(user, token, expiresAt, true, st.now, None, None)])
  }

  /** `claim` is the subject of the token when its signature verifies. */
  ghost function Refresh(st: Store, token: Token, claim: Option<UserId>, users: set<UserId>): (Store, bool) {
    if claim.None? then (st, false)
    else
      match FindActive(st.sessions, token)
      case None => (st, false)
      case Some(id) =>
        if st.sessions[id].expiresAt < st.now then (RevokeRows(st, {id}, "token_expired"), false)
        else if claim.value !in users then (st, false)
        else (st.(sessions := st.sessions[id := st.sessions[id].(lastUsedAt := st.now)]), true)
  }

  datatype Event =
    | TimePasses(dt: nat)
    | Login(id: SessionId, user: UserId, token: Token, expiresAt: int)
    | RefreshCall(token: Token, claim: Option<UserId>, users: set<UserId>)
    | RevokeById(id: SessionId, reason: string)
    | RevokeByToken(token: Token, reason: string)
    | RevokeAllOf(user: UserId, reason: string)
    | Cleanup(ids: set<SessionId>)

  /** A clean-up deletes some of the expired rows: all of them, those of one user, or a batch. */
  ghost function Step(st: Store, e: Event): Store {
    match e
    case TimePasses(dt) => st.(now := st.now + dt)
    case Login(id, user, token, expiresAt) => CreateSession(st, id, user, token, expiresAt)
    case RefreshCall(token, claim, users) => Refresh(st, token, claim, users).0
    case RevokeById(id, reason) => RevokeRows(st, {id}, reason)
    case RevokeByToken(token, reason) => RevokeRows(st, IdsOfToken(st.sessions, token), reason)
    case RevokeAllOf(user, reason) => RevokeRows(st, ActiveIdsOfUser(st.sessions, user), reason)
    case Cleanup(ids) => st.(sessions := st.sessions - (ids * Expired(st)))
  }

  ghost function After(es: seq<Event>): Store {
    if es == [] then EmptyStore() else Step(After(es[..|es| - 1]), es[|es| - 1])
  }

  /** The answers of the refresh calls of a run, in order. */
  ghost function Answers(es: seq<Event>): seq<bool> {
    if es == [] then []
    else
      var init, e := es[..|es| - 1], es[|es| - 1];
      Answers(init) + if e.RefreshCall? then [Refresh(After(init), e.token, e.claim, e.users).1] else []
  }

  function WithoutCleanup(es: seq<Event>): seq<Event> {
    if es == [] then []
    else WithoutCleanup(es[..|es| - 1]) + if es[|es| - 1].Cleanup? then [] else [es[|es| - 1]]
  }

  function Clock(es: seq<Event>): int {
    if es == [] then 0
    else Clock(es[..|es| - 1]) + if es[|es| - 1].TimePasses? then es[|es| - 1].dt else 0
  }

  /** Session ids are never issued twice, and a refresh token only while the time of every earlier
      login with it is not over: logins of one user within a second sign the same token. */
  ghost predicate Fresh(es: seq<Event>) {
    forall i, j :: 0 <= i < j < |es| && es[i].Login? && es[j].Login? ==>
      es[i].id != es[j].id && (es[i].token == es[j].token ==> Clock(es[..j]) <= es[i].expiresAt)
  }

  // ----- where rows come from -----

  predicate CreatedBy(e: Event, id: SessionId, s: Session) {
    e.Login? && e.id == id && e.user == s.userId && e.token == s.refreshToken && e.expiresAt == s.expiresAt
  }

  ghost predicate Known(es: seq<Event>, id: SessionId, s: Session) {
    exists i :: 0 <= i < |es| && CreatedBy(es[i], id, s)
  }

  lemma KnownSnoc(es: seq<Event>, e: Event, id: SessionId, s: Session, s': Session)
    requires Known(es, id, s) && s'.userId == s.userId && s'.refreshToken == s.refreshToken && s'.expiresAt == s.expiresAt
    ensures Known(es + [e], id, s')
  {
    var i :| 0 <= i < |es| && CreatedBy(es[i], id, s);
    assert CreatedBy((es + [e])[i], id, s');
  }

  /** A step creates a row only by Login, and never changes a row's user, token or expiry. */
  lemma StepKeepsColumns(st: Store, e: Event, id: SessionId)
    requires id in Step(st, e).sessions
    ensures var s' := Step(st, e).sessions[id];
            if id in st.sessions
            then s'.userId == st.sessions[id].userId && s'.refreshToken == st.sessions[id].refreshToken
                 && s'.expiresAt == st.sessions[id].expiresAt
                 && (s'.isActive ==> st.sessions[id].isActive)
            else CreatedBy(e, id, s') && s'.isActive && !TokenTaken(st.sessions, e.token)
  {
  }

  lemma {:induction false} RowsAreKnown(es: seq<Event>, id: SessionId)
    requires id in After(es).sessions
    ensures Known(es, id, After(es).sessions[id])
  {
    var init, e := es[..|es| - 1], es[|es| - 1];
    assert es == init + [e];
    StepKeepsColumns(After(init), e, id);
    if id in After(init).sessions {
      RowsAreKnown(init, id);
      KnownSnoc(init, e, id, After(init).sessions[id], After(es).sessions[id]);
    } else {
      assert CreatedBy(es[|es| - 1], id, After(es).sessions[id]);
    }
  }

  ghost predicate UniqueTokens(m: Table) {
    forall x, y :: x in m && y in m && m[x].refreshToken == m[y].refreshToken ==> x == y
  }

  lemma {:induction false} TokensAreUnique(es: seq<Event>)
    ensures UniqueTokens(After(es).sessions)
  {
    if es != [] {
      var init, e := es[..|es| - 1], es[|es| - 1];
      TokensAreUnique(init);
      forall id | id in After(es).sessions
        ensures id in After(init).sessions ==> After(es).sessions[id].refreshToken == After(init).sessions[id].refreshToken
        ensures id !in After(init).sessions ==>
          (e.Login? && e.id == id && After(es).sessions[id].refreshToken == e.token && !TokenTaken(After(init).sessions, e.token))
      {
        StepKeepsColumns(After(init), e, id);
      }
    }
  }

  /** With unique tokens findOne has no choice. */
  lemma FindActiveIs(m: Table, token: Token, id: SessionId)
    requires UniqueTokens(m) && HoldsActive(m, token, id)
    ensures FindActive(m, token) == Some(id)
  {
  }

  lemma FindActiveNone(m: Table, token: Token)
    requires forall id :: !HoldsActive(m, token, id)
    ensures FindActive(m, token) == None
  {
  }

  lemma FindActiveHolds(m: Table, token: Token)
    ensures FindActive(m, token).Some? ==> HoldsActive(m, token, FindActive(m, token).value)
  {
  }

  // ----- clean-up is invisible to refresh -----

  /** s has lost some rows of t, all of them expired. */
  ghost predicate Cleaned(s: Store, t: Store) {
    && s.now == t.now
    && (forall id :: id in s.sessions ==> id in t.sessions && s.sessions[id] == t.sessions[id])
    && (forall id :: id in t.sessions && id !in s.sessions ==> t.sessions[id].expiresAt < t.now)
  }

  lemma RefreshAgrees(s: Store, t: Store, token: Token, claim: Option<UserId>, users: set<UserId>)
    requires Cleaned(s, t) && UniqueTokens(t.sessions)
    ensures Refresh(s, token, claim, users).1 == Refresh(t, token, claim, users).1
    ensures Cleaned(Refresh(s, token, claim, users).0, Refresh(t, token, claim, users).0)
  {
    FindActiveHolds(s.sessions, token);
    FindActiveHolds(t.sessions, token);
    if FindActive(s.sessions, token).Some? {
      FindActiveIs(t.sessions, token, FindActive(s.sessions, token).value);
    } else if FindActive(t.sessions, token).Some? {
      var id := FindActive(t.sessions, token).value;
      assert id in s.sessions ==> HoldsActive(s.sessions, token, id);
    }
  }

  /** A token taken by an unexpired row is taken on the cleaned table too, and the login refused. */
  lemma LoginAgrees(s: Store, t: Store, e: Event)
    requires Cleaned(s, t) && e.Login? && e.id !in t.sessions
    requires forall id :: id in t.sessions && t.sessions[id].refreshToken == e.token ==> t.now <= t.sessions[id].expiresAt
    ensures Cleaned(Step(s, e), Step(t, e))
  {
    if id :| id in t.sessions && t.sessions[id].refreshToken == e.token {
      assert id in s.sessions;
      assert TokenTaken(s.sessions, e.token);
    } else {
      assert !TokenTaken(s.sessions, e.token);
    }
  }

  lemma StepAgrees(s: Store, t: Store, e: Event)
    requires Cleaned(s, t) && UniqueTokens(t.sessions) && !e.Cleanup?
    requires e.Login? ==> e.id !in t.sessions
    requires e.Login? ==> forall id :: id in t.sessions && t.sessions[id].refreshToken == e.token ==> t.now <= t.sessions[id].expiresAt
    ensures Cleaned(Step(s, e), Step(t, e))
  {
    match e
    case RefreshCall(token, claim, users) => RefreshAgrees(s, t, token, claim, users);
    case Login(_, _, _, _) => LoginAgrees(s, t, e);
    case _ =>
  }

  lemma {:induction false} WithoutCleanupKnown(es: seq<Event>, id: SessionId, s: Session)
    requires Known(WithoutCleanup(es), id, s)
    ensures Known(es, id, s)
  {
    if es != [] {
      var init, e := es[..|es| - 1], es[|es| - 1];
      assert es == init + [e];
      var i :| 0 <= i < |WithoutCleanup(es)| && CreatedBy(WithoutCleanup(es)[i], id, s);
      if i < |WithoutCleanup(init)| {
        assert CreatedBy(WithoutCleanup(init)[i], id, s);
        WithoutCleanupKnown(init, id, s);
        KnownSnoc(init, e, id, s, s);
      } else {
        assert CreatedBy(es[|es| - 1], id, s);
      }
    }
  }

  lemma {:induction false} ClockIsNow(es: seq<Event>)
    ensures After(es).now == Clock(es)
  {
    if es != [] { ClockIsNow(es[..|es| - 1]); }
  }

  /** A new login finds its id unused, and its token only in rows whose time is not over. */
  lemma LoginIsFresh(es: seq<Event>, e: Event, id: SessionId, s: Session)
    requires Fresh(es + [e]) && e.Login? && Known(es, id, s)
    ensures id != e.id && (s.refreshToken == e.token ==> After(es).now <= s.expiresAt)
  {
    ClockIsNow(es);
    var i :| 0 <= i < |es| && CreatedBy(es[i], id, s);
    assert (es + [e])[i] == es[i] && (es + [e])[|es|] == e && (es + [e])[..|es|] == es;
  }

  lemma OneMore(es: seq<Event>, e: Event)
    ensures After(es + [e]) == Step(After(es), e)
    ensures Answers(es + [e]) == Answers(es) + if e.RefreshCall? then [Refresh(After(es), e.token, e.claim, e.users).1] else []
    ensures WithoutCleanup(es + [e]) == WithoutCleanup(es) + if e.Cleanup? then [] else [e]
  {
    assert (es + [e])[..|es|] == es;
  }

  lemma FreshPrefix(es: seq<Event>, n: nat)
    requires n <= |es| && Fresh(es)
    ensures Fresh(es[..n])
  {
    var init := es[..n];
    forall i, j | 0 <= i < j < |init| && init[i].Login? && init[j].Login?
      ensures init[i].id != init[j].id && (init[i].token == init[j].token ==> Clock(init[..j]) <= init[i].expiresAt)
    {
      assert es[i] == init[i] && es[j] == init[j] && es[..j] == init[..j];
    }
  }

  lemma CleanupStep(s: Store, t: Store, ids: set<SessionId>)
    requires Cleaned(s, t)
    ensures Cleaned(Step(s, Cleanup(ids)), t)
  {
  }

  lemma CleanupEventIsInvisible(init: seq<Event>, ids: set<SessionId>)
    requires Cleaned(After(init), After(WithoutCleanup(init)))
    ensures WithoutCleanup(init + [Cleanup(ids)]) == WithoutCleanup(init)
    ensures Answers(init + [Cleanup(ids)]) == Answers(init)
    ensures Cleaned(After(init + [Cleanup(ids)]), After(WithoutCleanup(init)))
  {
    OneMore(init, Cleanup(ids));
    CleanupStep(After(init), After(WithoutCleanup(init)), ids);
  }

  lemma OtherEventAgrees(init: seq<Event>, e: Event)
    requires Cleaned(After(init), After(WithoutCleanup(init))) && Fresh(init + [e]) && !e.Cleanup?
    ensures var kept := WithoutCleanup(init);
            && WithoutCleanup(init + [e]) == kept + [e]
            && Cleaned(After(init + [e]), After(kept + [e]))
            && (Answers(init) == Answers(kept) ==> Answers(init + [e]) == Answers(kept + [e]))
  {
    var kept := WithoutCleanup(init);
    OneMore(init, e);
    OneMore(kept, e);
    TokensAreUnique(kept);
    if e.Login? {
      var t := After(kept);
      forall id | id in t.sessions
        ensures id != e.id && (t.sessions[id].refreshToken == e.token ==> t.now <= t.sessions[id].expiresAt)
      {
        RowsAreKnown(kept, id);
        WithoutCleanupKnown(init, id, t.sessions[id]);
        LoginIsFresh(init, e, id, t.sessions[id]);
      }
    }
    StepAgrees(After(init), After(kept), e);
    if e.RefreshCall? {
      RefreshAgrees(After(init), After(kept), e.token, e.claim, e.users);
    }
  }

  /** Deleting expired sessions, by the cron or by hand, anywhere in a run and as often as one
      likes, changes the answer of no refresh call; the tables differ in expired rows only. */
  lemma {:induction false} CleanupIsInvisible(es: seq<Event>)
    requires Fresh(es)
    ensures Answers(es) == Answers(WithoutCleanup(es))
    ensures Cleaned(After(es), After(WithoutCleanup(es)))
  {
    if es == [] {
    } else {
      var init, e := es[..|es| - 1], es[|es| - 1];
      FreshPrefix(es, |init|);
      CleanupIsInvisible(init);
      assert es == init + [e];
      if e.Cleanup? {
        CleanupEventIsInvisible(init, e.ids);
      } else {
        OtherEventAgrees(init, e);
      }
    }
  }

  /** The run of two logins with one token, the first expired by the time of the second. */
  function ReusedToken(user: UserId, token: Token, cleaned: bool): seq<Event> {
    [] + [Login("1", user, token, 0)] + [TimePasses(1)] + (if cleaned then [Cleanup({"1"})] else [])
  }

  lemma ReusedTokenStore(user: UserId, token: Token, cleaned: bool)
    ensures After(ReusedToken(user, token, cleaned))
            == Store(1, if cleaned then map[] else map["1" := Session(user, token, 0, true, 0, None, None)])
    ensures Answers(ReusedToken(user, token, cleaned)) == []
    ensures WithoutCleanup(ReusedToken(user, token, cleaned)) == ReusedToken(user, token, false)
  {
    var e1, e2, e3 := Login("1", user, token, 0), TimePasses(1), Cleanup({"1"});
    OneMore([], e1);
    OneMore([] + [e1], e2);
    OneMore([] + [e1] + [e2], e3);
    assert After([] + [e1]) == Store(0, map["1" := Session(user, token, 0, true, 0, None, None)]);
    if cleaned {
      var st := After([] + [e1] + [e2]);
      assert "1" in Expired(st);
      assert After([] + [e1] + [e2] + [e3]).sessions == map[];
    } else {
      assert ReusedToken(user, token, false) == [] + [e1] + [e2];
    }
  }

  lemma OnlyRowRefreshes(now: int, id: SessionId, s: Session)
    requires s.isActive
    ensures Refresh(Store(now, map[id := s]), s.refreshToken, Some(s.userId), {s.userId}).1 <==> now <= s.expiresAt
  {
    var m := map[id := s];
    assert HoldsActive(m, s.refreshToken, id);
    FindActiveIs(m, s.refreshToken, id);
  }

  /** Freshness is needed: when a token is issued again after its row has expired, the clean-up does
      decide whether the second login is stored, and so whether its refresh succeeds. */
  lemma ReusedTokenShowsCleanup(user: UserId, token: Token, cleaned: bool)
    ensures Answers(ReusedToken(user, token, cleaned) + [Login("2", user, token, 9)] + [RefreshCall(token, Some(user), {user})])
            == [cleaned]
  {
    var es, e4, e5 := ReusedToken(user, token, cleaned), Login("2", user, token, 9), RefreshCall(token, Some(user), {user});
    ReusedTokenStore(user, token, cleaned);
    OneMore(es, e4);
    OneMore(es + [e4], e5);
    var first := Session(user, token, 0, true, 0, None, None);
    var second := Session(user, token, 9, true, 1, None, None);
    if cleaned {
      assert CreateSession(Store(1, map[]), "2", user, token, 9) == Store(1, map["2" := second]);
      OnlyRowRefreshes(1, "2", second);
    } else {
      assert map["1" := first]["1"].refreshToken == token;
      assert CreateSession(Store(1, map["1" := first]), "2", user, token, 9) == Store(1, map["1" := first]);
      OnlyRowRefreshes(1, "1", first);
    }
  }

  // ----- what a refresh depends on -----

  /** e revokes the session created by the login c. */
  predicate Covers(e: Event, c: Event)
    requires c.Login?
  {
    || (e.RevokeById? && e.id == c.id)
    || (e.RevokeByToken? && e.token == c.token)
    || (e.RevokeAllOf? && e.user == c.user)
  }

  /** The login at i is the first with its token; a later one is refused. */
  ghost predicate FirstWithToken(es: seq<Event>, i: nat)
    requires i < |es| && es[i].Login?
  {
    forall j :: 0 <= j < i && es[j].Login? ==> es[j].token != es[i].token
  }

  /** The login at i was the first with its token, no later event revoked its session, and its time
      is not over. */
  ghost predicate Survives(es: seq<Event>, i: nat) {
    && i < |es| && es[i].Login? && FirstWithToken(es, i) && Clock(es) <= es[i].expiresAt
    && forall j :: i < j < |es| ==> !Covers(es[j], es[i])
  }

  ghost predicate Usable(st: Store, e: Event)
    requires e.Login?
  {
    e.id in st.sessions && CreatedBy(e, e.id, st.sessions[e.id]) && st.sessions[e.id].isActive && st.now <= e.expiresAt
  }

  /** A usable session stays usable exactly until its time is over or an event covers it. */
  lemma StepKeepsUsable(st: Store, e: Event, c: Event)
    requires c.Login? && UniqueTokens(st.sessions) && c.id in st.sessions && CreatedBy(c, c.id, st.sessions[c.id])
    ensures Usable(Step(st, e), c) <==> Usable(st, c) && !Covers(e, c) && Step(st, e).now <= c.expiresAt
  {
    if e.RefreshCall? {
      FindActiveHolds(st.sessions, e.token);
    }
  }

  lemma SameIdSameLogin(es: seq<Event>, i: nat, k: nat)
    requires Fresh(es) && i < |es| && k < |es| && es[i].Login? && es[k].Login? && es[i].id == es[k].id
    ensures i == k
  {
  }

  lemma LoginOwnsRow(es: seq<Event>, i: nat)
    requires Fresh(es) && i < |es| && es[i].Login? && es[i].id in After(es).sessions
    ensures CreatedBy(es[i], es[i].id, After(es).sessions[es[i].id])
  {
    RowsAreKnown(es, es[i].id);
    var k: nat :| k < |es| && CreatedBy(es[k], es[i].id, After(es).sessions[es[i].id]);
    SameIdSameLogin(es, i, k);
  }

  /** The first login with a token is stored: neither its id nor its token is taken. */
  lemma FirstLoginStored(es: seq<Event>, e: Event)
    requires Fresh(es + [e]) && e.Login? && FirstWithToken(es + [e], |es|)
    ensures e.id !in After(es).sessions && !TokenTaken(After(es).sessions, e.token)
  {
    var st := After(es);
    forall id | id in st.sessions ensures id != e.id && st.sessions[id].refreshToken != e.token {
      RowsAreKnown(es, id);
      LoginIsFresh(es, e, id, st.sessions[id]);
      var i :| 0 <= i < |es| && CreatedBy(es[i], id, st.sessions[id]);
      assert (es + [e])[i] == es[i];
    }
  }

  /** The row of a first login stays in the table, revoked or not, until its time is over. */
  lemma {:induction false} RowStays(es: seq<Event>, i: nat)
    requires Fresh(es) && i < |es| && es[i].Login? && FirstWithToken(es, i) && Clock(es) <= es[i].expiresAt
    ensures es[i].id in After(es).sessions
  {
    var init, e := es[..|es| - 1], es[|es| - 1];
    assert es == init + [e];
    if i == |init| {
      FirstLoginStored(init, e);
    } else {
      assert forall k :: 0 <= k < |init| ==> init[k] == es[k];
      FreshPrefix(es, |init|);
      RowStays(init, i);
      LoginOwnsRow(init, i);
      ClockIsNow(init);
    }
  }

  lemma {:induction false} FirstLogin(es: seq<Event>, i: nat) returns (k: nat)
    requires i < |es| && es[i].Login?
    ensures k <= i && es[k].Login? && es[k].token == es[i].token && FirstWithToken(es, k)
    decreases i
  {
    k := i;
    if j :| 0 <= j < i && es[j].Login? && es[j].token == es[i].token { k := FirstLogin(es, j); }
  }

  /** A login with a token issued before is refused, so it never has a row. */
  lemma {:induction false} ReissueIsRefused(es: seq<Event>, i: nat)
    requires Fresh(es) && i < |es| && es[i].Login? && !FirstWithToken(es, i)
    ensures es[i].id !in After(es).sessions
  {
    var init, e := es[..|es| - 1], es[|es| - 1];
    assert es == init + [e];
    assert forall k :: 0 <= k < |init| ==> init[k] == es[k];
    FreshPrefix(es, |init|);
    if i < |init| {
      ReissueIsRefused(init, i);
    } else {
      var k := FirstLogin(es, i);
      RowStays(init, k);
      LoginOwnsRow(init, k);
      assert TokenTaken(After(init).sessions, e.token);
      if e.id in After(init).sessions {
        RowsAreKnown(init, e.id);
        LoginIsFresh(init, e, e.id, After(init).sessions[e.id]);
      }
    }
  }

  /** One more event: a login survives it exactly if it had survived so far, the event does not
      cover it, and its time is still not over. */
  lemma SurvivesOneMore(init: seq<Event>, e: Event, i: nat)
    requires i < |init| && init[i].Login?
    ensures Survives(init + [e], i)
            <==> Survives(init, i) && !Covers(e, init[i]) && Clock(init + [e]) <= init[i].expiresAt
  {
    var es := init + [e];
    assert es[..|es| - 1] == init && es[|init|] == e;
    assert forall k :: 0 <= k < |init| ==> init[k] == es[k];
    if Survives(init, i) && !Covers(e, init[i]) {
      forall j | i < j < |es| ensures !Covers(es[j], es[i]) { assert j < |init| ==> es[j] == init[j]; }
    }
  }

  /** The session of the login at i is usable exactly if the history says it survives. */
  lemma {:induction false} UsableIffSurvives(es: seq<Event>, i: nat)
    requires Fresh(es) && i < |es| && es[i].Login?
    ensures Usable(After(es), es[i]) <==> Survives(es, i)
  {
    var init, e := es[..|es| - 1], es[|es| - 1];
    ClockIsNow(es);
    assert es == init + [e];
    if !FirstWithToken(es, i) {
      ReissueIsRefused(es, i);
    } else if i == |init| {
      FirstLoginStored(init, e);
    } else {
      assert init[i] == es[i];
      FreshPrefix(es, |init|);
      UsableIffSurvives(init, i);
      SurvivesOneMore(init, e, i);
      TokensAreUnique(init);
      if es[i].id in After(init).sessions {
        LoginOwnsRow(init, i);
        StepKeepsUsable(After(init), e, es[i]);
      } else {
        assert !(e.Login? && e.id == es[i].id);
      }
    }
  }

  /** A refresh succeeds if and only if the token verifies for an existing user and some login of
      the run was the first to issue it, its time is not over, and no later revocation by id, by
      token or by user covers it. Clean-ups, other logins and other refreshes do not matter. */
  lemma RefreshSucceedsExactly(es: seq<Event>, token: Token, claim: Option<UserId>, users: set<UserId>)
    requires Fresh(es)
    ensures Refresh(After(es), token, claim, users).1
            <==> claim.Some? && claim.value in users && exists i: nat :: Survives(es, i) && es[i].token == token
  {
    var st := After(es);
    FindActiveHolds(st.sessions, token);
    TokensAreUnique(es);
    if i: nat :| Survives(es, i) && es[i].token == token {
      UsableIffSurvives(es, i);
      FindActiveIs(st.sessions, token, es[i].id);
    }
    if FindActive(st.sessions, token).Some? && st.now <= st.sessions[FindActive(st.sessions, token).value].expiresAt {
      var id := FindActive(st.sessions, token).value;
      RowsAreKnown(es, id);
      var i :| 0 <= i < |es| && CreatedBy(es[i], id, st.sessions[id]);
      UsableIffSurvives(es, i);
    }
  }

  /** A revoked session is never active again, whatever follows. */
  lemma {:induction false} InactiveStaysInactive(before: seq<Event>, after: seq<Event>, id: SessionId)
    requires Fresh(before + after)
    requires id in After(before).sessions && !After(before).sessions[id].isActive
    ensures id in After(before + after).sessions ==> !After(before + after).sessions[id].isActive
  {
    if after == [] {
      assert before + after == before;
    } else {
      var es := before + after;
      var init, e := after[..|after| - 1], after[|after| - 1];
      assert es[..|es| - 1] == before + init;
      FreshPrefix(es, |es| - 1);
      InactiveStaysInactive(before, init, id);
      RowsAreKnown(before, id);
      var k :| 0 <= k < |before| && CreatedBy(before[k], id, After(before).sessions[id]);
      assert es[k] == before[k] && es[|es| - 1] == e;
      assert !(e.Login? && e.id == id);
      if id in After(es).sessions {
        StepKeepsColumns(After(before + init), e, id);
      }
    }
  }

  /** The columns of a revoked row: when and why, and no other column changed. */
  function Ended(s: Session, now: int, reason: string): Session {
    Session(s.userId, s.refreshToken, s.expiresAt, false, s.lastUsedAt, Some(now), Some(reason))
  }

  /** What a refresh call does to a row: nothing unless the token verifies and is that of the row,
      which is active; then an expired row is revoked, and another is used when its user exists. */
  function RefreshedRow(s: Session, now: int, token: Token, claim: Option<UserId>, users: set<UserId>): Session {
    if claim == None || s.refreshToken != token || !s.isActive then s
    else if now > s.expiresAt then Ended(s, now, "token_expired")
    else if claim.value in users then Session(s.userId, s.refreshToken, s.expiresAt, true, now, s.revokedAt, s.revokeReason)
    else s
  }

  ghost predicate RowsRefreshed(t: Table, rows: Table, now: int, token: Token, claim: Option<UserId>, users: set<UserId>) {
    t.Keys == rows.Keys && forall id :: id in t ==> t[id] == RefreshedRow(rows[id], now, token, claim, users)
  }

  lemma RefreshInColumns(st: Store, token: Token, claim: Option<UserId>, users: set<UserId>)
    requires UniqueTokens(st.sessions)
    ensures var t := Refresh(st, token, claim, users).0;
            t.now == st.now && RowsRefreshed(t.sessions, st.sessions, st.now, token, claim, users)
  {
    FindActiveHolds(st.sessions, token);
    var t := Refresh(st, token, claim, users).0;
    forall id | id in t.sessions ensures t.sessions[id] == RefreshedRow(st.sessions[id], st.now, token, claim, users) {
      if HoldsActive(st.sessions, token, id) { FindActiveIs(st.sessions, token, id); }
    }
  }

  /** Logging a user out everywhere deactivates all that user's sessions and touches no other row. */
  lemma RevokeAllIsPrecise(st: Store, user: UserId, reason: string)
    ensures var t := Step(st, RevokeAllOf(user, reason));
            && t.sessions.Keys == st.sessions.Keys
            && (forall id :: id in st.sessions && st.sessions[id].userId == user ==> !t.sessions[id].isActive)
            && (forall id :: id in st.sessions && (st.sessions[id].userId != user || !st.sessions[id].isActive)
                  ==> t.sessions[id] == st.sessions[id])
  {
  }
}
