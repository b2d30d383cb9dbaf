/** WebRTC call signalling: the canonical pair id, the handlers on the map of active calls, and the
    per-side ICE candidate logs as a projection of the history of handler calls. */
module AudioCalls {
  import opened Wrappers

  type SocketId = string
  type Candidate = string
  type Description = string

  // ----- the call id -----

  /** Code-unit order, the default order of `sort()`. */
  predicate Less(a: string, b: string) {
    b != [] && (a == [] || a[0] < b[0] || (a[0] == b[0] && Less(a[1..], b[1..])))
  }

  /** `[a, b].sort().join('-')` */
  function GetCallId(a: SocketId, b: SocketId): string {
    if Less(b, a) then b + "-" + a else a + "-" + b
  }

  lemma {:induction false} LessIsTotal(a: string, b: string)
    ensures a != b ==> (Less(a, b) <==> !Less(b, a))
    ensures !Less(a, a)
  {
    if a != [] {
      LessIsTotal(a[1..], if b == [] then [] else b[1..]);
      if b != [] && a[0] == b[0] && a != b {
        assert a == [a[0]] + a[1..] && b == [b[0]] + b[1..];
      }
    }
  }

  lemma CallIdSymmetric(a: SocketId, b: SocketId)
    ensures GetCallId(a, b) == GetCallId(b, a)
  {
    LessIsTotal(a, b);
  }

  /** The id spelled out: the two ids joined by a hyphen, in the order of the first code unit in which
      they differ, or the shorter first when the other begins with it. */
  lemma {:induction false} CallIdSpelled(p: string, x: char, y: char, r: string, q: string)
    requires x < y
    ensures GetCallId(p + [x] + r, p + [y] + q) == p + [x] + r + "-" + (p + [y] + q)
    ensures GetCallId(p, p + [x] + r) == p + "-" + (p + [x] + r)
  {
    LessSpelled(p, x, y, r, q);
    LessIsTotal(p + [x] + r, p + [y] + q);
    LessIsTotal(p, p + [x] + r);
  }

  lemma {:induction false} LessSpelled(p: string, x: char, y: char, r: string, q: string)
    requires x < y
    ensures Less(p + [x] + r, p + [y] + q) && Less(p, p + [x] + r)
  {
    if p != "" {
      LessSpelled(p[1..], x, y, r, q);
      assert (p + [x] + r)[1..] == p[1..] + [x] + r && (p + [y] + q)[1..] == p[1..] + [y] + q;
    }
  }

  predicate SamePair(a: SocketId, b: SocketId, c: SocketId, d: SocketId) {
    (a == c && b == d) || (a == d && b == c)
  }

  lemma JoinInjective(a: string, b: string, c: string, d: string)
    requires |a| == |c| && a + "-" + b == c + "-" + d
    ensures a == c && b == d
  {
    assert a == (a + "-" + b)[..|a|] && c == (c + "-" + d)[..|c|];
    assert b == (a + "-" + b)[|a| + 1..] && d == (c + "-" + d)[|c| + 1..];
  }

  /** For ids of one length the call id determines the unordered pair; it is enough to know the
      length of three of them. */
  lemma CallIdInjective(a: SocketId, b: SocketId, c: SocketId, d: SocketId)
    requires |a| == |b| == |c|
    ensures GetCallId(a, b) == GetCallId(c, d) <==> SamePair(a, b, c, d)
  {
    CallIdSymmetric(a, b);
    CallIdSymmetric(c, d);
    if GetCallId(a, b) == GetCallId(c, d) {
      var x, y := if Less(b, a) then b else a, if Less(b, a) then a else b;
      var z, w := if Less(d, c) then d else c, if Less(d, c) then c else d;
      JoinInjective(x, y, z, w);
    }
  }

  /** Without that, different pairs can share an id: ids may contain the separator. */
  lemma CallIdsCollide()
    ensures GetCallId("a", "b-c") == GetCallId("a-b", "c") && !SamePair("a", "b-c", "a-b", "c")
  {
    assert "a"[0] < "b-c"[0] && "a-b"[0] < "c"[0];
    LessIsTotal("a", "b-c");
    LessIsTotal("a-b", "c");
    assert "a" + "-" + "b-c" == "a-b" + "-" + "c";
  }

  // ----- the handlers, as functions of the state -----

  datatype CallStatus = Ringing | Answered | Rejected

  datatype Call = Call(
    callerId: SocketId,
    calleeId: SocketId,
    offer: Description,
    answer: Option<Description>,
    callerIce: seq<Candidate>,
    calleeIce: seq<Candidate>,
    status: CallStatus)

  /** `order` lists the keys of the JavaScript Map in insertion order. */
  datatype Calls = Calls(active: map<string, Call>, order: seq<string>)

  datatype Event =
    | CallUser(from: SocketId, to: SocketId, offer: Description)
    | AnswerCall(from: SocketId, to: SocketId, answer: Description)
    | RejectCall(from: SocketId, to: SocketId)
    | IceCandidate(from: SocketId, to: SocketId, candidate: Candidate)
    | EndCall(from: SocketId, to: SocketId)
    | Disconnected(id: SocketId)

  function Without(order: seq<string>, k: string): seq<string> {
    if order == [] then []
    else if order[0] == k then Without(order[1..], k)
    else [order[0]] + Without(order[1..], k)
  }

  function Put(s: Calls, k: string, c: Call): Calls {
    Calls(s.active[k := c], if k in s.active then s.order else s.order + [k])
  }

  function Delete(s: Calls, k: string): Calls { Calls(s.active - {k}, Without(s.order, k)) }

  predicate Involves(c: Call, id: SocketId) { c.callerId == id || c.calleeId == id }

  /** The first call, in insertion order, that the socket takes part in. */
  function FindCall(active: map<string, Call>, order: seq<string>, id: SocketId): Option<string> {
    if order == [] then None
    else if order[0] in active && Involves(active[order[0]], id) then Some(order[0])
    else FindCall(active, order[1..], id)
  }

  function NewCall(from: SocketId, to: SocketId, offer: Description): Call {
    Call(from, to, offer, None, [], [], Ringing)
  }

  /** A candidate goes to the caller's list when the caller sent it, else to the callee's. */
  function WithCandidate(c: Call, from: SocketId, candidate: Candidate): Call {
    if from == c.callerId then c.(callerIce := c.callerIce + [candidate])
    else c.(calleeIce := c.calleeIce + [candidate])
  }

  function Step(s: Calls, e: Event): Calls {
    match e
    case CallUser(from, to, offer) => Put(s, GetCallId(from, to), NewCall(from, to, offer))
    case AnswerCall(from, to, answer) =>
      var k := GetCallId(from, to);
      if k in s.active then s.(active := s.active[k := s.active[k].(answer := Some(answer), status := Answered)]) else s
    case RejectCall(from, to) => Delete(s, GetCallId(from, to))
    case IceCandidate(from, to, candidate) =>
      var k := GetCallId(from, to);
      if k in s.active then s.(active := s.active[k := WithCandidate(s.active[k], from, candidate)]) else s
    case EndCall(from, to) => Delete(s, GetCallId(from, to))
    case Disconnected(id) =>
      (match FindCall(s.active, s.order, id)
       case None => s
       case Some(k) => if k in s.active then Delete(s, GetCallId(s.active[k].callerId, s.active[k].calleeId)) else s)
  }

  function After(es: seq<Event>): Calls {
    if es == [] then Calls(map[], []) else Step(After(es[..|es| - 1]), es[|es| - 1])
  }

  // ----- every session sits at its canonical key -----

  ghost predicate Canonical(s: Calls) {
    && (forall k :: k in s.active ==> GetCallId(s.active[k].callerId, s.active[k].calleeId) == k)
    && (forall k :: k in s.order <==> k in s.active)
    && (forall i, j :: 0 <= i < j < |s.order| ==> s.order[i] != s.order[j])
  }

  lemma {:induction false} WithoutMembers(order: seq<string>, k: string, x: string)
    ensures x in Without(order, k) <==> x in order && x != k
  {
    if order != [] { WithoutMembers(order[1..], k, x); }
  }

  lemma {:induction false} WithoutDistinct(order: seq<string>, k: string)
    requires forall i, j :: 0 <= i < j < |order| ==> order[i] != order[j]
    ensures forall i, j :: 0 <= i < j < |Without(order, k)| ==> Without(order, k)[i] != Without(order, k)[j]
  {
    if order != [] {
      WithoutDistinct(order[1..], k);
      var rest := Without(order[1..], k);
      forall i | 0 <= i < |rest| ensures rest[i] != order[0] {
        WithoutMembers(order[1..], k, rest[i]);
        var j :| 0 <= j < |order[1..]| && order[1..][j] == rest[i];
        assert order[j + 1] == rest[i];
      }
    }
  }

  lemma DeleteKeepsCanonical(s: Calls, k: string)
    requires Canonical(s)
    ensures Canonical(Delete(s, k))
  {
    forall x ensures x in Delete(s, k).order <==> x in Delete(s, k).active { WithoutMembers(s.order, k, x); }
    WithoutDistinct(s.order, k);
  }

  lemma {:induction false} FindCallFinds(active: map<string, Call>, order: seq<string>, id: SocketId)
    ensures FindCall(active, order, id).Some? ==>
              var k := FindCall(active, order, id).value; k in order && k in active && Involves(active[k], id)
    ensures FindCall(active, order, id).None? ==> forall k :: k in order && k in active ==> !Involves(active[k], id)
  {
    if order != [] { FindCallFinds(active, order[1..], id); }
  }

  lemma StepKeepsCanonical(s: Calls, e: Event)
    requires Canonical(s)
    ensures Canonical(Step(s, e))
  {
    match e
    case RejectCall(from, to) => DeleteKeepsCanonical(s, GetCallId(from, to));
    case EndCall(from, to) => DeleteKeepsCanonical(s, GetCallId(from, to));
    case Disconnected(id) =>
      if FindCall(s.active, s.order, id).Some? {
        FindCallFinds(s.active, s.order, id);
        DeleteKeepsCanonical(s, FindCall(s.active, s.order, id).value);
      }
    case _ =>
  }

  lemma {:induction false} HistoriesAreCanonical(es: seq<Event>)
    ensures Canonical(After(es))
  {
    if es != [] {
      HistoriesAreCanonical(es[..|es| - 1]);
      StepKeepsCanonical(After(es[..|es| - 1]), es[|es| - 1]);
    }
  }

  /** It does not matter which side hangs up or rejects; what goes is the session at their call id. */
  lemma EitherSideHitsTheSameCall(es: seq<Event>, a: SocketId, b: SocketId)
    ensures Step(After(es), EndCall(a, b)) == Step(After(es), EndCall(b, a))
    ensures Step(After(es), RejectCall(a, b)) == Step(After(es), RejectCall(b, a))
    ensures GetCallId(a, b) !in Step(After(es), EndCall(a, b)).active
    ensures forall k :: k in After(es).active && k !in Step(After(es), EndCall(a, b)).active
              ==> GetCallId(After(es).active[k].callerId, After(es).active[k].calleeId) == GetCallId(a, b)
  {
    CallIdSymmetric(a, b);
    HistoriesAreCanonical(es);
  }

  /** The call at k is the first, in insertion order, of those the socket takes part in. */
  ghost predicate FirstCallOf(s: Calls, id: SocketId, k: string) {
    exists i :: && 0 <= i < |s.order| && s.order[i] == k && PartOf(s, id, k)
                && forall j :: 0 <= j < i ==> !PartOf(s, id, s.order[j])
  }

  predicate PartOf(s: Calls, id: SocketId, k: string) { k in s.active && id in {s.active[k].callerId, s.active[k].calleeId} }

  lemma {:induction false} FindCallIsFirst(active: map<string, Call>, order: seq<string>, id: SocketId, k: string)
    requires FindCall(active, order, id) == Some(k)
    ensures FirstCallOf(Calls(active, order), id, k)
  {
    var s := Calls(active, order);
    if order[0] in active && Involves(active[order[0]], id) {
      assert PartOf(s, id, order[0]);
    } else {
      var rest := Calls(active, order[1..]);
      FindCallIsFirst(active, order[1..], id, k);
      var i :| 0 <= i < |rest.order| && rest.order[i] == k && PartOf(rest, id, k) && forall j :: 0 <= j < i ==> !PartOf(rest, id, rest.order[j]);
      assert order[i + 1] == k;
      forall j | 0 <= j < i + 1 ensures !PartOf(s, id, order[j]) {
        if j > 0 { assert rest.order[j - 1] == order[j]; assert !PartOf(rest, id, rest.order[j - 1]); }
      }
    }
  }

  lemma FirstCallIsUnique(s: Calls, id: SocketId, k: string, l: string)
    requires FirstCallOf(s, id, k) && FirstCallOf(s, id, l)
    ensures k == l
  {
    var i :| 0 <= i < |s.order| && s.order[i] == k && PartOf(s, id, k) && forall j :: 0 <= j < i ==> !PartOf(s, id, s.order[j]);
    var i' :| 0 <= i' < |s.order| && s.order[i'] == l && PartOf(s, id, l) && forall j :: 0 <= j < i' ==> !PartOf(s, id, s.order[j]);
  }

  /** A disconnect ends the first of the socket's calls, just that one, and nothing when it has none. */
  lemma DisconnectEndsOneCall(es: seq<Event>, id: SocketId)
    ensures var s := After(es);
            var t := Step(s, Disconnected(id));
            && ((forall k :: !PartOf(s, id, k)) ==> t == s)
            && (forall k :: FirstCallOf(s, id, k) ==> t.active == s.active - {k})
            && ((exists k :: PartOf(s, id, k)) ==> exists k :: FirstCallOf(s, id, k))
  {
    HistoriesAreCanonical(es);
    var s := After(es);
    FindCallFinds(s.active, s.order, id);
    if FindCall(s.active, s.order, id).Some? {
      var k := FindCall(s.active, s.order, id).value;
      FindCallIsFirst(s.active, s.order, id, k);
      assert PartOf(s, id, k);
      forall l | FirstCallOf(s, id, l) ensures l == k { FirstCallIsUnique(s, id, k, l); }
    } else {
      forall k ensures !PartOf(s, id, k) {}
    }
  }

  lemma {:induction false} WithoutAt(order: seq<string>, k: string, p: nat)
    requires p < |order| && order[p] == k
    requires forall i, j :: 0 <= i < j < |order| ==> order[i] != order[j]
    ensures Without(order, k) == order[..p] + order[p + 1..]
  {
    var rest := order[1..];
    if p == 0 {
      WithoutAbsent(rest, k);
    } else {
      WithoutAt(rest, k, p - 1);
      assert order[..p] == [order[0]] + rest[..p - 1] && order[p + 1..] == rest[p..];
    }
  }

  lemma {:induction false} WithoutAbsent(order: seq<string>, k: string)
    requires k !in order
    ensures Without(order, k) == order
  {
    if order != [] { WithoutAbsent(order[1..], k); }
  }

  /** The insertion order of the map: a new call goes to the end, calling again keeps the place, and
      a call that ends leaves the others in order. */
  lemma InsertionOrder(es: seq<Event>, e: Event)
    ensures var s := After(es);
            var t := Step(s, e);
            && (forall k :: k in t.active && k !in s.active ==> t.order == s.order + [k])
            && (t.active.Keys == s.active.Keys ==> t.order == s.order)
            && (forall p :: 0 <= p < |s.order| && s.order[p] !in t.active ==> t.order == s.order[..p] + s.order[p + 1..])
  {
    HistoriesAreCanonical(es);
    var s := After(es);
    match e
    case CallUser(_, _, _) =>
    case AnswerCall(_, _, _) =>
    case IceCandidate(_, _, _) =>
    case RejectCall(from, to) => OrderAfterDelete(s, GetCallId(from, to));
    case EndCall(from, to) => OrderAfterDelete(s, GetCallId(from, to));
    case Disconnected(id) =>
      FindCallFinds(s.active, s.order, id);
      if FindCall(s.active, s.order, id).Some? { OrderAfterDelete(s, FindCall(s.active, s.order, id).value); }
  }

  lemma OrderAfterDelete(s: Calls, k: string)
    requires Canonical(s)
    ensures k !in s.active ==> Delete(s, k) == s
    ensures forall p :: 0 <= p < |s.order| && s.order[p] !in Delete(s, k).active ==>
              s.order[p] == k && Delete(s, k).order == s.order[..p] + s.order[p + 1..]
  {
    if k !in s.active {
      WithoutAbsent(s.order, k);
      assert s.active - {k} == s.active;
    }
    forall p | 0 <= p < |s.order| && s.order[p] !in Delete(s, k).active
      ensures s.order[p] == k && Without(s.order, k) == s.order[..p] + s.order[p + 1..]
    {
      assert s.order[p] in s.order;
      WithoutAt(s.order, k, p);
    }
  }

  // ----- the candidate logs are a projection of the history -----

  predicate CallsPair(e: Event, a: SocketId, b: SocketId) { e.CallUser? && SamePair(e.from, e.to, a, b) }

  /** What happened since the last callUser between a and b. */
  function SinceCall(es: seq<Event>, a: SocketId, b: SocketId): seq<Event> {
    if es == [] || CallsPair(es[|es| - 1], a, b) then []
    else SinceCall(es[..|es| - 1], a, b) + [es[|es| - 1]]
  }

  /** The candidates sent from one socket to another, in order. */
  function Sent(es: seq<Event>, from: SocketId, to: SocketId): seq<Candidate> {
    if es == [] then []
    else
      var e := es[|es| - 1];
      Sent(es[..|es| - 1], from, to) + if e.IceCandidate? && e.from == from && e.to == to then [e.candidate] else []
  }

  /** The id of the sending socket has length n. Whom it addresses is the client's choice. */
  predicate SenderHasLength(e: Event, n: nat) { e.Disconnected? || |e.from| == n }

  /** The answer given last between a and b. */
  function LastAnswer(es: seq<Event>, a: SocketId, b: SocketId): Option<Description> {
    if es == [] then None
    else
      var e := es[|es| - 1];
      if e.AnswerCall? && SamePair(e.from, e.to, a, b) then Some(e.answer) else LastAnswer(es[..|es| - 1], a, b)
  }

  /** The last callUser between a and b. */
  function LastCall(es: seq<Event>, a: SocketId, b: SocketId): Option<Event> {
    if es == [] then None
    else if CallsPair(es[|es| - 1], a, b) then Some(es[|es| - 1])
    else LastCall(es[..|es| - 1], a, b)
  }

  /** Caller, callee and offer are those of the last callUser of the pair, answer and status those of
      the last answer since. The two lists hold what each side has sent since; someone calling
      himself fills the caller's list only. */
  ghost predicate LogsMatch(c: Call, es: seq<Event>) {
    var since := SinceCall(es, c.callerId, c.calleeId);
    && LastCall(es, c.callerId, c.calleeId) == Some(CallUser(c.callerId, c.calleeId, c.offer))
    && c.answer == LastAnswer(since, c.callerId, c.calleeId)
    && c.status == (if c.answer == None then Ringing else Answered)
    && c.callerIce == Sent(since, c.callerId, c.calleeId)
    && c.calleeIce == if c.callerId == c.calleeId then [] else Sent(since, c.calleeId, c.callerId)
  }

  lemma SentSnoc(es: seq<Event>, e: Event, from: SocketId, to: SocketId)
    ensures Sent(es + [e], from, to)
            == Sent(es, from, to) + if e.IceCandidate? && e.from == from && e.to == to then [e.candidate] else []
  {
    assert (es + [e])[..|es|] == es;
  }

  /** A candidate event of another call concerns neither direction of this one. */
  lemma OneMoreEvent(es: seq<Event>, e: Event, a: SocketId, b: SocketId)
    requires !CallsPair(e, a, b)
    ensures Sent(SinceCall(es + [e], a, b), a, b)
            == Sent(SinceCall(es, a, b), a, b) + if e.IceCandidate? && e.from == a && e.to == b then [e.candidate] else []
    ensures LastCall(es + [e], a, b) == LastCall(es, a, b)
    ensures LastAnswer(SinceCall(es + [e], a, b), a, b)
            == if e.AnswerCall? && SamePair(e.from, e.to, a, b) then Some(e.answer) else LastAnswer(SinceCall(es, a, b), a, b)
    ensures Sent(SinceCall(es + [e], a, b), b, a)
            == Sent(SinceCall(es, a, b), b, a) + if e.IceCandidate? && e.from == b && e.to == a then [e.candidate] else []
  {
    assert (es + [e])[..|es|] == es;
    assert (SinceCall(es, a, b) + [e])[..|SinceCall(es, a, b)|] == SinceCall(es, a, b);
    SentSnoc(SinceCall(es, a, b), e, a, b);
    SentSnoc(SinceCall(es, a, b), e, b, a);
  }

  lemma NewCallMatches(es: seq<Event>, e: Event)
    requires e.CallUser?
    ensures LogsMatch(NewCall(e.from, e.to, e.offer), es + [e])
  {
    assert CallsPair((es + [e])[|es|], e.from, e.to);
  }

  /** How one event changes a call it does not replace. */
  function Touch(c: Call, k: string, e: Event): Call {
    match e
    case AnswerCall(from, to, answer) => if GetCallId(from, to) == k then c.(answer := Some(answer), status := Answered) else c
    case IceCandidate(from, to, candidate) => if GetCallId(from, to) == k then WithCandidate(c, from, candidate) else c
    case _ => c
  }

  lemma TouchInColumns(c: Call, k: string, e: Event)
    requires !e.Disconnected? && (GetCallId(e.from, e.to) == k <==> SamePair(c.callerId, c.calleeId, e.from, e.to))
    ensures var t, own := Touch(c, k, e), SamePair(e.from, e.to, c.callerId, c.calleeId);
            && t.callerId == c.callerId && t.calleeId == c.calleeId && t.offer == c.offer
            && t.answer == (if e.AnswerCall? && own then Some(e.answer) else c.answer)
            && t.status == (if e.AnswerCall? && own then Answered else c.status)
            && t.callerIce == c.callerIce + (if e.IceCandidate? && own && e.from == c.callerId then [e.candidate] else [])
            && t.calleeIce == c.calleeIce + (if e.IceCandidate? && own && e.from != c.callerId then [e.candidate] else [])
  {
  }

  lemma KeptCallMatches(es: seq<Event>, e: Event, k: string, c: Call, n: nat)
    requires SenderHasLength(e, n) && |c.callerId| == |c.calleeId| == n && GetCallId(c.callerId, c.calleeId) == k
    requires LogsMatch(c, es) && !(e.CallUser? && GetCallId(e.from, e.to) == k)
    ensures LogsMatch(Touch(c, k, e), es + [e])
  {
    if !e.Disconnected? {
      CallIdInjective(c.callerId, c.calleeId, e.from, e.to);
      TouchInColumns(c, k, e);
    }
    OneMoreEvent(es, e, c.callerId, c.calleeId);
  }

  lemma StepOnCall(s: Calls, e: Event, k: string)
    requires k in Step(s, e).active
    ensures Step(s, e).active[k] ==
              if e.CallUser? && GetCallId(e.from, e.to) == k then NewCall(e.from, e.to, e.offer)
              else if k in s.active then Touch(s.active[k], k, e) else Step(s, e).active[k]
    ensures !(e.CallUser? && GetCallId(e.from, e.to) == k) ==> k in s.active
  {
  }

  /** Over any history of handler calls by sockets with ids of length n, addressed to anyone: the
      lists of every live call between two such sockets are exactly the candidates each side sent to
      the other since the last callUser of that pair. */
  lemma {:induction false} LogsAreProjections(es: seq<Event>, n: nat, k: string)
    requires forall i :: 0 <= i < |es| ==> SenderHasLength(es[i], n)
    requires k in After(es).active && |k| == 2 * n + 1
    ensures var c := After(es).active[k]; LogsMatch(c, es) && |c.callerId| == n && |c.calleeId| == n
  {
    var init, e := es[..|es| - 1], es[|es| - 1];
    assert es == init + [e];
    assert SenderHasLength(e, n);
    StepOnCall(After(init), e, k);
    if e.CallUser? && GetCallId(e.from, e.to) == k {
      NewCallMatches(init, e);
    } else {
      HistoriesAreCanonical(init);
      LogsAreProjections(init, n, k);
      KeptCallMatches(init, e, k, After(init).active[k], n);
    }
  }

  // ----- which calls are live -----

  /** e ends the call between a and b: either side ends or rejects it, or a socket disconnects whose
      first call it is. */
  ghost predicate EndsCall(s: Calls, e: Event, a: SocketId, b: SocketId) {
    || ((e.EndCall? || e.RejectCall?) && SamePair(e.from, e.to, a, b))
    || (e.Disconnected? && FirstCallOf(s, e.id, GetCallId(a, b)))
  }

  lemma StepLiveness(s: Calls, e: Event, a: SocketId, b: SocketId)
    requires Canonical(s) && SenderHasLength(e, |a|) && |a| == |b|
    ensures var k := GetCallId(a, b);
            k in Step(s, e).active <==> CallsPair(e, a, b) || (k in s.active && !EndsCall(s, e, a, b))
  {
    var k := GetCallId(a, b);
    if e.Disconnected? {
      FindCallFinds(s.active, s.order, e.id);
      var found := FindCall(s.active, s.order, e.id);
      if found.Some? {
        FindCallIsFirst(s.active, s.order, e.id, found.value);
        if FirstCallOf(s, e.id, k) { FirstCallIsUnique(s, e.id, k, found.value); }
      }
    } else {
      CallIdInjective(a, b, e.from, e.to);
    }
  }

  /** Event i calls the pair and no later event ends that call. */
  ghost predicate LiveSince(es: seq<Event>, i: nat, a: SocketId, b: SocketId)
    requires i < |es|
  {
    CallsPair(es[i], a, b) && forall j :: i < j < |es| ==> !EndsCall(After(es[..j]), es[j], a, b)
  }

  lemma LiveSinceSnoc(init: seq<Event>, e: Event, i: nat, a: SocketId, b: SocketId)
    requires i < |init|
    ensures LiveSince(init + [e], i, a, b) <==> LiveSince(init, i, a, b) && !EndsCall(After(init), e, a, b)
  {
    var es := init + [e];
    assert es[..|init|] == init && es[|init|] == e;
    forall j | 0 <= j < |init| ensures es[j] == init[j] && es[..j] == init[..j] {}
  }

  /** Over any history whose senders have ids of length n, the call between two such sockets is live
      exactly if one of them called the other and nothing has ended the call since. */
  lemma {:induction false} LiveExactly(es: seq<Event>, n: nat, a: SocketId, b: SocketId)
    requires (forall i :: 0 <= i < |es| ==> SenderHasLength(es[i], n)) && |a| == |b| == n
    ensures GetCallId(a, b) in After(es).active <==> exists i :: 0 <= i < |es| && LiveSince(es, i, a, b)
  {
    if es != [] {
      var m := |es| - 1;
      var init, e := es[..m], es[m];
      assert es == init + [e];
      LiveExactly(init, n, a, b);
      HistoriesAreCanonical(init);
      StepLiveness(After(init), e, a, b);
      forall i | 0 <= i < m ensures LiveSince(es, i, a, b) <==> LiveSince(init, i, a, b) && !EndsCall(After(init), e, a, b) {
        LiveSinceSnoc(init, e, i, a, b);
      }
      assert LiveSince(es, m, a, b) <==> CallsPair(e, a, b);
    }
  }

  // ----- the gateway -----

  class CallSession {
    const callerId: SocketId
    const calleeId: SocketId
    const offer: Description
    var answer: Option<Description>
    var callerIceCandidates: seq<Candidate>
    var calleeIceCandidates: seq<Candidate>
    var status: CallStatus

    ghost function Value(): Call
      reads this
    {
      Call(callerId, calleeId, offer, answer, callerIceCandidates, calleeIceCandidates, status)
    }

    constructor (callerId: SocketId, calleeId: SocketId, offer: Description)
      ensures Value() == NewCall(callerId, calleeId, offer)
    {
      this.callerId, this.calleeId, this.offer := callerId, calleeId, offer;
      answer, callerIceCandidates, calleeIceCandidates, status := None, [], [], Ringing;
    }
  }

  class AudioCallGateway {
    var activeCalls: map<string, CallSession>
    var callOrder: seq<string>

    ghost function State(): Calls
      reads this, activeCalls.Values
    {
      Calls(map k | k in activeCalls :: activeCalls[k].Value(), callOrder)
    }

    /** The sessions of different calls are different objects. */
    ghost predicate Valid()
      reads this, activeCalls.Values
    {
      && (forall j, k :: j in activeCalls && k in activeCalls && j != k ==> activeCalls[j] != activeCalls[k])
      && (forall k :: k in callOrder ==> k in activeCalls)
    }

    constructor ()
      ensures Valid() && State() == After([])
    {
      activeCalls, callOrder := map[], [];
    }

    method HandleCallUser(client: SocketId, to: SocketId, offer: Description)
      requires Valid()
      modifies this
      ensures Valid() && fresh(activeCalls.Values - old(activeCalls.Values))
      ensures State() == Step(old(State()), CallUser(client, to, offer))
    {
      var session := new CallSession(client, to, offer);
      Register(GetCallId(client, to), session);
    }

    /** `activeCalls.set(k, session)` */
    method Register(k: string, session: CallSession)
      requires Valid() && session !in activeCalls.Values
      modifies this
      ensures activeCalls == old(activeCalls)[k := session]
      ensures Valid() && State() == Put(old(State()), k, session.Value())
    {
      if k !in activeCalls { callOrder := callOrder + [k]; }
      activeCalls := activeCalls[k := session];
      assert State().active == old(State()).active[k := session.Value()];
    }

    method HandleAnswerCall(client: SocketId, to: SocketId, answer: Description) returns (found: bool)
      requires Valid()
      modifies activeCalls.Values
      ensures Valid() && State() == Step(old(State()), AnswerCall(client, to, answer))
      ensures found <==> GetCallId(client, to) in activeCalls
    {
      var callId := GetCallId(client, to);
      if callId !in activeCalls { return false; }
      var session := activeCalls[callId];
      session.answer := Some(answer);
      session.status := Answered;
      found := true;
    }

    method HandleRejectCall(client: SocketId, to: SocketId)
      requires Valid()
      modifies this, activeCalls.Values
      ensures Valid() && activeCalls.Values <= old(activeCalls.Values)
      ensures State() == Step(old(State()), RejectCall(client, to))
    {
      var callId := GetCallId(client, to);
      if callId in activeCalls {
        activeCalls[callId].status := Rejected;
        Forget(callId);
      } else {
        WithoutAbsent(callOrder, callId);
      }
    }

    method HandleIceCandidate(client: SocketId, to: SocketId, candidate: Candidate)
      requires Valid()
      modifies activeCalls.Values
      ensures Valid() && State() == Step(old(State()), IceCandidate(client, to, candidate))
    {
      var callId := GetCallId(client, to);
      if callId in activeCalls {
        var session := activeCalls[callId];
        if client == session.callerId {
          session.callerIceCandidates := session.callerIceCandidates + [candidate];
        } else {
          session.calleeIceCandidates := session.calleeIceCandidates + [candidate];
        }
      }
    }

    method HandleEndCall(client: SocketId, to: SocketId)
      requires Valid()
      modifies this
      ensures Valid() && activeCalls.Values <= old(activeCalls.Values)
      ensures State() == Step(old(State()), EndCall(client, to))
    {
      Forget(GetCallId(client, to));
    }

    /** `activeCalls.delete(k)` */
    method Forget(k: string)
      requires Valid()
      modifies this
      ensures Valid() && activeCalls == old(activeCalls) - {k} && callOrder == Without(old(callOrder), k)
    {
      forall x ensures x in Without(callOrder, k) <==> x in callOrder && x != k { WithoutMembers(callOrder, k, x); }
      activeCalls, callOrder := activeCalls - {k}, Without(callOrder, k);
    }

    /** Walks the calls in insertion order. */
    method FindCallBySocketId(id: SocketId) returns (r: Option<string>)
      requires Valid()
      ensures r == FindCall(State().active, callOrder, id)
      ensures r.Some? ==> r.value in activeCalls && Involves(activeCalls[r.value].Value(), id)
    {
      var i := 0;
      assert callOrder[0..] == callOrder;
      while i < |callOrder|
        invariant 0 <= i <= |callOrder|
        invariant FindCall(State().active, callOrder[i..], id) == FindCall(State().active, callOrder, id)
      {
        var call := activeCalls[callOrder[i]];
        assert callOrder[i] in callOrder && callOrder[i..][1..] == callOrder[i + 1..];
        if call.callerId == id || call.calleeId == id { return Some(callOrder[i]); }
        i := i + 1;
      }
      r := None;
    }

    method HandleDisconnect(client: SocketId)
      requires Valid()
      modifies this
      ensures Valid() && activeCalls.Values <= old(activeCalls.Values)
      ensures State() == Step(old(State()), Disconnected(client))
    {
      var call := FindCallBySocketId(client);
      if call.Some? {
        var session := activeCalls[call.value];
        ghost var k := GetCallId(session.callerId, session.calleeId);
        assert Step(old(State()), Disconnected(client)) == Delete(old(State()), k);
        Forget(GetCallId(session.callerId, session.calleeId));
        assert State().active == old(State()).active - {k};
      }
    }
  }
}
