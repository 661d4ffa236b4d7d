/** What every run of the store-and-forward relay keeps: order, conservation, the queue's bounds, and the limit. */
module StoreAndForwardLaws {
  import opened Wrappers
  import opened Minimum
  import opened Runs
  import opened StoreAndForward

  // ----- Front-only expiry -----

  predicate SortedByTime(q: seq<Pending>) {
    forall i, j :: 0 <= i < j < |q| ==> q[i].enqueuedAt <= q[j].enqueuedAt
  }

  predicate Outlived(x: Pending, ttl: nat, now: Instant) {
    Elapsed(now, x.enqueuedAt) > ttl
  }

  /** The messages that have not outlived the limit, wherever in the queue they are. */
  function Fresh(q: seq<Pending>, ttl: nat, now: Instant): seq<Pending> {
    if q == [] then []
    else (if Outlived(q[0], ttl, now) then [] else [q[0]]) + Fresh(q[1..], ttl, now)
  }

  lemma {:induction false} AllFresh(q: seq<Pending>, ttl: nat, now: Instant)
    requires forall i :: 0 <= i < |q| ==> !Outlived(q[i], ttl, now)
    ensures Fresh(q, ttl, now) == q
  {
    if q != [] {
      AllFresh(q[1..], ttl, now);
    }
  }

  lemma SortedTail(q: seq<Pending>)
    requires q != [] && SortedByTime(q)
    ensures SortedByTime(q[1..])
  {
  }

  /** In a queue sorted by time, looking only at the front removes exactly what filtering the whole would. */
  lemma {:induction false} FrontIsFilter(q: seq<Pending>, ttl: nat, now: Instant)
    requires SortedByTime(q)
    ensures q[Stale(q, ttl, now)..] == Fresh(q, ttl, now)
  {
    if q != [] && Outlived(q[0], ttl, now) {
      SortedTail(q);
      FrontIsFilter(q[1..], ttl, now);
      assert q[Stale(q, ttl, now)..] == q[1..][Stale(q[1..], ttl, now)..];
    } else {
      forall i | 0 <= i < |q|
        ensures !Outlived(q[i], ttl, now)
      {
        assert i > 0 ==> q[0].enqueuedAt <= q[i].enqueuedAt;
      }
      AllFresh(q, ttl, now);
    }
  }

  // ----- Order and conservation -----

  predicate Increasing(l: seq<Message>, bound: nat) {
    && (forall i, j :: 0 <= i < j < |l| ==> l[i].serial < l[j].serial)
    && (forall i :: 0 <= i < |l| ==> l[i].serial < bound)
  }

  /** What has been handed over, then what still waits. */
  function Line(s: Session): seq<Message> {
    s.handed + Messages(s.pending)
  }

  predicate Numbered(accepted: seq<Message>) {
    forall i :: 0 <= i < |accepted| ==> accepted[i].serial == i
  }

  /** How often a message is in any of the four places. */
  function Tally(s: Session, m: Message): nat {
    multiset(s.handed)[m] + multiset(Messages(s.pending))[m] + multiset(s.expired)[m] + multiset(s.evicted)[m]
  }

  /** Each accepted message is in exactly one place, once, and nothing else is anywhere. */
  ghost predicate Conserved(s: Session) {
    forall m :: Tally(s, m) == multiset(s.accepted)[m]
  }

  predicate Ordered(s: Session) {
    Numbered(s.accepted) && Increasing(Line(s), |s.accepted|)
  }

  /** A queue within its cap, sorted by time, and empty while there is a desktop. */
  predicate Queueing(s: Session, c: Config, clock: Instant) {
    && (s.desktop.Some? ==> s.pending == [])
    && |s.pending| <= c.maxPending
    && SortedByTime(s.pending)
    && (forall i :: 0 <= i < |s.pending| ==> s.pending[i].enqueuedAt <= clock)
  }

  lemma MessagesSplit(q: seq<Pending>, k: nat)
    requires k <= |q|
    ensures Messages(q) == Messages(q[..k]) + Messages(q[k..])
  {
  }

  lemma MessagesAppend(q: seq<Pending>, x: Pending)
    ensures Messages(q + [x]) == Messages(q) + [x.message]
  {
  }

  /** Messages at the front of the queue move to the end of another list. */
  lemma FrontMoves(to: seq<Message>, q: seq<Pending>, k: nat, m: Message)
    requires k <= |q|
    ensures multiset(to + Messages(q[..k]))[m] + multiset(Messages(q[k..]))[m]
      == multiset(to)[m] + multiset(Messages(q))[m]
  {
    MessagesSplit(q, k);
    var a, b := Messages(q[..k]), Messages(q[k..]);
    assert multiset(a + b) == multiset(a) + multiset(b) && multiset(to + a) == multiset(to) + multiset(a);
  }

  lemma ExpireTally(s: Session, ttl: nat, now: Instant, m: Message)
    ensures Tally(ExpirePending(s, ttl, now), m) == Tally(s, m)
  {
    FrontMoves(s.expired, s.pending, Stale(s.pending, ttl, now), m);
  }

  lemma ExpireConserves(s: Session, ttl: nat, now: Instant)
    requires Conserved(s)
    ensures Conserved(ExpirePending(s, ttl, now))
  {
    forall m
      ensures Tally(ExpirePending(s, ttl, now), m) == multiset(s.accepted)[m]
    {
      ExpireTally(s, ttl, now, m);
    }
  }

  lemma FlushConserves(s: Session, sends: nat)
    requires Conserved(s)
    ensures Conserved(Flush(s, sends))
  {
    forall m
      ensures Tally(Flush(s, sends), m) == multiset(s.accepted)[m]
    {
      FrontMoves(s.handed, s.pending, Min(sends, |s.pending|), m);
      assert Tally(s, m) == multiset(s.accepted)[m];
    }
  }

  /** All but the newest accepted message are in exactly one place. */
  ghost predicate ConservedBut(s: Session, x: Message) {
    forall m :: Tally(s, m) + (if m == x then 1 else 0) == multiset(s.accepted)[m]
  }

  lemma Appended(l: seq<Message>, x: Message, m: Message)
    ensures multiset(l + [x])[m] == multiset(l)[m] + if m == x then 1 else 0
  {
  }

  lemma AcceptConserves(s: Session, x: Message)
    requires Conserved(s)
    ensures ConservedBut(Accept(s, x), x)
  {
    forall m
      ensures Tally(Accept(s, x), m) + (if m == x then 1 else 0) == multiset(Accept(s, x).accepted)[m]
    {
      Appended(s.accepted, x, m);
      assert Tally(s, m) == multiset(s.accepted)[m];
    }
  }

  lemma ExpireConservesBut(s: Session, x: Message, ttl: nat, now: Instant)
    requires ConservedBut(s, x)
    ensures ConservedBut(ExpirePending(s, ttl, now), x)
  {
    forall m
      ensures Tally(ExpirePending(s, ttl, now), m) + (if m == x then 1 else 0) == multiset(s.accepted)[m]
    {
      ExpireTally(s, ttl, now, m);
    }
  }

  lemma EnqueueTally(s: Session, x: Message, max: nat, now: Instant, m: Message)
    ensures Tally(EnqueuePending(s, x, max, now), m) == Tally(s, m) + if m == x then 1 else 0
  {
    if max == 0 {
      Appended(s.evicted, x, m);
    } else if |s.pending| >= max {
      FrontMoves(s.evicted, s.pending, 1, m);
      assert Messages(s.pending[..1]) == [s.pending[0].message];
      MessagesAppend(s.pending[1..], Pending(x, now));
      Appended(Messages(s.pending[1..]), x, m);
    } else {
      MessagesAppend(s.pending, Pending(x, now));
      Appended(Messages(s.pending), x, m);
    }
  }

  lemma EnqueueConserves(s: Session, x: Message, max: nat, now: Instant)
    requires ConservedBut(s, x)
    ensures Conserved(EnqueuePending(s, x, max, now))
  {
    forall m
      ensures Tally(EnqueuePending(s, x, max, now), m) == multiset(s.accepted)[m]
    {
      EnqueueTally(s, x, max, now, m);
    }
  }

  lemma ExpireOrders(s: Session, ttl: nat, now: Instant)
    requires Ordered(s)
    ensures Ordered(ExpirePending(s, ttl, now))
  {
    DropMiddle(s.handed, s.pending, Stale(s.pending, ttl, now), |s.accepted|);
  }

  lemma DropMiddle(handed: seq<Message>, q: seq<Pending>, k: nat, bound: nat)
    requires k <= |q| && Increasing(handed + Messages(q), bound)
    ensures Increasing(handed + Messages(q[k..]), bound)
  {
    var l, r := handed + Messages(q), handed + Messages(q[k..]);
    forall i | 0 <= i < |r|
      ensures r[i] == l[if i < |handed| then i else i + k]
    {
    }
  }

  lemma FlushOrders(s: Session, sends: nat)
    requires Ordered(s)
    ensures Ordered(Flush(s, sends))
  {
    var k := Min(sends, |s.pending|);
    MessagesSplit(s.pending, k);
    assert Line(Flush(s, sends)) == Line(s);
  }

  lemma AppendIncreasing(l: seq<Message>, m: Message)
    requires Increasing(l, m.serial)
    ensures Increasing(l + [m], m.serial + 1)
  {
  }

  /** All but the newest accepted message are in order, and it comes after them. */
  predicate OrderedBut(s: Session, m: Message) {
    Numbered(s.accepted) && |s.accepted| == m.serial + 1 && Increasing(Line(s), m.serial)
  }

  lemma ExpireOrdersBut(s: Session, m: Message, ttl: nat, now: Instant)
    requires OrderedBut(s, m)
    ensures OrderedBut(ExpirePending(s, ttl, now), m)
  {
    DropMiddle(s.handed, s.pending, Stale(s.pending, ttl, now), m.serial);
  }

  lemma EnqueueOrders(s: Session, m: Message, max: nat, now: Instant)
    requires OrderedBut(s, m)
    ensures Ordered(EnqueuePending(s, m, max, now))
  {
    var t := EnqueuePending(s, m, max, now);
    if max != 0 {
      if |s.pending| >= max {
        DropMiddle(s.handed, s.pending, 1, m.serial);
        MessagesAppend(s.pending[1..], Pending(m, now));
        AppendIncreasing(s.handed + Messages(s.pending[1..]), m);
        assert Line(t) == s.handed + Messages(s.pending[1..]) + [m];
      } else {
        MessagesAppend(s.pending, Pending(m, now));
        AppendIncreasing(Line(s), m);
        assert Line(t) == Line(s) + [m];
      }
    }
  }

  // ----- The limit -----

  /** The window in progress and the admissions so far: earlier windows are over, and no window let in too many. */
  predicate Limited(w: Window, a: seq<Admission>, limit: nat, clock: Instant) {
    && w.started <= clock && w.count <= |a| && w.count <= limit
    && (forall k :: 0 <= k < |a| ==> a[k].window <= a[k].at <= clock)
    && (forall k :: |a| - w.count <= k < |a| ==> a[k].window == w.started)
    && (forall k :: 0 <= k < |a| - w.count ==> a[k].at <= w.started && a[k].window + WINDOW_MS <= w.started)
    && (forall k :: 0 <= k && k + limit < |a| ==>
          a[k].at <= a[k + limit].window && a[k].window + WINDOW_MS <= a[k + limit].window)
  }

  lemma RenewLimited(w: Window, a: seq<Admission>, limit: nat, clock: Instant, now: Instant)
    requires Limited(w, a, limit, clock) && clock <= now
    ensures Limited(Renewed(w, now), a, limit, now)
  {
  }

  lemma CountLimited(w: Window, a: seq<Admission>, limit: nat, now: Instant)
    requires Limited(w, a, limit, now) && w.count < limit
    ensures Limited(w.(count := w.count + 1), a + [Admission(now, w.started)], limit, now)
  {
  }

  lemma AllowedWindow(s: Session, role: Role, limit: nat, now: Instant)
    ensures var w, t := Renewed(WindowOf(s, role), now), AllowMessageAt(s, role, limit, now);
      if w.count < limit then
        && WindowOf(t, role) == w.(count := w.count + 1)
        && AdmissionsOf(t, role) == AdmissionsOf(s, role) + [Admission(now, w.started)]
      else WindowOf(t, role) == w && AdmissionsOf(t, role) == AdmissionsOf(s, role)
  {
  }

  lemma AllowLimited(s: Session, role: Role, limit: nat, now: Instant, clock: Instant)
    requires Limited(WindowOf(s, role), AdmissionsOf(s, role), limit, clock) && clock <= now
    ensures Limited(
      WindowOf(AllowMessageAt(s, role, limit, now), role), AdmissionsOf(AllowMessageAt(s, role, limit, now), role),
        limit, now)
  {
    var w, a := WindowOf(s, role), AdmissionsOf(s, role);
    RenewLimited(w, a, limit, clock, now);
    AllowedWindow(s, role, limit, now);
    if Renewed(w, now).count < limit {
      CountLimited(Renewed(w, now), a, limit, now);
    }
  }

  /** Among any 2*limit + 1 messages in a row, the last is at least a minute after the first: no half-open minute
      holds more than 2*limit. */
  lemma MinuteBound(w: Window, a: seq<Admission>, limit: nat, clock: Instant, i: nat)
    requires Limited(w, a, limit, clock) && i + 2 * limit < |a|
    ensures a[i + 2 * limit].at >= a[i].at + WINDOW_MS
  {
    assert a[i].at <= a[i + limit].window;
    assert a[i + limit].window + WINDOW_MS <= a[i + limit + limit].window;
  }

  /** No window lets in more than the limit. */
  lemma WindowBound(w: Window, a: seq<Admission>, limit: nat, clock: Instant, i: nat)
    requires Limited(w, a, limit, clock) && i + limit < |a|
    ensures a[i + limit].window != a[i].window
  {
  }

  // ----- Sessions -----

  /** The messages are kept. */
  ghost predicate Kept(s: Session, c: Config, clock: Instant) {
    Conserved(s) && Ordered(s) && Queueing(s, c, clock)
  }

  /** The rate is kept, for both roles. */
  predicate Paced(s: Session, c: Config, clock: Instant) {
    && Limited(s.androidWindow, s.androidAdmissions, c.limit, clock)
    && Limited(s.desktopWindow, s.desktopAdmissions, c.limit, clock)
  }

  ghost predicate SessionOk(s: Session, c: Config, clock: Instant) {
    Kept(s, c, clock) && Paced(s, c, clock)
  }

  /** Nothing the rate speaks of differs. */
  predicate SamePace(s: Session, t: Session) {
    && t.androidWindow == s.androidWindow && t.androidAdmissions == s.androidAdmissions
    && t.desktopWindow == s.desktopWindow && t.desktopAdmissions == s.desktopAdmissions
  }

  /** Nothing the messages speak of differs, but that there may now be no desktop. */
  predicate SameMail(s: Session, t: Session) {
    && t.pending == s.pending && t.accepted == s.accepted && t.handed == s.handed
    && t.expired == s.expired && t.evicted == s.evicted && (t.desktop == s.desktop || t.desktop.None?)
  }

  lemma SameMailKept(s: Session, t: Session, c: Config, clock: Instant)
    requires Kept(s, c, clock) && SameMail(s, t)
    ensures Kept(t, c, clock)
  {
    forall m
      ensures Tally(t, m) == multiset(t.accepted)[m]
    {
      assert Tally(s, m) == multiset(s.accepted)[m];
    }
  }

  lemma NewSessionOk(c: Config, key: Key, now: Instant)
    ensures SessionOk(NewSession(key, now), c, now)
  {
    var s := NewSession(key, now);
    assert Messages([]) == [];
    assert Line(s) == [];
    forall m
      ensures Tally(s, m) == multiset(s.accepted)[m]
    {
    }
  }

  lemma LaterKept(s: Session, c: Config, clock: Instant, now: Instant)
    requires Kept(s, c, clock) && clock <= now
    ensures Kept(s, c, now)
  {
  }

  lemma LaterPaced(s: Session, t: Session, c: Config, clock: Instant, now: Instant)
    requires Paced(s, c, clock) && SamePace(s, t) && clock <= now
    ensures Paced(t, c, now)
  {
  }

  lemma LaterOk(s: Session, c: Config, clock: Instant, now: Instant)
    requires SessionOk(s, c, clock) && clock <= now
    ensures SessionOk(s, c, now)
  {
    LaterKept(s, c, clock, now);
    LaterPaced(s, s, c, clock, now);
  }

  // ----- Attaching -----

  lemma FlushKept(s: Session, c: Config, now: Instant, sends: nat, ch: Option<Channel>)
    requires Kept(s, c, now) && s.desktop.None?
    ensures Kept(Flush(s.(desktop := ch), sends), c, now)
  {
    FlushConserves(s, sends);
    FlushOrders(s, sends);
    var t := Flush(s, sends);
    forall m
      ensures Tally(Flush(s.(desktop := ch), sends), m) == multiset(s.accepted)[m]
    {
      assert Tally(t, m) == multiset(s.accepted)[m];
    }
  }

  lemma ExpireKept(s: Session, c: Config, now: Instant, ttl: nat)
    requires Kept(s, c, now)
    ensures Kept(ExpirePending(s, ttl, now), c, now)
  {
    ExpireConserves(s, ttl, now);
    ExpireOrders(s, ttl, now);
  }

  /** A desktop joins: the queue is expired and flushed to it. */
  lemma JoinKept(s: Session, c: Config, ch: Channel, now: Instant, sends: nat)
    requires Kept(s, c, now)
    ensures Kept(Flush(ExpirePending(s.(desktop := Some(ch)), c.ttl, now), sends), c, now)
  {
    var away := s.(desktop := None);
    SameMailKept(s, away, c, now);
    ExpireKept(away, c, now, c.ttl);
    FlushKept(ExpirePending(away, c.ttl, now), c, now, sends, Some(ch));
    assert ExpirePending(away, c.ttl, now).(desktop := Some(ch)) == ExpirePending(s.(desktop := Some(ch)), c.ttl, now);
  }

  lemma AttachToOk(s: Session, c: Config, key: Key, role: Role, ch: Channel, now: Instant, sends: nat)
    requires SessionOk(s, c, now)
    ensures SessionOk(AttachTo(s, c, key, role, ch, now, sends), c, now)
  {
    var touched := s.(lastActive := now);
    SameMailKept(s, touched, c, now);
    if role == Desktop {
      JoinKept(touched, c, ch, now, sends);
    } else {
      SameMailKept(s, WithSender(touched, role, Some(ch)), c, now);
    }
    LaterPaced(s, AttachTo(s, c, key, role, ch, now, sends), c, now, now);
  }

  // ----- Routing -----

  lemma AllowOk(s: Session, c: Config, role: Role, now: Instant)
    requires SessionOk(s, c, now)
    ensures SessionOk(AllowMessageAt(s, role, c.limit, now), c, now)
  {
    SameMailKept(s, AllowMessageAt(s, role, c.limit, now), c, now);
    AllowLimited(s, role, c.limit, now, now);
  }

  lemma DeliverKept(s: Session, c: Config, x: Message, clock: Instant)
    requires Kept(s, c, clock) && s.desktop.Some? && x.serial == |s.accepted|
    ensures Kept(Accept(s, x).(handed := s.handed + [x]), c, clock)
  {
    var t := Accept(s, x).(handed := s.handed + [x]);
    AppendIncreasing(Line(s), x);
    assert Messages([]) == [];
    assert Line(t) == Line(s) + [x];
    forall m
      ensures Tally(t, m) == multiset(t.accepted)[m]
    {
      Appended(s.handed, x, m);
      Appended(s.accepted, x, m);
      assert Tally(s, m) == multiset(s.accepted)[m];
    }
  }

  lemma QueueKept(s: Session, c: Config, x: Message, clock: Instant, expireAt: Instant, enqueueAt: Instant)
    requires Kept(s, c, clock) && x.serial == |s.accepted| && clock <= expireAt <= enqueueAt
    ensures Kept(
      EnqueuePending(ExpirePending(Accept(s.(desktop := None), x), c.ttl, expireAt), x, c.maxPending, enqueueAt), c,
        enqueueAt)
  {
    var away := s.(desktop := None);
    SameMailKept(s, away, c, clock);
    AcceptConserves(away, x);
    var accepted := Accept(away, x);
    ExpireConservesBut(accepted, x, c.ttl, expireAt);
    ExpireOrdersBut(accepted, x, c.ttl, expireAt);
    var expired := ExpirePending(accepted, c.ttl, expireAt);
    EnqueueConserves(expired, x, c.maxPending, enqueueAt);
    EnqueueOrders(expired, x, c.maxPending, enqueueAt);
    ExpireQueues(accepted, c, clock, expireAt);
    EnqueueQueues(expired, c, x, clock, enqueueAt);
  }

  lemma ExpireQueues(s: Session, c: Config, clock: Instant, now: Instant)
    requires Queueing(s, c, clock)
    ensures Queueing(ExpirePending(s, c.ttl, now), c, clock)
  {
  }

  lemma EnqueueQueues(s: Session, c: Config, x: Message, clock: Instant, now: Instant)
    requires Queueing(s, c, clock) && s.desktop.None? && clock <= now
    ensures Queueing(EnqueuePending(s, x, c.maxPending, now), c, now)
  {
  }

  lemma SendKept(s: Session, c: Config, body: Body, ok: bool, clock: Instant, expireAt: Instant, enqueueAt: Instant)
    requires Kept(s, c, clock) && clock <= expireAt <= enqueueAt
    ensures Kept(SendToDesktop(s, c, body, ok, expireAt, enqueueAt).next, c, enqueueAt)
  {
    var x := Message(|s.accepted|, body);
    LaterKept(s, c, clock, enqueueAt);
    if |body| <= c.maxBytes {
      if s.desktop.Some? && ok {
        DeliverKept(s, c, x, enqueueAt);
      } else {
        QueueKept(s, c, x, clock, expireAt, enqueueAt);
      }
    }
  }

  lemma SendPaced(s: Session, c: Config, body: Body, ok: bool, expireAt: Instant, enqueueAt: Instant)
    ensures SamePace(s, SendToDesktop(s, c, body, ok, expireAt, enqueueAt).next)
    ensures SamePace(s, SendToAndroid(s, c, body, ok).next) && SameMail(s, SendToAndroid(s, c, body, ok).next)
  {
  }

  lemma RouteOk(
      s: Session, c: Config, role: Role, ch: Channel, body: Body, ok: bool, admitAt: Instant, expireAt: Instant,
      enqueueAt: Instant)
    requires SessionOk(s, c, admitAt) && admitAt <= expireAt <= enqueueAt
    ensures SessionOk(Route(s, c, role, ch, body, ok, admitAt, expireAt, enqueueAt).next, c, enqueueAt)
  {
    LaterOk(s, c, admitAt, enqueueAt);
    if Owns(s, role, ch) {
      var counted := AllowMessageAt(s, role, c.limit, admitAt);
      AllowOk(s, c, role, admitAt);
      LaterOk(counted, c, admitAt, enqueueAt);
      if Allowed(s, role, c.limit, admitAt) {
        SentOk(counted.(lastActive := admitAt), counted, c, role, body, ok, admitAt, expireAt, enqueueAt);
      }
    }
  }

  lemma SentOk(
      t: Session, s: Session, c: Config, role: Role, body: Body, ok: bool, admitAt: Instant, expireAt: Instant,
      enqueueAt: Instant)
    requires SessionOk(s, c, admitAt) && SamePace(s, t) && SameMail(s, t) && admitAt <= expireAt <= enqueueAt
    ensures SessionOk(
      if role == Android then SendToDesktop(t, c, body, ok, expireAt, enqueueAt).next
        else SendToAndroid(t, c, body, ok).next,
      c, enqueueAt)
  {
    SameMailKept(s, t, c, admitAt);
    SendPaced(t, c, body, ok, expireAt, enqueueAt);
    if role == Android {
      SendKept(t, c, body, ok, admitAt, expireAt, enqueueAt);
      LaterPaced(s, SendToDesktop(t, c, body, ok, expireAt, enqueueAt).next, c, admitAt, enqueueAt);
    } else {
      LaterKept(t, c, admitAt, enqueueAt);
      SameMailKept(t, SendToAndroid(t, c, body, ok).next, c, enqueueAt);
      LaterPaced(s, SendToAndroid(t, c, body, ok).next, c, admitAt, enqueueAt);
    }
  }

  // ----- Runs -----

  ghost predicate Ok(r: Relay, c: Config) {
    forall p :: p in r.sessions ==> SessionOk(r.sessions[p], c, r.clock)
  }

  lemma ClockOk(r: Relay, c: Config, now: Instant)
    requires Ok(r, c) && r.clock <= now
    ensures Ok(r.(clock := now), c)
  {
    forall q | q in r.sessions
      ensures SessionOk(r.sessions[q], c, now)
    {
      LaterOk(r.sessions[q], c, r.clock, now);
    }
  }

  lemma UpdateOk(r: Relay, c: Config, p: Pair, s: Session, now: Instant)
    requires Ok(r, c) && r.clock <= now && SessionOk(s, c, now)
    ensures Ok(Relay(r.sessions[p := s], now), c) && Ok(r.(clock := now), c)
  {
    ClockOk(r, c, now);
    var later, updated := r.(clock := now), Relay(r.sessions[p := s], now);
    forall q | q in updated.sessions
      ensures SessionOk(updated.sessions[q], c, now)
    {
      if q != p {
        assert q in later.sessions && SessionOk(later.sessions[q], c, later.clock);
      }
    }
  }

  lemma AttachOk(r: Relay, c: Config, p: Pair, key: Key, role: Role, ch: Channel, now: Instant, sends: nat)
    requires Ok(r, c) && r.clock <= now
    ensures Ok(Attach(r, c, p, key, role, ch, now, sends), c)
  {
    var s := if p in r.sessions then r.sessions[p] else NewSession(key, now);
    if p in r.sessions {
      LaterOk(s, c, r.clock, now);
    } else {
      NewSessionOk(c, key, now);
    }
    AttachToOk(s, c, key, role, ch, now, sends);
    UpdateOk(r, c, p, AttachTo(s, c, key, role, ch, now, sends), now);
  }

  lemma DetachOk(r: Relay, c: Config, p: Pair, role: Role, ch: Channel, now: Instant)
    requires Ok(r, c) && r.clock <= now
    ensures Ok(Detach(r, p, role, ch, now), c)
  {
    ClockOk(r, c, now);
    if p in r.sessions {
      var s := r.sessions[p];
      var t := WithSender(s, role, None).(lastActive := now);
      LaterOk(s, c, r.clock, now);
      SameMailKept(s, t, c, now);
      LaterPaced(s, t, c, now, now);
      UpdateOk(r, c, p, t, now);
    }
  }

  lemma RouteFromOk(
      r: Relay, c: Config, p: Pair, role: Role, ch: Channel, body: Body, ok: bool,
      admitAt: Instant, expireAt: Instant, enqueueAt: Instant)
    requires Ok(r, c) && r.clock <= admitAt <= expireAt <= enqueueAt
    ensures Ok(RouteFrom(r, c, p, role, ch, body, ok, admitAt, expireAt, enqueueAt).next, c)
  {
    ClockOk(r, c, enqueueAt);
    if p in r.sessions {
      LaterOk(r.sessions[p], c, r.clock, admitAt);
      RouteOk(r.sessions[p], c, role, ch, body, ok, admitAt, expireAt, enqueueAt);
      UpdateOk(r, c, p, Route(r.sessions[p], c, role, ch, body, ok, admitAt, expireAt, enqueueAt).next, enqueueAt);
    }
  }

  lemma NextOk(r: Relay, c: Config, e: Event)
    requires Ok(r, c) && Later(r, e)
    ensures Ok(Apply(Next(c), r, e), c)
  {
    match e {
      case Attaching(p, key, role, ch, now, sends) => AttachOk(r, c, p, key, role, ch, now, sends);
      case Detaching(p, role, ch, now) => DetachOk(r, c, p, role, ch, now);
      case Routing(p, role, ch, body, ok, a, b, d) => RouteFromOk(r, c, p, role, ch, body, ok, a, b, d);
    }
  }

  function Run(c: Config, start: Instant, events: seq<Event>, n: nat): Relay
    requires n <= |events|
  {
    RunTo(Next(c), Relay(map[], start), events, n)
  }

  ghost predicate Possible(c: Config, start: Instant, events: seq<Event>) {
    Follows(Next(c), Later, Relay(map[], start), events)
  }

  lemma EveryRun(c: Config, start: Instant, events: seq<Event>, n: nat)
    requires Possible(c, start, events) && n <= |events|
    ensures Ok(Run(c, start, events, n), c)
  {
    var inv := (r: Relay) => Ok(r, c);
    forall r: Relay, e: Event | Holds(inv, r) && Fits(Later, r, e)
      ensures Holds(inv, Apply(Next(c), r, e))
    {
      NextOk(r, c, e);
    }
    InductiveHolds(Next(c), inv, Later, Relay(map[], start), events, n);
  }

  // ----- Main results -----

  /** Over every run of attaches, detaches, replacements and routes: each phone message answered Delivered or Queued is
      in exactly one of handed over, pending, expired and evicted; and those handed over, then those pending, are in
      the order of acceptance with none twice. */
  lemma MessagesKept(c: Config, start: Instant, events: seq<Event>, n: nat, p: Pair)
    requires Possible(c, start, events) && n <= |events| && p in Run(c, start, events, n).sessions
    ensures var s := Run(c, start, events, n).sessions[p];
      Conserved(s) && Numbered(s.accepted) && Increasing(s.handed + Messages(s.pending), |s.accepted|)
  {
    EveryRun(c, start, events, n);
  }

  /** Over every run the queue stays within its cap and sorted by time, so front-only expiry is filtering; and while a
      desktop is attached the queue is empty. */
  lemma QueueBounded(c: Config, start: Instant, events: seq<Event>, n: nat, p: Pair, now: Instant)
    requires Possible(c, start, events) && n <= |events| && p in Run(c, start, events, n).sessions
    ensures var s := Run(c, start, events, n).sessions[p];
      && |s.pending| <= c.maxPending
      && (s.desktop.Some? ==> s.pending == [])
      && ExpirePending(s, c.ttl, now).pending == Fresh(s.pending, c.ttl, now)
  {
    EveryRun(c, start, events, n);
    FrontIsFilter(Run(c, start, events, n).sessions[p].pending, c.ttl, now);
  }

  /** Over every run, however often the role reconnects, no half-open minute holds more than twice the limit, and no
      window more than the limit. */
  lemma RateKept(c: Config, start: Instant, events: seq<Event>, n: nat, p: Pair, role: Role, i: nat)
    requires Possible(c, start, events) && n <= |events| && p in Run(c, start, events, n).sessions
    ensures var a := AdmissionsOf(Run(c, start, events, n).sessions[p], role);
      && (i + c.limit < |a| ==> a[i + c.limit].window != a[i].window)
      && (i + 2 * c.limit < |a| ==> a[i + 2 * c.limit].at >= a[i].at + WINDOW_MS)
  {
    EveryRun(c, start, events, n);
    var r := Run(c, start, events, n);
    PacedBound(r.sessions[p], c, r.clock, role, i);
  }

  lemma PacedBound(s: Session, c: Config, clock: Instant, role: Role, i: nat)
    requires Paced(s, c, clock)
    ensures var a := AdmissionsOf(s, role);
      && (i + c.limit < |a| ==> a[i + c.limit].window != a[i].window)
      && (i + 2 * c.limit < |a| ==> a[i + 2 * c.limit].at >= a[i].at + WINDOW_MS)
  {
    var a := AdmissionsOf(s, role);
    if i + c.limit < |a| {
      WindowBound(WindowOf(s, role), a, c.limit, clock, i);
    }
    if i + 2 * c.limit < |a| {
      MinuteBound(WindowOf(s, role), a, c.limit, clock, i);
    }
  }

  // ----- Answers -----

  /** The session is the sender's, and its window has room. */
  predicate Passes(s: Session, c: Config, role: Role, ch: Channel, now: Instant) {
    Owns(s, role, ch) && Allowed(s, role, c.limit, now)
  }

  /** What each answer to a phone's message means: Delivered and Queued are exactly the messages accepted; a delivered
      one is handed over last, a queued one waits last or, with no room at all, is evicted, and the desktop is then
      gone. Only a full queue evicts. */
  lemma RoutedExactly(
      s: Session, c: Config, ch: Channel, body: Body, ok: bool, admitAt: Instant, expireAt: Instant, enqueueAt: Instant)
    ensures var r := Route(s, c, Android, ch, body, ok, admitAt, expireAt, enqueueAt);
      var x := Message(|s.accepted|, body);
      var fits := Passes(s, c, Android, ch, admitAt) && |body| <= c.maxBytes;
      && (r.result == StaleConnection <==> !Owns(s, Android, ch))
      && (r.result == RateLimited <==> Owns(s, Android, ch) && !Allowed(s, Android, c.limit, admitAt))
      && (r.result == TooLarge <==> Passes(s, c, Android, ch, admitAt) && |body| > c.maxBytes)
      && (r.result == Delivered <==> fits && s.desktop.Some? && ok)
      && (r.result == Queued <==> fits && !(s.desktop.Some? && ok))
      && r.next.accepted == (if fits then s.accepted + [x] else s.accepted)
      && r.next.handed == (if r.result == Delivered then s.handed + [x] else s.handed)
      && (r.result != Queued ==> r.next.pending == s.pending && r.next.desktop == s.desktop)
      && (r.result == Queued ==>
            && r.next.desktop.None?
            && (c.maxPending > 0 ==>
              r.next.pending != [] && r.next.pending[|r.next.pending| - 1] == Pending(x, enqueueAt))
            && (c.maxPending == 0 ==> r.next.evicted == s.evicted + [x]))
      && (|s.pending| <= c.maxPending && r.next.evicted != s.evicted ==> |r.next.pending| == c.maxPending)
  {
  }

  /** What each answer to a desktop's message means; none touches the phone's messages. */
  lemma RepliedExactly(
      s: Session, c: Config, ch: Channel, body: Body, ok: bool, admitAt: Instant, expireAt: Instant, enqueueAt: Instant)
    ensures var r := Route(s, c, Desktop, ch, body, ok, admitAt, expireAt, enqueueAt);
      var fits := Passes(s, c, Desktop, ch, admitAt) && |body| <= c.maxBytes;
      && (r.result == Delivered <==> fits && s.android.Some? && ok)
      && (r.result == Dropped <==> fits && !(s.android.Some? && ok))
      && (r.result == Dropped ==> r.next.android.None?)
      && (r.result != Dropped ==> r.next.android == s.android)
      && SameMail(s, r.next)
  {
  }
}
