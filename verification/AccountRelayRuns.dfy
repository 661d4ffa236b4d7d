/** Runs of the relay: every event keeps the invariant, so every reachable state has it. */
module AccountRelayRuns {
  import opened Wrappers
  import opened Minimum
  import opened Runs
  import opened AccountRelay
  import opened AccountRelayLaws
  import opened AccountRelayFrames

  // ----- Bounds and the alarm -----

  /** At most ten pairs, twenty sockets, and twenty pairs provisioned in one window. */
  predicate Capped(s: Relay) {
    && |s.rows| <= MAX_PAIRS
    && |s.sockets| <= MAX_SOCKETS
    && (s.provision.Some? ==> 1 <= s.provision.value.count <= MAX_PROVISIONS)
  }

  /** The alarm fires no later than any deadline, or at once when a deadline had passed when it was set. */
  ghost predicate Alarmed(s: Relay) {
    forall d :: d in Deadlines(s) ==> s.alarm.Some? && s.alarm.value <= Max(s.scheduledAt + 1, d)
  }

  lemma {:induction false} SubsetSize<T>(a: set<T>, b: set<T>)
    requires a <= b
    ensures |a| <= |b|
    decreases a
  {
    if x :| x in a {
      SubsetSize(a - {x}, b - {x});
    }
  }

  /** A map keeps its size when a key it has is written, and grows by one at most otherwise. */
  lemma MapGrowth<K, V>(m: map<K, V>, k: K, v: V)
    ensures |m[k := v]| == if k in m then |m| else |m| + 1
  {
    assert m[k := v].Keys == m.Keys + {k};
    if k in m {
      assert m.Keys + {k} == m.Keys;
    }
  }

  lemma ShrinkCapped(s: Relay, t: Relay)
    requires Capped(s) && Shrinks(s, t)
    ensures Capped(t)
  {
    SubsetSize(t.rows.Keys, s.rows.Keys);
    SubsetSize(t.sockets.Keys, s.sockets.Keys);
  }

  lemma ShrinkAlarmed(s: Relay, t: Relay)
    requires Alarmed(s) && Shrinks(s, t) && t.alarm == s.alarm && t.scheduledAt == s.scheduledAt
    ensures Alarmed(t)
  {
    assert Deadlines(t) <= Deadlines(s);
  }

  lemma ScheduleAlarmed(s: Relay, clock: int)
    ensures Alarmed(Schedule(s, clock))
  {
    assert Deadlines(Schedule(s, clock)) == Deadlines(s);
  }

  /** An alarm at some time leaves no expired pair, and no open socket whose row does not admit it at that time. */
  lemma AlarmClears(s: Relay, now: int, clock: int)
    requires Linked(s)
    ensures var t := Alarm(s, now, clock);
      && (forall p :: p in t.rows ==> t.rows[p].expiresAt > now)
      && (forall h :: h in t.sockets && t.sockets[h].open ==> Admitted(t, t.sockets[h], now))
  {
    var t := Alarm(s, now, clock);
    AlarmShrinks(s, now, clock);
    ShrinkLinked(s, t);
    forall h | h in t.sockets && t.sockets[h].open
      ensures Admitted(t, t.sockets[h], now)
    {
      assert OpenOk(t, t.sockets[h]);
      assert OpenOk(s, s.sockets[h]);
      assert t.sockets[h].tag !in Lapsed(s.(alarm := None), now);
    }
  }

  predicate Admitted(s: Relay, k: Socket, now: int) {
    k.attachment.Some? && k.tag in s.rows && Valid(k.tag, s.rows[k.tag], k.attachment.value, now)
  }

  // ----- Events -----

  /** Linked, logged, metered and capped: the invariant but for the alarm. */
  ghost predicate Settled(s: Relay) {
    Linked(s) && Logged(s) && Metered(s) && Capped(s)
  }

  ghost predicate Invariant(s: Relay) {
    Settled(s) && Alarmed(s)
  }

  predicate Removes(s: Relay, e: Event) {
    e.Revoking? || e.Closing? || e.Waking? || e.Dropping? || e.Forgetting?
  }

  lemma RemovalShrinks(s: Relay, e: Event)
    requires Removes(s, e)
    ensures Shrinks(s, Next(s, e))
  {
    match e
    case Revoking(p, _) => RemoveShrinks(s, {p});
    case Closing(h) => if h in s.sockets && s.sockets[h].attachment.Some? {
        RetireShrinks(s, {s.sockets[h].attachment.value.pairId});
      }
    case Waking(now, clock) => AlarmShrinks(s, now, clock);
    case Dropping(h) => CloseShrinks(s, h);
    case Forgetting(h) => CloseShrinks(s, h);
  }

  /** What an alarm leaves unset still fits, because a relay with no table has no deadline. */
  lemma RemovalAlarmed(s: Relay, e: Event)
    requires Linked(s) && Alarmed(s) && Removes(s, e)
    ensures Alarmed(Next(s, e))
  {
    RemovalShrinks(s, e);
    match e
    case Revoking(p, clock) =>
      if s.initialized {
        var retired := Retire(s, {p});
        ScheduleAlarmed(retired.(rows := retired.rows - {p}), clock);
      }
    case Waking(now, clock) =>
      if s.initialized {
        var t := s.(alarm := None);
        ScheduleAlarmed(Purge(Retire(t.(sockets := CloseUnattached(t.sockets)), Lapsed(t, now)), now), clock);
      } else {
        assert Deadlines(Next(s, e)) == {};
      }
    case _ => ShrinkAlarmed(s, Next(s, e));
  }

  lemma RemovalKeeps(s: Relay, e: Event)
    requires Invariant(s) && Removes(s, e)
    ensures Invariant(Next(s, e))
  {
    RemovalShrinks(s, e);
    ShrinkLinked(s, Next(s, e));
    ShrinkLogged(s, Next(s, e));
    ShrinkMetered(s, Next(s, e));
    ShrinkCapped(s, Next(s, e));
    RemovalAlarmed(s, e);
  }

  // ----- Provisioning -----

  predicate Vacant(row: Row) {
    && row.generation.None? && row.desktop.socket.None? && row.phone.socket.None?
    && row.desktop.credits == BURST && row.phone.credits == BURST
  }

  lemma NewRowCapped(s: Relay, p: PairId, row: Row, budget: Budget)
    requires Capped(s) && |s.rows| < MAX_PAIRS && 1 <= budget.count <= MAX_PROVISIONS
    ensures Capped(s.(rows := s.rows[p := row], provisioned := s.provisioned + {p}, provision := Some(budget)))
  {
    assert s.rows[p := row].Keys == s.rows.Keys + {p};
  }

  /** A pair's row and the budget that pays for it, written together. */
  ghost function WithPair(s: Relay, p: PairId, row: Row, budget: Budget): Relay {
    s.(rows := s.rows[p := row], provisioned := s.provisioned + {p}, provision := Some(budget))
  }

  lemma NewRowKeeps(s: Relay, p: PairId, row: Row, budget: Budget)
    requires Settled(s)
    requires p !in s.provisioned && s.initialized && Vacant(row)
    requires |s.rows| < MAX_PAIRS && 1 <= budget.count <= MAX_PROVISIONS
    ensures Settled(WithPair(s, p, row, budget))
  {
    NewRowLinked(s, p, row, Some(budget));
    NewRowLogged(s, p, row, Some(budget));
    NewRowMetered(s, p, row, Some(budget));
    NewRowCapped(s, p, row, budget);
  }

  lemma ScheduleLogged(s: Relay, clock: int)
    requires Logged(s)
    ensures Logged(Schedule(s, clock))
  {
  }

  lemma ScheduleKeeps(s: Relay, clock: int)
    requires Settled(s)
    ensures Invariant(Schedule(s, clock))
  {
    ScheduleLinked(s, clock);
    ScheduleLogged(s, clock);
    MeteredIgnoresSockets(s, Schedule(s, clock));
    ScheduleAlarmed(s, clock);
  }

  lemma PurgeKeeps(s: Relay, now: int)
    requires Invariant(s)
    ensures Settled(Purge(s, now))
    ensures Purge(s, now).initialized == s.initialized && Purge(s, now).provisioned == s.provisioned
  {
    RemoveShrinks(s, ExpiredPairs(s, now));
    ShrinkLinked(s, Purge(s, now));
    ShrinkLogged(s, Purge(s, now));
    ShrinkMetered(s, Purge(s, now));
    ShrinkCapped(s, Purge(s, now));
  }

  lemma InitializeKeeps(s: Relay)
    requires Invariant(s)
    ensures Invariant(s.(initialized := true))
  {
    var t := s.(initialized := true);
    ShrinkLinked(s, t);
    MeteredIgnoresSockets(s, t);
    assert Deadlines(t) == Deadlines(s);
  }

  lemma CreatedKeeps(t: Relay, p: PairId, createdAt: int, row: Row, budget: Budget, clock: int)
    requires Invariant(t) && t.initialized && p !in t.provisioned && Vacant(row)
    requires |Purge(t, createdAt).rows| < MAX_PAIRS && 1 <= budget.count <= MAX_PROVISIONS
    ensures var purged := Purge(t, createdAt);
      Invariant(Schedule(WithPair(purged, p, row, budget), clock))
  {
    PurgeKeeps(t, createdAt);
    var purged := Purge(t, createdAt);
    NewRowKeeps(purged, p, row, budget);
    ScheduleKeeps(WithPair(purged, p, row, budget), clock);
  }

  lemma RefusedKeeps(s: Relay, t: Relay)
    requires Invariant(s) && Shrinks(s, t) && t.alarm == s.alarm && t.scheduledAt == s.scheduledAt
    requires t.initialized || t.initialized == s.initialized
    ensures Invariant(t)
  {
    ShrinkLinked(s, t);
    ShrinkLogged(s, t);
    ShrinkMetered(s, t);
    ShrinkCapped(s, t);
    ShrinkAlarmed(s, t);
  }

  /** What a request that creates a pair does, named part by part. */
  lemma CreatedIs(s: Relay, p: PairId, createdAt: int, d: Hash, ph: Hash, clock: int) returns (row: Row, budget: Budget)
    requires Capped(s) && Provision(s, p, createdAt, d, ph, clock).answer == Created
    ensures Vacant(row) && 1 <= budget.count <= MAX_PROVISIONS
    ensures var t := s.(initialized := true);
      var purged := Purge(t, createdAt);
      && |purged.rows| < MAX_PAIRS
      && Provision(s, p, createdAt, d, ph, clock).next == Schedule(WithPair(purged, p, row, budget), clock)
  {
    row := Provision(s, p, createdAt, d, ph, clock).next.rows[p];
    budget := Provision(s, p, createdAt, d, ph, clock).next.provision.value;
  }

  lemma ProvisionKeeps(s: Relay, p: PairId, createdAt: int, d: Hash, ph: Hash, clock: int)
    requires Invariant(s) && p !in s.provisioned
    ensures Invariant(Provision(s, p, createdAt, d, ph, clock).next)
  {
    if Provision(s, p, createdAt, d, ph, clock).answer == Created {
      var row, budget := CreatedIs(s, p, createdAt, d, ph, clock);
      InitializeKeeps(s);
      CreatedKeeps(s.(initialized := true), p, createdAt, row, budget, clock);
    } else {
      RefusalShrinks(s, p, createdAt, d, ph, clock);
      RefusedKeeps(s, Provision(s, p, createdAt, d, ph, clock).next);
    }
  }

  // ----- Joining -----

  lemma LinkKeeps(
      s: Relay, p: PairId, role: Role, digest: Hash, now: int, h: Handle, id: Id, g: Id, peer: Option<Handle>)
    requires Invariant(s) && Met(p, role, Meeting(s, peer)) && |s.sockets| < MAX_SOCKETS
    requires h !in s.sockets && id !in s.drawn && g !in s.drawn && id != g
    ensures var t := Link(s, p, role, digest, now, h, id, g, peer);
      Settled(t)
  {
    LinkLinked(s, p, role, digest, now, h, id, g, peer);
    LinkLogged(s, p, role, digest, now, h, id, g, peer);
    LinkMetered(s, p, role, digest, now, h, id, g, peer);
    LinkCapped(s, p, role, digest, now, h, id, g, peer);
  }

  lemma LinkCapped(
      s: Relay, p: PairId, role: Role, digest: Hash, now: int, h: Handle, id: Id, g: Id, peer: Option<Handle>)
    requires Capped(s) && Met(p, role, Meeting(s, peer)) && |s.sockets| < MAX_SOCKETS
    ensures Capped(Link(s, p, role, digest, now, h, id, g, peer))
  {
    AttachCapped(s, h, NewAttachment(s, p, role, digest, now, id, g, peer), g, peer);
  }

  lemma AttachCapped(s: Relay, h: Handle, a: Attachment, g: Id, peer: Option<Handle>)
    requires Capped(s) && a.pairId in s.rows && |s.sockets| < MAX_SOCKETS
    requires peer.Some? ==> peer.value in s.sockets && s.sockets[peer.value].attachment.Some?
    ensures Capped(Attach(s, h, a, g, peer))
  {
    var t := Attach(s, h, a, g, peer);
    MapGrowth(s.rows, a.pairId, t.rows[a.pairId]);
    var joined := s.sockets[h := Socket(a.pairId, true, Some(a))];
    MapGrowth(s.sockets, h, joined[h]);
    if peer.Some? {
      MapGrowth(joined, peer.value, t.sockets[peer.value]);
    }
  }

  predicate SameDeadline(k: Socket, l: Socket) {
    && (l.open ==> k.open)
    && (l.attachment.Some? ==> k.attachment.Some? && l.attachment.value.deadline == k.attachment.value.deadline)
  }

  predicate OldDeadline(s: Relay, t: Relay, k: Handle)
    requires k in t.sockets
  {
    t.sockets[k].open ==> k in s.sockets && SameDeadline(s.sockets[k], t.sockets[k])
  }

  lemma NoNewDeadlines(s: Relay, t: Relay)
    requires Alarmed(s) && t.alarm == s.alarm && t.scheduledAt == s.scheduledAt
    requires forall p :: p in t.rows ==> p in s.rows && t.rows[p].expiresAt == s.rows[p].expiresAt
    requires forall k :: k in t.sockets ==> OldDeadline(s, t, k)
    ensures Alarmed(t)
  {
    assert Deadlines(t) <= Deadlines(s);
  }

  /** Fencing a pair right after attaching a socket to it closes all its sockets, and leaves the others alone. */
  lemma AttachUndone(s: Relay, h: Handle, a: Attachment, g: Id, peer: Option<Handle>)
    requires a.pairId in s.rows && h !in s.sockets
    requires peer.Some? ==>
      peer.value in s.sockets && s.sockets[peer.value].attachment.Some? && s.sockets[peer.value].tag == a.pairId
    ensures var t := Retire(Attach(s, h, a, g, peer), {a.pairId});
      && t.alarm == s.alarm && t.scheduledAt == s.scheduledAt
      && (forall p :: p in t.rows ==> p in s.rows && t.rows[p].expiresAt == s.rows[p].expiresAt)
      && (forall k :: k in t.sockets ==> OldDeadline(s, t, k))
  {
  }

  /** A join that fails after the link has fenced its pair: the new socket is closed, and no deadline is new. */
  lemma LinkUndoneAlarmed(
      s: Relay, p: PairId, role: Role, digest: Hash, now: int, h: Handle, id: Id, g: Id, peer: Option<Handle>)
    requires Alarmed(s) && Met(p, role, Meeting(s, peer)) && h !in s.sockets
    ensures Alarmed(Retire(Link(s, p, role, digest, now, h, id, g, peer), {p}))
  {
    AttachUndone(s, h, NewAttachment(s, p, role, digest, now, id, g, peer), g, peer);
    NoNewDeadlines(s, Retire(Link(s, p, role, digest, now, h, id, g, peer), {p}));
  }

  lemma UnlinkedLogged(s: Relay, p: PairId, h: Handle)
    requires Logged(s) && h !in s.sockets
    ensures Logged(s.(sockets := s.sockets[h := Socket(p, false, None)]))
  {
  }

  lemma UnlinkedBounds(s: Relay, p: PairId, h: Handle)
    requires Capped(s) && Alarmed(s) && h !in s.sockets && |s.sockets| < MAX_SOCKETS
    ensures var t := s.(sockets := s.sockets[h := Socket(p, false, None)]);
      Capped(t) && Alarmed(t)
  {
    var t := s.(sockets := s.sockets[h := Socket(p, false, None)]);
    NoNewDeadlines(s, t);
    assert t.sockets.Keys == s.sockets.Keys + {h};
  }

  lemma UnlinkedKeeps(s: Relay, p: PairId, h: Handle)
    requires Invariant(s) && h !in s.sockets && |s.sockets| < MAX_SOCKETS
    ensures Invariant(s.(sockets := s.sockets[h := Socket(p, false, None)]))
  {
    var t := s.(sockets := s.sockets[h := Socket(p, false, None)]);
    UnlinkedLinked(s, p, h);
    UnlinkedLogged(s, p, h);
    MeteredIgnoresSockets(s, t);
    UnlinkedBounds(s, p, h);
  }

  lemma AbandonBounds(s: Relay, p: PairId, h: Handle, a: Attachment, g: Id)
    requires Capped(s) && Alarmed(s) && h !in s.sockets && |s.sockets| < MAX_SOCKETS
    ensures Capped(Abandon(s, p, h, a, g)) && Alarmed(Abandon(s, p, h, a, g))
  {
    AbandonSizes(s, p, h, a, g);
    NoNewDeadlines(s, Abandon(s, p, h, a, g));
  }

  lemma AbandonSizes(s: Relay, p: PairId, h: Handle, a: Attachment, g: Id)
    requires Capped(s) && h !in s.sockets && |s.sockets| < MAX_SOCKETS
    ensures Capped(Abandon(s, p, h, a, g))
  {
    var t := Abandon(s, p, h, a, g);
    assert t.sockets.Keys == s.sockets.Keys + {h};
    assert t.rows.Keys == s.rows.Keys;
  }

  lemma AbandonLogged(s: Relay, p: PairId, h: Handle, a: Attachment, g: Id)
    requires Logged(s)
    ensures Logged(Abandon(s, p, h, a, g))
  {
    var t := Retire(s, {p});
    RetireShrinks(s, {p});
    ShrinkLogged(s, t);
    assert Abandon(s, p, h, a, g)
      == t.(sockets := t.sockets[h := Socket(p, false, Some(a))], drawn := t.drawn + {a.id, g});
  }

  lemma AbandonMetered(s: Relay, p: PairId, h: Handle, a: Attachment, g: Id)
    requires Metered(s)
    ensures Metered(Abandon(s, p, h, a, g))
  {
    RetireShrinks(s, {p});
    ShrinkMetered(s, Retire(s, {p}));
    MeteredIgnoresSockets(Retire(s, {p}), Abandon(s, p, h, a, g));
  }

  lemma AbandonKeeps(s: Relay, p: PairId, h: Handle, a: Attachment, g: Id)
    requires Invariant(s) && p in s.rows && UnusedAttachment(s, p, h, a, g) && |s.sockets| < MAX_SOCKETS
    ensures Invariant(Abandon(s, p, h, a, g))
  {
    AbandonRows(s, p, h, a, g);
    AbandonSockets(s, p, h, a, g);
    AbandonLogged(s, p, h, a, g);
    AbandonMetered(s, p, h, a, g);
    AbandonBounds(s, p, h, a, g);
  }

  lemma EnterKeeps(
      met: Meeting, p: PairId, role: Role, digest: Hash, now: int, h: Handle, id: Id, g: Id, clock: int,
      fault: JoinFault)
    requires Invariant(met.relay) && Met(p, role, met)
    requires h !in met.relay.sockets && id !in met.relay.drawn && g !in met.relay.drawn && id != g
    ensures Invariant(Enter(met, p, role, digest, now, h, id, g, clock, fault).next)
  {
    var s := met.relay;
    if |s.sockets| < MAX_SOCKETS {
      var linked := Link(s, p, role, digest, now, h, id, g, met.peer);
      LinkKeeps(s, p, role, digest, now, h, id, g, met.peer);
      match fault {
        case BeforeLink => UnlinkedKeeps(s, p, h);
        case AtRow => AbandonKeeps(s, p, h, NewAttachment(s, p, role, digest, now, id, g, met.peer), g);
        case AfterLink =>
          RetireShrinks(linked, {p});
          var t := Retire(linked, {p});
          ShrinkLinked(linked, t);
          ShrinkLogged(linked, t);
          ShrinkMetered(linked, t);
          ShrinkCapped(linked, t);
          LinkUndoneAlarmed(s, p, role, digest, now, h, id, g, met.peer);
        case NoJoinFault => ScheduleKeeps(linked, clock);
      }
    }
  }

  lemma JoinKeeps(
      s: Relay, p: PairId, role: Role, digest: Hash, now: int, h: Handle, id: Id, g: Id, clock: int, fault: JoinFault)
    requires Invariant(s) && h !in s.sockets && id !in s.drawn && g !in s.drawn && id != g
    ensures Invariant(Join(s, p, role, digest, now, h, id, g, clock, fault).next)
  {
    if Authorized(s, p, role, digest, now) {
      var met := Meet(s, p, role, now);
      MeetShrinks(s, p, role, now);
      ShrinkLinked(s, met.relay);
      ShrinkLogged(s, met.relay);
      ShrinkMetered(s, met.relay);
      ShrinkCapped(s, met.relay);
      ShrinkAlarmed(s, met.relay);
      EnterKeeps(met, p, role, digest, now, h, id, g, clock, fault);
    }
  }

  // ----- Messages -----

  /** Nothing about the rows, the sockets or the deadlines is new. */
  ghost predicate SameBounds(s: Relay, t: Relay) {
    && t.rows.Keys == s.rows.Keys && t.sockets.Keys == s.sockets.Keys && t.provision == s.provision
    && t.alarm == s.alarm && t.scheduledAt == s.scheduledAt
    && (forall p :: p in t.rows ==> t.rows[p].expiresAt == s.rows[p].expiresAt)
    && (forall k :: k in t.sockets ==> OldDeadline(s, t, k))
  }

  lemma SameBoundsTwice(s: Relay, t: Relay, u: Relay)
    requires SameBounds(s, t) && SameBounds(t, u)
    ensures SameBounds(s, u)
  {
    forall k | k in u.sockets
      ensures OldDeadline(s, u, k)
    {
      assert OldDeadline(t, u, k) && OldDeadline(s, t, k);
    }
  }

  lemma ChargeBounds(s: Relay, p: PairId, role: Role, now: int)
    requires p in s.rows
    ensures SameBounds(s, Charge(s, p, role, now))
  {
  }

  lemma CountBounds(s: Relay, h: Handle, size: nat)
    requires h in s.sockets && s.sockets[h].attachment.Some?
    ensures SameBounds(s, Counted(s, h, size))
  {
  }

  lemma CloseAllBounds(s: Relay, log: seq<Entry>)
    ensures SameBounds(s, CloseAll(s).(log := log)) && SameBounds(s, s.(log := log))
  {
  }

  lemma ForwardBounds(s: Relay, h: Handle, size: nat, now: int, log: seq<Entry>)
    requires h in s.sockets && s.sockets[h].attachment.Some? && s.sockets[h].attachment.value.pairId in s.rows
    ensures var a := s.sockets[h].attachment.value;
      var charged := Charge(s, a.pairId, a.role, now);
      var counted := Counted(charged, h, size);
      && SameBounds(s, CloseAll(s).(log := log))
      && SameBounds(s, CloseAll(charged).(log := log))
      && SameBounds(s, CloseAll(counted).(log := log))
      && SameBounds(s, counted.(log := log))
  {
    var a := s.sockets[h].attachment.value;
    var charged := Charge(s, a.pairId, a.role, now);
    var counted := Counted(charged, h, size);
    ChargeBounds(s, a.pairId, a.role, now);
    CountBounds(charged, h, size);
    SameBoundsTwice(s, charged, counted);
    CloseAllBounds(s, log);
    CloseAllBounds(charged, log);
    SameBoundsTwice(s, charged, CloseAll(charged).(log := log));
    CloseAllBounds(counted, log);
    SameBoundsTwice(s, counted, CloseAll(counted).(log := log));
    SameBoundsTwice(s, counted, counted.(log := log));
  }

  lemma CloseBounds(s: Relay, h: Handle, log: seq<Entry>)
    ensures SameBounds(s, Close(s, h)) && SameBounds(s, Close(s, h).(log := log))
  {
  }

  lemma RetireBounds(s: Relay, pairs: set<PairId>, log: seq<Entry>)
    ensures SameBounds(s, Retire(s, pairs).(log := log))
  {
  }

  lemma ForwardedBounds(s: Relay, h: Handle, frame: Frame, now: int, fault: SendFault)
    requires h in s.sockets && s.sockets[h].attachment.Some? && Judge(s, h, frame, now).Forward?
    ensures SameBounds(s, Message(s, h, frame, now, fault))
  {
    ForwardBounds(s, h, |frame.payload|, now, Message(s, h, frame, now, fault).log);
  }

  lemma MessageBounds(s: Relay, h: Handle, frame: Frame, now: int, fault: SendFault)
    ensures SameBounds(s, Message(s, h, frame, now, fault))
  {
    var log := Message(s, h, frame, now, fault).log;
    CloseBounds(s, h, log);
    if h in s.sockets && s.sockets[h].attachment.Some? {
      match Judge(s, h, frame, now) {
        case Ignored =>
        case Retired => RetireBounds(s, {s.sockets[h].attachment.value.pairId}, log);
        case Forward(_) => ForwardedBounds(s, h, frame, now, fault);
      }
    }
  }

  lemma MessageKeeps(s: Relay, h: Handle, frame: Frame, now: int, fault: SendFault)
    requires Invariant(s)
    ensures Invariant(Message(s, h, frame, now, fault))
  {
    var t := Message(s, h, frame, now, fault);
    MessageLinked(s, h, frame, now, fault);
    MessageLogged(s, h, frame, now, fault);
    MessageMetered(s, h, frame, now, fault);
    MessageBounds(s, h, frame, now, fault);
    BoundsKeep(s, t);
  }

  lemma BoundsKeep(s: Relay, t: Relay)
    requires Capped(s) && Alarmed(s) && SameBounds(s, t)
    ensures Capped(t) && Alarmed(t)
  {
    assert |t.rows| == |t.rows.Keys| && |s.rows| == |s.rows.Keys|;
    assert |t.sockets| == |t.sockets.Keys| && |s.sockets| == |s.sockets.Keys|;
    NoNewDeadlines(s, t);
  }

  // ----- Runs -----

  /** Every event keeps the invariant. */
  lemma NextKeeps(s: Relay, e: Event)
    requires Invariant(s) && Fresh(s, e)
    ensures Invariant(Next(s, e))
  {
    match e
    case Provisioning(p, createdAt, d, ph, clock) => ProvisionKeeps(s, p, createdAt, d, ph, clock);
    case Joining(p, role, digest, now, h, id, g, clock, fault) =>
      JoinKeeps(s, p, role, digest, now, h, id, g, clock, fault);
    case Messaging(h, frame, now, fault) => MessageKeeps(s, h, frame, now, fault);
    case _ => RemovalKeeps(s, e);
  }

  /** The relay after the first `n` events of a run that starts with no table. */
  ghost function Run(events: seq<Event>, n: nat): Relay
    requires n <= |events|
  {
    RunTo(Next, EMPTY, events, n)
  }

  /** Every id drawn and every socket object along the run is new. */
  ghost predicate Possible(events: seq<Event>) {
    Follows(Next, Fresh, EMPTY, events)
  }

  lemma EveryRun(events: seq<Event>, n: nat)
    requires Possible(events) && n <= |events|
    ensures Invariant(Run(events, n))
  {
    forall s: Relay, e: Event | Holds(Invariant, s) && Fits(Fresh, s, e)
      ensures Holds(Invariant, Apply(Next, s, e))
    {
      NextKeeps(s, e);
    }
    assert Holds(Invariant, EMPTY);
    InductiveHolds(Next, Invariant, Fresh, EMPTY, events, n);
  }

  // ----- Main results -----

  /** The open socket a row names for a role. */
  predicate Serves(s: Relay, h: Handle, p: PairId, role: Role) {
    && h in s.sockets && s.sockets[h].open && s.sockets[h].tag == p && p in s.rows
    && s.sockets[h].attachment.Some? && s.sockets[h].attachment.value.role == role
    && SocketOf(s.rows[p], role) == Some(s.sockets[h].attachment.value.id)
  }

  /** In every reachable state, a generation means both columns are set; attachments with those ids name each other
      and carry it; and every open socket is the one its row names for its role, so no role has two. */
  lemma RowsAndSocketsAgree(events: seq<Event>, n: nat)
    requires Possible(events) && n <= |events|
    ensures var s := Run(events, n);
      && (forall p :: p in s.rows ==>
            (s.rows[p].generation.Some? <==> s.rows[p].desktop.socket.Some? && s.rows[p].phone.socket.Some?))
      && (forall h :: h in s.sockets && s.sockets[h].attachment.Some? && s.sockets[h].tag in s.rows ==>
            NamedOk(s.rows[s.sockets[h].tag], s.sockets[h].attachment.value))
      && (forall h :: h in s.sockets && s.sockets[h].open ==>
            s.sockets[h].attachment.Some? && Serves(s, h, s.sockets[h].tag, s.sockets[h].attachment.value.role))
      && (forall h, k, p, role :: Serves(s, h, p, role) && Serves(s, k, p, role) ==> h == k)
  {
    EveryRun(events, n);
    var s := Run(events, n);
    forall h, k, p, role | Serves(s, h, p, role) && Serves(s, k, p, role)
      ensures h == k
    {
      assert SameId(s.sockets[h], s.sockets[k]);
    }
  }

  /** An open socket whose frames would belong to a generation and role. */
  predicate Sends(k: Socket, generation: Id, role: Role) {
    k.open && k.attachment.Some?
    && k.attachment.value.generation == Some(generation) && k.attachment.value.role == role
  }

  /** Over every run, what each generation and direction delivers is a prefix of what was handed in, from one sender
      to one receiver of one pair; and once a frame was not delivered, no open socket can send there any more. */
  lemma FramesDelivered(events: seq<Event>, n: nat, generation: Id, role: Role)
    requires Possible(events) && n <= |events|
    ensures var s := Run(events, n);
      && Delivered(s.log, generation, role) <= Submitted(s.log, generation, role)
      && Paired(s.log)
      && (Delivered(s.log, generation, role) != Submitted(s.log, generation, role) ==>
            forall h :: h in s.sockets ==> !Sends(s.sockets[h], generation, role))
  {
    EveryRun(events, n);
    var s := Run(events, n);
    DeliveredIsPrefix(s.log, generation, role);
    if Delivered(s.log, generation, role) != Submitted(s.log, generation, role) {
      var i := Missing(s.log, generation, role);
      forall h | h in s.sockets
        ensures !Sends(s.sockets[h], generation, role)
      {
        assert !CouldSend(s.sockets[h], s.log[i]);
      }
    }
  }

  lemma Missing(log: seq<Entry>, generation: Id, role: Role) returns (i: nat)
    requires Delivered(log, generation, role) != Submitted(log, generation, role)
    ensures i < |log| && InStream(log[i], generation, role) && !log[i].forwarded
  {
    if forall i :: 0 <= i < |log| && InStream(log[i], generation, role) ==> log[i].forwarded {
      DeliveredAll(log, generation, role);
    }
    i :| 0 <= i < |log| && InStream(log[i], generation, role) && !log[i].forwarded;
  }

  /** Over every run, across reconnects and a clock that steps back, stored credits stay within the bucket, and any
      tokens i..j one role takes are paid for by one full bucket and the budget clock between them. */
  lemma TokensBounded(events: seq<Event>, n: nat, p: PairId, role: Role, i: nat, j: nat)
    requires Possible(events) && n <= |events|
    requires i <= j < |SpendsOf(Run(events, n), p, role)|
    ensures var q := SpendsOf(Run(events, n), p, role);
      && q[i].at <= q[j].at
      && COST * (j - i + 1) <= BURST + (q[j].at - q[i].at)
      && 0 <= q[j].credits <= BURST - COST
      && (p in Run(events, n).rows ==> 0 <= SideOf(Run(events, n).rows[p], role).credits <= BURST)
  {
    EveryRun(events, n);
    var s := Run(events, n);
    WindowBound(SpendsOf(s, p, role), i, j);
    if p in s.rows {
      assert BothBuckets(s, p);
    }
  }
}
