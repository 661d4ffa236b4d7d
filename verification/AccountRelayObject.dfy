/** The relay object itself: handlers that update rows, attachments, the budget and the alarm in place, each proved
    to take the step its value-level model takes. */
module AccountRelayObject {
  import opened Wrappers
  import opened Bytes
  import opened Minimum
  import opened AccountRelay
  import opened AccountRelayLaws

  predicate Earliest(best: Option<int>, seen: set<int>) {
    if best.None? then seen == {} else IsMin(best.value, seen)
  }

  function Earlier(best: Option<int>, x: int): Option<int> {
    Some(if best.None? then x else Min(best.value, x))
  }

  lemma MinInserted(best: Option<int>, seen: set<int>, x: int)
    requires Earliest(best, seen)
    ensures Earliest(Earlier(best, x), seen + {x})
  {
  }

  /** What the alarm does about one socket. */
  function SweepStep(s: Relay, h: Handle, now: int): Relay
    requires h in s.sockets
  {
    if s.sockets[h].attachment.None? then Close(s, h)
    else if IsLapsed(s, s.sockets[h], now) then Retire(s, {s.sockets[h].attachment.value.pairId})
    else s
  }

  /** A socket once the sweep has fenced some pairs and, unless it is still to come, has seen the socket itself. */
  function SweptSocket(k: Socket, gone: set<PairId>, ahead: bool): Socket {
    if k.tag in gone || (!ahead && k.attachment.None?) then k.(open := false) else k
  }

  function LapsedSeen(start: Relay, rest: set<Handle>, now: int): set<PairId> {
    set h | h in start.sockets && h !in rest && IsLapsed(start, start.sockets[h], now)
      :: start.sockets[h].attachment.value.pairId
  }

  /** Midway through the sweep: what the sockets seen so far have led to. */
  ghost predicate Sweeping(start: Relay, s: Relay, rest: set<Handle>, gone: set<PairId>) {
    && s == start.(rows := ClearRows(start.rows, gone), sockets := s.sockets)
    && rest <= s.sockets.Keys == start.sockets.Keys
    && forall h :: h in start.sockets ==> s.sockets[h] == SweptSocket(start.sockets[h], gone, h in rest)
  }

  lemma RetireSweeps(start: Relay, s: Relay, rest: set<Handle>, gone: set<PairId>, h: Handle, p: PairId)
    requires Sweeping(start, s, rest, gone) && h in rest && start.sockets[h].attachment.Some?
    ensures Sweeping(start, Retire(s, {p}), rest - {h}, gone + {p})
  {
    assert ClearRows(ClearRows(start.rows, gone), {p}) == ClearRows(start.rows, gone + {p});
  }

  lemma CloseSweeps(start: Relay, s: Relay, rest: set<Handle>, gone: set<PairId>, h: Handle)
    requires Sweeping(start, s, rest, gone) && h in rest
    ensures start.sockets[h].attachment.None? ==> Sweeping(start, Close(s, h), rest - {h}, gone)
    ensures start.sockets[h].attachment.Some? ==> Sweeping(start, s, rest - {h}, gone)
  {
  }

  /** A pair fenced once does not lapse again. */
  lemma LapsesOnce(start: Relay, s: Relay, rest: set<Handle>, gone: set<PairId>, h: Handle, now: int)
    requires Sweeping(start, s, rest, gone) && h in rest && start.sockets[h].attachment.Some?
    ensures s.sockets[h].attachment == start.sockets[h].attachment
    ensures IsLapsed(s, s.sockets[h], now)
       <==> IsLapsed(start, start.sockets[h], now) && start.sockets[h].attachment.value.pairId !in gone
  {
  }

  lemma SweepStepKeeps(start: Relay, s: Relay, rest: set<Handle>, h: Handle, now: int)
    requires Sweeping(start, s, rest, LapsedSeen(start, rest, now)) && h in rest
    ensures Sweeping(start, SweepStep(s, h, now), rest - {h}, LapsedSeen(start, rest - {h}, now))
  {
    var gone, next := LapsedSeen(start, rest, now), LapsedSeen(start, rest - {h}, now);
    CloseSweeps(start, s, rest, gone, h);
    if start.sockets[h].attachment.None? {
      assert next == gone;
    } else {
      var p := start.sockets[h].attachment.value.pairId;
      LapsesOnce(start, s, rest, gone, h, now);
      RetireSweeps(start, s, rest, gone, h, p);
      assert next == if IsLapsed(start, start.sockets[h], now) then gone + {p} else gone;
      assert p in gone ==> gone + {p} == gone;
    }
  }

  lemma SweptAll(start: Relay, s: Relay, now: int)
    requires Sweeping(start, s, {}, LapsedSeen(start, {}, now))
    ensures s == Swept(start, now)
  {
    assert LapsedSeen(start, {}, now) == Lapsed(start, now);
    assert s.sockets == Swept(start, now).sockets;
  }

  class DurableRelay {
    var initialized: bool
    var rows: map<PairId, Row>
    var sockets: map<Handle, Socket>
    var provision: Option<Budget>
    var alarm: Option<int>
    ghost var drawn: set<Id>
    ghost var provisioned: set<PairId>
    ghost var log: seq<Entry>
    ghost var spends: map<(PairId, Role), seq<Spend>>
    ghost var scheduledAt: int

    ghost function State(): Relay
      reads this
    {
      Relay(initialized, rows, sockets, provision, alarm, drawn, provisioned, log, spends, scheduledAt)
    }

    /** Until the table exists there is no pair. */
    predicate Tabled()
      reads this
    {
      !initialized ==> rows == map[]
    }

    constructor ()
      ensures State() == EMPTY
    {
      initialized, rows, sockets, provision, alarm := false, map[], map[], None, None;
      drawn, provisioned, log, spends, scheduledAt := {}, {}, [], map[], 0;
    }

    // ----- Helpers -----

    /** The open socket of a pair that carries an id: there is at most one. */
    method FindSocket(p: PairId, id: Option<Id>) returns (h: Option<Handle>)
      requires SocketsLinked(State())
      ensures h == Find(sockets, p, id)
    {
      if id.None? {
        return None;
      }
      var rest := sockets.Keys;
      while rest != {}
        invariant rest <= sockets.Keys
        invariant forall k :: k in sockets && k !in rest ==> !IsOpenAs(sockets, k, p, id.value)
        decreases rest
      {
        var k :| k in rest;
        if IsOpenAs(sockets, k, p, id.value) {
          ghost var found := Find(sockets, p, id);
          assert SameId(sockets[k], sockets[found.value]);
          return Some(k);
        }
        rest := rest - {k};
      }
      return None;
    }

    method CloseSocket(h: Handle)
      modifies this`sockets
      ensures State() == Close(old(State()), h)
    {
      if h in sockets && sockets[h].open {
        sockets := sockets[h := sockets[h].(open := false)];
      }
      assert h in sockets ==> sockets == old(sockets)[h := old(sockets)[h].(open := false)];
    }

    /** Fences the pair before any socket closes. */
    method RetirePair(p: PairId)
      requires Tabled()
      modifies this`rows, this`sockets
      ensures State() == Retire(old(State()), {p})
    {
      if initialized && p in rows {
        rows := rows[p := Cleared(rows[p])];
      }
      assert rows == ClearRows(old(rows), {p});
      var rest := sockets.Keys;
      ghost var before := sockets;
      while rest != {}
        invariant rest <= sockets.Keys == before.Keys && rows == ClearRows(old(rows), {p})
        invariant forall h :: h in before ==>
          sockets[h] == if h !in rest && before[h].tag == p then before[h].(open := false) else before[h]
        decreases rest
      {
        var h :| h in rest;
        rest := rest - {h};
        if sockets[h].tag == p {
          CloseSocket(h);
        }
      }
      assert sockets == CloseTags(before, {p});
    }

    method PurgeExpired(now: int)
      requires initialized
      modifies this`rows, this`sockets
      ensures State() == Purge(old(State()), now)
    {
      ghost var start := State();
      var expired := set p | p in rows && rows[p].expiresAt <= now;
      var rest := expired;
      while rest != {}
        invariant rest <= expired
        invariant rows == start.rows - (expired - rest)
        invariant sockets == CloseTags(start.sockets, expired - rest)
        decreases rest
      {
        var p :| p in rest;
        RetirePair(p);
        rows := rows - {p};
        rest := rest - {p};
        assert rows == start.rows - (expired - rest);
        assert sockets == CloseTags(start.sockets, expired - rest);
      }
      assert expired == ExpiredPairs(start, now) && expired - rest == expired;
      assert rows == ClearRows(start.rows, expired) - expired;
    }

    /** The alarm goes to the least deadline of any pair or open attached socket, but never into the past. */
    method ScheduleAlarm(clock: int)
      modifies this`alarm, this`scheduledAt
      ensures State() == Schedule(old(State()), clock)
    {
      var best: Option<int> := None;
      ghost var seen: set<int> := {};
      var pairs := rows.Keys;
      while pairs != {}
        invariant pairs <= rows.Keys
        invariant seen == set p | p in rows && p !in pairs :: rows[p].expiresAt
        invariant Earliest(best, seen)
        decreases pairs
      {
        var p :| p in pairs;
        pairs := pairs - {p};
        MinInserted(best, seen, rows[p].expiresAt);
        best := Earlier(best, rows[p].expiresAt);
        seen := seen + {rows[p].expiresAt};
      }
      ghost var ofRows := seen;
      var rest := sockets.Keys;
      while rest != {}
        invariant rest <= sockets.Keys
        invariant seen == ofRows + (set h | h in sockets && h !in rest && sockets[h].open && sockets[h].attachment.Some?
                                      :: sockets[h].attachment.value.deadline)
        invariant Earliest(best, seen)
        decreases rest
      {
        var h :| h in rest;
        rest := rest - {h};
        if sockets[h].open && sockets[h].attachment.Some? {
          var deadline := sockets[h].attachment.value.deadline;
          MinInserted(best, seen, deadline);
          best := Earlier(best, deadline);
          seen := seen + {deadline};
        }
      }
      assert seen == Deadlines(State());
      alarm := if best.None? then None else Some(Max(clock + 1, best.value));
      scheduledAt := clock;
    }

    // ----- Handlers -----

    method InsertPair(p: PairId, createdAt: int, desktopHash: Hash, phoneHash: Hash)
      modifies this`provision, this`rows, this`provisioned
      ensures State() == Inserted(old(State()), p, createdAt, desktopHash, phoneHash)
    {
      provision := Some(
        if BudgetResets(provision, createdAt) then Budget(createdAt, 1)
        else Budget(provision.value.start, provision.value.count + 1));
      var expiresAt := createdAt + PAIR_TTL_MS;
      rows := rows[p := Row(createdAt, expiresAt, None, NewSide(desktopHash, expiresAt),
        NewSide(phoneHash, expiresAt))];
      provisioned := provisioned + {p};
    }

    /** manage POST. */
    method ProvisionPair(
        p: PairId, createdAt: int, desktopHash: Hash, phoneHash: Hash, clock: int) returns (answer: Answer)
      requires Tabled()
      modifies this
      ensures Outcome(State(), answer)
        == AccountRelay.Provision(old(State()), p, createdAt, desktopHash, phoneHash, clock)
    {
      initialized := true;
      var saved := rows;
      PurgeExpired(createdAt);
      if |rows| >= MAX_PAIRS {
        rows := saved;
        return PairLimit;
      }
      if !BudgetResets(provision, createdAt) && provision.value.count >= MAX_PROVISIONS {
        rows := saved;
        return ProvisionLimit;
      }
      InsertPair(p, createdAt, desktopHash, phoneHash);
      ScheduleAlarm(clock);
      return Created;
    }

    /** manage DELETE. */
    method RevokePair(p: PairId, clock: int) returns (answer: Answer)
      requires Tabled()
      modifies this
      ensures Outcome(State(), answer) == Revoke(old(State()), p, clock)
    {
      if !initialized {
        return NotFound;
      }
      RetirePair(p);
      answer := if p in rows then NoContent else NotFound;
      rows := rows - {p};
      ScheduleAlarm(clock);
    }

    /** webSocketClose and webSocketError. */
    method WebSocketClose(h: Handle)
      requires Tabled()
      modifies this
      ensures State() == Closed(old(State()), h)
    {
      if h in sockets && sockets[h].attachment.Some? {
        var a := sockets[h].attachment.value;
        if a.pairId in rows && SideOf(rows[a.pairId], a.role).socket == Some(a.id) {
          RetirePair(a.pairId);
        }
      }
    }

    // ----- fetch -----

    /** Finds the joining end's peer, fencing the pair if anything about it is stale. */
    method MeetPeer(p: PairId, role: Role, now: int) returns (peer: Option<Handle>)
      requires SocketsLinked(State()) && Tabled() && p in rows
      modifies this`rows, this`sockets
      ensures Meeting(State(), peer) == Meet(old(State()), p, role, now)
    {
      var row := rows[p];
      var other := SideOf(row, Opposite(role)).socket;
      peer := FindSocket(p, other);
      if SideOf(row, role).socket.Some? || row.generation.Some?
         || (other.Some? && (peer.None? || !AccountRelay.Valid(p, row, sockets[peer.value].attachment.value, now)))
      {
        RetirePair(p);
        peer := None;
      }
    }

    /** Attaches the socket, names it in its row, and tells its peer. */
    method AttachSocket(h: Handle, a: Attachment, ghost generation: Id, peer: Option<Handle>)
      requires a.pairId in rows
      requires peer.Some? ==> peer.value in sockets && sockets[peer.value].attachment.Some? && peer.value != h
      modifies this`rows, this`sockets, this`drawn
      ensures State() == Attach(old(State()), h, a, generation, peer)
    {
      sockets := sockets[h := Socket(a.pairId, true, Some(a))];
      var row := rows[a.pairId];
      rows := rows[a.pairId :=
        WithSide(row, a.role, SideOf(row, a.role).(socket := Some(a.id))).(generation := a.generation)];
      if peer.Some? {
        var b := sockets[peer.value].attachment.value;
        sockets := sockets[peer.value :=
          sockets[peer.value].(attachment := Some(b.(peer := Some(a.id), generation := a.generation)))];
      }
      drawn := drawn + {a.id, generation};
    }

    /** fetch once the peer is met: the attachment, the link, and what a failure undoes. */
    method EnterSocket(
        p: PairId, role: Role, digest: Hash, now: int, h: Handle, id: Id, generation: Id, clock: int, fault: JoinFault,
        peer: Option<Handle>)
      returns (answer: Answer)
      requires Tabled() && p in rows && h !in sockets
      requires peer.Some? ==> peer.value in sockets && sockets[peer.value].attachment.Some?
      modifies this
      ensures Outcome(State(), answer)
           == Enter(Meeting(old(State()), peer), p, role, digest, now, h, id, generation, clock, fault)
    {
      if |sockets| >= MAX_SOCKETS {
        return SocketLimit;
      }
      var side := SideOf(rows[p], role);
      var deadline := Min(Min(rows[p].expiresAt, side.expiresAt), now + SESSION_MS);
      var a := Attachment(p, role, id, None, None, side.capGeneration, digest, deadline, 0, 0);
      if peer.Some? {
        a := a.(peer := Some(sockets[peer.value].attachment.value.id), generation := Some(generation));
      }
      match fault {
        case BeforeLink =>
          sockets := sockets[h := Socket(p, false, None)];
          return JoinFailed;
        case AtRow =>
          sockets := sockets[h := Socket(p, true, Some(a))];
          drawn := drawn + {id, generation};
          RetirePair(p);
          return JoinFailed;
        case AfterLink =>
          AttachSocket(h, a, generation, peer);
          RetirePair(p);
          return JoinFailed;
        case NoJoinFault =>
          AttachSocket(h, a, generation, peer);
          ScheduleAlarm(clock);
          return Joined;
      }
    }

    /** fetch, from the read that follows the asynchronous hash. */
    method Fetch(
        p: PairId, role: Role, digest: Hash, now: int, h: Handle, id: Id, generation: Id, clock: int, fault: JoinFault)
      returns (answer: Answer)
      requires SocketsLinked(State()) && Tabled() && h !in sockets
      modifies this
      ensures Outcome(State(), answer) == Join(old(State()), p, role, digest, now, h, id, generation, clock, fault)
    {
      if p !in rows || rows[p].expiresAt <= now || SideOf(rows[p], role).expiresAt <= now
         || SideOf(rows[p], role).capGeneration < 1 || SideOf(rows[p], role).hash != digest
      {
        return Unauthorized;
      }
      var peer := MeetPeer(p, role, now);
      answer := EnterSocket(p, role, digest, now, h, id, generation, clock, fault, peer);
    }

    // ----- webSocketMessage -----

    /** The checks of webSocketMessage, in their order. */
    method JudgeFrame(h: Handle, frame: Frame, now: int) returns (verdict: Verdict)
      requires SocketsLinked(State()) && h in sockets && sockets[h].attachment.Some?
      ensures verdict == Judge(State(), h, frame, now)
    {
      var a := sockets[h].attachment.value;
      if !sockets[h].open || a.pairId !in rows || SideOf(rows[a.pairId], a.role).socket != Some(a.id) {
        return Ignored;
      }
      var row := rows[a.pairId];
      if !AccountRelay.Valid(a.pairId, row, a, now) || frame.Text? {
        return Retired;
      }
      if |frame.payload| == 0 || |frame.payload| > MAX_FRAME_BYTES {
        return Retired;
      }
      var other := SideOf(row, Opposite(a.role)).socket;
      var peer := FindSocket(a.pairId, other);
      if row.generation.None? || a.generation != row.generation || a.peer != other || peer.None? {
        return Retired;
      }
      var b := sockets[peer.value].attachment.value;
      if b.role != Opposite(a.role) || b.peer != Some(a.id) || b.generation != row.generation {
        return Retired;
      }
      if !AccountRelay.Valid(a.pairId, row, b, now) {
        return Retired;
      }
      var side := SideOf(row, a.role);
      var at := Max(now, side.budgetAt);
      var credits := Min(BURST, side.credits + at - side.budgetAt);
      if credits < COST || a.bytes + |frame.payload| > MAX_SESSION_BYTES || a.messages >= MAX_SESSION_MESSAGES {
        return Retired;
      }
      return Forward(peer.value);
    }

    method TakeToken(p: PairId, role: Role, now: int)
      requires p in rows
      modifies this`rows, this`spends
      ensures State() == Charge(old(State()), p, role, now)
    {
      var side := SideOf(rows[p], role);
      var at := Max(now, side.budgetAt);
      var credits := Min(BURST, side.credits + at - side.budgetAt);
      spends := spends[(p, role) := SpendsOf(State(), p, role) + [Spend(at, credits - COST)]];
      rows := rows[p := WithSide(rows[p], role, side.(credits := credits - COST, budgetAt := at))];
    }

    method CountFrame(h: Handle, size: nat)
      requires h in sockets && sockets[h].attachment.Some?
      modifies this`sockets
      ensures State() == Counted(old(State()), h, size)
    {
      var a := sockets[h].attachment.value;
      sockets := sockets[h := sockets[h].(attachment := Some(a.(messages := a.messages + 1, bytes := a.bytes + size)))];
    }

    /** A failure closes every socket. */
    method CloseEvery()
      modifies this`sockets
      ensures State() == CloseAll(old(State()))
    {
      var rest := sockets.Keys;
      ghost var before := sockets;
      while rest != {}
        invariant rest <= sockets.Keys == before.Keys
        invariant forall h :: h in before ==> sockets[h] == if h in rest then before[h] else before[h].(open := false)
        decreases rest
      {
        var h :| h in rest;
        rest := rest - {h};
        CloseSocket(h);
      }
      assert sockets == map h | h in before :: before[h].(open := false);
    }

    method ForwardFrame(h: Handle, payload: seq<byte>, now: int, fault: SendFault, peer: Handle)
      requires h in sockets && sockets[h].attachment.Some? && sockets[h].attachment.value.pairId in rows
      requires peer in sockets && sockets[peer].attachment.Some?
      modifies this`rows, this`sockets, this`spends, this`log
      ensures State() == Forwarded(old(State()), h, Binary(payload), now, fault, peer)
    {
      var a := sockets[h].attachment.value;
      ghost var entry := Entry(a.pairId, a.generation, a.role, a.id, None, Binary(payload), false, 0);
      ghost var receiver := sockets[peer].attachment.value.id;
      if fault == AtUpdate {
        CloseEvery();
        log := log + [entry];
        return;
      }
      TakeToken(a.pairId, a.role, now);
      if fault == AtCount {
        CloseEvery();
        log := log + [entry];
        return;
      }
      CountFrame(h, |payload|);
      if fault == AtSend {
        CloseEvery();
        log := log + [entry];
        return;
      }
      ghost var token := |SpendsOf(old(State()), a.pairId, a.role)|;
      log := log + [entry.(receiver := Some(receiver), forwarded := true, token := token)];
    }

    method WebSocketMessage(h: Handle, frame: Frame, now: int, fault: SendFault)
      requires SocketsLinked(State()) && Tabled()
      modifies this
      ensures State() == AccountRelay.Message(old(State()), h, frame, now, fault)
    {
      if h !in sockets || sockets[h].attachment.None? {
        CloseSocket(h);
        return;
      }
      var a := sockets[h].attachment.value;
      ghost var entry := Entry(a.pairId, a.generation, a.role, a.id, None, frame, false, 0);
      var verdict := JudgeFrame(h, frame, now);
      match verdict {
        case Ignored =>
          CloseSocket(h);
          log := log + [entry];
        case Retired =>
          RetirePair(a.pairId);
          log := log + [entry];
        case Forward(peer) =>
          ForwardFrame(h, frame.payload, now, fault, peer);
      }
    }

    // ----- alarm -----

    method SweepSocket(h: Handle, now: int)
      requires Tabled() && h in sockets
      modifies this`rows, this`sockets
      ensures State() == SweepStep(old(State()), h, now)
    {
      if sockets[h].attachment.None? {
        CloseSocket(h);
      } else {
        var a := sockets[h].attachment.value;
        if a.pairId in rows && SideOf(rows[a.pairId], a.role).socket == Some(a.id)
           && !AccountRelay.Valid(a.pairId, rows[a.pairId], a, now)
        {
          RetirePair(a.pairId);
        }
      }
    }

    /** Closes sockets with no attachment, and fences every pair one of whose sockets lapsed. */
    method SweepSockets(now: int)
      requires Tabled()
      modifies this`rows, this`sockets
      ensures State() == Swept(old(State()), now)
    {
      ghost var start := State();
      var rest := sockets.Keys;
      assert LapsedSeen(start, rest, now) == {};
      while rest != {}
        invariant Sweeping(start, State(), rest, LapsedSeen(start, rest, now)) && Tabled()
        decreases rest
      {
        var h :| h in rest;
        SweepStepKeeps(start, State(), rest, h, now);
        SweepSocket(h, now);
        rest := rest - {h};
      }
      SweptAll(start, State(), now);
    }

    method AlarmFires(now: int, clock: int)
      requires Tabled()
      modifies this
      ensures State() == Alarm(old(State()), now, clock)
    {
      alarm := None;
      if !initialized {
        return;
      }
      SweepSockets(now);
      PurgeExpired(now);
      ScheduleAlarm(clock);
    }
  }
}
