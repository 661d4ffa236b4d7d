/** Exactly when the relay forwards a frame and admits a join, in states where rows and attachments agree. */
module AccountRelayExact {
  import opened Wrappers
  import opened Minimum
  import opened AccountRelay
  import opened AccountRelayLaws
  import opened AccountRelayFrames

  // ----- Frames -----

  /** An open socket of a pair, in a role, that its row admits. */
  predicate Listens(s: Relay, k: Handle, p: PairId, role: Role, now: int) {
    && k in s.sockets && s.sockets[k].open && s.sockets[k].tag == p && p in s.rows
    && s.sockets[k].attachment.Some? && s.sockets[k].attachment.value.role == role
    && Valid(p, s.rows[p], s.sockets[k].attachment.value, now)
  }

  /** The sender can pay for a frame: a token in the bucket, and room in its session's budgets. */
  predicate Affords(s: Relay, a: Attachment, size: nat, now: int)
    requires a.pairId in s.rows
  {
    var side := SideOf(s.rows[a.pairId], a.role);
    && Refilled(side, Max(now, side.budgetAt)) >= COST
    && a.bytes + size <= MAX_SESSION_BYTES && a.messages < MAX_SESSION_MESSAGES
  }

  /** A frame of an open socket is forwarded exactly when it fits, its sender can pay, and its pair has both an admitted
      sender and an admitted open receiver: under the invariant the other consistency checks cannot fail on their
      own. */
  lemma ForwardedExactly(s: Relay, h: Handle, frame: Frame, now: int)
    requires Linked(s) && h in s.sockets && s.sockets[h].open
    ensures s.sockets[h].attachment.Some? && s.sockets[h].attachment.value.pairId in s.rows
    ensures var a := s.sockets[h].attachment.value;
      Judge(s, h, frame, now).Forward? <==>
        && frame.Binary? && 0 < |frame.payload| <= MAX_FRAME_BYTES
        && Affords(s, a, |frame.payload|, now)
        && Listens(s, h, a.pairId, a.role, now)
        && exists k: Handle :: Listens(s, k, a.pairId, Opposite(a.role), now)
  {
    assert OpenOk(s, s.sockets[h]);
    var a := s.sockets[h].attachment.value;
    var p := a.pairId;
    assert RowOk(s, p, s.rows[p]);
    if Judge(s, h, frame, now).Forward? {
      ForwardMeans(s, h, frame, now);
      assert Listens(s, Judge(s, h, frame, now).peer, p, Opposite(a.role), now);
    }
    forall k: Handle | Listens(s, k, p, Opposite(a.role), now) && Listens(s, h, p, a.role, now)
      ensures Find(s.sockets, p, SocketOf(s.rows[p], Opposite(a.role))) == Some(k)
    {
      FoundIs(s, k, p, Opposite(a.role), now);
    }
  }

  lemma FoundIs(s: Relay, k: Handle, p: PairId, role: Role, now: int)
    requires Linked(s) && Listens(s, k, p, role, now)
    ensures Find(s.sockets, p, SocketOf(s.rows[p], role)) == Some(k)
  {
    var id := s.sockets[k].attachment.value.id;
    assert IsOpenAs(s.sockets, k, p, id);
    var found := Find(s.sockets, p, Some(id));
    assert SameId(s.sockets[found.value], s.sockets[k]);
  }

  /** The entry of a frame that reached a receiver, for the next of its role's tokens. */
  function SentTo(s: Relay, e: Entry, receiver: Id): Entry {
    e.(receiver := Some(receiver), forwarded := true, token := |SpendsOf(s, e.pairId, e.role)|)
  }

  /** Every message of an attached socket is logged once: as forwarded exactly when it was judged so and nothing failed,
      and then to the receiver judged. */
  lemma LoggedOnce(s: Relay, h: Handle, frame: Frame, now: int, fault: SendFault)
    requires Linked(s) && h in s.sockets && s.sockets[h].attachment.Some?
    ensures var t := Message(s, h, frame, now, fault);
      var entry := EntryOf(s.sockets[h].attachment.value, frame);
      match Judge(s, h, frame, now)
      case Forward(k) =>
        k in s.sockets && s.sockets[k].attachment.Some? &&
        t.log == s.log + [if fault == NoSendFault then SentTo(s, entry, s.sockets[k].attachment.value.id) else entry]
      case _ => t.log == s.log + [entry]
  {
  }

  /** A frame is ignored exactly when its socket is no longer open, and then no row changes: the generation lives on. */
  lemma IgnoredExactly(s: Relay, h: Handle, frame: Frame, now: int, fault: SendFault)
    requires Linked(s) && h in s.sockets && s.sockets[h].attachment.Some?
    ensures Judge(s, h, frame, now) == Ignored <==> !s.sockets[h].open
    ensures !s.sockets[h].open ==> Message(s, h, frame, now, fault).rows == s.rows
  {
    assert SocketOk(s, s.sockets[h]);
  }

  // ----- Joining -----

  /** Meeting the peer keeps the authorization, and a peer it finds is admitted. */
  lemma MeetAdmits(s: Relay, p: PairId, role: Role, digest: Hash, now: int)
    requires Linked(s) && Authorized(s, p, role, digest, now)
    ensures var met := Meet(s, p, role, now);
      && Authorized(met.relay, p, role, digest, now)
      && (met.peer.Some? ==> Listens(met.relay, met.peer.value, p, Opposite(role), now))
  {
    MeetShrinks(s, p, role, now);
  }

  /** A peer is found exactly when the role's own column is empty and an admitted socket of the other role is open. */
  lemma MeetFinds(s: Relay, p: PairId, role: Role, now: int)
    requires Linked(s) && p in s.rows
    ensures Meet(s, p, role, now).peer.Some? <==>
      SocketOf(s.rows[p], role).None? && exists k: Handle :: Listens(s, k, p, Opposite(role), now)
  {
    assert RowOk(s, p, s.rows[p]);
    var met := Meet(s, p, role, now);
    if met.peer.Some? {
      assert SocketOk(s, s.sockets[met.peer.value]);
      MeetShrinks(s, p, role, now);
      assert Listens(s, met.peer.value, p, Opposite(role), now);
    }
    forall k: Handle | Listens(s, k, p, Opposite(role), now)
      ensures Find(s.sockets, p, SocketOf(s.rows[p], Opposite(role))) == Some(k)
    {
      FoundIs(s, k, p, Opposite(role), now);
    }
  }

  /** The socket is admitted; the only other open socket its pair can have is one of the other role, admitted too; and
      the two are paired in a generation exactly when it has. */
  ghost predicate Entered(t: Relay, h: Handle, p: PairId, role: Role, now: int) {
    && Listens(t, h, p, role, now)
    && (t.rows[p].generation.Some? <==> exists k: Handle :: Listens(t, k, p, Opposite(role), now))
    && forall k: Handle :: k in t.sockets && k != h && t.sockets[k].open && t.sockets[k].tag == p ==>
         Listens(t, k, p, Opposite(role), now)
  }

  /** A session that has carried nothing yet and ends within a day. */
  predicate Unused(k: Socket, now: int) {
    && k.attachment.Some? && k.attachment.value.bytes == 0 && k.attachment.value.messages == 0
    && k.attachment.value.deadline <= now + 24 * 60 * 60 * 1000
  }

  lemma LinkEntered(
      s: Relay, p: PairId, role: Role, digest: Hash, now: int, h: Handle, id: Id, g: Id, peer: Option<Handle>)
    requires Linked(s) && Met(p, role, Meeting(s, peer)) && h !in s.sockets && Authorized(s, p, role, digest, now)
    requires peer.Some? ==> Listens(s, peer.value, p, Opposite(role), now)
    ensures Entered(Link(s, p, role, digest, now, h, id, g, peer), h, p, role, now)
    ensures Link(s, p, role, digest, now, h, id, g, peer).rows[p].generation.Some? <==> peer.Some?
    ensures h in Link(s, p, role, digest, now, h, id, g, peer).sockets
    ensures Unused(Link(s, p, role, digest, now, h, id, g, peer).sockets[h], now)
  {
    var t := Link(s, p, role, digest, now, h, id, g, peer);
    forall k: Handle | k in t.sockets && k != h && t.sockets[k].open && t.sockets[k].tag == p
      ensures peer == Some(k) && Listens(t, k, p, Opposite(role), now)
    {
      assert OpenOk(s, s.sockets[k]);
      if peer.Some? {
        assert SameId(s.sockets[peer.value], s.sockets[k]);
      }
    }
    if peer.Some? {
      assert Listens(t, peer.value, p, Opposite(role), now);
    }
  }

  lemma ScheduleEntered(t: Relay, clock: int, h: Handle, p: PairId, role: Role, now: int)
    requires Entered(t, h, p, role, now)
    ensures Entered(Schedule(t, clock), h, p, role, now)
  {
    var u := Schedule(t, clock);
    forall k: Handle
      ensures Listens(u, k, p, Opposite(role), now) <==> Listens(t, k, p, Opposite(role), now)
    {
    }
  }

  lemma JoinAnswers(
      s: Relay, p: PairId, role: Role, digest: Hash, now: int, h: Handle, id: Id, g: Id, clock: int, fault: JoinFault)
    requires Linked(s)
    ensures Join(s, p, role, digest, now, h, id, g, clock, fault).answer == Joined <==>
      Authorized(s, p, role, digest, now) && |s.sockets| < MAX_SOCKETS && fault == NoJoinFault
  {
    if Authorized(s, p, role, digest, now) {
      MeetShrinks(s, p, role, now);
      assert |Meet(s, p, role, now).relay.sockets.Keys| == |s.sockets.Keys|;
    }
  }

  /** A join goes through exactly when it is authorized, a socket is free and nothing fails.  Then the socket is
      admitted, unused and good for a day at most, any socket the role had is closed, and an open socket of the other
      role is the peer it is paired with; and it is paired exactly when its role had no socket and an admitted one of
      the other role was open. */
  lemma JoinedExactly(
      s: Relay, p: PairId, role: Role, digest: Hash, now: int, h: Handle, id: Id, g: Id, clock: int, fault: JoinFault)
    requires Linked(s) && h !in s.sockets
    ensures var r := Join(s, p, role, digest, now, h, id, g, clock, fault);
      && (r.answer == Joined <==>
            Authorized(s, p, role, digest, now) && |s.sockets| < MAX_SOCKETS && fault == NoJoinFault)
      && (r.answer == Joined ==>
            && Entered(r.next, h, p, role, now) && Unused(r.next.sockets[h], now)
            && (r.next.rows[p].generation.Some? <==>
                  SocketOf(s.rows[p], role).None? && exists k: Handle :: Listens(s, k, p, Opposite(role), now)))
  {
    JoinAnswers(s, p, role, digest, now, h, id, g, clock, fault);
    if Join(s, p, role, digest, now, h, id, g, clock, fault).answer == Joined {
      var met := Meet(s, p, role, now);
      MeetShrinks(s, p, role, now);
      MeetAdmits(s, p, role, digest, now);
      MeetFinds(s, p, role, now);
      ShrinkLinked(s, met.relay);
      LinkEntered(met.relay, p, role, digest, now, h, id, g, met.peer);
      ScheduleEntered(Link(met.relay, p, role, digest, now, h, id, g, met.peer), clock, h, p, role, now);
    }
  }

  // ----- Provisioning -----

  function Unexpired(s: Relay, now: int): set<PairId> {
    set p | p in s.rows && s.rows[p].expiresAt > now
  }

  /** A purge leaves exactly the unexpired pairs, each as it was. */
  lemma PurgeLeaves(s: Relay, now: int)
    ensures Purge(s, now).rows.Keys == Unexpired(s, now) && |Purge(s, now).rows| == |Unexpired(s, now)|
    ensures forall q :: q in Unexpired(s, now) ==> Purge(s, now).rows[q] == s.rows[q]
    ensures Purge(s, now).provision == s.provision
  {
    var t := Purge(s, now);
    assert t.rows.Keys == Unexpired(s, now);
    assert |t.rows| == |t.rows.Keys|;
  }

  lemma RefusedExactly(s: Relay, p: PairId, createdAt: int, d: Hash, ph: Hash, clock: int)
    ensures var answer := Provision(s, p, createdAt, d, ph, clock).answer;
      var room := |Unexpired(s, createdAt)| < MAX_PAIRS;
      && (answer == PairLimit <==> !room)
      && (answer == Created <==>
        room && (BudgetResets(s.provision, createdAt) || s.provision.value.count < MAX_PROVISIONS))
  {
    var t := s.(initialized := true);
    PurgeLeaves(t, createdAt);
    assert Unexpired(t, createdAt) == Unexpired(s, createdAt);
  }

  /** The new pair is full and unjoined, and the others are as they were. */
  predicate CreatedBeside(t: Relay, s: Relay, p: PairId, createdAt: int, d: Hash, ph: Hash) {
    && t.rows.Keys == Unexpired(s, createdAt) + {p}
    && (forall q :: q in Unexpired(s, createdAt) && q != p ==> q in t.rows && t.rows[q] == s.rows[q])
    && t.rows[p] == Row(
         createdAt, createdAt + PAIR_TTL_MS, None, NewSide(d, createdAt + PAIR_TTL_MS),
           NewSide(ph, createdAt + PAIR_TTL_MS))
  }

  lemma InsertedBeside(s: Relay, t: Relay, p: PairId, createdAt: int, d: Hash, ph: Hash, clock: int)
    requires t.rows.Keys == Unexpired(s, createdAt)
    requires forall q :: q in Unexpired(s, createdAt) ==> t.rows[q] == s.rows[q]
    ensures CreatedBeside(Schedule(Inserted(t, p, createdAt, d, ph), clock), s, p, createdAt, d, ph)
  {
  }

  /** A pair is created exactly when fewer than ten are unexpired and the hour's budget of twenty is not used up; then
      exactly the unexpired pairs and the new one are left. */
  lemma ProvisionedExactly(s: Relay, p: PairId, createdAt: int, d: Hash, ph: Hash, clock: int)
    ensures var r := Provision(s, p, createdAt, d, ph, clock);
      var room := |Unexpired(s, createdAt)| < MAX_PAIRS;
      && (r.answer == PairLimit <==> !room)
      && (r.answer == Created <==>
        room && (BudgetResets(s.provision, createdAt) || s.provision.value.count < MAX_PROVISIONS))
      && (r.answer == Created ==> CreatedBeside(r.next, s, p, createdAt, d, ph))
  {
    var t := s.(initialized := true);
    RefusedExactly(s, p, createdAt, d, ph, clock);
    PurgeLeaves(t, createdAt);
    assert Unexpired(t, createdAt) == Unexpired(s, createdAt);
    InsertedBeside(s, Purge(t, createdAt), p, createdAt, d, ph, clock);
  }

  /** A refused request rolls back every row, the budget and the alarm, and closes every socket of the expired pairs. */
  lemma RefusalRollsBack(s: Relay, p: PairId, createdAt: int, d: Hash, ph: Hash, clock: int)
    requires Provision(s, p, createdAt, d, ph, clock).answer != Created
    ensures Provision(s, p, createdAt, d, ph, clock).next
         == s.(initialized := true, sockets := CloseTags(s.sockets, ExpiredPairs(s, createdAt)))
  {
    assert ExpiredPairs(s.(initialized := true), createdAt) == ExpiredPairs(s, createdAt);
  }

  /** So it changes nothing exactly when no expired pair has an open socket. */
  lemma RefusalSilent(s: Relay, p: PairId, createdAt: int, d: Hash, ph: Hash, clock: int)
    requires Provision(s, p, createdAt, d, ph, clock).answer != Created
    ensures Provision(s, p, createdAt, d, ph, clock).next == s.(initialized := true) <==>
      forall h :: h in s.sockets && s.sockets[h].open ==> s.sockets[h].tag !in ExpiredPairs(s, createdAt)
  {
    RefusalRollsBack(s, p, createdAt, d, ph, clock);
    var closed := CloseTags(s.sockets, ExpiredPairs(s, createdAt));
    if closed == s.sockets {
      forall h | h in s.sockets && s.sockets[h].open
        ensures s.sockets[h].tag !in ExpiredPairs(s, createdAt)
      {
        assert closed[h] == s.sockets[h];
      }
    }
  }

  /** One pair that expires at 100, joined by its desktop, in an hour whose budget is used up. */
  const EXPIRING: Relay :=
    Relay(
      true,
      map[1 := Row(0, 100, None, Side(7, Some(2), 100, 1, BURST, 0), Side(8, None, 100, 1, BURST, 0))],
      map[3 := Socket(1, true, Some(Attachment(1, Desktop, 2, None, None, 1, 7, 100, 0, 0)))],
      Some(Budget(0, MAX_PROVISIONS)), Some(100), {2, 4}, {1}, [], map[], 50)

  /** It does happen: the socket is closed, and the row that names it is back. */
  lemma RefusalCloses(p: PairId, d: Hash, ph: Hash, clock: int)
    ensures Linked(EXPIRING)
    ensures var r := Provision(EXPIRING, p, 101, d, ph, clock);
      && r.answer == ProvisionLimit
      && r.next.rows == EXPIRING.rows && SocketOf(EXPIRING.rows[1], Desktop) == Some(2)
      && EXPIRING.sockets[3].open && 3 in r.next.sockets && !r.next.sockets[3].open
  {
    RefusedExactly(EXPIRING, p, 101, d, ph, clock);
    assert Unexpired(EXPIRING, 101) == {};
    RefusalRollsBack(EXPIRING, p, 101, d, ph, clock);
  }

  // ----- The alarm -----

  /** The alarm is set exactly when there is a deadline: after the clock, no later than any deadline still ahead, and on
      one of them unless one has passed. */
  lemma ScheduledExactly(s: Relay, clock: int)
    ensures var alarm := Schedule(s, clock).alarm;
      && (alarm.Some? <==> Deadlines(s) != {})
      && (alarm.Some? ==>
            && alarm.value > clock
            && (forall d :: d in Deadlines(s) && d > clock ==> alarm.value <= d)
            && (alarm.value in Deadlines(s)
                || (alarm.value == clock + 1 && exists d :: d in Deadlines(s) && d <= clock)))
  {
  }
}
