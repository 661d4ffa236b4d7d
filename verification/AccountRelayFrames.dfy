/** Which frames the relay forwards, and how fast, over every run. */
module AccountRelayFrames {
  import opened Wrappers
  import opened Minimum
  import opened AccountRelay
  import opened AccountRelayLaws

  // ----- The log of frames -----

  predicate SameStream(e: Entry, f: Entry) {
    e.generation.Some? && e.generation == f.generation && e.role == f.role
  }

  /** Frames of one generation pass between the same two sockets of the same pair. */
  predicate SamePeers(e: Entry, f: Entry) {
    e.generation == f.generation ==>
      && e.pairId == f.pairId
      && (e.role == f.role ==> e.sender == f.sender && e.receiver == f.receiver)
      && (e.role != f.role ==> e.receiver == Some(f.sender) && f.receiver == Some(e.sender))
  }

  /** A socket still open in the stream's generation and role. */
  predicate CouldSend(k: Socket, e: Entry) {
    k.open && k.attachment.Some? && e.generation.Some?
    && k.attachment.value.generation == e.generation && k.attachment.value.role == e.role
  }

  predicate Between(p: PairId, row: Row, e: Entry) {
    row.generation.Some? && row.generation == e.generation ==>
      && e.pairId == p
      && SocketOf(row, e.role) == Some(e.sender)
      && SocketOf(row, Opposite(e.role)) == e.receiver
  }

  predicate EntryOk(s: Relay, e: Entry) {
    && (e.generation.Some? ==> e.generation.value in s.drawn)
    && (e.forwarded ==> e.generation.Some? && e.receiver.Some?)
  }

  predicate Ordered(log: seq<Entry>) {
    forall i, j :: 0 <= i < j < |log| && SameStream(log[i], log[j]) && log[j].forwarded ==> log[i].forwarded
  }

  predicate Paired(log: seq<Entry>) {
    forall i, j :: 0 <= i < |log| && 0 <= j < |log| && log[i].forwarded && log[j].forwarded ==>
      SamePeers(log[i], log[j])
  }

  ghost predicate Logged(s: Relay) {
    && (forall i :: 0 <= i < |s.log| ==> EntryOk(s, s.log[i]))
    && Ordered(s.log)
    && Paired(s.log)
    && (forall i, h :: 0 <= i < |s.log| && h in s.sockets && CouldSend(s.sockets[h], s.log[i]) ==> s.log[i].forwarded)
    && (forall i, p :: 0 <= i < |s.log| && p in s.rows && s.log[i].forwarded ==> Between(p, s.rows[p], s.log[i]))
  }

  lemma ShrinkLogged(s: Relay, t: Relay)
    requires Logged(s) && Shrinks(s, t)
    ensures Logged(t)
  {
  }

  lemma NewRowLogged(s: Relay, p: PairId, row: Row, provision: Option<Budget>)
    requires Logged(s) && row.generation.None?
    ensures Logged(s.(rows := s.rows[p := row], provisioned := s.provisioned + {p}, provision := provision))
  {
  }

  lemma LinkLogged(
      s: Relay, p: PairId, role: Role, digest: Hash, now: int, h: Handle, id: Id, g: Id, peer: Option<Handle>)
    requires Logged(s) && Met(p, role, Meeting(s, peer))
    requires g !in s.drawn
    ensures Logged(Link(s, p, role, digest, now, h, id, g, peer))
  {
  }

  /** A frame that is not forwarded leaves no open socket behind that could send in its stream. */
  predicate StreamEnds(s: Relay, e: Entry) {
    forall h :: h in s.sockets ==> !CouldSend(s.sockets[h], e)
  }

  lemma DroppedLogged(s: Relay, e: Entry)
    requires Logged(s) && !e.forwarded && EntryOk(s, e) && StreamEnds(s, e)
    ensures Logged(s.(log := s.log + [e]))
  {
  }

  /** A frame is forwarded from a socket that can send, between the two sockets its live row names. */
  lemma ForwardedLogged(s: Relay, h: Handle, p: PairId, e: Entry)
    requires Logged(s) && e.forwarded && EntryOk(s, e)
    requires h in s.sockets && CouldSend(s.sockets[h], e)
    requires p in s.rows && s.rows[p].generation == e.generation && Between(p, s.rows[p], e)
    requires forall q :: q in s.rows && s.rows[q].generation == e.generation ==> q == p
    ensures Logged(s.(log := s.log + [e]))
  {
  }

  // ----- webSocketMessage -----

  function EntryOf(a: Attachment, frame: Frame): Entry {
    Entry(a.pairId, a.generation, a.role, a.id, None, frame, false, 0)
  }

  /** Under the invariant an ignored frame comes from a socket no longer open, and its stream can send no more. */
  lemma IgnoredEnds(s: Relay, h: Handle, frame: Frame, now: int)
    requires Linked(s) && h in s.sockets && s.sockets[h].attachment.Some?
    requires Judge(s, h, frame, now) == Ignored
    ensures !s.sockets[h].open
    ensures StreamEnds(Close(s, h), EntryOf(s.sockets[h].attachment.value, frame))
  {
    var a := s.sockets[h].attachment.value;
    forall k | k in s.sockets
      ensures !CouldSend(s.sockets[k], EntryOf(a, frame))
    {
      if CouldSend(s.sockets[k], EntryOf(a, frame)) {
        assert OpenOk(s, s.sockets[k]);
        assert GenerationOk(s.sockets[k].tag, s.rows[s.sockets[k].tag], s.sockets[h]);
        assert SameId(s.sockets[k], s.sockets[h]);
      }
    }
  }

  lemma RetiredEnds(s: Relay, h: Handle, frame: Frame)
    requires Linked(s) && h in s.sockets && s.sockets[h].attachment.Some?
    ensures var a := s.sockets[h].attachment.value;
      StreamEnds(Retire(s, {a.pairId}), EntryOf(a, frame))
  {
    var a := s.sockets[h].attachment.value;
    var t := Retire(s, {a.pairId});
    forall k | k in t.sockets
      ensures !CouldSend(t.sockets[k], EntryOf(a, frame))
    {
      if CouldSend(t.sockets[k], EntryOf(a, frame)) {
        assert false;
      }
    }
  }

  predicate SameColumns(r: Row, t: Row) {
    r.generation == t.generation && r.desktop.socket == t.desktop.socket && r.phone.socket == t.phone.socket
  }

  /** Links are about columns, generations and attachments only. */
  lemma SameColumnsLinked(s: Relay, rows: map<PairId, Row>, spends: map<(PairId, Role), seq<Spend>>)
    requires Linked(s) && rows.Keys == s.rows.Keys
    requires forall p :: p in rows ==> SameColumns(rows[p], s.rows[p])
    ensures Linked(s.(rows := rows, spends := spends))
  {
    var t := s.(rows := rows, spends := spends);
    forall p | p in t.rows
      ensures RowOk(t, p, t.rows[p])
    {
      assert RowOk(s, p, s.rows[p]);
    }
    forall h | h in t.sockets
      ensures SocketOk(t, t.sockets[h])
    {
      assert SocketOk(s, s.sockets[h]);
    }
    forall p, h | p in t.rows && h in t.sockets
      ensures GenerationOk(p, t.rows[p], t.sockets[h])
    {
      assert GenerationOk(p, s.rows[p], s.sockets[h]);
    }
  }

  lemma ChargeLinked(s: Relay, p: PairId, role: Role, now: int)
    requires Linked(s) && p in s.rows
    ensures Linked(Charge(s, p, role, now))
  {
    var t := Charge(s, p, role, now);
    SameColumnsLinked(s, t.rows, t.spends);
  }

  lemma CountedLinked(s: Relay, h: Handle, size: nat)
    requires Linked(s) && h in s.sockets && s.sockets[h].attachment.Some?
    ensures Linked(Counted(s, h, size))
  {
  }

  lemma ChargeLogged(s: Relay, p: PairId, role: Role, now: int)
    requires Logged(s) && p in s.rows
    ensures Logged(Charge(s, p, role, now))
  {
  }

  /** Charging a bucket and counting a frame move no column, no generation and no link. */
  lemma ChargeCountLogged(s: Relay, h: Handle, now: int, size: nat)
    requires Logged(s) && h in s.sockets && s.sockets[h].attachment.Some?
    requires s.sockets[h].attachment.value.pairId in s.rows
    ensures var a := s.sockets[h].attachment.value;
      Logged(Counted(Charge(s, a.pairId, a.role, now), h, size))
  {
  }

  lemma LogLinked(s: Relay, log: seq<Entry>)
    requires Linked(s)
    ensures Linked(s.(log := log))
  {
  }

  /** What a verdict to forward means: the sender and its peer are the open sockets the live row names, each the
      other's peer, so the frame goes to the current opposite socket of the same pair. */
  lemma ForwardMeans(s: Relay, h: Handle, frame: Frame, now: int)
    requires Linked(s) && h in s.sockets && s.sockets[h].attachment.Some?
    requires Judge(s, h, frame, now).Forward?
    ensures var a := s.sockets[h].attachment.value;
      var k := Judge(s, h, frame, now).peer;
      && s.sockets[h].open && frame.Binary? && 0 < |frame.payload| <= MAX_FRAME_BYTES
      && a.pairId in s.rows && s.rows[a.pairId].generation.Some?
      && a.generation == s.rows[a.pairId].generation
      && SocketOf(s.rows[a.pairId], a.role) == Some(a.id)
      && k in s.sockets && k != h && s.sockets[k].open && s.sockets[k].attachment.Some?
      && s.sockets[k].tag == a.pairId
      && s.sockets[k].attachment.value.role == Opposite(a.role)
      && SocketOf(s.rows[a.pairId], Opposite(a.role)) == Some(s.sockets[k].attachment.value.id)
      && s.sockets[k].attachment.value.generation == a.generation
      && s.sockets[k].attachment.value.peer == Some(a.id)
      && a.peer == Some(s.sockets[k].attachment.value.id)
      && Refilled(SideOf(s.rows[a.pairId], a.role), Max(now, SideOf(s.rows[a.pairId], a.role).budgetAt)) >= COST
  {
  }

  /** However far forwarding gets before a fault, the links hold. */
  lemma ForwardLinked(s: Relay, h: Handle, size: nat, now: int, log: seq<Entry>)
    requires Linked(s) && h in s.sockets && s.sockets[h].attachment.Some?
    requires s.sockets[h].attachment.value.pairId in s.rows
    ensures var a := s.sockets[h].attachment.value;
      var charged := Charge(s, a.pairId, a.role, now);
      var counted := Counted(charged, h, size);
      && Linked(CloseAll(s).(log := log)) && Linked(CloseAll(charged).(log := log))
      && Linked(CloseAll(counted).(log := log)) && Linked(counted.(log := log))
  {
    var a := s.sockets[h].attachment.value;
    var charged := Charge(s, a.pairId, a.role, now);
    var counted := Counted(charged, h, size);
    ChargeLinked(s, a.pairId, a.role, now);
    CountedLinked(charged, h, size);
    CloseShrinks(s, h);
    ShrinkLinked(s, CloseAll(s));
    CloseShrinks(charged, h);
    ShrinkLinked(charged, CloseAll(charged));
    LogLinked(CloseAll(charged), log);
    CloseShrinks(counted, h);
    ShrinkLinked(counted, CloseAll(counted));
    LogLinked(CloseAll(s), log);
    LogLinked(CloseAll(counted), log);
    LogLinked(counted, log);
  }

  lemma MessageLinked(s: Relay, h: Handle, frame: Frame, now: int, fault: SendFault)
    requires Linked(s)
    ensures Linked(Message(s, h, frame, now, fault))
  {
    if h !in s.sockets || s.sockets[h].attachment.None? {
      CloseShrinks(s, h);
      ShrinkLinked(s, Close(s, h));
    } else {
      var a := s.sockets[h].attachment.value;
      var t := Message(s, h, frame, now, fault);
      match Judge(s, h, frame, now) {
        case Ignored =>
          CloseShrinks(s, h);
          ShrinkLinked(s, Close(s, h));
          LogLinked(Close(s, h), t.log);
        case Retired =>
          RetireShrinks(s, {a.pairId});
          ShrinkLinked(s, Retire(s, {a.pairId}));
          LogLinked(Retire(s, {a.pairId}), t.log);
        case Forward(peer) =>
          ForwardMeans(s, h, frame, now);
          ForwardLinked(s, h, |frame.payload|, now, t.log);
      }
    }
  }

  lemma MessageLogged(s: Relay, h: Handle, frame: Frame, now: int, fault: SendFault)
    requires Linked(s) && Logged(s)
    ensures Logged(Message(s, h, frame, now, fault))
  {
    if h !in s.sockets || s.sockets[h].attachment.None? {
      CloseShrinks(s, h);
      ShrinkLogged(s, Close(s, h));
    } else {
      var a := s.sockets[h].attachment.value;
      var entry := EntryOf(a, frame);
      match Judge(s, h, frame, now) {
        case Ignored =>
          IgnoredEnds(s, h, frame, now);
          CloseShrinks(s, h);
          ShrinkLogged(s, Close(s, h));
          DroppedLogged(Close(s, h), entry);
        case Retired =>
          RetiredEnds(s, h, frame);
          RetireShrinks(s, {a.pairId});
          ShrinkLogged(s, Retire(s, {a.pairId}));
          DroppedLogged(Retire(s, {a.pairId}), entry);
        case Forward(peer) => ForwardLogged(s, h, frame, now, fault);
      }
    }
  }

  /** A failure closes every socket, so the frame it lost ends its stream. */
  lemma LostLogged(s: Relay, e: Entry)
    requires Logged(s) && !e.forwarded && EntryOk(s, e)
    ensures Logged(CloseAll(s).(log := s.log + [e]))
  {
    CloseShrinks(s, 0);
    ShrinkLogged(s, CloseAll(s));
    DroppedLogged(CloseAll(s), e);
  }

  lemma ForwardLogged(s: Relay, h: Handle, frame: Frame, now: int, fault: SendFault)
    requires Linked(s) && Logged(s) && h in s.sockets && s.sockets[h].attachment.Some?
    requires Judge(s, h, frame, now).Forward?
    ensures Logged(Message(s, h, frame, now, fault))
  {
    var a := s.sockets[h].attachment.value;
    var entry := EntryOf(a, frame);
    ForwardMeans(s, h, frame, now);
    ChargeLogged(s, a.pairId, a.role, now);
    ChargeCountLogged(s, h, now, |frame.payload|);
    var charged := Charge(s, a.pairId, a.role, now);
    var counted := Counted(charged, h, |frame.payload|);
    match fault {
      case AtUpdate => LostLogged(s, entry);
      case AtCount => LostLogged(charged, entry);
      case AtSend => LostLogged(counted, entry);
      case NoSendFault =>
        var receiver := s.sockets[Judge(s, h, frame, now).peer].attachment.value.id;
        var token := |SpendsOf(s, a.pairId, a.role)|;
        ForwardedLogged(counted, h, a.pairId, entry.(receiver := Some(receiver), forwarded := true, token := token));
    }
  }

  // ----- The token bucket -----

  predicate Spendable(q: seq<Spend>) {
    && (forall i :: 0 <= i < |q| ==> 0 <= q[i].credits <= BURST - COST)
    && (forall i :: 0 < i < |q| ==>
          q[i - 1].at <= q[i].at && q[i].credits <= q[i - 1].credits + (q[i].at - q[i - 1].at) - COST)
  }

  /** The stored columns are those the last token left, or the full bucket no token was taken from. */
  predicate BucketOk(side: Side, q: seq<Spend>) {
    if q == [] then side.credits == BURST
    else side.credits == q[|q| - 1].credits && side.budgetAt == q[|q| - 1].at
  }

  ghost predicate Metered(s: Relay) {
    && (forall key :: key in s.spends ==> key.0 in s.provisioned && Spendable(s.spends[key]))
    && (forall p :: p in s.rows ==> BothBuckets(s, p))
  }

  predicate BothBuckets(s: Relay, p: PairId)
    requires p in s.rows
  {
    BucketOk(s.rows[p].desktop, SpendsOf(s, p, Desktop)) && BucketOk(s.rows[p].phone, SpendsOf(s, p, Phone))
  }

  lemma ShrinkMetered(s: Relay, t: Relay)
    requires Metered(s) && Shrinks(s, t)
    ensures Metered(t)
  {
    forall p | p in t.rows
      ensures BothBuckets(t, p)
    {
      assert BothBuckets(s, p);
    }
  }

  lemma NewRowMetered(s: Relay, p: PairId, row: Row, provision: Option<Budget>)
    requires Metered(s) && p !in s.provisioned
    requires row.desktop.credits == BURST && row.phone.credits == BURST
    ensures Metered(s.(rows := s.rows[p := row], provisioned := s.provisioned + {p}, provision := provision))
  {
    var t := s.(rows := s.rows[p := row], provisioned := s.provisioned + {p}, provision := provision);
    forall q | q in t.rows
      ensures BothBuckets(t, q)
    {
      if q != p {
        assert BothBuckets(s, q);
      }
    }
  }

  lemma LinkMetered(
      s: Relay, p: PairId, role: Role, digest: Hash, now: int, h: Handle, id: Id, g: Id, peer: Option<Handle>)
    requires Metered(s) && Met(p, role, Meeting(s, peer))
    ensures Metered(Link(s, p, role, digest, now, h, id, g, peer))
  {
    var t := Link(s, p, role, digest, now, h, id, g, peer);
    forall q | q in t.rows
      ensures BothBuckets(t, q)
    {
      assert BothBuckets(s, q);
    }
  }

  lemma ExtendSpendable(q: seq<Spend>, side: Side, now: int)
    requires Spendable(q) && BucketOk(side, q)
    requires Refilled(side, Max(now, side.budgetAt)) >= COST
    ensures var at := Max(now, side.budgetAt);
      var credits := Refilled(side, at) - COST;
      && Spendable(q + [Spend(at, credits)])
      && BucketOk(side.(credits := credits, budgetAt := at), q + [Spend(at, credits)])
  {
  }

  lemma ChargeBuckets(s: Relay, p: PairId, role: Role, now: int, q: PairId)
    requires p in s.rows && q in s.rows && BothBuckets(s, q)
    requires BucketOk(SideOf(Charge(s, p, role, now).rows[p], role), SpendsOf(Charge(s, p, role, now), p, role))
    ensures BothBuckets(Charge(s, p, role, now), q)
  {
  }

  lemma ChargeMetered(s: Relay, p: PairId, role: Role, now: int)
    requires Metered(s) && p in s.rows && p in s.provisioned
    requires Refilled(SideOf(s.rows[p], role), Max(now, SideOf(s.rows[p], role).budgetAt)) >= COST
    ensures Metered(Charge(s, p, role, now))
  {
    var t := Charge(s, p, role, now);
    assert BothBuckets(s, p);
    ExtendSpendable(SpendsOf(s, p, role), SideOf(s.rows[p], role), now);
    forall q | q in t.rows
      ensures BothBuckets(t, q)
    {
      assert BothBuckets(s, q);
      ChargeBuckets(s, p, role, now, q);
    }
  }

  lemma ForwardMetered(s: Relay, h: Handle, frame: Frame, now: int, fault: SendFault)
    requires Linked(s) && Metered(s)
    requires h in s.sockets && s.sockets[h].attachment.Some? && Judge(s, h, frame, now).Forward?
    ensures Metered(Message(s, h, frame, now, fault))
  {
    var a := s.sockets[h].attachment.value;
    var t := Message(s, h, frame, now, fault);
    ForwardMeans(s, h, frame, now);
    assert RowOk(s, a.pairId, s.rows[a.pairId]);
    if fault == AtUpdate {
      MeteredIgnoresSockets(s, t);
    } else {
      ChargeMetered(s, a.pairId, a.role, now);
      MeteredIgnoresSockets(Charge(s, a.pairId, a.role, now), t);
    }
  }

  lemma DroppedMetered(s: Relay, h: Handle, p: PairId, log: seq<Entry>)
    requires Metered(s)
    ensures Metered(Close(s, h)) && Metered(Close(s, h).(log := log)) && Metered(Retire(s, {p}).(log := log))
  {
    CloseShrinks(s, h);
    ShrinkMetered(s, Close(s, h));
    MeteredIgnoresSockets(Close(s, h), Close(s, h).(log := log));
    RetireShrinks(s, {p});
    ShrinkMetered(s, Retire(s, {p}));
    MeteredIgnoresSockets(Retire(s, {p}), Retire(s, {p}).(log := log));
  }

  lemma MessageMetered(s: Relay, h: Handle, frame: Frame, now: int, fault: SendFault)
    requires Linked(s) && Metered(s)
    ensures Metered(Message(s, h, frame, now, fault))
  {
    var log := Message(s, h, frame, now, fault).log;
    if h in s.sockets && s.sockets[h].attachment.Some? {
      if Judge(s, h, frame, now).Forward? {
        ForwardMetered(s, h, frame, now, fault);
      } else {
        DroppedMetered(s, h, s.sockets[h].attachment.value.pairId, log);
      }
    } else {
      DroppedMetered(s, h, 0, log);
    }
  }

  lemma MeteredIgnoresSockets(s: Relay, t: Relay)
    ensures Metered(s) && t.rows == s.rows && t.spends == s.spends && t.provisioned == s.provisioned ==> Metered(t)
  {
    if Metered(s) && t.rows == s.rows && t.spends == s.spends && t.provisioned == s.provisioned {
      forall p | p in t.rows
        ensures BothBuckets(t, p)
      {
        assert BothBuckets(s, p);
      }
    }
  }

  /** Any run of tokens i..j one role takes, across reconnects and a clock that steps back, is paid for by one full
      bucket and the budget clock in between. */
  lemma {:induction false} WindowBound(q: seq<Spend>, i: nat, j: nat)
    requires Spendable(q) && i <= j < |q|
    ensures q[i].at <= q[j].at
    ensures q[j].credits <= q[i].credits + (q[j].at - q[i].at) - COST * (j - i)
    ensures COST * (j - i + 1) <= BURST + (q[j].at - q[i].at)
    decreases j - i
  {
    if i < j {
      WindowBound(q, i, j - 1);
    }
  }

  // ----- What the log means -----

  /** The frames the current sender of a generation and role has handed in, in order. */
  function Submitted(log: seq<Entry>, generation: Id, role: Role): seq<Frame> {
    if log == [] then []
    else
      var e := log[|log| - 1];
      Submitted(log[..|log| - 1], generation, role)
      + if e.generation == Some(generation) && e.role == role then [e.frame] else []
  }

  /** Those of them the opposite socket has received, in order. */
  function Delivered(log: seq<Entry>, generation: Id, role: Role): seq<Frame> {
    if log == [] then []
    else
      var e := log[|log| - 1];
      Delivered(log[..|log| - 1], generation, role)
      + if e.generation == Some(generation) && e.role == role && e.forwarded then [e.frame] else []
  }

  predicate InStream(e: Entry, generation: Id, role: Role) {
    e.generation == Some(generation) && e.role == role
  }

  lemma {:induction false} DeliveredAll(log: seq<Entry>, generation: Id, role: Role)
    requires forall i :: 0 <= i < |log| && InStream(log[i], generation, role) ==> log[i].forwarded
    ensures Delivered(log, generation, role) == Submitted(log, generation, role)
  {
    if log != [] {
      DeliveredAll(log[..|log| - 1], generation, role);
    }
  }

  /** The frames delivered in a generation and direction are exactly a prefix of those submitted. */
  lemma {:induction false} DeliveredIsPrefix(log: seq<Entry>, generation: Id, role: Role)
    requires Ordered(log)
    ensures Delivered(log, generation, role) <= Submitted(log, generation, role)
  {
    if log != [] {
      var n := |log| - 1;
      DeliveredIsPrefix(log[..n], generation, role);
      if InStream(log[n], generation, role) && log[n].forwarded {
        forall i | 0 <= i < n && InStream(log[..n][i], generation, role)
          ensures log[..n][i].forwarded
        {
          assert SameStream(log[i], log[n]);
        }
        DeliveredAll(log[..n], generation, role);
      }
    }
  }
}
