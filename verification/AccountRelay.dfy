/** The Durable Object relay (relay-worker/src/account.ts).  Each handler is one atomic step over the pair rows,
    the socket attachments, the provision budget and the alarm; ids the source draws at random are parameters. */
module AccountRelay {
  import opened Wrappers
  import opened Bytes
  import opened Minimum

  const PAIR_TTL_MS: int := 30 * 86_400_000
  const MAX_FRAME_BYTES: nat := 65535
  const MAX_SESSION_BYTES: nat := 1024 * 1024 * 1024
  const MAX_SESSION_MESSAGES: nat := 1_000_000
  const SESSION_MS: int := 24 * 60 * 60 * 1000
  const BURST: int := 60000
  const COST: int := 600
  const MAX_PAIRS: nat := 10
  const MAX_SOCKETS: nat := 20
  const MAX_PROVISIONS: nat := 20
  const PROVISION_WINDOW_MS: int := 3600000

  type Id = nat
  type PairId = nat
  type Handle = nat
  type Hash = nat

  datatype Role = Desktop | Phone

  function Opposite(role: Role): Role {
    if role == Desktop then Phone else Desktop
  }

  /** One role's columns of a pair row. */
  datatype Side = Side(
    hash: Hash, socket: Option<Id>, expiresAt: int, capGeneration: int, credits: int, budgetAt: int)

  datatype Row = Row(createdAt: int, expiresAt: int, generation: Option<Id>, desktop: Side, phone: Side)

  function SideOf(row: Row, role: Role): Side {
    if role == Desktop then row.desktop else row.phone
  }

  function WithSide(row: Row, role: Role, side: Side): Row {
    if role == Desktop then row.(desktop := side) else row.(phone := side)
  }

  datatype Attachment = Attachment(
    pairId: PairId, role: Role, id: Id, peer: Option<Id>, generation: Option<Id>,
    capGeneration: int, capHash: Hash, deadline: int, bytes: nat, messages: nat)

  /** A hibernatable socket: its tag, whether it is still OPEN, and its serialized attachment. */
  datatype Socket = Socket(tag: PairId, open: bool, attachment: Option<Attachment>)

  datatype Frame = Text | Binary(payload: seq<byte>)

  datatype Budget = Budget(start: int, count: nat)

  /** One frame handed to webSocketMessage by a socket of some generation, whether it went on to the peer, and which of
      its role's tokens it then took. */
  datatype Entry = Entry(
    pairId: PairId, generation: Option<Id>, role: Role, sender: Id, receiver: Option<Id>, frame: Frame, forwarded: bool,
    token: nat)

  /** One token taken: the budget clock and the credits stored. */
  datatype Spend = Spend(at: int, credits: int)

  datatype Relay = Relay(
    initialized: bool,
    rows: map<PairId, Row>,
    sockets: map<Handle, Socket>,
    provision: Option<Budget>,
    alarm: Option<int>,
    // History: every id drawn, every pair provisioned, the frames seen, the tokens spent, and the last clock
    // the alarm was computed with.
    drawn: set<Id>,
    provisioned: set<PairId>,
    log: seq<Entry>,
    spends: map<(PairId, Role), seq<Spend>>,
    scheduledAt: int)

  const EMPTY := Relay(false, map[], map[], None, None, {}, {}, [], map[], 0)

  // ----- Helpers of the source -----

  predicate Valid(p: PairId, row: Row, a: Attachment, now: int) {
    && p == a.pairId && row.expiresAt > now && SideOf(row, a.role).expiresAt > now
    && SideOf(row, a.role).capGeneration == a.capGeneration && a.capGeneration > 0
    && SideOf(row, a.role).hash == a.capHash && SideOf(row, a.role).socket == Some(a.id) && a.deadline > now
  }

  predicate IsOpenAs(sockets: map<Handle, Socket>, h: Handle, p: PairId, id: Id) {
    && h in sockets && sockets[h].open && sockets[h].tag == p
    && sockets[h].attachment.Some? && sockets[h].attachment.value.id == id
  }

  /** The open socket of a pair that carries an id. */
  ghost function Find(sockets: map<Handle, Socket>, p: PairId, id: Option<Id>): (h: Option<Handle>)
    ensures h.Some? ==> id.Some? && IsOpenAs(sockets, h.value, p, id.value)
    ensures h.None? && id.Some? ==> forall k :: !IsOpenAs(sockets, k, p, id.value)
  {
    if id.Some? && exists k :: IsOpenAs(sockets, k, p, id.value) then
      var k :| IsOpenAs(sockets, k, p, id.value);
      Some(k)
    else None
  }

  function Cleared(row: Row): Row {
    row.(generation := None, desktop := row.desktop.(socket := None), phone := row.phone.(socket := None))
  }

  /** The sockets after closing every one of the given pairs. */
  function CloseTags(sockets: map<Handle, Socket>, pairs: set<PairId>): (r: map<Handle, Socket>)
    ensures r.Keys == sockets.Keys
  {
    map h | h in sockets :: if sockets[h].tag in pairs then sockets[h].(open := false) else sockets[h]
  }

  function ClearRows(rows: map<PairId, Row>, pairs: set<PairId>): (r: map<PairId, Row>)
    ensures r.Keys == rows.Keys
  {
    map p | p in rows :: if p in pairs then Cleared(rows[p]) else rows[p]
  }

  /** Fences pairs: both socket columns and the generation are cleared, and every socket of the pairs closes. */
  function Retire(s: Relay, pairs: set<PairId>): Relay {
    s.(rows := ClearRows(s.rows, pairs), sockets := CloseTags(s.sockets, pairs))
  }

  function Close(s: Relay, h: Handle): Relay {
    if h in s.sockets then s.(sockets := s.sockets[h := s.sockets[h].(open := false)]) else s
  }

  function ExpiredPairs(s: Relay, now: int): set<PairId> {
    set p | p in s.rows && s.rows[p].expiresAt <= now
  }

  function Purge(s: Relay, now: int): Relay {
    var gone := ExpiredPairs(s, now);
    var retired := Retire(s, gone);
    retired.(rows := retired.rows - gone)
  }

  function Deadlines(s: Relay): set<int> {
    (set p | p in s.rows :: s.rows[p].expiresAt)
    + (set h | h in s.sockets && s.sockets[h].open && s.sockets[h].attachment.Some? ::
      s.sockets[h].attachment.value.deadline)
  }

  /** Sets the alarm for the earliest deadline, never in the past, or clears it. */
  ghost function Schedule(s: Relay, clock: int): Relay {
    var deadlines := Deadlines(s);
    s.(alarm := if deadlines == {} then None else Some(Max(clock + 1, Least(deadlines))), scheduledAt := clock)
  }

  // ----- Handlers -----

  datatype Answer =
    | Created | NoContent | NotFound | PairLimit | ProvisionLimit
    | Unauthorized | SocketLimit | Joined | JoinFailed

  datatype Outcome = Outcome(next: Relay, answer: Answer)

  function NewSide(hash: Hash, expiresAt: int): Side {
    Side(hash, None, expiresAt, 1, BURST, 0)
  }

  predicate BudgetResets(provision: Option<Budget>, now: int) {
    provision.None? || now >= provision.value.start + PROVISION_WINDOW_MS
  }

  /** Why a purged relay provisions no further pair. */
  function Refused(s: Relay, now: int): Option<Answer> {
    if |s.rows| >= MAX_PAIRS then Some(PairLimit)
    else if !BudgetResets(s.provision, now) && s.provision.value.count >= MAX_PROVISIONS then Some(ProvisionLimit)
    else None
  }

  /** A new pair nobody has joined, paid for by the provision budget. */
  function Inserted(s: Relay, p: PairId, createdAt: int, desktopHash: Hash, phoneHash: Hash): Relay {
    var expiresAt := createdAt + PAIR_TTL_MS;
    s.(
      provision := Some(if BudgetResets(s.provision, createdAt) then Budget(createdAt, 1)
                        else Budget(s.provision.value.start, s.provision.value.count + 1)),
      rows := s.rows[p := Row(createdAt, expiresAt, None, NewSide(desktopHash, expiresAt),
        NewSide(phoneHash, expiresAt))],
      provisioned := s.provisioned + {p})
  }

  /** manage POST: a refused request rolls the rows back, but sockets the purge closed stay closed. */
  ghost function Provision(
      s: Relay, p: PairId, createdAt: int, desktopHash: Hash, phoneHash: Hash, clock: int): Outcome {
    var t := s.(initialized := true);
    var purged := Purge(t, createdAt);
    match Refused(purged, createdAt)
    case Some(answer) => Outcome(t.(sockets := purged.sockets), answer)
    case None => Outcome(Schedule(Inserted(purged, p, createdAt, desktopHash, phoneHash), clock), Created)
  }

  /** manage DELETE. */
  ghost function Revoke(s: Relay, p: PairId, clock: int): Outcome {
    if !s.initialized then Outcome(s, NotFound)
    else
      var retired := Retire(s, {p});
      Outcome(Schedule(retired.(rows := retired.rows - {p}), clock), if p in s.rows then NoContent else NotFound)
  }

  /** Where a storage or send failure may strike a join: before the attachment, at the row update, or after it. */
  datatype JoinFault = NoJoinFault | BeforeLink | AtRow | AfterLink

  /** Where the joining end finds its peer, after fencing the pair if anything about it is stale. */
  datatype Meeting = Meeting(relay: Relay, peer: Option<Handle>)

  ghost function Meet(s: Relay, p: PairId, role: Role, now: int): Meeting
    requires p in s.rows
  {
    var row := s.rows[p];
    var other := SideOf(row, Opposite(role)).socket;
    var peer := Find(s.sockets, p, other);
    if SideOf(row, role).socket.Some? || row.generation.Some?
       || (other.Some? && (peer.None? || !Valid(p, row, s.sockets[peer.value].attachment.value, now)))
    then Meeting(Retire(s, {p}), None)
    else Meeting(s, peer)
  }

  /** The attachment of a socket that joins: its row's capability, and its peer and their generation if it has one. */
  function NewAttachment(
      s: Relay, p: PairId, role: Role, digest: Hash, now: int, id: Id, generation: Id, peer: Option<Handle>): Attachment
    requires p in s.rows
    requires peer.Some? ==> peer.value in s.sockets && s.sockets[peer.value].attachment.Some?
  {
    var row := s.rows[p];
    var side := SideOf(row, role);
    var deadline := Min(Min(row.expiresAt, side.expiresAt), now + SESSION_MS);
    var peerId := if peer.Some? then Some(s.sockets[peer.value].attachment.value.id) else None;
    Attachment(
      p, role, id, peerId, if peer.Some? then Some(generation) else None, side.capGeneration, digest, deadline, 0, 0)
  }

  /** Accepts the joining socket, names it in its row, and tells its peer. */
  function Attach(s: Relay, h: Handle, a: Attachment, generation: Id, peer: Option<Handle>): Relay
    requires a.pairId in s.rows
    requires peer.Some? ==> peer.value in s.sockets && s.sockets[peer.value].attachment.Some?
  {
    var row := s.rows[a.pairId];
    var sockets := s.sockets[h := Socket(a.pairId, true, Some(a))];
    s.(
      rows := s.rows[a.pairId :=
        WithSide(row, a.role, SideOf(row, a.role).(socket := Some(a.id))).(generation := a.generation)],
      sockets := if peer.None? then sockets
                 else
                   var b := s.sockets[peer.value].attachment.value.(peer := Some(a.id), generation := a.generation);
                   sockets[peer.value := s.sockets[peer.value].(attachment := Some(b))],
      drawn := s.drawn + {a.id, generation})
  }

  /** Links the joining end with its peer, if it has one, under a fresh generation. */
  function Link(
      s: Relay, p: PairId, role: Role, digest: Hash, now: int, h: Handle, id: Id, generation: Id,
      peer: Option<Handle>): Relay
    requires p in s.rows
    requires peer.Some? ==> peer.value in s.sockets && s.sockets[peer.value].attachment.Some?
  {
    Attach(s, h, NewAttachment(s, p, role, digest, now, id, generation, peer), generation, peer)
  }

  /** A join whose row update fails: the pair is fenced, and the socket it attached is closed with it. */
  function Abandon(s: Relay, p: PairId, h: Handle, a: Attachment, generation: Id): Relay {
    var t := Retire(s, {p});
    t.(sockets := t.sockets[h := Socket(p, false, Some(a))], drawn := t.drawn + {a.id, generation})
  }

  predicate Authorized(s: Relay, p: PairId, role: Role, digest: Hash, now: int) {
    && p in s.rows && s.rows[p].expiresAt > now
    && SideOf(s.rows[p], role).expiresAt > now && SideOf(s.rows[p], role).capGeneration >= 1
    && SideOf(s.rows[p], role).hash == digest
  }

  /** What fetch does once the pair is fenced or its peer is known. */
  ghost function Enter(
      met: Meeting, p: PairId, role: Role, digest: Hash, now: int, h: Handle, id: Id, generation: Id, clock: int,
      fault: JoinFault)
    : Outcome
    requires p in met.relay.rows
    requires met.peer.Some? ==>
      met.peer.value in met.relay.sockets && met.relay.sockets[met.peer.value].attachment.Some?
  {
    if |met.relay.sockets| >= MAX_SOCKETS then Outcome(met.relay, SocketLimit)
    else
      var linked := Link(met.relay, p, role, digest, now, h, id, generation, met.peer);
      match fault
      case BeforeLink => Outcome(met.relay.(sockets := met.relay.sockets[h := Socket(p, false, None)]), JoinFailed)
      case AtRow =>
        var a := NewAttachment(met.relay, p, role, digest, now, id, generation, met.peer);
        Outcome(Abandon(met.relay, p, h, a, generation), JoinFailed)
      case AfterLink => Outcome(Retire(linked, {p}), JoinFailed)
      case NoJoinFault => Outcome(Schedule(linked, clock), Joined)
  }

  /** fetch, from the read that follows the asynchronous hash. */
  ghost function Join(
      s: Relay, p: PairId, role: Role, digest: Hash, now: int, h: Handle, id: Id, generation: Id, clock: int,
      fault: JoinFault)
    : Outcome
  {
    if Authorized(s, p, role, digest, now) then
      Enter(Meet(s, p, role, now), p, role, digest, now, h, id, generation, clock, fault)
    else Outcome(s, Unauthorized)
  }

  /** Where a failure may strike a forward: at the token update, at the attachment, or at the send itself. */
  datatype SendFault = NoSendFault | AtUpdate | AtCount | AtSend

  function CloseAll(s: Relay): Relay {
    s.(sockets := map h | h in s.sockets :: s.sockets[h].(open := false))
  }

  function SpendsOf(s: Relay, p: PairId, role: Role): seq<Spend> {
    if (p, role) in s.spends then s.spends[(p, role)] else []
  }

  /** The credits a role holds at the budget clock. */
  function Refilled(side: Side, at: int): int {
    Min(BURST, side.credits + at - side.budgetAt)
  }

  /** Why a frame is not forwarded, or the peer that receives it. */
  datatype Verdict = Ignored | Retired | Forward(peer: Handle)

  ghost function Judge(s: Relay, h: Handle, frame: Frame, now: int): Verdict
    requires h in s.sockets && s.sockets[h].attachment.Some?
  {
    var a := s.sockets[h].attachment.value;
    if !s.sockets[h].open || a.pairId !in s.rows || SideOf(s.rows[a.pairId], a.role).socket != Some(a.id) then Ignored
    else
      var row := s.rows[a.pairId];
      var side := SideOf(row, a.role);
      var other := SideOf(row, Opposite(a.role)).socket;
      var peer := Find(s.sockets, a.pairId, other);
      if !Valid(a.pairId, row, a, now) || frame.Text? then Retired
      else if |frame.payload| == 0 || |frame.payload| > MAX_FRAME_BYTES then Retired
      else if row.generation.None? || a.generation != row.generation || a.peer != other || peer.None? then Retired
      else
        var b := s.sockets[peer.value].attachment.value;
        if b.role != Opposite(a.role) || b.peer != Some(a.id) || b.generation != row.generation then Retired
        else if !Valid(a.pairId, row, b, now) then Retired
        else if Refilled(side, Max(now, side.budgetAt)) < COST
          || a.bytes + |frame.payload| > MAX_SESSION_BYTES || a.messages >= MAX_SESSION_MESSAGES then Retired
        else Forward(peer.value)
  }

  /** Takes one token from a role's bucket. */
  function Charge(s: Relay, p: PairId, role: Role, now: int): Relay
    requires p in s.rows
  {
    var side := SideOf(s.rows[p], role);
    var at := Max(now, side.budgetAt);
    var credits := Refilled(side, at) - COST;
    s.(
      rows := s.rows[p := WithSide(s.rows[p], role, side.(credits := credits, budgetAt := at))],
      spends := s.spends[(p, role) := SpendsOf(s, p, role) + [Spend(at, credits)]])
  }

  function Counted(s: Relay, h: Handle, size: nat): Relay
    requires h in s.sockets && s.sockets[h].attachment.Some?
  {
    var a := s.sockets[h].attachment.value;
    s.(sockets := s.sockets[h :=
      s.sockets[h].(attachment := Some(a.(messages := a.messages + 1, bytes := a.bytes + size)))])
  }

  /** Charges, counts and sends a frame, as far as no failure stops it. */
  function Forwarded(s: Relay, h: Handle, frame: Frame, now: int, fault: SendFault, peer: Handle): Relay
    requires h in s.sockets && s.sockets[h].attachment.Some? && s.sockets[h].attachment.value.pairId in s.rows
    requires peer in s.sockets && s.sockets[peer].attachment.Some? && frame.Binary?
  {
    var a := s.sockets[h].attachment.value;
    var entry := Entry(a.pairId, a.generation, a.role, a.id, None, frame, false, 0);
    var charged := Charge(s, a.pairId, a.role, now);
    match fault
    case AtUpdate => CloseAll(s).(log := s.log + [entry])
    case AtCount => CloseAll(charged).(log := s.log + [entry])
    case AtSend => CloseAll(Counted(charged, h, |frame.payload|)).(log := s.log + [entry])
    case NoSendFault =>
      var sent := entry.(
        receiver := Some(s.sockets[peer].attachment.value.id), forwarded := true,
          token := |SpendsOf(s, a.pairId, a.role)|);
      Counted(charged, h, |frame.payload|).(log := s.log + [sent])
  }

  /** webSocketMessage. */
  ghost function Message(s: Relay, h: Handle, frame: Frame, now: int, fault: SendFault): Relay {
    if h !in s.sockets || s.sockets[h].attachment.None? then Close(s, h)
    else
      var a := s.sockets[h].attachment.value;
      var entry := Entry(a.pairId, a.generation, a.role, a.id, None, frame, false, 0);
      match Judge(s, h, frame, now)
      case Ignored => Close(s, h).(log := s.log + [entry])
      case Retired => Retire(s, {a.pairId}).(log := s.log + [entry])
      case Forward(peer) => Forwarded(s, h, frame, now, fault, peer)
  }

  /** webSocketClose and webSocketError. */
  function Closed(s: Relay, h: Handle): Relay {
    if h !in s.sockets || s.sockets[h].attachment.None? then s
    else
      var a := s.sockets[h].attachment.value;
      if a.pairId in s.rows && SideOf(s.rows[a.pairId], a.role).socket == Some(a.id) then Retire(s, {a.pairId}) else s
  }

  /** A socket its row names, though the row no longer admits it. */
  predicate IsLapsed(s: Relay, k: Socket, now: int) {
    && k.attachment.Some? && k.attachment.value.pairId in s.rows
    && SideOf(s.rows[k.attachment.value.pairId], k.attachment.value.role).socket == Some(k.attachment.value.id)
    && !Valid(k.attachment.value.pairId, s.rows[k.attachment.value.pairId], k.attachment.value, now)
  }

  function Lapsed(s: Relay, now: int): set<PairId> {
    set h | h in s.sockets && IsLapsed(s, s.sockets[h], now) :: s.sockets[h].attachment.value.pairId
  }

  function CloseUnattached(sockets: map<Handle, Socket>): map<Handle, Socket> {
    map h | h in sockets :: if sockets[h].attachment.None? then sockets[h].(open := false) else sockets[h]
  }

  /** The relay after the alarm has looked at every socket. */
  function Swept(s: Relay, now: int): Relay {
    Retire(s.(sockets := CloseUnattached(s.sockets)), Lapsed(s, now))
  }

  /** alarm, which the runtime has just cleared. */
  ghost function Alarm(s: Relay, now: int, clock: int): Relay {
    var t := s.(alarm := None);
    if !s.initialized then t else Schedule(Purge(Swept(t, now), now), clock)
  }

  // ----- The environment -----

  /** A connection drops: the socket is no longer OPEN, and its close event is still to come. */
  function Drop(s: Relay, h: Handle): Relay {
    Close(s, h)
  }

  /** The runtime forgets a socket that is no longer OPEN. */
  function Forget(s: Relay, h: Handle): Relay {
    if h in s.sockets && !s.sockets[h].open then s.(sockets := s.sockets - {h}) else s
  }

  datatype Event =
    | Provisioning(newPair: PairId, createdAt: int, desktopHash: Hash, phoneHash: Hash, clock: int)
    | Revoking(pair: PairId, clock: int)
    | Joining(pair: PairId, role: Role, digest: Hash, now: int, handle: Handle, id: Id, newGeneration: Id, clock: int,
      joinFault: JoinFault)
    | Messaging(socket: Handle, frame: Frame, now: int, sendFault: SendFault)
    | Closing(socket: Handle)
    | Waking(now: int, clock: int)
    | Dropping(socket: Handle)
    | Forgetting(socket: Handle)

  ghost function Next(s: Relay, e: Event): Relay {
    match e
    case Provisioning(p, createdAt, d, ph, clock) => Provision(s, p, createdAt, d, ph, clock).next
    case Revoking(p, clock) => Revoke(s, p, clock).next
    case Joining(p, role, digest, now, h, id, g, clock, fault) =>
      Join(s, p, role, digest, now, h, id, g, clock, fault).next
    case Messaging(h, frame, now, fault) => Message(s, h, frame, now, fault)
    case Closing(h) => Closed(s, h)
    case Waking(now, clock) => Alarm(s, now, clock)
    case Dropping(h) => Drop(s, h)
    case Forgetting(h) => Forget(s, h)
  }

  /** Random ids are new, and a socket object is a new one. */
  predicate Fresh(s: Relay, e: Event) {
    match e
    case Provisioning(p, _, _, _, _) => p !in s.provisioned
    case Joining(_, _, _, _, h, id, g, _, _) => h !in s.sockets && id !in s.drawn && g !in s.drawn && id != g
    case _ => true
  }
}
