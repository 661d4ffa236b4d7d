/** What every reachable state of the relay satisfies. */
module AccountRelayLaws {
  import opened Wrappers
  import opened AccountRelay

  // ----- Rows and attachments agree -----

  function SocketOf(row: Row, role: Role): Option<Id> {
    SideOf(row, role).socket
  }

  predicate RowOk(s: Relay, p: PairId, row: Row) {
    && p in s.provisioned
    && (row.generation.Some? <==> row.desktop.socket.Some? && row.phone.socket.Some?)
    && (row.generation.Some? ==> row.generation.value in s.drawn)
    && (row.desktop.socket.Some? ==> row.desktop.socket.value in s.drawn)
    && (row.phone.socket.Some? ==> row.phone.socket.value in s.drawn)
  }

  /** An attachment whose id its row names carries the row's generation and names the other column as its peer. */
  predicate NamedOk(row: Row, a: Attachment) {
    SocketOf(row, a.role) == Some(a.id) ==>
      && a.generation == row.generation
      && a.peer == if row.generation.Some? then SocketOf(row, Opposite(a.role)) else None
  }

  predicate SocketOk(s: Relay, k: Socket) {
    && (k.open ==> OpenOk(s, k))
    && (k.attachment.Some? ==> AttachmentOk(s, k.tag, k.attachment.value))
  }

  /** Every open socket of a pair is the one its row names for its role. */
  predicate OpenOk(s: Relay, k: Socket) {
    && k.attachment.Some? && k.tag in s.rows
    && SocketOf(s.rows[k.tag], k.attachment.value.role) == Some(k.attachment.value.id)
  }

  predicate AttachmentOk(s: Relay, tag: PairId, a: Attachment) {
    && a.pairId == tag
    && a.id in s.drawn
    && (a.generation.Some? ==> a.generation.value in s.drawn)
    && (tag in s.rows ==> NamedOk(s.rows[tag], a))
  }

  /** A live generation belongs to the two sockets its row names and to no other. */
  predicate GenerationOk(p: PairId, row: Row, k: Socket) {
    k.attachment.Some? && row.generation.Some? && k.attachment.value.generation == row.generation ==>
      k.tag == p && SocketOf(row, k.attachment.value.role) == Some(k.attachment.value.id)
  }

  predicate SameGeneration(r: Row, t: Row) {
    r.generation.Some? && r.generation == t.generation
  }

  predicate SameId(k: Socket, l: Socket) {
    k.attachment.Some? && l.attachment.Some? && k.attachment.value.id == l.attachment.value.id
  }

  ghost predicate RowsLinked(s: Relay) {
    && (forall p :: p in s.rows ==> RowOk(s, p, s.rows[p]))
    && (forall p, q :: p in s.rows && q in s.rows && SameGeneration(s.rows[p], s.rows[q]) ==> p == q)
  }

  ghost predicate SocketsLinked(s: Relay) {
    && (forall h :: h in s.sockets ==> SocketOk(s, s.sockets[h]))
    && (forall h, k :: h in s.sockets && k in s.sockets && SameId(s.sockets[h], s.sockets[k]) ==> h == k)
  }

  ghost predicate GenerationsLinked(s: Relay) {
    forall p, h :: p in s.rows && h in s.sockets ==> GenerationOk(p, s.rows[p], s.sockets[h])
  }

  ghost predicate Linked(s: Relay) {
    && RowsLinked(s)
    && SocketsLinked(s)
    && GenerationsLinked(s)
    && (!s.initialized ==> s.rows == map[] && s.provision.None?)
  }

  // ----- Steps that only take things away -----

  predicate SocketShrinks(k: Socket, l: Socket) {
    l.tag == k.tag && l.attachment == k.attachment && (l.open ==> k.open)
  }

  /** Rows go or are cleared, sockets go or close, and a socket still open keeps its row. */
  ghost predicate Shrinks(s: Relay, t: Relay) {
    && t.rows.Keys <= s.rows.Keys
    && t.sockets.Keys <= s.sockets.Keys
    && (forall p :: p in t.rows ==> t.rows[p] == s.rows[p] || t.rows[p] == Cleared(s.rows[p]))
    && (forall h :: h in t.sockets ==> SocketShrinks(s.sockets[h], t.sockets[h]))
    && (forall h :: h in t.sockets && t.sockets[h].open ==> KeepsRow(s, t, t.sockets[h].tag))
    && t.drawn == s.drawn && t.provisioned == s.provisioned && t.log == s.log && t.spends == s.spends
    && t.provision == s.provision && (s.initialized ==> t.initialized)
  }

  predicate KeepsRow(s: Relay, t: Relay, p: PairId) {
    p in s.rows ==> p in t.rows && t.rows[p] == s.rows[p]
  }

  lemma ShrinkLinked(s: Relay, t: Relay)
    requires Linked(s) && Shrinks(s, t) && (t.initialized || t.initialized == s.initialized)
    ensures Linked(t)
  {
  }

  lemma ShrinksTwice(s: Relay, t: Relay, u: Relay)
    requires Shrinks(s, t) && Shrinks(t, u)
    ensures Shrinks(s, u)
  {
  }

  lemma RetireShrinks(s: Relay, pairs: set<PairId>)
    ensures Shrinks(s, Retire(s, pairs))
  {
  }

  lemma CloseShrinks(s: Relay, h: Handle)
    ensures Shrinks(s, Close(s, h)) && Shrinks(s, Forget(s, h)) && Shrinks(s, CloseAll(s))
  {
  }

  /** Retiring pairs and deleting their rows. */
  lemma RemoveShrinks(s: Relay, pairs: set<PairId>)
    ensures Shrinks(s, Retire(s, pairs).(rows := Retire(s, pairs).rows - pairs))
  {
  }

  lemma SweptShrinks(s: Relay, now: int)
    ensures Shrinks(s, Swept(s, now)) && Swept(s, now).initialized == s.initialized
  {
    var u := s.(sockets := CloseUnattached(s.sockets));
    assert Shrinks(s, u);
    RetireShrinks(u, Lapsed(s, now));
    ShrinksTwice(s, u, Retire(u, Lapsed(s, now)));
  }

  lemma AlarmShrinks(s: Relay, now: int, clock: int)
    ensures Shrinks(s, Alarm(s, now, clock))
  {
    if s.initialized {
      var t := s.(alarm := None);
      var v := Swept(t, now);
      SweptShrinks(t, now);
      RemoveShrinks(v, ExpiredPairs(v, now));
      ShrinksTwice(t, v, Purge(v, now));
    }
  }

  /** A refused POST at most closes sockets. */
  lemma RefusalShrinks(s: Relay, p: PairId, createdAt: int, d: Hash, ph: Hash, clock: int)
    requires Provision(s, p, createdAt, d, ph, clock).answer != Created
    ensures Shrinks(s, Provision(s, p, createdAt, d, ph, clock).next)
  {
  }

  // ----- Provisioning -----

  lemma NewRowLinked(s: Relay, p: PairId, row: Row, provision: Option<Budget>)
    requires Linked(s) && s.initialized && p !in s.provisioned
    requires row.generation.None? && row.desktop.socket.None? && row.phone.socket.None?
    ensures Linked(s.(rows := s.rows[p := row], provisioned := s.provisioned + {p}, provision := provision))
  {
  }

  /** Linked says nothing about the alarm. */
  lemma ScheduleLinked(s: Relay, clock: int)
    requires Linked(s)
    ensures Linked(Schedule(s, clock))
  {
  }

  // ----- Joining -----

  /** After meeting, the joining role's column is empty, and so is the generation; a peer found is the other
      column's. */
  predicate Met(p: PairId, role: Role, met: Meeting) {
    && p in met.relay.rows
    && SocketOf(met.relay.rows[p], role).None? && met.relay.rows[p].generation.None?
    && match met.peer
       case None => SocketOf(met.relay.rows[p], Opposite(role)).None?
       case Some(k) =>
         && k in met.relay.sockets && met.relay.sockets[k].open && met.relay.sockets[k].tag == p
         && met.relay.sockets[k].attachment.Some?
         && met.relay.sockets[k].attachment.value.role == Opposite(role)
         && SocketOf(met.relay.rows[p], Opposite(role)) == Some(met.relay.sockets[k].attachment.value.id)
  }

  lemma MeetShrinks(s: Relay, p: PairId, role: Role, now: int)
    requires Linked(s) && p in s.rows
    ensures Shrinks(s, Meet(s, p, role, now).relay)
    ensures Meet(s, p, role, now).relay.sockets.Keys == s.sockets.Keys
    ensures Met(p, role, Meet(s, p, role, now))
  {
    RetireShrinks(s, {p});
  }

  lemma LinkAloneLinked(s: Relay, p: PairId, role: Role, digest: Hash, now: int, h: Handle, id: Id, g: Id)
    requires Linked(s) && Met(p, role, Meeting(s, None))
    requires h !in s.sockets && id !in s.drawn && g !in s.drawn && id != g
    ensures Linked(Link(s, p, role, digest, now, h, id, g, None))
  {
  }

  lemma LinkPairRows(s: Relay, p: PairId, role: Role, digest: Hash, now: int, h: Handle, id: Id, g: Id, k: Handle)
    requires Linked(s) && Met(p, role, Meeting(s, Some(k)))
    requires h !in s.sockets && id !in s.drawn && g !in s.drawn && id != g
    ensures RowsLinked(Link(s, p, role, digest, now, h, id, g, Some(k)))
  {
  }

  lemma LinkPairSockets(s: Relay, p: PairId, role: Role, digest: Hash, now: int, h: Handle, id: Id, g: Id, k: Handle)
    requires Linked(s) && Met(p, role, Meeting(s, Some(k)))
    requires h !in s.sockets && id !in s.drawn && g !in s.drawn && id != g
    ensures var t := Link(s, p, role, digest, now, h, id, g, Some(k));
      forall j :: j in t.sockets ==> SocketOk(t, t.sockets[j])
  {
  }

  lemma LinkPairIds(s: Relay, p: PairId, role: Role, digest: Hash, now: int, h: Handle, id: Id, g: Id, k: Handle)
    requires Linked(s) && Met(p, role, Meeting(s, Some(k)))
    requires h !in s.sockets && id !in s.drawn && g !in s.drawn && id != g
    ensures var t := Link(s, p, role, digest, now, h, id, g, Some(k));
      forall i, j :: i in t.sockets && j in t.sockets && SameId(t.sockets[i], t.sockets[j]) ==> i == j
  {
  }

  lemma LinkPairGenerations(
      s: Relay, p: PairId, role: Role, digest: Hash, now: int, h: Handle, id: Id, g: Id, k: Handle)
    requires Linked(s) && Met(p, role, Meeting(s, Some(k)))
    requires h !in s.sockets && id !in s.drawn && g !in s.drawn && id != g
    ensures GenerationsLinked(Link(s, p, role, digest, now, h, id, g, Some(k)))
  {
  }

  lemma LinkLinked(
      s: Relay, p: PairId, role: Role, digest: Hash, now: int, h: Handle, id: Id, g: Id, peer: Option<Handle>)
    requires Linked(s) && Met(p, role, Meeting(s, peer))
    requires h !in s.sockets && id !in s.drawn && g !in s.drawn && id != g
    ensures Linked(Link(s, p, role, digest, now, h, id, g, peer))
  {
    match peer {
      case None => LinkAloneLinked(s, p, role, digest, now, h, id, g);
      case Some(k) =>
        LinkPairRows(s, p, role, digest, now, h, id, g, k);
        LinkPairSockets(s, p, role, digest, now, h, id, g, k);
        LinkPairIds(s, p, role, digest, now, h, id, g, k);
        LinkPairGenerations(s, p, role, digest, now, h, id, g, k);
    }
  }

  lemma UnlinkedLinked(s: Relay, p: PairId, h: Handle)
    requires Linked(s) && h !in s.sockets
    ensures Linked(s.(sockets := s.sockets[h := Socket(p, false, None)]))
  {
  }

  lemma AbandonRows(s: Relay, p: PairId, h: Handle, a: Attachment, g: Id)
    requires Linked(s) && p in s.rows && s.initialized
    ensures RowsLinked(Abandon(s, p, h, a, g)) && Abandon(s, p, h, a, g).initialized
  {
  }

  predicate UnusedAttachment(s: Relay, p: PairId, h: Handle, a: Attachment, g: Id) {
    h !in s.sockets && a.pairId == p && a.id !in s.drawn && g !in s.drawn && a.generation in {None, Some(g)}
  }

  lemma AbandonSockets(s: Relay, p: PairId, h: Handle, a: Attachment, g: Id)
    requires Linked(s) && p in s.rows && UnusedAttachment(s, p, h, a, g)
    ensures SocketsLinked(Abandon(s, p, h, a, g)) && GenerationsLinked(Abandon(s, p, h, a, g))
  {
    var t := Retire(s, {p});
    RetireShrinks(s, {p});
    ShrinkLinked(s, t);
    AbandonNew(t, p, h, a, g);
  }

  /** A closed socket whose row names nobody. */
  lemma AbandonNew(t: Relay, p: PairId, h: Handle, a: Attachment, g: Id)
    requires Linked(t) && p in t.rows && UnusedAttachment(t, p, h, a, g)
    requires t.rows[p].desktop.socket.None? && t.rows[p].phone.socket.None?
    ensures var u := t.(sockets := t.sockets[h := Socket(p, false, Some(a))], drawn := t.drawn + {a.id, g});
      SocketsLinked(u) && GenerationsLinked(u)
  {
  }
}
