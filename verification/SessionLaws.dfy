/** What every call keeps, and what two synchronised ends of a session do for each other. */
module SessionLaws {
  import opened Wrappers
  import opened Bytes
  import opened Records
  import opened SecureSession

  // ----- One end -----

  function Rank(phase: Phase): nat {
    match phase
    case Handshaking => 0
    case AwaitingApproval => 1
    case AwaitingDesktopConfirmation => 1
    case SendDesktopConfirmation => 2
    case SendPhoneConfirmation => 2
    case AwaitingPhoneConfirmation => 3
    case Ready => 4
    case Closed => 5
  }

  predicate WithinBudget(s: State) {
    && s.sentMessages <= MAX_MESSAGES && s.receivedMessages <= MAX_MESSAGES
    && s.sentBytes <= MAX_BYTES && s.receivedBytes <= MAX_BYTES
  }

  predicate NoSecrets(s: State) {
    s.handshake.None? && s.transport.None? && s.peer.None? && s.binding.None? && s.incoming == FRESH
  }

  /** The confirmations exchanged so far are the first message of each direction. */
  predicate ConfirmationsCounted(s: State) {
    match s.phase
    case AwaitingApproval => !s.phone && s.sentMessages == 0 && s.receivedMessages == 0
    case SendDesktopConfirmation => !s.phone && s.sentMessages == 0 && s.receivedMessages == 0
    case AwaitingPhoneConfirmation => !s.phone && s.sentMessages == 1 && s.receivedMessages == 0
    case AwaitingDesktopConfirmation => s.phone && s.sentMessages == 0 && s.receivedMessages == 0
    case SendPhoneConfirmation => s.phone && s.sentMessages == 0 && s.receivedMessages == 1
    case Ready => s.sentMessages >= 1 && s.receivedMessages >= 1
    case _ => true
  }

  predicate Established(s: State) {
    && s.handshake.None? && s.transport.Some? && s.peer.Some?
    && s.binding == Some(s.transport.value.binding)
    && s.peer == OtherStatic(s.binding.value, s.phone)
    && s.transport.value.phone == s.phone
    // Nonces never outrun the budget: every message uses the next one.
    && s.transport.value.sendCounter == s.sentMessages
    && s.transport.value.receiveCounter == s.receivedMessages
    && ConfirmationsCounted(s)
    && (s.phase != AwaitingApproval ==> s.expectedPeer == s.peer)
  }

  predicate InHandshake(s: State) {
    && s.handshake.Some? && s.transport.None? && s.binding.None?
    && s.handshake.value.initiator == s.phone
    && !Finished(s.handshake.value)
    && s.peer == RemoteStatic(s.handshake.value)
    && (s.peer.Some? && s.expectedPeer.Some? ==> s.expectedPeer == s.peer)
    && s.sentMessages == 0 && s.receivedMessages == 0
    && s.incoming == FRESH
  }

  predicate Consistent(s: State) {
    && WithinBudget(s)
    && WellFormed(s.incoming)
    && (s.phone ==> s.expectedPeer.Some?)
    && match s.phase
       case Closed => NoSecrets(s)
       case Handshaking => InHandshake(s)
       case _ => Established(s)
  }

  lemma StartConsistent(
      phone: bool, identity: Key, ephemeral: Key, psk: Key, pair: Key, peer: Option<Key>, now: Instant)
    ensures var s := Start(phone, identity, ephemeral, psk, pair, peer, now);
      s.Ok? && (phone ==> peer.Some?) ==> Consistent(s.value)
  {
  }

  predicate Allowed(s: State, next: State) {
    && Consistent(next)
    && next.phone == s.phone
    && (next.phase == s.phase || Rank(next.phase) > Rank(s.phase))
  }

  /** What a call's outcome must satisfy before errors are turned into closure. */
  predicate Kept<T>(s: State, r: Reply<T>) {
    && WithinBudget(r.next)
    && r.next.phone == s.phone
    && (s.phone ==> r.next.expectedPeer.Some?)
    && (r.result.Ok? ==> Allowed(s, r.next))
  }

  lemma WriteHandshakeKept(s: State)
    requires Consistent(s) && s.phase != Closed
    ensures Kept(s, TryWriteHandshake(s))
  {
  }

  lemma ReadHandshakeKept(s: State, frame: HandshakeFrame)
    requires Consistent(s) && s.phase != Closed
    ensures Kept(s, TryReadHandshake(s, frame))
  {
  }

  lemma ConfirmationsKept(s: State, frame: Frame)
    requires Consistent(s) && s.phase != Closed
    ensures Kept(s, TryWriteConfirmation(s))
    ensures Kept(s, TryReadConfirmation(s, frame))
  {
  }

  lemma {:induction false} EncryptKept(s: State, plaintexts: seq<Plaintext>, n: nat)
    requires n <= |plaintexts|
    requires Consistent(s) && s.phase == Ready
    ensures var next := EncryptTo(s, plaintexts, n).next;
      Consistent(next) && next.phase == Ready && next.phone == s.phone
  {
    if n != 0 {
      EncryptKept(s, plaintexts, n - 1);
    }
  }

  lemma SealRecordKept(s: State, data: seq<byte>)
    requires Consistent(s) && s.phase != Closed
    ensures Kept(s, TrySealRecord(s, data))
  {
    if s.phase == Ready && data != [] && |data| <= MAX_RECORD {
      var plaintexts := RecordPlaintexts(s.outgoingRecord, data);
      EncryptKept(s, plaintexts, |plaintexts|);
    }
  }

  lemma DecryptKept(s: State, frame: Frame)
    requires Consistent(s) && s.phase == Ready
    ensures var got := Decrypt(s, frame);
      Consistent(got.next) && got.next.phase == Ready && got.next.phone == s.phone && got.next.incoming == s.incoming
  {
  }

  lemma PushWellFormed(a: Assembly, bytes: seq<byte>, now: Instant)
    requires WellFormed(a)
    ensures Push(a, bytes, now).reply.Ok? ==> WellFormed(Push(a, bytes, now).next)
  {
    if |bytes| > HEADER {
      AcceptContinues(a, Parse(bytes), now);
    }
  }

  lemma OpenFrameKept(s: State, frame: Frame, now: Instant)
    requires Consistent(s) && s.phase != Closed
    ensures Kept(s, TryOpenFrame(s, frame, now))
  {
    if s.phase == Ready {
      var got := Decrypt(s, frame);
      DecryptKept(s, frame);
      if got.result.Ok? && got.result.value.Contents? {
        PushWellFormed(s.incoming, got.result.value.bytes, now);
      }
    }
  }

  lemma TryKept(s: State, call: Call, now: Instant)
    requires Consistent(s) && s.phase != Closed
    ensures Kept(s, Try(s, call, now))
  {
    match call {
      case WriteHandshake => WriteHandshakeKept(s);
      case ReadHandshake(m) => ReadHandshakeKept(s, m);
      case WriteConfirmation => ConfirmationsKept(s, Unopenable(0));
      case ReadConfirmation(f) => ConfirmationsKept(s, f);
      case SealRecord(data) => SealRecordKept(s, data);
      case OpenFrame(f) => OpenFrameKept(s, f, now);
      case _ =>
    }
  }

  /** Every call keeps the session consistent; a phase change climbs; an error leaves nothing behind;
      and a closed session refuses every call and stays exactly as it is. */
  lemma StepLaws(s: State, call: Call, now: Instant)
    requires Consistent(s)
    ensures Allowed(s, Step(s, call, now).next)
    ensures Step(s, call, now).result.Err? ==> Step(s, call, now).next.phase == Closed
    ensures s.phase == Closed ==> Step(s, call, now) == Reply(s, Err(InvalidState))
  {
    if Refusal(s, now).None? {
      TryKept(s, call, now);
    }
  }

  /** A session lives while it is not closed, no record stalls, and it is younger than two minutes, or a day once ready;
      checking it then changes nothing, and otherwise every call closes it. */
  lemma LivesExactly(s: State, call: Call, now: Instant)
    ensures var alive :=
        && s.phase != Closed && (s.incoming.started.Some? ==> now - s.incoming.started.value < RECORD_TIMEOUT_MS)
        && Elapsed(now, s.created) < (if s.phase == Ready then 24 * 60 * 60 * 1000 else 120 * 1000);
      && (alive ==> Step(s, CheckAlive, now) == Reply(s, Ok(Nothing)))
      && (!alive ==> Step(s, call, now).result.Err? && Step(s, call, now).next == Close(s))
  {
  }
}
