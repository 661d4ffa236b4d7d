/** The mutable session of lib.rs: each call changes the fields exactly as the value-level model says. */
module SessionObject {
  import opened Wrappers
  import opened Bytes
  import opened Records
  import opened SecureSession

  class Session {
    var handshake: Option<Handshake>
    var transport: Option<Transport>
    var phase: Phase
    const phone: bool
    var expectedPeer: Option<Key>
    var peer: Option<Key>
    var binding: Option<Transcript>
    const created: Instant
    var sentMessages: nat
    var sentBytes: nat
    var receivedMessages: nat
    var receivedBytes: nat
    var outgoingRecord: u64
    var incoming: Assembler

    ghost function State(): State
      reads this, incoming
    {
      SecureSession.State(handshake, transport, phase, phone, expectedPeer, peer, binding, created,
        sentMessages, sentBytes, receivedMessages, receivedBytes, outgoingRecord, incoming.State())
    }

    constructor (phone: bool, identity: Key, ephemeral: Key, psk: Key, pair: Key, peer: Option<Key>, now: Instant)
      ensures State() == Initial(phone, identity, ephemeral, psk, pair, peer, now)
      ensures fresh(incoming)
    {
      handshake := Some(Handshake(phone, Transcript(pair, []), identity, ephemeral, psk));
      transport, phase, expectedPeer := None, Handshaking, peer;
      this.phone, this.created, this.peer, binding := phone, now, None, None;
      sentMessages, sentBytes, receivedMessages, receivedBytes, outgoingRecord := 0, 0, 0, 0, 0;
      incoming := new Assembler();
    }

    /** The fallible constructor: all-zero secrets, pair ids and pins are refused. */
    static method Create(
        phone: bool, identity: Key, ephemeral: Key, psk: Key, pair: Key, peer: Option<Key>, now: Instant)
      returns (r: Result<Session, Error>)
      ensures match r
        case Ok(session) =>
          && fresh(session) && fresh(session.incoming)
          && Start(phone, identity, ephemeral, psk, pair, peer, now) == Ok(session.State())
        case Err(e) => Start(phone, identity, ephemeral, psk, pair, peer, now) == Err(e)
    {
      if psk == 0 || pair == 0 || peer == Some(0) {
        return Err(InvalidInput);
      }
      var session := new Session(phone, identity, ephemeral, psk, pair, peer, now);
      r := Ok(session);
    }

    method CloseSession()
      modifies this
      ensures State() == Close(old(State())) && fresh(incoming)
    {
      phase := Closed;
      handshake, transport := None, None;
      incoming := new Assembler();
      peer, binding := None, None;
    }

    /** The guard of checked_at: closes and reports why, or lets the call proceed. */
    method Admit(now: Instant) returns (refused: Option<Error>)
      modifies this
      ensures refused == Refusal(old(State()), now)
      ensures incoming == old(incoming) || fresh(incoming)
      ensures State() == if refused.Some? then Close(old(State())) else old(State())
      ensures refused.None? ==> incoming == old(incoming)
    {
      var late := incoming.HasExpired(now);
      if phase == Closed {
        CloseSession();
        return Some(InvalidState);
      }
      var limit := if phase == Ready then MAX_AGE_MS else HANDSHAKE_AGE_MS;
      if late || Elapsed(now, created) >= limit {
        CloseSession();
        return Some(LimitReached);
      }
      refused := None;
    }

    method WriteHandshake(now: Instant) returns (r: Result<HandshakeFrame, Error>)
      modifies this, incoming
      ensures Reply(State(), r) == Checked(old(State()), now, TryWriteHandshake(old(State())))
      ensures incoming == old(incoming) || fresh(incoming)
    {
      var refused := Admit(now);
      if refused.Some? {
        return Err(refused.value);
      }
      if phase != Handshaking || handshake.None? || !MyTurn(handshake.value) {
        CloseSession();
        return Err(InvalidState);
      }
      var h := handshake.value;
      if Finished(h) {
        CloseSession();
        return Err(AuthenticationFailed);
      }
      var transcript := h.transcript.(tokens := h.transcript.tokens + [OwnToken(h)]);
      handshake := Some(h.(transcript := transcript));
      var finished := Finish();
      if finished.Err? {
        CloseSession();
        return Err(finished.error);
      }
      r := Ok(Message(transcript, 0));
    }

    method ReadHandshake(frame: HandshakeFrame, now: Instant) returns (r: Result<(), Error>)
      modifies this, incoming
      ensures Reply(State(), r) == Checked(old(State()), now, TryReadHandshake(old(State()), frame))
      ensures incoming == old(incoming) || fresh(incoming)
    {
      var refused := Admit(now);
      if refused.Some? {
        return Err(refused.value);
      }
      r := ReadMessage(frame);
      if r.Err? {
        CloseSession();
      }
    }

    method ReadMessage(frame: HandshakeFrame) returns (r: Result<(), Error>)
      modifies this`handshake, this`transport, this`phase, this`peer, this`binding
      ensures Reply(State(), r) == TryReadHandshake(old(State()), frame)
    {
      if phase != Handshaking {
        return Err(InvalidState);
      }
      if HandshakeFrameLength(frame) == 0 || HandshakeFrameLength(frame) > HANDSHAKE_MAX {
        return Err(InvalidInput);
      }
      if handshake.None? || MyTurn(handshake.value) {
        return Err(InvalidState);
      }
      if frame.Unreadable? || !Reads(handshake.value, frame.transcript) {
        return Err(AuthenticationFailed);
      }
      var h := handshake.value.(transcript := frame.transcript);
      handshake := Some(h);
      if frame.payload != 0 {
        return Err(InvalidInput);
      }
      var remote := RemoteStatic(h);
      if remote.Some? {
        if expectedPeer.Some? && expectedPeer.value != remote.value {
          return Err(AuthenticationFailed);
        }
        peer := remote;
      }
      r := Finish();
    }

    method Finish() returns (r: Result<(), Error>)
      modifies this`handshake, this`transport, this`phase, this`binding
      ensures Reply(State(), r) == FinishHandshake(old(State()))
    {
      if handshake.None? {
        return Err(InvalidState);
      }
      var h := handshake.value;
      if !Finished(h) {
        return Ok(());
      }
      if peer.None? {
        return Err(AuthenticationFailed);
      }
      handshake := None;
      binding := Some(h.transcript);
      transport := Some(Transport(h.transcript, phone, 0, 0));
      phase :=
        if phone then AwaitingDesktopConfirmation
        else if expectedPeer.None? then AwaitingApproval
        else SendDesktopConfirmation;
      r := Ok(());
    }

    method ApproveEnrollment(approved: Key, approvedBinding: Transcript, now: Instant) returns (r: Result<(), Error>)
      modifies this, incoming
      ensures Reply(State(), r) == Checked(old(State()), now, TryApprove(old(State()), approved, approvedBinding))
      ensures incoming == old(incoming) || fresh(incoming)
    {
      var refused := Admit(now);
      if refused.Some? {
        return Err(refused.value);
      }
      if phase != AwaitingApproval || peer != Some(approved) || binding != Some(approvedBinding) {
        CloseSession();
        return Err(InvalidState);
      }
      expectedPeer := Some(approved);
      phase := SendDesktopConfirmation;
      r := Ok(());
    }

    method EncryptFrame(plaintext: Plaintext) returns (r: Result<Frame, Error>)
      modifies this`transport, this`sentMessages, this`sentBytes
      ensures Reply(State(), r) == Encrypt(old(State()), plaintext)
    {
      var length := PlaintextLength(plaintext);
      if length + TAG > MAX_FRAME {
        return Err(InvalidInput);
      }
      if sentMessages >= MAX_MESSAGES || sentBytes + length > MAX_BYTES {
        return Err(LimitReached);
      }
      if transport.None? {
        return Err(InvalidState);
      }
      var t := transport.value;
      transport := Some(t.(sendCounter := t.sendCounter + 1));
      sentMessages := sentMessages + 1;
      sentBytes := sentBytes + length;
      r := Ok(Sealed(t.binding, t.phone, t.sendCounter, plaintext));
    }

    method DecryptFrame(frame: Frame) returns (r: Result<Plaintext, Error>)
      modifies this`transport, this`receivedMessages, this`receivedBytes
      ensures Reply(State(), r) == Decrypt(old(State()), frame)
    {
      var length := FrameLength(frame);
      if length < TAG || length > MAX_FRAME {
        return Err(InvalidInput);
      }
      if receivedMessages >= MAX_MESSAGES || receivedBytes + (length - TAG) > MAX_BYTES {
        return Err(LimitReached);
      }
      if transport.None? {
        return Err(InvalidState);
      }
      var t := transport.value;
      if !Opens(t, frame) {
        return Err(AuthenticationFailed);
      }
      transport := Some(t.(receiveCounter := t.receiveCounter + 1));
      receivedMessages := receivedMessages + 1;
      receivedBytes := receivedBytes + PlaintextLength(frame.plaintext);
      r := Ok(frame.plaintext);
    }

    method WriteConfirmation(now: Instant) returns (r: Result<Frame, Error>)
      modifies this, incoming
      ensures Reply(State(), r) == Checked(old(State()), now, TryWriteConfirmation(old(State())))
      ensures incoming == old(incoming) || fresh(incoming)
    {
      var refused := Admit(now);
      if refused.Some? {
        return Err(refused.value);
      }
      if !(phase.SendDesktopConfirmation? || phase.SendPhoneConfirmation?) || binding.None? {
        CloseSession();
        return Err(InvalidState);
      }
      var fromPhone := phase.SendPhoneConfirmation?;
      r := EncryptFrame(Confirmation(fromPhone, binding.value));
      if r.Err? {
        CloseSession();
      } else {
        phase := if fromPhone then Ready else AwaitingPhoneConfirmation;
      }
    }

    method ReadConfirmation(frame: Frame, now: Instant) returns (r: Result<(), Error>)
      modifies this, incoming
      ensures Reply(State(), r) == Checked(old(State()), now, TryReadConfirmation(old(State()), frame))
      ensures incoming == old(incoming) || fresh(incoming)
    {
      var refused := Admit(now);
      if refused.Some? {
        return Err(refused.value);
      }
      if !(phase.AwaitingDesktopConfirmation? || phase.AwaitingPhoneConfirmation?) || binding.None? {
        CloseSession();
        return Err(InvalidState);
      }
      var fromPhone := phase.AwaitingPhoneConfirmation?;
      var got := DecryptFrame(frame);
      if got.Err? {
        CloseSession();
        return Err(got.error);
      }
      if got.value != Confirmation(fromPhone, binding.value) {
        CloseSession();
        return Err(AuthenticationFailed);
      }
      phase := if fromPhone then Ready else SendPhoneConfirmation;
      r := Ok(());
    }

    /** The loop over a record's chunks. */
    method EncryptChunks(plaintexts: seq<Plaintext>) returns (r: Result<seq<Frame>, Error>)
      modifies this`transport, this`sentMessages, this`sentBytes
      ensures Reply(State(), r) == EncryptTo(old(State()), plaintexts, |plaintexts|)
    {
      var frames := [];
      var i := 0;
      while i < |plaintexts|
        invariant 0 <= i <= |plaintexts|
        invariant Reply(State(), Ok(frames)) == EncryptTo(old(State()), plaintexts, i)
      {
        var sent := EncryptFrame(plaintexts[i]);
        if sent.Err? {
          EncryptStopped(old(State()), plaintexts, i + 1, |plaintexts|);
          return Err(sent.error);
        }
        frames := frames + [sent.value];
        i := i + 1;
      }
      r := Ok(frames);
    }

    method Seal(data: seq<byte>, now: Instant) returns (r: Result<seq<Frame>, Error>)
      modifies this, incoming
      ensures Reply(State(), r) == Checked(old(State()), now, TrySealRecord(old(State()), data))
      ensures incoming == old(incoming) || fresh(incoming)
    {
      var refused := Admit(now);
      if refused.Some? {
        return Err(refused.value);
      }
      if phase != Ready {
        CloseSession();
        return Err(InvalidState);
      }
      if data == [] || |data| > MAX_RECORD {
        CloseSession();
        return Err(InvalidInput);
      }
      var plaintexts := RecordPlaintexts(outgoingRecord, data);
      r := EncryptChunks(plaintexts);
      if r.Err? {
        CloseSession();
      } else if outgoingRecord + 1 >= U64_LIMIT {
        CloseSession();
        r := Err(LimitReached);
      } else {
        outgoingRecord := outgoingRecord + 1;
      }
    }

    method Open(frame: Frame, now: Instant) returns (r: Result<Option<seq<byte>>, Error>)
      modifies this, incoming
      ensures Reply(State(), r) == Checked(old(State()), now, TryOpenFrame(old(State()), frame, now))
      ensures incoming == old(incoming) || fresh(incoming)
    {
      var refused := Admit(now);
      if refused.Some? {
        return Err(refused.value);
      }
      if phase != Ready {
        CloseSession();
        return Err(InvalidState);
      }
      var got := DecryptFrame(frame);
      if got.Err? {
        CloseSession();
        return Err(got.error);
      }
      if got.value.Confirmation? {
        CloseSession();
        return Err(InvalidInput);
      }
      r := incoming.PushContents(got.value.bytes, now);
      if r.Err? {
        CloseSession();
      }
    }

    method CheckAlive(now: Instant) returns (r: Result<(), Error>)
      modifies this
      ensures Reply(State(), r) == Checked(old(State()), now, Reply(old(State()), Ok(())))
      ensures incoming == old(incoming) || fresh(incoming)
    {
      var refused := Admit(now);
      r := if refused.Some? then Err(refused.value) else Ok(());
    }
  }

  /** Once one chunk is refused, none of the later ones is tried. */
  lemma {:induction false} EncryptStopped(s: State, plaintexts: seq<Plaintext>, n: nat, m: nat)
    requires n <= m <= |plaintexts|
    requires EncryptTo(s, plaintexts, n).result.Err?
    ensures EncryptTo(s, plaintexts, m) == EncryptTo(s, plaintexts, n)
    decreases m
  {
    if n < m {
      EncryptStopped(s, plaintexts, n, m - 1);
    }
  }
}
