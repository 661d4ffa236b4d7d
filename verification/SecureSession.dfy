/** One end of a secure session (shared/secure-channel/src/lib.rs) over ideal cryptography.
    The handshake hash is the transcript itself, and a sealed frame opens only for the other end of the
    same session at the matching counter: sections 5.1, 7.5 and 9 of the Noise Protocol Framework, revision 34. */
module SecureSession {
  import opened Wrappers
  import opened Bytes
  import opened Records

  const HANDSHAKE_MAX: nat := 256
  const MAX_MESSAGES: nat := 1_000_000
  const MAX_BYTES: nat := 0x4000_0000
  const MAX_AGE_MS: nat := 24 * 60 * 60 * 1000
  const HANDSHAKE_AGE_MS: nat := 120 * 1000
  const TAG: nat := 16
  // "FocusBridge/v2/desktop-ready" or "FocusBridge/v2/phone-ready", then the 32-byte handshake hash.
  const DESKTOP_CONFIRM_LENGTH: nat := 28 + 32
  const PHONE_CONFIRM_LENGTH: nat := 26 + 32

  type u64 = n: int | 0 <= n < U64_LIMIT

  // ----- Ideal handshake -----

  /** Keys, pre-shared keys and pair ids are numbers; zero stands for the all-zero bytes. */
  type Key = nat

  /** The three XXpsk3 messages: e; then e and s; then s and psk. */
  datatype Token =
    | Ephemeral(e: Key)
    | EphemeralStatic(e: Key, s: Key)
    | StaticPsk(s: Key, psk: Key)

  datatype Transcript = Transcript(pair: Key, tokens: seq<Token>)

  datatype HandshakeFrame =
    | Message(transcript: Transcript, payload: nat)
    | Unreadable(size: nat)

  datatype Handshake = Handshake(initiator: bool, transcript: Transcript, identity: Key, ephemeral: Key, psk: Key)

  predicate Finished(h: Handshake) {
    |h.transcript.tokens| >= 3
  }

  predicate MyTurn(h: Handshake) {
    (|h.transcript.tokens| % 2 == 0) == h.initiator
  }

  function OwnToken(h: Handshake): Token {
    match |h.transcript.tokens|
    case 0 => Ephemeral(h.ephemeral)
    case 1 => EphemeralStatic(h.ephemeral, h.identity)
    case _ => StaticPsk(h.identity, h.psk)
  }

  /** A message reads when it extends this end's transcript by the token due, under the same pre-shared key. */
  predicate Reads(h: Handshake, m: Transcript) {
    var n := |h.transcript.tokens|;
    && m.pair == h.transcript.pair
    && |m.tokens| == n + 1
    && m.tokens[..n] == h.transcript.tokens
    && match n
       case 0 => m.tokens[0].Ephemeral?
       case 1 => m.tokens[1].EphemeralStatic?
       case 2 => m.tokens[2].StaticPsk? && m.tokens[2].psk == h.psk
       case _ => false
  }

  /** The static key a transcript shows to the phone, or to the desktop. */
  function OtherStatic(t: Transcript, toPhone: bool): Option<Key> {
    if toPhone && |t.tokens| >= 2 && t.tokens[1].EphemeralStatic? then Some(t.tokens[1].s)
    else if !toPhone && |t.tokens| >= 3 && t.tokens[2].StaticPsk? then Some(t.tokens[2].s)
    else None
  }

  function RemoteStatic(h: Handshake): Option<Key> {
    OtherStatic(h.transcript, h.initiator)
  }

  // ----- Ideal transport -----

  datatype Plaintext =
    | Confirmation(fromPhone: bool, binding: Transcript)
    | Contents(bytes: seq<byte>)

  function PlaintextLength(p: Plaintext): nat {
    match p
    case Confirmation(fromPhone, _) => if fromPhone then PHONE_CONFIRM_LENGTH else DESKTOP_CONFIRM_LENGTH
    case Contents(bytes) => |bytes|
  }

  datatype Frame =
    | Sealed(binding: Transcript, fromPhone: bool, counter: nat, plaintext: Plaintext)
    | Unopenable(size: nat)

  function FrameLength(f: Frame): nat {
    match f
    case Sealed(_, _, _, plaintext) => PlaintextLength(plaintext) + TAG
    case Unopenable(size) => size
  }

  datatype Transport = Transport(binding: Transcript, phone: bool, sendCounter: nat, receiveCounter: nat)

  predicate Opens(t: Transport, f: Frame) {
    f.Sealed? && f.binding == t.binding && f.fromPhone != t.phone && f.counter == t.receiveCounter
  }

  // ----- State -----

  datatype Phase =
    | Handshaking
    | AwaitingApproval
    | SendDesktopConfirmation
    | AwaitingDesktopConfirmation
    | SendPhoneConfirmation
    | AwaitingPhoneConfirmation
    | Ready
    | Closed

  datatype State = State(
    handshake: Option<Handshake>,
    transport: Option<Transport>,
    phase: Phase,
    phone: bool,
    expectedPeer: Option<Key>,
    peer: Option<Key>,
    binding: Option<Transcript>,
    created: Instant,
    sentMessages: nat,
    sentBytes: nat,
    receivedMessages: nat,
    receivedBytes: nat,
    outgoingRecord: u64,
    incoming: Assembly)

  function Initial(
      phone: bool, identity: Key, ephemeral: Key, psk: Key, pair: Key, peer: Option<Key>, now: Instant): State {
    State(
      Some(Handshake(phone, Transcript(pair, []), identity, ephemeral, psk)),
      None, Handshaking, phone, peer, None, None, now, 0, 0, 0, 0, 0, FRESH)
  }

  function Start(phone: bool, identity: Key, ephemeral: Key, psk: Key, pair: Key, peer: Option<Key>, now: Instant)
    : Result<State, Error>
  {
    if psk == 0 || pair == 0 || peer == Some(0) then Err(InvalidInput)
    else Ok(Initial(phone, identity, ephemeral, psk, pair, peer, now))
  }

  function Close(s: State): State {
    s.(phase := Closed, handshake := None, transport := None, incoming := FRESH, peer := None, binding := None)
  }

  function Elapsed(now: Instant, since: Instant): nat {
    if now < since then 0 else now - since
  }

  /** Why a session refuses every call now, if it does. */
  function Refusal(s: State, now: Instant): Option<Error> {
    if s.phase == Closed then Some(InvalidState)
    else if Expired(s.incoming, now)
      || Elapsed(now, s.created) >= (if s.phase == Ready then MAX_AGE_MS else HANDSHAKE_AGE_MS) then
      Some(LimitReached)
    else None
  }

  datatype Reply<+T> = Reply(next: State, result: Result<T, Error>)

  function Fail<T>(s: State, e: Error): Reply<T> {
    Reply(s, Err(e))
  }

  /** Every error closes the session. */
  function Settle<T>(r: Reply<T>): Reply<T> {
    if r.result.Err? then Reply(Close(r.next), r.result) else r
  }

  /** The guard around every public call: refused when closed or out of time, closing on every error. */
  function Checked<T>(s: State, now: Instant, attempt: Reply<T>): Reply<T> {
    match Refusal(s, now)
    case Some(e) => Reply(Close(s), Err(e))
    case None => Settle(attempt)
  }

  // ----- Handshake calls -----

  function FinishHandshake(s: State): Reply<()> {
    match s.handshake
    case None => Fail(s, InvalidState)
    case Some(h) =>
      if !Finished(h) then Reply(s, Ok(()))
      else if s.peer.None? then Fail(s, AuthenticationFailed)
      else
        Reply(s.(
          handshake := None,
          binding := Some(h.transcript),
          transport := Some(Transport(h.transcript, s.phone, 0, 0)),
          phase := if s.phone then AwaitingDesktopConfirmation
                   else if s.expectedPeer.None? then AwaitingApproval
                   else SendDesktopConfirmation), Ok(()))
  }

  function TryWriteHandshake(s: State): Reply<HandshakeFrame> {
    if s.phase != Handshaking || s.handshake.None? then Fail(s, InvalidState)
    else
      var h := s.handshake.value;
      if !MyTurn(h) then Fail(s, InvalidState)
      else if Finished(h) then Fail(s, AuthenticationFailed)
      else
        var transcript := h.transcript.(tokens := h.transcript.tokens + [OwnToken(h)]);
        var finished := FinishHandshake(s.(handshake := Some(h.(transcript := transcript))));
        match finished.result
        case Err(e) => Fail(finished.next, e)
        case Ok(_) => Reply(finished.next, Ok(Message(transcript, 0)))
  }

  function HandshakeFrameLength(f: HandshakeFrame): nat {
    match f
    case Message(t, payload) =>
      (if |t.tokens| == 1 then 32 + 16 else if |t.tokens| == 2 then 32 + 48 + 16 else 48 + 16) + payload
    case Unreadable(size) => size
  }

  function TryReadHandshake(s: State, frame: HandshakeFrame): Reply<()> {
    if s.phase != Handshaking then Fail(s, InvalidState)
    else if HandshakeFrameLength(frame) == 0 || HandshakeFrameLength(frame) > HANDSHAKE_MAX then Fail(s, InvalidInput)
    else if s.handshake.None? || MyTurn(s.handshake.value) then Fail(s, InvalidState)
    else if frame.Unreadable? || !Reads(s.handshake.value, frame.transcript) then Fail(s, AuthenticationFailed)
    else
      var h := s.handshake.value.(transcript := frame.transcript);
      var read := s.(handshake := Some(h));
      if frame.payload != 0 then Fail(read, InvalidInput)
      else
        match RemoteStatic(h)
        case None => FinishHandshake(read)
        case Some(remote) =>
          if s.expectedPeer.Some? && s.expectedPeer.value != remote then Fail(read, AuthenticationFailed)
          else FinishHandshake(read.(peer := Some(remote)))
  }

  function TryApprove(s: State, peer: Key, binding: Transcript): Reply<()> {
    if s.phase != AwaitingApproval || s.peer != Some(peer) || s.binding != Some(binding) then Fail(s, InvalidState)
    else Reply(s.(expectedPeer := Some(peer), phase := SendDesktopConfirmation), Ok(()))
  }

  // ----- Transport calls -----

  function Encrypt(s: State, plaintext: Plaintext): Reply<Frame> {
    var length := PlaintextLength(plaintext);
    if length + TAG > MAX_FRAME then Fail(s, InvalidInput)
    else if s.sentMessages >= MAX_MESSAGES || s.sentBytes + length > MAX_BYTES then Fail(s, LimitReached)
    else
      match s.transport
      case None => Fail(s, InvalidState)
      case Some(t) =>
        Reply(s.(
          transport := Some(t.(sendCounter := t.sendCounter + 1)),
          sentMessages := s.sentMessages + 1,
          sentBytes := s.sentBytes + length), Ok(Sealed(t.binding, t.phone, t.sendCounter, plaintext)))
  }

  function Decrypt(s: State, frame: Frame): Reply<Plaintext> {
    var length := FrameLength(frame);
    if length < TAG || length > MAX_FRAME then Fail(s, InvalidInput)
    else if s.receivedMessages >= MAX_MESSAGES || s.receivedBytes + (length - TAG) > MAX_BYTES then
      Fail(s, LimitReached)
    else
      match s.transport
      case None => Fail(s, InvalidState)
      case Some(t) =>
        if !Opens(t, frame) then Fail(s, AuthenticationFailed)
        else
          Reply(s.(
            transport := Some(t.(receiveCounter := t.receiveCounter + 1)),
            receivedMessages := s.receivedMessages + 1,
            receivedBytes := s.receivedBytes + PlaintextLength(frame.plaintext)), Ok(frame.plaintext))
  }

  function TryWriteConfirmation(s: State): Reply<Frame> {
    if !s.phase.SendDesktopConfirmation? && !s.phase.SendPhoneConfirmation? then Fail(s, InvalidState)
    else if s.binding.None? then Fail(s, InvalidState)
    else
      var fromPhone := s.phase.SendPhoneConfirmation?;
      var sent := Encrypt(s, Confirmation(fromPhone, s.binding.value));
      match sent.result
      case Err(e) => Fail(sent.next, e)
      case Ok(frame) => Reply(sent.next.(phase := if fromPhone then Ready else AwaitingPhoneConfirmation), Ok(frame))
  }

  function TryReadConfirmation(s: State, frame: Frame): Reply<()> {
    if !s.phase.AwaitingDesktopConfirmation? && !s.phase.AwaitingPhoneConfirmation? then Fail(s, InvalidState)
    else if s.binding.None? then Fail(s, InvalidState)
    else
      var fromPhone := s.phase.AwaitingPhoneConfirmation?;
      var got := Decrypt(s, frame);
      match got.result
      case Err(e) => Fail(got.next, e)
      case Ok(plaintext) =>
        if plaintext != Confirmation(fromPhone, s.binding.value) then Fail(got.next, AuthenticationFailed)
        else Reply(got.next.(phase := if fromPhone then Ready else SendPhoneConfirmation), Ok(()))
  }

  /** Encrypts the first `n` plaintexts in order, stopping at the first error. */
  function EncryptTo(s: State, plaintexts: seq<Plaintext>, n: nat): Reply<seq<Frame>>
    requires n <= |plaintexts|
  {
    if n == 0 then Reply(s, Ok([]))
    else
      var before := EncryptTo(s, plaintexts, n - 1);
      match before.result
      case Err(e) => Fail(before.next, e)
      case Ok(frames) =>
        var sent := Encrypt(before.next, plaintexts[n - 1]);
        match sent.result
        case Err(e) => Fail(sent.next, e)
        case Ok(frame) => Reply(sent.next, Ok(frames + [frame]))
  }

  /** The plaintexts that carry one record. */
  function RecordPlaintexts(record: u64, data: seq<byte>): (ps: seq<Plaintext>)
    requires |data| <= MAX_RECORD
    ensures |ps| == |RecordFragments(record, data)|
    ensures AllEncodable(RecordFragments(record, data))
    ensures forall i :: 0 <= i < |ps| ==> ps[i] == Contents(Encode(RecordFragments(record, data)[i]))
  {
    FragmentsEncodable(record, |data|, data, 0);
    var fragments := RecordFragments(record, data);
    seq(|fragments|, i requires 0 <= i < |fragments| => Contents(Encode(fragments[i])))
  }

  function TrySealRecord(s: State, data: seq<byte>): Reply<seq<Frame>> {
    if s.phase != Ready then Fail(s, InvalidState)
    else if data == [] || |data| > MAX_RECORD then Fail(s, InvalidInput)
    else
      var plaintexts := RecordPlaintexts(s.outgoingRecord, data);
      var sealed := EncryptTo(s, plaintexts, |plaintexts|);
      match sealed.result
      case Err(e) => Fail(sealed.next, e)
      case Ok(frames) =>
        if s.outgoingRecord + 1 >= U64_LIMIT then Fail(sealed.next, LimitReached)
        else Reply(sealed.next.(outgoingRecord := s.outgoingRecord + 1), Ok(frames))
  }

  function TryOpenFrame(s: State, frame: Frame, now: Instant): Reply<Option<seq<byte>>> {
    if s.phase != Ready then Fail(s, InvalidState)
    else
      var got := Decrypt(s, frame);
      match got.result
      case Err(e) => Fail(got.next, e)
      // A confirmation read as a record carries no record number this session could be at.
      case Ok(Confirmation(_, _)) => Fail(got.next, InvalidInput)
      case Ok(Contents(bytes)) =>
        var pushed := Push(s.incoming, bytes, now);
        Reply(got.next.(incoming := pushed.next), pushed.reply)
  }

  // ----- One call -----

  datatype Call =
    | WriteHandshake
    | ReadHandshake(message: HandshakeFrame)
    | Approve(approvedPeer: Key, approvedBinding: Transcript)
    | WriteConfirmation
    | ReadConfirmation(confirmation: Frame)
    | SealRecord(record: seq<byte>)
    | OpenFrame(frame: Frame)
    | CheckAlive

  datatype Output =
    | Nothing
    | HandshakeOut(message: HandshakeFrame)
    | FramesOut(frames: seq<Frame>)
    | RecordOut(record: Option<seq<byte>>)

  function Emit<T>(r: Reply<T>, wrap: T -> Output): Reply<Output> {
    match r.result
    case Err(e) => Fail(r.next, e)
    case Ok(value) => Reply(r.next, Ok(wrap(value)))
  }

  function Try(s: State, call: Call, now: Instant): Reply<Output>
  {
    match call
    case WriteHandshake => Emit(TryWriteHandshake(s), m => HandshakeOut(m))
    case ReadHandshake(m) => Emit(TryReadHandshake(s, m), _ => Nothing)
    case Approve(peer, binding) => Emit(TryApprove(s, peer, binding), _ => Nothing)
    case WriteConfirmation => Emit(TryWriteConfirmation(s), f => FramesOut([f]))
    case ReadConfirmation(f) => Emit(TryReadConfirmation(s, f), _ => Nothing)
    case SealRecord(data) => Emit(TrySealRecord(s, data), frames => FramesOut(frames))
    case OpenFrame(f) => Emit(TryOpenFrame(s, f, now), record => RecordOut(record))
    case CheckAlive => Reply(s, Ok(Nothing))
  }

  function Step(s: State, call: Call, now: Instant): Reply<Output> {
    Checked(s, now, Try(s, call, now))
  }
}
