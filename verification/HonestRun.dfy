/** When nothing is lost, both ends become ready: the run the safety results speak of exists. */
module HonestRun {
  import opened Wrappers
  import opened Records
  import opened Runs
  import opened SecureSession
  import opened SessionExchange
  import opened TwoParty

  /** Two ends that meet: one pair, and a phone the desktop pinned or is enrolling. */
  predicate Matched(s: Setup, now: Instant) {
    && s.phonePair == s.desktopPair
    && s.pin in {None, Some(s.phoneKey)}
    && now - s.phoneCreated < HANDSHAKE_AGE_MS && now - s.desktopCreated < HANDSHAKE_AGE_MS
  }

  /** The transcript after `n` of the three messages. */
  function Tokens(s: Setup, n: nat): Transcript {
    Transcript(s.phonePair,
      if n == 0 then []
      else if n == 1 then [Ephemeral(s.phoneEphemeral)]
      else if n == 2 then [Ephemeral(s.phoneEphemeral), EphemeralStatic(s.desktopEphemeral, s.desktopKey)]
      else [Ephemeral(s.phoneEphemeral), EphemeralStatic(s.desktopEphemeral, s.desktopKey),
        StaticPsk(s.phoneKey, s.psk)])
  }

  // ----- The ends along the way -----

  /** The phone after `n` messages of the handshake. */
  function PhoneShaking(s: Setup, n: nat): State {
    Begin(s).phone.(
      handshake := Some(Handshake(true, Tokens(s, n), s.phoneKey, s.phoneEphemeral, s.psk)),
      peer := if n >= 2 then Some(s.desktopKey) else None)
  }

  function DesktopShaking(s: Setup, n: nat): State {
    Begin(s).desktop.(handshake := Some(Handshake(false, Tokens(s, n), s.desktopKey, s.desktopEphemeral, s.psk)))
  }

  /** The phone after the handshake, with so many confirmations sent and received. */
  function PhoneMet(s: Setup, phase: Phase, sent: nat, received: nat): State {
    var t := Tokens(s, 3);
    Begin(s).phone.(
      handshake := None, transport := Some(Transport(t, true, sent, received)), phase := phase,
      peer := Some(s.desktopKey), binding := Some(t),
      sentMessages := sent, sentBytes := sent * PHONE_CONFIRM_LENGTH,
      receivedMessages := received, receivedBytes := received * DESKTOP_CONFIRM_LENGTH)
  }

  function DesktopMet(s: Setup, phase: Phase, pin: Option<Key>, sent: nat, received: nat): State {
    var t := Tokens(s, 3);
    Begin(s).desktop.(
      handshake := None, transport := Some(Transport(t, false, sent, received)), phase := phase,
      expectedPeer := pin, peer := Some(s.phoneKey), binding := Some(t),
      sentMessages := sent, sentBytes := sent * DESKTOP_CONFIRM_LENGTH,
      receivedMessages := received, receivedBytes := received * PHONE_CONFIRM_LENGTH)
  }

  function Confirms(s: Setup, fromPhone: bool): Frame {
    Sealed(Tokens(s, 3), fromPhone, 0, Confirmation(fromPhone, Tokens(s, 3)))
  }

  // ----- Each call -----

  lemma PhoneBegins(s: Setup, now: Instant)
    requires Matched(s, now)
    ensures Step(PhoneShaking(s, 0), WriteHandshake, now)
         == Reply(PhoneShaking(s, 1), Ok(HandshakeOut(Message(Tokens(s, 1), 0))))
  {
    assert Tokens(s, 0).tokens + [Ephemeral(s.phoneEphemeral)] == Tokens(s, 1).tokens;
  }

  lemma DesktopReadsFirst(s: Setup, now: Instant)
    requires Matched(s, now)
    ensures Step(DesktopShaking(s, 0), ReadHandshake(Message(Tokens(s, 1), 0)), now)
      == Reply(DesktopShaking(s, 1), Ok(Nothing))
  {
    assert Tokens(s, 1).tokens[..0] == [];
  }

  lemma DesktopAnswers(s: Setup, now: Instant)
    requires Matched(s, now)
    ensures Step(DesktopShaking(s, 1), WriteHandshake, now)
         == Reply(DesktopShaking(s, 2), Ok(HandshakeOut(Message(Tokens(s, 2), 0))))
  {
    assert Tokens(s, 1).tokens + [EphemeralStatic(s.desktopEphemeral, s.desktopKey)] == Tokens(s, 2).tokens;
  }

  lemma PhoneReadsSecond(s: Setup, now: Instant)
    requires Matched(s, now)
    ensures Step(PhoneShaking(s, 1), ReadHandshake(Message(Tokens(s, 2), 0)), now)
      == Reply(PhoneShaking(s, 2), Ok(Nothing))
  {
    assert Tokens(s, 2).tokens[..1] == Tokens(s, 1).tokens;
  }

  lemma PhoneFinishes(s: Setup, now: Instant)
    requires Matched(s, now)
    ensures Step(PhoneShaking(s, 2), WriteHandshake, now)
         == Reply(PhoneMet(s, AwaitingDesktopConfirmation, 0, 0), Ok(HandshakeOut(Message(Tokens(s, 3), 0))))
  {
    assert Tokens(s, 2).tokens + [StaticPsk(s.phoneKey, s.psk)] == Tokens(s, 3).tokens;
  }

  lemma DesktopFinishes(s: Setup, now: Instant)
    requires Matched(s, now)
    ensures Step(DesktopShaking(s, 2), ReadHandshake(Message(Tokens(s, 3), 0)), now)
         == Reply(DesktopMet(s, if s.pin.None? then AwaitingApproval else SendDesktopConfirmation, s.pin, 0, 0),
           Ok(Nothing))
  {
    assert Tokens(s, 3).tokens[..2] == Tokens(s, 2).tokens;
  }

  lemma DesktopTakesOn(s: Setup, now: Instant)
    requires Matched(s, now) && s.pin.None?
    ensures Step(DesktopMet(s, AwaitingApproval, None, 0, 0), Approve(s.phoneKey, Tokens(s, 3)), now)
         == Reply(DesktopMet(s, SendDesktopConfirmation, Some(s.phoneKey), 0, 0), Ok(Nothing))
  {
  }

  lemma DesktopConfirmsTo(s: Setup, now: Instant)
    requires Matched(s, now)
    ensures Step(DesktopMet(s, SendDesktopConfirmation, Some(s.phoneKey), 0, 0), WriteConfirmation, now)
         == Reply(DesktopMet(s, AwaitingPhoneConfirmation, Some(s.phoneKey), 1, 0), Ok(FramesOut([Confirms(s, false)])))
  {
  }

  lemma PhoneHears(s: Setup, now: Instant)
    requires Matched(s, now)
    ensures Step(PhoneMet(s, AwaitingDesktopConfirmation, 0, 0), ReadConfirmation(Confirms(s, false)), now)
         == Reply(PhoneMet(s, SendPhoneConfirmation, 0, 1), Ok(Nothing))
  {
  }

  lemma PhoneConfirmsBack(s: Setup, now: Instant)
    requires Matched(s, now)
    ensures Step(PhoneMet(s, SendPhoneConfirmation, 0, 1), WriteConfirmation, now)
         == Reply(PhoneMet(s, Ready, 1, 1), Ok(FramesOut([Confirms(s, true)])))
  {
  }

  lemma DesktopHears(s: Setup, now: Instant)
    requires Matched(s, now)
    ensures Step(
        DesktopMet(s, AwaitingPhoneConfirmation, Some(s.phoneKey), 1, 0), ReadConfirmation(Confirms(s, true)), now)
         == Reply(DesktopMet(s, Ready, Some(s.phoneKey), 1, 1), Ok(Nothing))
  {
  }

  // ----- The run -----

  /** What matters of a world on the way: its two ends, and what can be delivered. */
  predicate At(w: World, phone: State, desktop: State, messages: set<HandshakeFrame>, frames: set<Frame>) {
    w.phone == phone && w.desktop == desktop && messages <= w.messages && frames <= w.frames
  }

  lemma PhoneMoves(w: World, call: Call, now: Instant, phone: State, desktop: State, next: State, output: Output)
    requires At(w, phone, desktop, {}, {}) && Step(phone, call, now) == Reply(next, Ok(output))
    ensures var v := Next(w, Event(true, call, now));
      && v.phone == next && v.desktop == desktop && w.messages <= v.messages && w.frames <= v.frames
      && (output.HandshakeOut? ==> output.message in v.messages)
      && (output.FramesOut? ==> forall f :: f in output.frames ==> f in v.frames)
  {
  }

  lemma DesktopMoves(w: World, call: Call, now: Instant, phone: State, desktop: State, next: State, output: Output)
    requires At(w, phone, desktop, {}, {}) && Step(desktop, call, now) == Reply(next, Ok(output))
    ensures var v := Next(w, Event(false, call, now));
      && v.phone == phone && v.desktop == next && w.messages <= v.messages && w.frames <= v.frames
      && (output.HandshakeOut? ==> output.message in v.messages)
      && (output.FramesOut? ==> forall f :: f in output.frames ==> f in v.frames)
  {
  }

  /** A run so far, and where it has led. */
  ghost predicate Led(
      s: Setup, events: seq<Event>, phone: State, desktop: State, message: Option<HandshakeFrame>,
      frame: Option<Frame>) {
    && Possible(Begin(s), events)
    && At(Run(Begin(s), events, |events|), phone, desktop,
          if message.Some? then {message.value} else {}, if frame.Some? then {frame.value} else {})
  }

  lemma Goes(
      s: Setup, events: seq<Event>, e: Event, phone: State, desktop: State, message: Option<HandshakeFrame>,
      frame: Option<Frame>)
    requires Led(s, events, phone, desktop, message, frame)
    requires match e.call
      case ReadHandshake(m) => message == Some(m)
      case ReadConfirmation(f) => frame == Some(f)
      case OpenFrame(_) => false
      case _ => true
    ensures Possible(Begin(s), events + [e])
    ensures Run(Begin(s), events + [e], |events + [e]|) == Next(Run(Begin(s), events, |events|), e)
  {
    Extended(Next, CanHappen, Begin(s), events, e);
  }

  lemma PhoneGoes(
      s: Setup, events: seq<Event>, call: Call, now: Instant, phone: State, desktop: State,
      message: Option<HandshakeFrame>, frame: Option<Frame>, next: State, output: Output)
    requires Led(s, events, phone, desktop, message, frame) && Step(phone, call, now) == Reply(next, Ok(output))
    requires match call
      case ReadHandshake(m) => message == Some(m)
      case ReadConfirmation(f) => frame == Some(f)
      case OpenFrame(_) => false
      case _ => true
    ensures Led(s, events + [Event(true, call, now)], next, desktop,
      if output.HandshakeOut? then Some(output.message) else message,
      if output.FramesOut? && |output.frames| == 1 then Some(output.frames[0]) else frame)
  {
    Goes(s, events, Event(true, call, now), phone, desktop, message, frame);
    PhoneMoves(Run(Begin(s), events, |events|), call, now, phone, desktop, next, output);
  }

  lemma DesktopGoes(
      s: Setup, events: seq<Event>, call: Call, now: Instant, phone: State, desktop: State,
      message: Option<HandshakeFrame>, frame: Option<Frame>, next: State, output: Output)
    requires Led(s, events, phone, desktop, message, frame) && Step(desktop, call, now) == Reply(next, Ok(output))
    requires match call
      case ReadHandshake(m) => message == Some(m)
      case ReadConfirmation(f) => frame == Some(f)
      case OpenFrame(_) => false
      case _ => true
    ensures Led(s, events + [Event(false, call, now)], phone, next,
      if output.HandshakeOut? then Some(output.message) else message,
      if output.FramesOut? && |output.frames| == 1 then Some(output.frames[0]) else frame)
  {
    Goes(s, events, Event(false, call, now), phone, desktop, message, frame);
    DesktopMoves(Run(Begin(s), events, |events|), call, now, phone, desktop, next, output);
  }

  /** The three messages of the handshake. */
  lemma HandshakeRun(s: Setup, now: Instant) returns (events: seq<Event>)
    requires Matched(s, now)
    ensures Led(s, events, PhoneMet(s, AwaitingDesktopConfirmation, 0, 0),
      DesktopMet(s, if s.pin.None? then AwaitingApproval else SendDesktopConfirmation, s.pin, 0, 0),
        Some(Message(Tokens(s, 3), 0)), None)
  {
    var m1, m2, m3 := Message(Tokens(s, 1), 0), Message(Tokens(s, 2), 0), Message(Tokens(s, 3), 0);
    var met := DesktopMet(s, if s.pin.None? then AwaitingApproval else SendDesktopConfirmation, s.pin, 0, 0);
    events := [];
    PhoneBegins(s, now);
    PhoneGoes(
      s, events, WriteHandshake, now, PhoneShaking(s, 0), DesktopShaking(s, 0), None, None, PhoneShaking(s, 1),
      HandshakeOut(m1));
    events := events + [Event(true, WriteHandshake, now)];
    DesktopReadsFirst(s, now);
    DesktopGoes(
      s, events, ReadHandshake(m1), now, PhoneShaking(s, 1), DesktopShaking(s, 0), Some(m1), None, DesktopShaking(s, 1),
      Nothing);
    events := events + [Event(false, ReadHandshake(m1), now)];
    DesktopAnswers(s, now);
    DesktopGoes(
      s, events, WriteHandshake, now, PhoneShaking(s, 1), DesktopShaking(s, 1), Some(m1), None, DesktopShaking(s, 2),
      HandshakeOut(m2));
    events := events + [Event(false, WriteHandshake, now)];
    PhoneReadsSecond(s, now);
    PhoneGoes(
      s, events, ReadHandshake(m2), now, PhoneShaking(s, 1), DesktopShaking(s, 2), Some(m2), None, PhoneShaking(s, 2),
      Nothing);
    events := events + [Event(true, ReadHandshake(m2), now)];
    PhoneFinishes(s, now);
    PhoneGoes(s, events, WriteHandshake, now, PhoneShaking(s, 2), DesktopShaking(s, 2), Some(m2), None,
      PhoneMet(s, AwaitingDesktopConfirmation, 0, 0), HandshakeOut(m3));
    events := events + [Event(true, WriteHandshake, now)];
    DesktopFinishes(s, now);
    DesktopGoes(
      s, events, ReadHandshake(m3), now, PhoneMet(s, AwaitingDesktopConfirmation, 0, 0), DesktopShaking(s, 2), Some(m3),
      None, met, Nothing);
    events := events + [Event(false, ReadHandshake(m3), now)];
  }

  /** The desktop's user approves an unpinned phone; a pinned one needs no approval. */
  lemma VouchedRun(s: Setup, now: Instant) returns (events: seq<Event>)
    requires Matched(s, now)
    ensures Led(s, events, PhoneMet(s, AwaitingDesktopConfirmation, 0, 0),
      DesktopMet(s, SendDesktopConfirmation, Some(s.phoneKey), 0, 0), Some(Message(Tokens(s, 3), 0)), None)
  {
    events := HandshakeRun(s, now);
    if s.pin.None? {
      DesktopTakesOn(s, now);
      DesktopGoes(s, events, Approve(s.phoneKey, Tokens(s, 3)), now, PhoneMet(s, AwaitingDesktopConfirmation, 0, 0),
        DesktopMet(s, AwaitingApproval, None, 0, 0), Some(Message(Tokens(s, 3), 0)), None,
        DesktopMet(s, SendDesktopConfirmation, Some(s.phoneKey), 0, 0), Nothing);
      events := events + [Event(false, Approve(s.phoneKey, Tokens(s, 3)), now)];
    }
  }

  /** Some possible run ends with both ends ready, over one transcript, each with the other's static key, and in sync in
      both directions: the exchange of records can begin. */
  lemma BothReady(s: Setup, now: Instant) returns (events: seq<Event>)
    requires Matched(s, now)
    ensures Possible(Begin(s), events)
    ensures var w := Run(Begin(s), events, |events|);
      && w.phone.phase == Ready && w.desktop.phase == Ready && w.phone.binding == w.desktop.binding
      && w.phone.peer == Some(s.desktopKey) && w.desktop.peer == Some(s.phoneKey)
      && InSync(w.phone, w.desktop) && InSync(w.desktop, w.phone)
  {
    var m := Some(Message(Tokens(s, 3), 0));
    var f1, f2 := Confirms(s, false), Confirms(s, true);
    var pinned := Some(s.phoneKey);
    events := VouchedRun(s, now);
    DesktopConfirmsTo(s, now);
    DesktopGoes(s, events, WriteConfirmation, now, PhoneMet(s, AwaitingDesktopConfirmation, 0, 0),
      DesktopMet(s, SendDesktopConfirmation, pinned, 0, 0), m, None,
      DesktopMet(s, AwaitingPhoneConfirmation, pinned, 1, 0), FramesOut([f1]));
    events := events + [Event(false, WriteConfirmation, now)];
    PhoneHears(s, now);
    PhoneGoes(s, events, ReadConfirmation(f1), now, PhoneMet(s, AwaitingDesktopConfirmation, 0, 0),
      DesktopMet(s, AwaitingPhoneConfirmation, pinned, 1, 0), m, Some(f1),
      PhoneMet(s, SendPhoneConfirmation, 0, 1), Nothing);
    events := events + [Event(true, ReadConfirmation(f1), now)];
    PhoneConfirmsBack(s, now);
    PhoneGoes(s, events, WriteConfirmation, now, PhoneMet(s, SendPhoneConfirmation, 0, 1),
      DesktopMet(s, AwaitingPhoneConfirmation, pinned, 1, 0), m, Some(f1), PhoneMet(s, Ready, 1, 1), FramesOut([f2]));
    events := events + [Event(true, WriteConfirmation, now)];
    DesktopHears(s, now);
    DesktopGoes(s, events, ReadConfirmation(f2), now, PhoneMet(s, Ready, 1, 1),
      DesktopMet(s, AwaitingPhoneConfirmation, pinned, 1, 0), m, Some(f2), DesktopMet(s, Ready, pinned, 1, 1), Nothing);
    events := events + [Event(false, ReadConfirmation(f2), now)];
  }
}
