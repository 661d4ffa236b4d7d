/** An honest phone and an honest desktop over a network that may drop, repeat, reorder and invent frames. */
module TwoParty {
  import opened Wrappers
  import opened Records
  import opened Runs
  import opened SecureSession
  import opened SessionLaws

  datatype World = World(
    phone: State,
    desktop: State,
    phoneKey: Key,
    desktopKey: Key,
    psk: Key,
    pin: Option<Key>,
    // What honest parties have put on the wire.
    messages: set<HandshakeFrame>,
    frames: set<Frame>,
    // History: the transcript each end completed the handshake with, the one the phone became ready with,
    // the one the desktop vouched for, and the approvals the desktop's user gave.
    phoneFinal: Option<Transcript>,
    desktopFinal: Option<Transcript>,
    phoneReady: Option<Transcript>,
    vouched: Option<Transcript>,
    approvals: set<(Key, Transcript)>)

  datatype Event = Event(onPhone: bool, call: Call, now: Instant)

  predicate Honest(w: World, key: Key) {
    key == w.phoneKey || key == w.desktopKey
  }

  /** What the network can invent: an ephemeral of its own, a static key of its own, or a last message under
      another pre-shared key. It holds no honest static key and not the pre-shared key. */
  predicate Forgeable(w: World, m: HandshakeFrame) {
    match m
    case Unreadable(_) => true
    case Message(t, _) =>
      match |t.tokens|
      case 1 => true
      case 2 => !(t.tokens[1].EphemeralStatic? && Honest(w, t.tokens[1].s))
      case 3 => !(t.tokens[2].StaticPsk? && t.tokens[2].psk == w.psk)
      case _ => true
  }

  predicate Deliverable(w: World, call: Call) {
    match call
    case ReadHandshake(m) => m in w.messages || Forgeable(w, m)
    case ReadConfirmation(f) => f in w.frames || f.Unopenable?
    case OpenFrame(f) => f in w.frames || f.Unopenable?
    case _ => true
  }

  function Sent(frames: seq<Frame>): set<Frame> {
    set f | f in frames
  }

  function Put(w: World, output: Output): World {
    match output
    case HandshakeOut(m) => w.(messages := w.messages + {m})
    case FramesOut(frames) => w.(frames := w.frames + Sent(frames))
    case _ => w
  }

  /** The handshake completed in this step. */
  predicate Completes(before: State, after: State) {
    before.binding.None? && after.binding.Some?
  }

  function PhoneStep(w: World, call: Call, now: Instant): World {
    var r := Step(w.phone, call, now);
    var moved := w.(
      phone := r.next,
      phoneFinal := if Completes(w.phone, r.next) then r.next.binding else w.phoneFinal,
      phoneReady := if w.phone.phase != Ready && r.next.phase == Ready then r.next.binding else w.phoneReady);
    if r.result.Ok? then Put(moved, r.result.value) else moved
  }

  function DesktopStep(w: World, call: Call, now: Instant): World {
    var r := Step(w.desktop, call, now);
    var moved := w.(
      desktop := r.next,
      desktopFinal := if Completes(w.desktop, r.next) then r.next.binding else w.desktopFinal,
      vouched := if w.desktop.phase == SendDesktopConfirmation && r.next.phase == AwaitingPhoneConfirmation
                 then r.next.binding else w.vouched,
      approvals := if call.Approve? && r.result.Ok? then w.approvals + {(call.approvedPeer, call.approvedBinding)}
                   else w.approvals);
    if r.result.Ok? then Put(moved, r.result.value) else moved
  }

  function Next(w: World, e: Event): World {
    if e.onPhone then PhoneStep(w, e.call, e.now) else DesktopStep(w, e.call, e.now)
  }

  type Stepper = (World, Event) -> World

  /** The world after the first `n` events. */
  function Run(w: World, events: seq<Event>, n: nat): World
    requires n <= |events|
  {
    RunTo(Next, w, events, n)
  }

  /** Every frame handed to an end was sent by someone or can be invented. */
  ghost predicate Possible(w: World, events: seq<Event>) {
    Follows(Next, CanHappen, w, events)
  }

  predicate CanHappen(w: World, e: Event) {
    Deliverable(w, e.call)
  }

  datatype Setup = Setup(
    phoneKey: Key, desktopKey: Key, psk: Key, pin: Option<Key>,
    phoneEphemeral: Key, desktopEphemeral: Key, phonePair: Key, desktopPair: Key,
    phoneCreated: Instant, desktopCreated: Instant)

  /** Both ends just created: the phone pins the desktop, and the desktop pins a phone or is enrolling one. */
  function Begin(s: Setup): World {
    World(
      Initial(true, s.phoneKey, s.phoneEphemeral, s.psk, s.phonePair, Some(s.desktopKey), s.phoneCreated),
      Initial(false, s.desktopKey, s.desktopEphemeral, s.psk, s.desktopPair, s.pin, s.desktopCreated),
      s.phoneKey, s.desktopKey, s.psk, s.pin, {}, {}, None, None, None, None, {})
  }

  // ----- The invariant -----

  predicate KeysMatch(s: State, identity: Key, psk: Key) {
    s.handshake.Some? ==> s.handshake.value.identity == identity && s.handshake.value.psk == psk
  }

  /** The last handshake message is the phone's and shows the desktop's static key. */
  predicate PhoneWrote(w: World, t: Transcript) {
    && |t.tokens| == 3
    && t.tokens[1].EphemeralStatic? && t.tokens[1].s == w.desktopKey
    && t.tokens[2] == StaticPsk(w.phoneKey, w.psk)
  }

  predicate PhoneSafe(w: World) {
    && Consistent(w.phone) && w.phone.phone && w.phone.expectedPeer == Some(w.desktopKey)
    && KeysMatch(w.phone, w.phoneKey, w.psk)
    && (w.phoneFinal.Some? ==> PhoneWrote(w, w.phoneFinal.value))
    && (w.phoneReady.Some? ==> w.phoneReady == w.phoneFinal == w.vouched)
    && match w.phone.phase
       case Handshaking => w.phoneFinal.None?
       case Closed => true
       case SendPhoneConfirmation => w.phone.binding == w.phoneFinal == w.vouched
       case Ready => w.phone.binding == w.phoneFinal == w.phoneReady
       case _ => w.phone.binding == w.phoneFinal
  }

  predicate Vouches(w: World, t: Transcript) {
    w.pin == Some(w.phoneKey) || (w.phoneKey, t) in w.approvals
  }

  predicate DesktopSafe(w: World) {
    && Consistent(w.desktop) && !w.desktop.phone
    && KeysMatch(w.desktop, w.desktopKey, w.psk)
    && (w.desktopFinal.Some? ==> w.desktopFinal == w.phoneFinal)
    && (w.vouched.Some? ==> w.vouched == w.desktopFinal && Vouches(w, w.vouched.value))
    && match w.desktop.phase
       case Handshaking => w.desktopFinal.None? && w.desktop.expectedPeer == w.pin
       case Closed => true
       case AwaitingApproval => w.desktop.binding == w.desktopFinal && w.desktop.expectedPeer == w.pin
       case SendDesktopConfirmation => w.desktop.binding == w.desktopFinal && Vouches(w, w.desktopFinal.value)
       case Ready => w.desktop.binding == w.desktopFinal == w.phoneReady
       case _ => w.desktop.binding == w.desktopFinal
  }

  predicate MessageSafe(w: World, m: HandshakeFrame) {
    m.Message? && (|m.transcript.tokens| == 3 ==> w.phoneFinal == Some(m.transcript))
  }

  /** A direction's first frame is its confirmation, sent by a phone that is ready or a desktop that vouches. */
  predicate FrameSafe(w: World, f: Frame) {
    && f.Sealed?
    && (f.fromPhone ==> w.phoneFinal == Some(f.binding) && (f.counter == 0 ==> w.phoneReady == w.phoneFinal))
    && (!f.fromPhone ==> w.desktopFinal == Some(f.binding) && (f.counter == 0 ==> w.vouched == w.desktopFinal))
  }

  predicate Safe(w: World) {
    && w.phoneKey != w.desktopKey
    && PhoneSafe(w) && DesktopSafe(w)
    && (forall m :: m in w.messages ==> MessageSafe(w, m))
    && (forall f :: f in w.frames ==> FrameSafe(w, f))
  }

  // ----- What a step puts on the wire -----

  /** Frames a session emits carry its binding, its direction and counters from its budget on. */
  predicate EmittedBy(s: State, frames: seq<Frame>) {
    && s.transport.Some?
    && forall i :: 0 <= i < |frames| ==>
         && frames[i].Sealed?
         && frames[i].binding == s.transport.value.binding
         && frames[i].fromPhone == s.transport.value.phone
         && frames[i].counter == s.transport.value.sendCounter + i
  }

  lemma {:induction false} EncryptEmits(s: State, plaintexts: seq<Plaintext>, n: nat)
    requires n <= |plaintexts| && s.transport.Some?
    requires EncryptTo(s, plaintexts, n).result.Ok?
    ensures var r := EncryptTo(s, plaintexts, n);
      && EmittedBy(s, r.result.value) && |r.result.value| == n
      && r.next.transport == Some(s.transport.value.(sendCounter := s.transport.value.sendCounter + n))
  {
    if n != 0 {
      EncryptEmits(s, plaintexts, n - 1);
    }
  }

  /** What a record call does to a ready session: it may close it, else only counters and buffers move. */
  predicate RecordMoves(s: State, r: Reply<Output>) {
    r.result.Ok? ==>
      && r.next.phase == s.phase && r.next.binding == s.binding && r.next.expectedPeer == s.expectedPeer
      && r.next.handshake == s.handshake
      && match r.result.value
         case FramesOut(frames) => s.phase == Ready && EmittedBy(s, frames)
         case HandshakeOut(_) => false
         case _ => true
  }

  predicate RecordCall(call: Call) {
    call.SealRecord? || call.OpenFrame? || call.CheckAlive?
  }

  lemma RecordCallMoves(s: State, call: Call, now: Instant)
    requires Consistent(s) && RecordCall(call)
    ensures RecordMoves(s, Step(s, call, now))
    ensures Step(s, call, now).result.Err? ==> Step(s, call, now).next.handshake.None?
    ensures Step(s, call, now).next.expectedPeer == s.expectedPeer
  {
    if call.SealRecord? && s.phase == Ready && call.record != [] && |call.record| <= MAX_RECORD {
      var ps := RecordPlaintexts(s.outgoingRecord, call.record);
      if EncryptTo(s, ps, |ps|).result.Ok? {
        EncryptEmits(s, ps, |ps|);
      }
      EncryptKeepsPeer(s, ps, |ps|);
    }
  }

  lemma {:induction false} EncryptKeepsPeer(s: State, plaintexts: seq<Plaintext>, n: nat)
    requires n <= |plaintexts|
    ensures var next := EncryptTo(s, plaintexts, n).next;
      && next.expectedPeer == s.expectedPeer && next.phase == s.phase && next.binding == s.binding
      && next.handshake == s.handshake
  {
    if n != 0 {
      EncryptKeepsPeer(s, plaintexts, n - 1);
    }
  }

  // ----- Every step keeps the invariant -----

  lemma PhoneWritesHandshake(w: World, call: Call, now: Instant)
    requires Safe(w) && call.WriteHandshake? && Deliverable(w, call)
    ensures Safe(PhoneStep(w, call, now))
  {
    StepLaws(w.phone, call, now);
  }

  lemma PhoneReadsHandshake(w: World, call: Call, now: Instant)
    requires Safe(w) && call.ReadHandshake? && Deliverable(w, call)
    ensures Safe(PhoneStep(w, call, now))
  {
    StepLaws(w.phone, call, now);
  }

  lemma PhoneApproves(w: World, call: Call, now: Instant)
    requires Safe(w) && call.Approve? && Deliverable(w, call)
    ensures Safe(PhoneStep(w, call, now))
  {
    StepLaws(w.phone, call, now);
  }

  lemma DesktopWritesHandshake(w: World, call: Call, now: Instant)
    requires Safe(w) && call.WriteHandshake? && Deliverable(w, call)
    ensures Safe(DesktopStep(w, call, now))
  {
    StepLaws(w.desktop, call, now);
  }

  lemma DesktopReadsHandshake(w: World, call: Call, now: Instant)
    requires Safe(w) && call.ReadHandshake? && Deliverable(w, call)
    ensures Safe(DesktopStep(w, call, now))
  {
    StepLaws(w.desktop, call, now);
  }

  lemma DesktopApproves(w: World, call: Call, now: Instant)
    requires Safe(w) && call.Approve? && Deliverable(w, call)
    ensures Safe(DesktopStep(w, call, now))
  {
    StepLaws(w.desktop, call, now);
  }

  lemma PhoneWritesConfirmation(w: World, call: Call, now: Instant)
    requires Safe(w) && call.WriteConfirmation? && Deliverable(w, call)
    ensures Safe(PhoneStep(w, call, now))
  {
    StepLaws(w.phone, call, now);
  }

  /** A confirmation is read by a session that awaits one, from the other side and over the same transcript. */
  lemma ConfirmationRead(s: State, f: Frame, now: Instant)
    requires Consistent(s)
    ensures var r := Step(s, ReadConfirmation(f), now);
      match r.result
      case Err(_) => r.next == Close(r.next) && r.next.expectedPeer == s.expectedPeer
      case Ok(output) =>
        && output == Nothing && s.transport.Some? && Opens(s.transport.value, f)
        && (s.phase == AwaitingPhoneConfirmation || s.phase == AwaitingDesktopConfirmation)
        && f.plaintext == Confirmation(s.phase == AwaitingPhoneConfirmation, s.transport.value.binding)
        && r.next == s.(
             transport := r.next.transport, receivedMessages := r.next.receivedMessages,
               receivedBytes := r.next.receivedBytes,
             phase := if s.phase == AwaitingPhoneConfirmation then Ready else SendPhoneConfirmation)
  {
  }

  lemma PhoneReadsConfirmation(w: World, call: Call, now: Instant)
    requires Safe(w) && call.ReadConfirmation? && Deliverable(w, call)
    ensures Safe(PhoneStep(w, call, now))
  {
    StepLaws(w.phone, call, now);
    ConfirmationRead(w.phone, call.confirmation, now);
  }

  lemma DesktopWritesConfirmation(w: World, call: Call, now: Instant)
    requires Safe(w) && call.WriteConfirmation? && Deliverable(w, call)
    ensures Safe(DesktopStep(w, call, now))
  {
    StepLaws(w.desktop, call, now);
  }

  lemma DesktopReadsConfirmation(w: World, call: Call, now: Instant)
    requires Safe(w) && call.ReadConfirmation? && Deliverable(w, call)
    ensures Safe(DesktopStep(w, call, now))
  {
    StepLaws(w.desktop, call, now);
    ConfirmationRead(w.desktop, call.confirmation, now);
  }

  lemma PhoneExchanges(w: World, call: Call, now: Instant)
    requires Safe(w) && RecordCall(call)
    ensures Safe(PhoneStep(w, call, now))
  {
    StepLaws(w.phone, call, now);
    RecordCallMoves(w.phone, call, now);
  }

  lemma DesktopExchanges(w: World, call: Call, now: Instant)
    requires Safe(w) && RecordCall(call)
    ensures Safe(DesktopStep(w, call, now))
  {
    StepLaws(w.desktop, call, now);
    RecordCallMoves(w.desktop, call, now);
  }

  lemma NextSafe(w: World, e: Event)
    requires Safe(w) && Deliverable(w, e.call)
    ensures Safe(Next(w, e))
  {
    if e.onPhone {
      match e.call {
        case WriteHandshake => PhoneWritesHandshake(w, e.call, e.now);
        case ReadHandshake(_) => PhoneReadsHandshake(w, e.call, e.now);
        case Approve(_, _) => PhoneApproves(w, e.call, e.now);
        case WriteConfirmation => PhoneWritesConfirmation(w, e.call, e.now);
        case ReadConfirmation(_) => PhoneReadsConfirmation(w, e.call, e.now);
        case _ => PhoneExchanges(w, e.call, e.now);
      }
    } else {
      match e.call {
        case WriteHandshake => DesktopWritesHandshake(w, e.call, e.now);
        case ReadHandshake(_) => DesktopReadsHandshake(w, e.call, e.now);
        case Approve(_, _) => DesktopApproves(w, e.call, e.now);
        case WriteConfirmation => DesktopWritesConfirmation(w, e.call, e.now);
        case ReadConfirmation(_) => DesktopReadsConfirmation(w, e.call, e.now);
        case _ => DesktopExchanges(w, e.call, e.now);
      }
    }
  }

  /** What one event may add to the history, given the world it leads to. */
  predicate History(w: World, e: Event, after: World) {
    && after.pin == w.pin && after.phoneKey == w.phoneKey && after.desktopKey == w.desktopKey
    && (after.phoneReady != w.phoneReady ==> after.phone.phase == Ready && after.phone.binding == after.phoneReady)
    && (forall a :: a in after.approvals && a !in w.approvals ==> e == Event(false, Approve(a.0, a.1), e.now))
  }

  lemma NextHistory(w: World, e: Event)
    ensures History(w, e, Next(w, e))
  {
  }

  ghost predicate KeepsHistory(next: Stepper) {
    forall w, e :: History(w, e, Apply(next, w, e))
  }

  predicate ReadyWith(w: World, t: Option<Transcript>) {
    w.phone.phase == Ready && w.phone.binding == t
  }

  predicate ApprovedAt(events: seq<Event>, j: nat, peer: Key, t: Transcript)
    requires j < |events|
  {
    !events[j].onPhone && events[j].call == Approve(peer, t)
  }

  /** Whatever the history holds after `n` events, some earlier moment put there. */
  ghost predicate Recorded(next: Stepper, w: World, events: seq<Event>, n: nat)
    requires n <= |events|
  {
    var after := RunTo(next, w, events, n);
    && after.pin == w.pin && after.phoneKey == w.phoneKey && after.desktopKey == w.desktopKey
    && (after.phoneReady.Some? ==> exists i :: 0 <= i <= n && ReadyWith(RunTo(next, w, events, i), after.phoneReady))
    && (forall a :: a in after.approvals ==> exists j :: 0 <= j < n && ApprovedAt(events, j, a.0, a.1))
  }

  lemma {:induction false} StepperHistory(next: Stepper, w: World, events: seq<Event>, n: nat)
    requires KeepsHistory(next) && n <= |events|
    requires w.phoneReady.None? && w.approvals == {}
    ensures Recorded(next, w, events, n)
  {
    if n != 0 {
      StepperHistory(next, w, events, n - 1);
      var before, after := RunTo(next, w, events, n - 1), RunTo(next, w, events, n);
      assert History(before, events[n - 1], after);
      if after.phoneReady != before.phoneReady {
        assert ReadyWith(RunTo(next, w, events, n), after.phoneReady);
      }
      forall a | a in after.approvals
        ensures exists j :: 0 <= j < n && ApprovedAt(events, j, a.0, a.1)
      {
        if a !in before.approvals {
          assert ApprovedAt(events, n - 1, a.0, a.1);
        }
      }
    }
  }

  /** Every run of honest ends keeps the invariant and the history honest. */
  lemma EveryRun(s: Setup, events: seq<Event>, n: nat)
    requires s.phoneKey != s.desktopKey && n <= |events| && Possible(Begin(s), events)
    ensures Safe(Run(Begin(s), events, n))
    ensures Recorded(Next, Begin(s), events, n)
  {
    forall v: World, e: Event | Holds(Safe, v) && Fits(CanHappen, v, e)
      ensures Holds(Safe, Apply(Next, v, e))
    {
      NextSafe(v, e);
    }
    InductiveHolds(Next, Safe, CanHappen, Begin(s), events, n);
    forall v, e
      ensures History(v, e, Apply(Next, v, e))
    {
      NextHistory(v, e);
    }
    StepperHistory(Next, Begin(s), events, n);
  }

  // ----- Main results -----

  /** The desktop is ready only after the phone was, over the same transcript, each having recorded the other's
      static key. */
  lemma DesktopReadyAfterPhone(s: Setup, events: seq<Event>, n: nat) returns (i: nat)
    requires s.phoneKey != s.desktopKey && n <= |events| && Possible(Begin(s), events)
    requires Run(Begin(s), events, n).desktop.phase == Ready
    ensures Run(Begin(s), events, n).desktop.peer == Some(s.phoneKey)
    ensures i <= n && ReadyWith(Run(Begin(s), events, i), Run(Begin(s), events, n).desktop.binding)
    ensures Run(Begin(s), events, i).phone.peer == Some(s.desktopKey)
  {
    EveryRun(s, events, n);
    var after := Run(Begin(s), events, n);
    i :| 0 <= i <= n && ReadyWith(RunTo(Next, Begin(s), events, i), after.phoneReady);
    EveryRun(s, events, i);
  }

  /** A phone is ready only if the desktop had this phone pinned, or its user approved this phone for this very
      transcript. */
  lemma PhoneReadyVouchedFor(s: Setup, events: seq<Event>, n: nat)
    requires s.phoneKey != s.desktopKey && n <= |events| && Possible(Begin(s), events)
    requires Run(Begin(s), events, n).phone.phase == Ready
    ensures Run(Begin(s), events, n).phone.binding.Some?
    ensures Run(Begin(s), events, n).phone.peer == Some(s.desktopKey)
    ensures s.pin == Some(s.phoneKey)
      || exists j :: 0 <= j < n && ApprovedAt(events, j, s.phoneKey, Run(Begin(s), events, n).phone.binding.value)
  {
    EveryRun(s, events, n);
  }
}
