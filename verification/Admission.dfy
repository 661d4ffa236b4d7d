/** Which phone the desktop lets attach (desktop/core/src/attach.rs, desktop/src-tauri/src/state.rs, and the AUTH step
    of ws_server.rs).  Each command and each AUTH is one step; what the clock, the settings store and the saved-device
    table answer, and whether a store write succeeds, are parameters. */
module Admission {
  import opened Wrappers
  import opened Minimum
  import opened Runs

  type Instant = int
  type Key = nat
  type Device = nat
  type Channel = nat

  const CODE_LIFETIME_MS: int := 5 * 60 * 1000
  const REUSE_MARGIN_MS: int := 30_000
  const RECONNECT_GRACE_MS: int := 90_000

  /** The pairing code on screen. */
  datatype Code = Code(device: Device, key: Key, expiresAt: Instant)

  datatype State = State(
    paused: bool, allowance: bool, approved: Option<Device>,
    pairing: Option<Code>, stored: Option<Code>,
    sender: Option<Channel>, lostAt: Instant, announced: bool,
    refused: bool, awaitingRequest: bool, relayRequested: bool, enrollmentArmed: bool,
    // History: every key that was ever on screen.
    minted: set<Key>)

  // ----- The rule -----

  /** Whether a phone may attach, and whether the single-use allowance was taken. */
  datatype Ruling = Ruling(admitted: bool, taken: bool)

  /** may_attach; the allowance is consulted last, and only if it matters. */
  function MayAttach(paused: bool, auto: bool, holdsCode: bool, resuming: bool, allowance: bool): Ruling {
    if paused then if holdsCode then Ruling(true, false) else Ruling(allowance, true)
    else if auto || holdsCode || resuming then Ruling(true, false)
    else Ruling(allowance, true)
  }

  // ----- Steps -----

  /** current_pairing: a code missing from memory is recovered from the store while it is valid. */
  function Recovered(s: State, now: Instant): State {
    if s.pairing.None? && s.stored.Some? && s.stored.value.expiresAt > now then s.(pairing := s.stored) else s
  }

  predicate Live(c: Option<Code>, now: Instant) {
    c.Some? && c.value.expiresAt > now
  }

  /** generate_pairing_qr: a code with time left is shown again, otherwise a new one is minted. */
  function ShowCode(
      s: State, forPairing: bool, now: Instant, device: Device, key: Key, hasRelay: bool, stores: bool): State {
    var r := Recovered(s, now);
    var reused := r.pairing.Some? && r.pairing.value.expiresAt > now + REUSE_MARGIN_MS;
    var code := if reused then r.pairing.value else Code(device, key, now + CODE_LIFETIME_MS);
    r.(
      pairing := Some(code), stored := if stores then Some(code) else r.stored,
      enrollmentArmed := r.enrollmentArmed || (forPairing && !reused),
      relayRequested := r.relayRequested || hasRelay, awaitingRequest := r.awaitingRequest && !hasRelay,
      minted := r.minted + {code.key})
  }

  /** mark_manual_disconnect. */
  function Disconnect(s: State, stores: bool): State {
    s.(
      paused := true, pairing := None, stored := if stores then None else s.stored,
      allowance := false, approved := None, relayRequested := false,
      lostAt := 0, announced := false, sender := None)
  }

  /** request_device_reconnect: a live phone is asked directly, otherwise the pause is lifted and an allowance
      granted. */
  function RequestReconnect(s: State, delivered: bool, hasRelay: bool): State {
    if s.sender.Some? && delivered then s
    else if hasRelay then
      s.(paused := false, refused := false, allowance := true, relayRequested := true, awaitingRequest := false)
    else s
  }

  /** The key the desktop expects is the one presented: the live code's, or a saved device's. */
  predicate Recognised(s: State, qrDevice: Device, key: Key, saved: bool, now: Instant) {
    (Live(s.pairing, now) && s.pairing.value.key == key && s.pairing.value.device == qrDevice) || saved
  }

  predicate HoldsCode(s: State, key: Key, now: Instant) {
    Live(s.pairing, now) && s.pairing.value.key == key
  }

  function RulingOn(s: State, device: Device, key: Key, auto: bool, now: Instant): Ruling {
    MayAttach(s.paused, auto, HoldsCode(s, key, now), s.approved == Some(device), s.allowance)
  }

  /** What follows once the desktop knows the key: the code on screen ends a pause, and the rule decides. */
  function Decide(r: State, device: Device, key: Key, auto: bool, now: Instant, ch: Channel): State {
    var ruling := RulingOn(r, device, key, auto, now);
    var resumed := r.(paused := r.paused && !HoldsCode(r, key, now), allowance := r.allowance && !ruling.taken);
    if ruling.admitted then
      resumed.(awaitingRequest := false, approved := Some(device), sender := Some(ch), lostAt := 0, announced := true)
    else resumed.(refused := true, awaitingRequest := true)
  }

  /** One AUTH, from the key lookup to the sender slot. */
  function Authenticate(
      s: State, device: Device, qrDevice: Device, key: Key, saved: bool, auto: bool, now: Instant, ch: Channel)
    : State
  {
    var r := Recovered(s, now);
    if Recognised(r, qrDevice, key, saved, now) then Decide(r, device, key, auto, now, ch) else r
  }

  /** An AUTH lets its phone in. */
  predicate Admits(s: State, device: Device, qrDevice: Device, key: Key, saved: bool, auto: bool, now: Instant) {
    var r := Recovered(s, now);
    Recognised(r, qrDevice, key, saved, now) && RulingOn(r, device, key, auto, now).admitted
  }

  /** A socket ends: only the current one clears the slot, and an unasked loss starts the reconnect grace. */
  function EndSocket(s: State, ch: Channel, notified: bool, now: Instant): State {
    if s.sender != Some(ch) then s
    else if notified && !s.paused then s.(sender := None, lostAt := Max(now, 1))
    else if notified then s.(sender := None, lostAt := 0, announced := false)
    else s.(sender := None)
  }

  /** The grace of one loss runs out, if nothing replaced it. */
  function EndGrace(s: State, since: Instant): State {
    if s.lostAt == since then s.(lostAt := 0, announced := false) else s
  }

  datatype Event =
    | ShowingCode(forPairing: bool, now: Instant, newDevice: Device, newKey: Key, hasRelay: bool, stores: bool)
    | Disconnecting(stores: bool)
    | Reconnecting(delivered: bool, hasRelay: bool)
    | Authenticating(device: Device, qrDevice: Device, key: Key, saved: bool, auto: bool, now: Instant,
      channel: Channel)
    | Ending(channel: Channel, notified: bool, now: Instant)
    | GraceEnding(since: Instant)

  function Next(s: State, e: Event): State {
    match e
    case ShowingCode(forPairing, now, d, k, hasRelay, stores) => ShowCode(s, forPairing, now, d, k, hasRelay, stores)
    case Disconnecting(stores) => Disconnect(s, stores)
    case Reconnecting(delivered, hasRelay) => RequestReconnect(s, delivered, hasRelay)
    case Authenticating(d, q, k, saved, auto, now, ch) => Authenticate(s, d, q, k, saved, auto, now, ch)
    case Ending(ch, notified, now) => EndSocket(s, ch, notified, now)
    case GraceEnding(since) => EndGrace(s, since)
  }

  /** A key drawn at random is new, and a loss began at a positive time. */
  predicate FreshKey(s: State, e: Event) {
    (e.ShowingCode? ==> e.newKey !in s.minted) && (e.GraceEnding? ==> e.since >= 1)
  }

  /** A run begins unpaused with nothing approved; the store may hold a code from before. */
  function Begin(stored: Option<Code>): State {
    State(false, false, None, None, stored, None, 0, false, false, false, false, false,
      if stored.Some? then {stored.value.key} else {})
  }

  function Run(stored: Option<Code>, events: seq<Event>, n: nat): State
    requires n <= |events|
  {
    RunTo(Next, Begin(stored), events, n)
  }

  // ----- Laws of the rule -----

  /** The allowance is spent only where nothing else would let the phone in, and while paused only the code on screen or
      the allowance do. */
  lemma RuleLaws(paused: bool, auto: bool, holdsCode: bool, resuming: bool, allowance: bool)
    ensures var r := MayAttach(paused, auto, holdsCode, resuming, allowance);
      && (r.taken <==> !MayAttach(paused, auto, holdsCode, resuming, false).admitted)
      && (r.admitted <==> (if paused then holdsCode || allowance else auto || holdsCode || resuming || allowance))
  {
  }

  // ----- Disconnect means disconnect -----

  /** A code minted since, or the one left in the store. */
  predicate Since(code: Option<Code>, before: set<Key>, left: Option<Code>) {
    code.Some? ==> code.value.key !in before || code == left
  }

  /** Nothing that came before the disconnect is left but what a failed write left in the store. */
  predicate Fenced(s: State, before: set<Key>, left: Option<Code>) {
    && s.paused && !s.allowance && s.approved.None? && s.sender.None?
    && Since(s.pairing, before, left) && Since(s.stored, before, left)
    && before <= s.minted
  }

  /** What a disconnect leaves in the store: nothing, unless the write that clears it fails. */
  function LeftBy(s: State, stores: bool): Option<Code> {
    if stores then None else s.stored
  }

  predicate AdmitsAt(s: State, e: Event) {
    e.Authenticating? && Admits(s, e.device, e.qrDevice, e.key, e.saved, e.auto, e.now)
  }

  /** The user asks for a saved phone, and is not merely talking to a connected one. */
  predicate AsksFor(s: State, e: Event) {
    e.Reconnecting? && e.hasRelay && !(s.sender.Some? && e.delivered)
  }

  lemma DisconnectFences(s: State, stores: bool)
    ensures Fenced(Disconnect(s, stores), s.minted, LeftBy(s, stores))
  {
  }

  lemma ShownFenced(s: State, e: Event, before: set<Key>, left: Option<Code>)
    requires Fenced(s, before, left) && e.ShowingCode? && FreshKey(s, e)
    ensures Fenced(Next(s, e), before, left)
  {
  }

  lemma TurnedAwayFenced(s: State, e: Event, before: set<Key>, left: Option<Code>)
    requires Fenced(s, before, left) && e.Authenticating? && !AdmitsAt(s, e)
    ensures Fenced(Next(s, e), before, left)
  {
  }

  /** No command and no refused AUTH brings back anything from before the disconnect. */
  lemma NextFenced(s: State, e: Event, before: set<Key>, left: Option<Code>)
    requires Fenced(s, before, left) && FreshKey(s, e) && !AdmitsAt(s, e) && !AsksFor(s, e)
    ensures Fenced(Next(s, e), before, left)
  {
    if e.ShowingCode? {
      ShownFenced(s, e, before, left);
    } else if e.Authenticating? {
      TurnedAwayFenced(s, e, before, left);
    }
  }

  /** While fenced, only a phone holding a live code minted since, or the live one left in the store, gets in. */
  lemma FencedAdmits(s: State, e: Event, before: set<Key>, left: Option<Code>)
    requires Fenced(s, before, left) && AdmitsAt(s, e)
    ensures e.key !in before || (Live(left, e.now) && left.value.key == e.key)
  {
  }

  predicate QuietStep(s: State, e: Event) {
    FreshKey(s, e) && !AdmitsAt(s, e) && !AsksFor(s, e)
  }

  /** No phone was let in, and none asked for, in events `i` to `j`. */
  ghost predicate Quiet(stored: Option<Code>, events: seq<Event>, i: nat, j: nat)
    requires j <= |events|
  {
    forall k :: i <= k < j ==> Fits(QuietStep, RunTo(Next, Begin(stored), events, k), events[k])
  }

  function FencedFrom(before: set<Key>, left: Option<Code>): State -> bool {
    s => Fenced(s, before, left)
  }

  lemma QuietInductive(before: set<Key>, left: Option<Code>)
    ensures Inductive(Next, FencedFrom(before, left), QuietStep)
  {
    forall s: State, e: Event | Holds(FencedFrom(before, left), s) && Fits(QuietStep, s, e)
      ensures Holds(FencedFrom(before, left), Apply(Next, s, e))
    {
      NextFenced(s, e, before, left);
    }
  }

  lemma DisconnectedAt(stored: Option<Code>, events: seq<Event>, i: nat)
    requires i < |events| && events[i].Disconnecting?
    ensures var s := Run(stored, events, i);
      Fenced(Run(stored, events, i + 1), s.minted, LeftBy(s, events[i].stores))
  {
    RunStep(Next, Begin(stored), events, i);
    DisconnectFences(Run(stored, events, i), events[i].stores);
  }

  lemma QuietFenced(stored: Option<Code>, events: seq<Event>, i: nat, j: nat)
    requires i < j <= |events|
    requires events[i].Disconnecting? && Quiet(stored, events, i + 1, j)
    ensures var s := Run(stored, events, i);
      Fenced(Run(stored, events, j), s.minted, LeftBy(s, events[i].stores))
  {
    var before, left := Run(stored, events, i).minted, LeftBy(Run(stored, events, i), events[i].stores);
    DisconnectedAt(stored, events, i);
    QuietInductive(before, left);
    assert Holds(FencedFrom(before, left), RunTo(Next, Begin(stored), events, i + 1));
    InductiveFrom(Next, FencedFrom(before, left), QuietStep, Begin(stored), events, i + 1, j);
    assert Holds(FencedFrom(before, left), RunTo(Next, Begin(stored), events, j));
  }

  /** After a manual disconnect, the first phone let in without an explicit request for it in between presents a key
      that had never been on screen before the disconnect: neither the setting, nor an earlier approval, nor an earlier
      allowance, nor the code then on screen lets it in.  Only where the store write failed may it present the code the
      store still holds, until that code expires. */
  lemma DisconnectMeansDisconnect(stored: Option<Code>, events: seq<Event>, i: nat, j: nat)
    requires i < j < |events|
    requires events[i].Disconnecting? && Quiet(stored, events, i + 1, j)
    requires AdmitsAt(Run(stored, events, j), events[j])
    ensures HoldsCode(Recovered(Run(stored, events, j), events[j].now), events[j].key, events[j].now)
    ensures var s, e := Run(stored, events, i), events[j];
      e.key !in s.minted || (!events[i].stores && Live(s.stored, e.now) && s.stored.value.key == e.key)
  {
    QuietFenced(stored, events, i, j);
    var s := Run(stored, events, i);
    FencedAdmits(Run(stored, events, j), events[j], s.minted, LeftBy(s, events[i].stores));
  }

  /** That exception is real: where the write failed, the phone just let go of is let in again exactly while the code
      the store still holds has not expired. */
  lemma UnclearedCodeRevives(s: State, device: Device, auto: bool, now: Instant)
    requires s.stored.Some?
    ensures var e := Authenticating(device, s.stored.value.device, s.stored.value.key, true, auto, now, 0);
      && (AdmitsAt(Disconnect(s, false), e) <==> s.stored.value.expiresAt > now)
      && !AdmitsAt(Disconnect(s, true), e)
  {
  }

  // ----- Sender slot and announcements -----

  /** What an event does to the sender slot. */
  datatype Move = Takes(channel: Channel) | Clears | Leaves(channel: Channel) | Idle

  function MoveOf(s: State, e: Event): Move {
    match e
    case Authenticating(_, _, _, _, _, _, ch) => if AdmitsAt(s, e) then Takes(ch) else Idle
    case Disconnecting(_) => Clears
    case Ending(ch, _, _) => Leaves(ch)
    case _ => Idle
  }

  function Moved(sender: Option<Channel>, m: Move): Option<Channel> {
    match m
    case Takes(ch) => Some(ch)
    case Clears => None
    case Leaves(ch) => if sender == Some(ch) then None else sender
    case Idle => sender
  }

  lemma AuthSender(
      s: State, device: Device, qrDevice: Device, key: Key, saved: bool, auto: bool, now: Instant, ch: Channel)
    ensures Authenticate(s, device, qrDevice, key, saved, auto, now, ch).sender
         == if Admits(s, device, qrDevice, key, saved, auto, now) then Some(ch) else s.sender
  {
    var r := Recovered(s, now);
    assert Decide(r, device, key, auto, now, ch).sender
        == if RulingOn(r, device, key, auto, now).admitted then Some(ch) else r.sender;
  }

  lemma NextMoves(s: State, e: Event)
    ensures Next(s, e).sender == Moved(s.sender, MoveOf(s, e))
  {
    match e {
      case Authenticating(device, qrDevice, key, saved, auto, now, ch) =>
        AuthSender(s, device, qrDevice, key, saved, auto, now, ch);
      case _ =>
    }
  }

  type Stepper = (State, Event) -> State
  type Mover = (State, Event) -> Move

  function MoveBy(move: Mover, s: State, e: Event): Move {
    move(s, e)
  }

  /** What the first `n` events of a run did to the slot. */
  function MovesOf(next: Stepper, move: Mover, s: State, events: seq<Event>, n: nat): (moves: seq<Move>)
    requires n <= |events|
    ensures |moves| == n
  {
    seq(n, k requires 0 <= k < n => MoveBy(move, RunTo(next, s, events, k), events[k]))
  }

  function Moves(stored: Option<Code>, events: seq<Event>, n: nat): (moves: seq<Move>)
    requires n <= |events|
    ensures |moves| == n
  {
    MovesOf(Next, MoveOf, Begin(stored), events, n)
  }

  function Slot(moves: seq<Move>, n: nat): Option<Channel>
    requires n <= |moves|
  {
    if n == 0 then None else Moved(Slot(moves, n - 1), moves[n - 1])
  }

  ghost predicate Tracks(next: Stepper, move: Mover) {
    forall s, e :: Apply(next, s, e).sender == Moved(s.sender, MoveBy(move, s, e))
  }

  predicate MoveIs(next: Stepper, move: Mover, s: State, events: seq<Event>, moves: seq<Move>, k: nat)
    requires k < |moves| && k < |events|
  {
    moves[k] == MoveBy(move, RunTo(next, s, events, k), events[k])
  }

  lemma TracksOnce(next: Stepper, move: Mover, s: State, e: Event)
    requires Tracks(next, move)
    ensures Apply(next, s, e).sender == Moved(s.sender, MoveBy(move, s, e))
  {
  }

  lemma {:induction false} SlotTracks(
      next: Stepper, move: Mover, s: State, events: seq<Event>, moves: seq<Move>, n: nat)
    requires Tracks(next, move) && s.sender.None? && n <= |moves| && n <= |events|
    requires forall k: nat :: k < n ==> MoveIs(next, move, s, events, moves, k)
    ensures RunTo(next, s, events, n).sender == Slot(moves, n)
  {
    if n != 0 {
      SlotTracks(next, move, s, events, moves, n - 1);
      assert MoveIs(next, move, s, events, moves, n - 1);
      TracksOnce(next, move, RunTo(next, s, events, n - 1), events[n - 1]);
    }
  }

  lemma SenderIsSlot(stored: Option<Code>, events: seq<Event>, n: nat)
    requires n <= |events|
    ensures Run(stored, events, n).sender == Slot(Moves(stored, events, n), n)
  {
    forall s, e
      ensures Apply(Next, s, e).sender == Moved(s.sender, MoveBy(MoveOf, s, e))
    {
      NextMoves(s, e);
    }
    SlotTracks(Next, MoveOf, Begin(stored), events, Moves(stored, events, n), n);
  }

  /** Nothing takes the slot from a channel: no later phone let in, no disconnect, and not its own end. */
  predicate Spares(m: Move, ch: Channel) {
    m.Idle? || (m.Leaves? && m.channel != ch)
  }

  /** Event `i` let a phone in, and nothing up to `n` has taken the slot from it since. */
  predicate Holder(moves: seq<Move>, n: nat, i: nat, ch: Channel)
    requires i < n <= |moves|
  {
    moves[i] == Takes(ch) && forall k: nat :: i < k < n ==> Spares(moves[k], ch)
  }

  lemma {:induction false} SlotIsLast(moves: seq<Move>, n: nat, ch: Channel)
    requires n <= |moves|
    ensures Slot(moves, n) == Some(ch) <==> exists i: nat :: i < n && Holder(moves, n, i, ch)
  {
    if n != 0 {
      SlotIsLast(moves, n - 1, ch);
      if Slot(moves, n) == Some(ch) {
        if moves[n - 1] == Takes(ch) {
          assert Holder(moves, n, n - 1, ch);
        } else {
          var i: nat :| i < n - 1 && Holder(moves, n - 1, i, ch);
          assert Holder(moves, n, i, ch);
        }
      }
      forall i: nat | i < n && Holder(moves, n, i, ch)
        ensures Slot(moves, n) == Some(ch)
      {
        if i < n - 1 {
          assert Holder(moves, n - 1, i, ch) && Spares(moves[n - 1], ch);
        }
      }
    }
  }

  /** After every run the sender is the channel of the last phone let in, if it has neither ended nor been disconnected
      since. */
  lemma SenderIsLast(stored: Option<Code>, events: seq<Event>, n: nat, ch: Channel)
    requires n <= |events|
    ensures Run(stored, events, n).sender == Some(ch) <==>
      exists i: nat :: i < n && Holder(Moves(stored, events, n), n, i, ch)
  {
    SenderIsSlot(stored, events, n);
    SlotIsLast(Moves(stored, events, n), n, ch);
  }

  lemma ReplacedIsOut(moves: seq<Move>, j: nat, n: nat, ch: Channel)
    requires j < n <= |moves| && moves[j].Takes? && moves[j].channel != ch
    requires forall k: nat :: j < k < n ==> moves[k] != Takes(ch)
    ensures Slot(moves, n) != Some(ch)
  {
    SlotIsLast(moves, n, ch);
    forall i: nat | i < n
      ensures !Holder(moves, n, i, ch)
    {
      if i < j {
        assert !Spares(moves[j], ch);
      }
    }
  }

  lemma OutsiderEnds(s: State, ch: Channel, notified: bool, now: Instant)
    requires s.sender != Some(ch)
    ensures Next(s, Ending(ch, notified, now)) == s && NoticeOf(s, Ending(ch, notified, now)).None?
  {
  }

  /** A channel replaced by a later one, and not let in again, ends without changing anything, whatever has happened
      since: its end neither frees the slot, nor starts a grace, nor tells the user anything. */
  lemma ReplacedEndsNothing(
      stored: Option<Code>, events: seq<Event>, j: nat, n: nat, ch: Channel, notified: bool, now: Instant)
    requires j < n < |events| && events[n] == Ending(ch, notified, now)
    requires Moves(stored, events, n)[j].Takes? && Moves(stored, events, n)[j].channel != ch
    requires forall k: nat :: j < k < n ==> Moves(stored, events, n)[k] != Takes(ch)
    ensures Run(stored, events, n + 1) == Run(stored, events, n)
    ensures NoticeOf(Run(stored, events, n), events[n]).None?
  {
    SenderIsSlot(stored, events, n);
    ReplacedIsOut(Moves(stored, events, n), j, n, ch);
    RunStep(Next, Begin(stored), events, n);
    OutsiderEnds(Run(stored, events, n), ch, notified, now);
  }

  /** What the user has been shown: a phone came, a phone went, or the user let it go. */
  datatype Notice = Came | Went | LetGo

  function NoticeOf(s: State, e: Event): Option<Notice> {
    match e
    case Disconnecting(_) => Some(LetGo)
    case Authenticating(_, _, _, _, _, _, _) => if AdmitsAt(s, e) && !s.announced then Some(Came) else None
    case Ending(ch, notified, _) =>
      if s.sender == Some(ch) && notified && s.paused && s.announced then Some(Went) else None
    case GraceEnding(since) => if s.lostAt == since && s.announced then Some(Went) else None
    case _ => None
  }

  function Notices(stored: Option<Code>, events: seq<Event>, n: nat): seq<Notice>
    requires n <= |events|
  {
    if n == 0 then []
    else
      var notice := NoticeOf(Run(stored, events, n - 1), events[n - 1]);
      Notices(stored, events, n - 1) + if notice.Some? then [notice.value] else []
  }

  /** Coming and going alternate: no two arrivals without a departure or a disconnect between, and no departure but
      after an arrival. */
  predicate Alternates(l: seq<Notice>) {
    forall i: nat :: i < |l| ==> Succeeds(l, i)
  }

  predicate Succeeds(l: seq<Notice>, i: nat)
    requires i < |l|
  {
    (l[i] == Came ==> i == 0 || l[i - 1] != Came) && (l[i] == Went ==> i > 0 && l[i - 1] == Came)
  }

  predicate ArrivedLast(l: seq<Notice>) {
    l != [] && l[|l| - 1] == Came
  }

  lemma AppendAlternates(l: seq<Notice>, x: Notice)
    requires Alternates(l) && (x == Came ==> !ArrivedLast(l)) && (x == Went ==> ArrivedLast(l))
    ensures Alternates(l + [x]) && (ArrivedLast(l + [x]) <==> x == Came)
  {
    var m := l + [x];
    forall i: nat | i < |m|
      ensures Succeeds(m, i)
    {
      if i < |l| {
        assert Succeeds(l, i);
      }
    }
  }

  lemma {:induction false} NoticesAlternate(stored: Option<Code>, events: seq<Event>, n: nat)
    requires n <= |events|
    ensures Alternates(Notices(stored, events, n))
    ensures Run(stored, events, n).announced <==> ArrivedLast(Notices(stored, events, n))
  {
    if n != 0 {
      NoticesAlternate(stored, events, n - 1);
      RunStep(Next, Begin(stored), events, n - 1);
      var s, e, l := Run(stored, events, n - 1), events[n - 1], Notices(stored, events, n - 1);
      NoticeMoves(s, e);
      var notice := NoticeOf(s, e);
      if notice.Some? {
        AppendAlternates(l, notice.value);
      } else {
        assert l + [] == l;
      }
    }
  }

  lemma NoticeMoves(s: State, e: Event)
    ensures NoticeOf(s, e).None? ==> Next(s, e).announced == s.announced
    ensures NoticeOf(s, e) == Some(Came) ==> !s.announced && Next(s, e).announced
    ensures NoticeOf(s, e) == Some(Went) ==> s.announced && !Next(s, e).announced
    ensures NoticeOf(s, e) == Some(LetGo) ==> !Next(s, e).announced
  {
  }

  // ----- The object -----

  class AppState {
    var paused: bool
    var allowance: bool
    var approved: Option<Device>
    var pairing: Option<Code>
    var stored: Option<Code>
    var sender: Option<Channel>
    var lostAt: Instant
    var announced: bool
    var refused: bool
    var awaitingRequest: bool
    var relayRequested: bool
    var enrollmentArmed: bool
    ghost var minted: set<Key>

    ghost function Now(): State
      reads this
    {
      State(paused, allowance, approved, pairing, stored, sender, lostAt, announced,
        refused, awaitingRequest, relayRequested, enrollmentArmed, minted)
    }

    constructor (stored: Option<Code>)
      ensures Now() == Begin(stored)
    {
      paused, allowance, approved, pairing, this.stored := false, false, None, None, stored;
      sender, lostAt, announced, refused, awaitingRequest := None, 0, false, false, false;
      relayRequested, enrollmentArmed := false, false;
      minted := if stored.Some? then {stored.value.key} else {};
    }

    method CurrentPairing(now: Instant) returns (code: Option<Code>)
      modifies this`pairing
      ensures Now() == Recovered(old(Now()), now) && code == pairing
    {
      if pairing.None? && stored.Some? && stored.value.expiresAt > now {
        pairing := stored;
      }
      code := pairing;
    }

    method SetPairing(code: Code, stores: bool)
      modifies this`pairing, this`stored
      ensures pairing == Some(code) && stored == if stores then Some(code) else old(stored)
    {
      if stores {
        stored := Some(code);
      }
      pairing := Some(code);
    }

    method TakeKnownPhoneAllowance() returns (granted: bool)
      modifies this`allowance
      ensures granted == old(allowance) && !allowance
    {
      granted := allowance;
      allowance := false;
    }

    method GeneratePairingQr(forPairing: bool, now: Instant, device: Device, key: Key, hasRelay: bool, stores: bool)
      modifies this
      ensures Now() == ShowCode(old(Now()), forPairing, now, device, key, hasRelay, stores)
    {
      var held := CurrentPairing(now);
      var reused := held.Some? && held.value.expiresAt > now + REUSE_MARGIN_MS;
      var code := if reused then held.value else Code(device, key, now + CODE_LIFETIME_MS);
      if forPairing && !reused {
        enrollmentArmed := true;
      }
      if hasRelay {
        relayRequested := true;
        awaitingRequest := false;
      }
      SetPairing(code, stores);
      minted := minted + {code.key};
    }

    method MarkManualDisconnect(stores: bool)
      modifies this
      ensures Now() == Disconnect(old(Now()), stores)
    {
      paused := true;
      pairing := None;
      if stores {
        stored := None;
      }
      allowance := false;
      approved := None;
      relayRequested := false;
      lostAt := 0;
      announced := false;
      sender := None;
    }

    method RequestDeviceReconnect(delivered: bool, hasRelay: bool)
      modifies this
      ensures Now() == RequestReconnect(old(Now()), delivered, hasRelay)
    {
      if sender.Some? && delivered {
        return;
      }
      if hasRelay {
        paused := false;
        refused := false;
        allowance := true;
        relayRequested := true;
        awaitingRequest := false;
      }
    }

    /** The rule as it is called: the allowance is taken only when everything before it has failed. */
    method Admit(wasPaused: bool, auto: bool, holdsCode: bool, resuming: bool) returns (admitted: bool)
      modifies this`allowance
      ensures var ruling := MayAttach(wasPaused, auto, holdsCode, resuming, old(allowance));
        admitted == ruling.admitted && allowance == (old(allowance) && !ruling.taken)
    {
      if wasPaused {
        if holdsCode {
          return true;
        }
        admitted := TakeKnownPhoneAllowance();
        return;
      }
      if auto || holdsCode || resuming {
        return true;
      }
      admitted := TakeKnownPhoneAllowance();
    }

    method HandleAuth(device: Device, qrDevice: Device, key: Key, saved: bool, auto: bool, now: Instant, ch: Channel)
      returns (admitted: bool)
      modifies this
      ensures Now() == Authenticate(old(Now()), device, qrDevice, key, saved, auto, now, ch)
      ensures admitted <==> Admits(old(Now()), device, qrDevice, key, saved, auto, now)
    {
      var held := CurrentPairing(now);
      var live := held.Some? && held.value.expiresAt > now;
      if !(live && held.value.key == key && held.value.device == qrDevice) && !saved {
        return false;
      }
      admitted := DecideAuth(device, key, live && held.value.key == key, auto, now, ch);
    }

    method DecideAuth(
        device: Device, key: Key, holdsCode: bool, auto: bool, now: Instant, ch: Channel) returns (admitted: bool)
      requires holdsCode <==> HoldsCode(Now(), key, now)
      modifies this
      ensures Now() == Decide(old(Now()), device, key, auto, now, ch)
      ensures admitted <==> RulingOn(old(Now()), device, key, auto, now).admitted
    {
      var wasPaused, resuming := paused, approved == Some(device);
      if holdsCode && wasPaused {
        paused := false;
      }
      admitted := Admit(wasPaused, auto, holdsCode, resuming);
      if !admitted {
        refused := true;
        awaitingRequest := true;
        return;
      }
      awaitingRequest := false;
      approved := Some(device);
      sender := Some(ch);
      lostAt := 0;
      announced := true;
    }

    method SocketEnded(ch: Channel, notified: bool, now: Instant)
      modifies this
      ensures Now() == EndSocket(old(Now()), ch, notified, now)
    {
      if sender != Some(ch) {
        return;
      }
      sender := None;
      if notified && !paused {
        lostAt := Max(now, 1);
      } else if notified {
        lostAt := 0;
        announced := false;
      }
    }

    method EndReconnectGrace(since: Instant)
      modifies this
      ensures Now() == EndGrace(old(Now()), since)
    {
      if lostAt == since {
        lostAt := 0;
        announced := false;
      }
    }
  }
}
