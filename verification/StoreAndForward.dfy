/** The store-and-forward relay (relay/src/relay.rs, relay/src/session.rs): sessions of a phone and a desktop, a queue
    for the desktop's absence, and a fixed-window limit.  What the clock reads and whether a send succeeds are
    parameters; each call is one step under its session's lock. */
module StoreAndForward {
  import opened Wrappers
  import opened Bytes
  import opened Minimum

  /** Milliseconds on a monotonic clock. */
  type Instant = int
  type Pair = nat
  type Key = nat
  type Channel = nat
  type Body = seq<byte>

  const WINDOW_MS: int := 60_000

  datatype Role = Android | Desktop

  /** A phone message that was accepted, and which in order of acceptance it was. */
  datatype Message = Message(serial: nat, body: Body)
  datatype Pending = Pending(message: Message, enqueuedAt: Instant)
  datatype Window = Window(started: Instant, count: nat)

  /** One message let through by the limiter, and the start of the window it counted in. */
  datatype Admission = Admission(at: Instant, window: Instant)

  datatype Session = Session(
    pairingKey: Key, android: Option<Channel>, desktop: Option<Channel>, pending: seq<Pending>, lastActive: Instant,
    androidWindow: Window, desktopWindow: Window,
    // History: phone messages answered Delivered or Queued, and what became of each; and what the limiter let through.
    accepted: seq<Message>, handed: seq<Message>, expired: seq<Message>, evicted: seq<Message>,
    androidAdmissions: seq<Admission>, desktopAdmissions: seq<Admission>)

  datatype Config = Config(maxPending: nat, ttl: nat, maxBytes: nat, limit: nat)

  datatype RouteResult = Delivered | Queued | Dropped | NoSession | TooLarge | StaleConnection | RateLimited

  function NewSession(key: Key, now: Instant): Session {
    Session(key, None, None, [], now, Window(now, 0), Window(now, 0), [], [], [], [], [], [])
  }

  /** `duration_since`, which is zero for a later instant. */
  function Elapsed(now: Instant, since: Instant): nat {
    if now < since then 0 else now - since
  }

  // ----- The queue -----

  function Messages(q: seq<Pending>): (r: seq<Message>)
    ensures |r| == |q|
  {
    seq(|q|, i requires 0 <= i < |q| => q[i].message)
  }

  /** How many messages at the front have outlived the limit. */
  function Stale(q: seq<Pending>, ttl: nat, now: Instant): (k: nat)
    ensures k <= |q|
  {
    if q != [] && Elapsed(now, q[0].enqueuedAt) > ttl then 1 + Stale(q[1..], ttl, now) else 0
  }

  /** expire_pending, which looks only at the front. */
  function ExpirePending(s: Session, ttl: nat, now: Instant): Session {
    var k := Stale(s.pending, ttl, now);
    s.(pending := s.pending[k..], expired := s.expired + Messages(s.pending[..k]))
  }

  /** enqueue_pending: the oldest makes room, and a queue of no size keeps nothing. */
  function EnqueuePending(s: Session, m: Message, max: nat, now: Instant): Session {
    if max == 0 then s.(evicted := s.evicted + [m])
    else if |s.pending| >= max then
      s.(pending := s.pending[1..] + [Pending(m, now)], evicted := s.evicted + [s.pending[0].message])
    else s.(pending := s.pending + [Pending(m, now)])
  }

  /** The flush: as many as are sent before the new desktop hangs up. */
  function Flush(s: Session, sends: nat): Session {
    var k := Min(sends, |s.pending|);
    s.(
      handed := s.handed + Messages(s.pending[..k]),
      pending := s.pending[k..],
      desktop := if k < |s.pending| then None else s.desktop)
  }

  // ----- The limiter -----

  function WindowOf(s: Session, role: Role): Window {
    if role == Android then s.androidWindow else s.desktopWindow
  }

  function AdmissionsOf(s: Session, role: Role): seq<Admission> {
    if role == Android then s.androidAdmissions else s.desktopAdmissions
  }

  function WithWindow(s: Session, role: Role, w: Window, admissions: seq<Admission>): Session {
    if role == Android then s.(androidWindow := w, androidAdmissions := admissions)
    else s.(desktopWindow := w, desktopAdmissions := admissions)
  }

  function Renewed(w: Window, now: Instant): Window {
    if Elapsed(now, w.started) >= WINDOW_MS then Window(now, 0) else w
  }

  predicate Allowed(s: Session, role: Role, limit: nat, now: Instant) {
    Renewed(WindowOf(s, role), now).count < limit
  }

  /** allow_message_at. */
  function AllowMessageAt(s: Session, role: Role, limit: nat, now: Instant): Session {
    var w := Renewed(WindowOf(s, role), now);
    if w.count < limit then
      WithWindow(s, role, w.(count := w.count + 1), AdmissionsOf(s, role) + [Admission(now, w.started)])
    else WithWindow(s, role, w, AdmissionsOf(s, role))
  }

  // ----- Calls -----

  function SenderOf(s: Session, role: Role): Option<Channel> {
    if role == Android then s.android else s.desktop
  }

  function WithSender(s: Session, role: Role, ch: Option<Channel>): Session {
    if role == Android then s.(android := ch) else s.(desktop := ch)
  }

  /** owns_session. */
  predicate Owns(s: Session, role: Role, ch: Channel) {
    SenderOf(s, role) == Some(ch)
  }

  datatype Sent = Sent(next: Session, result: RouteResult)

  function Accept(s: Session, m: Message): Session {
    s.(accepted := s.accepted + [m])
  }

  function SendToDesktop(s: Session, c: Config, body: Body, ok: bool, expireAt: Instant, enqueueAt: Instant): Sent {
    var m := Message(|s.accepted|, body);
    if |body| > c.maxBytes then Sent(s, TooLarge)
    else if s.desktop.Some? && ok then Sent(Accept(s, m).(handed := s.handed + [m]), Delivered)
    else
      Sent(EnqueuePending(ExpirePending(Accept(s.(desktop := None), m), c.ttl, expireAt), m, c.maxPending, enqueueAt),
        Queued)
  }

  function SendToAndroid(s: Session, c: Config, body: Body, ok: bool): Sent {
    if |body| > c.maxBytes then Sent(s, TooLarge)
    else if s.android.Some? && ok then Sent(s, Delivered)
    else Sent(s.(android := None), Dropped)
  }

  /** route_from, once the session is found: the readings are taken in this order. */
  function Route(
      s: Session, c: Config, role: Role, ch: Channel, body: Body, ok: bool, admitAt: Instant, expireAt: Instant,
      enqueueAt: Instant)
    : Sent
  {
    if !Owns(s, role, ch) then Sent(s, StaleConnection)
    else
      var counted := AllowMessageAt(s, role, c.limit, admitAt);
      if !Allowed(s, role, c.limit, admitAt) then Sent(counted, RateLimited)
      else
        var touched := counted.(lastActive := admitAt);
        match role
        case Android => SendToDesktop(touched, c, body, ok, expireAt, enqueueAt)
        case Desktop => SendToAndroid(touched, c, body, ok)
  }

  /** attach, once the session is found or made. */
  function AttachTo(s: Session, c: Config, key: Key, role: Role, ch: Channel, now: Instant, sends: nat): Session {
    if s.pairingKey != key then s
    else
      var joined := WithSender(s.(lastActive := now), role, Some(ch));
      if role == Desktop then Flush(ExpirePending(joined, c.ttl, now), sends) else joined
  }

  type Sessions = map<Pair, Session>

  datatype Relay = Relay(sessions: Sessions, clock: Instant)

  function Attach(r: Relay, c: Config, p: Pair, key: Key, role: Role, ch: Channel, now: Instant, sends: nat): Relay {
    var s := if p in r.sessions then r.sessions[p] else NewSession(key, now);
    Relay(r.sessions[p := AttachTo(s, c, key, role, ch, now, sends)], now)
  }

  function Detach(r: Relay, p: Pair, role: Role, ch: Channel, now: Instant): Relay {
    if p in r.sessions && Owns(r.sessions[p], role, ch) then
      Relay(r.sessions[p := WithSender(r.sessions[p], role, None).(lastActive := now)], now)
    else r.(clock := now)
  }

  datatype Routed = Routed(next: Relay, result: RouteResult)

  function RouteFrom(
      r: Relay, c: Config, p: Pair, role: Role, ch: Channel, body: Body, ok: bool,
      admitAt: Instant, expireAt: Instant, enqueueAt: Instant)
    : Routed
  {
    if p !in r.sessions then Routed(r.(clock := enqueueAt), NoSession)
    else
      var sent := Route(r.sessions[p], c, role, ch, body, ok, admitAt, expireAt, enqueueAt);
      Routed(Relay(r.sessions[p := sent.next], enqueueAt), sent.result)
  }

  datatype Event =
    | Attaching(pair: Pair, key: Key, role: Role, channel: Channel, now: Instant, sends: nat)
    | Detaching(pair: Pair, role: Role, channel: Channel, now: Instant)
    | Routing(pair: Pair, role: Role, channel: Channel, body: Body, ok: bool, admitAt: Instant, expireAt: Instant,
      enqueueAt: Instant)

  function Next(c: Config): (Relay, Event) -> Relay {
    (r: Relay, e: Event) =>
      match e
      case Attaching(p, key, role, ch, now, sends) => Attach(r, c, p, key, role, ch, now, sends)
      case Detaching(p, role, ch, now) => Detach(r, p, role, ch, now)
      case Routing(p, role, ch, body, ok, a, b, d) => RouteFrom(r, c, p, role, ch, body, ok, a, b, d).next
  }

  /** The clock never runs back. */
  predicate Later(r: Relay, e: Event) {
    match e
    case Attaching(_, _, _, _, now, _) => r.clock <= now
    case Detaching(_, _, _, now) => r.clock <= now
    case Routing(_, _, _, _, _, admitAt, expireAt, enqueueAt) => r.clock <= admitAt <= expireAt <= enqueueAt
  }
}
