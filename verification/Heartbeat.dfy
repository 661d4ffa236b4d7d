/** The desktop's heartbeat to the phone (desktop/src-tauri/src/server/heartbeat.rs): probes, the challenges that
    answer them, and when silence ends the session. */
module Heartbeat {
  import opened Wrappers
  import opened Bytes
  import opened Minimum
  import opened Runs

  /** Milliseconds on a monotonic clock. */
  type Instant = int
  type Token = seq<byte>

  const PROBE_INTERVAL: int := 15_000
  const PROBE_TIMEOUT: int := 20_000
  const SESSION_TIMEOUT: int := 90_000

  datatype Pending = Pending(token: Token, expires: Instant)

  /** A probe sent, and an answer that counted: to which probe, and when. */
  datatype Probe = Probe(token: Token, at: Instant)
  datatype Answer = Answer(probe: nat, at: Instant)

  datatype State = State(
    nextProbe: Instant, pending: Option<Pending>, lastSeen: Instant, sequence: nat,
    // History: the last time read, the probes sent, the answers that counted, and every sign of life.
    start: Instant, clock: Instant, probes: seq<Probe>, answers: seq<Answer>, seen: seq<Instant>)

  /** How a sequence number is written as a token. */
  type Writer = nat -> Token

  function Write(w: Writer, n: nat): Token {
    w(n)
  }

  /** Eight bytes, most significant first. */
  function TokenOf(n: nat): Token {
    WordSizes();
    BigEndian(n % U64_LIMIT, 8)
  }

  ghost predicate Distinct(w: Writer) {
    forall m, n :: 0 <= m < U64_LIMIT && 0 <= n < U64_LIMIT && Write(w, m) == Write(w, n) ==> m == n
  }

  function Begin(now: Instant): State {
    State(now, None, now, 0, now, now, [], [], [])
  }

  function Deadline(s: State): Instant {
    s.lastSeen + SESSION_TIMEOUT
  }

  function WakeAt(s: State): Instant {
    if s.pending.Some? then s.pending.value.expires else s.nextProbe
  }

  function MarkAlive(s: State, now: Instant): State {
    s.(lastSeen := if now > s.lastSeen then now else s.lastSeen, clock := now, seen := s.seen + [now])
  }

  datatype Probed = Probed(next: State, token: Option<Token>)

  function SendProbe(w: Writer, s: State, now: Instant): Probed {
    var sequence := (s.sequence + 1) % U64_LIMIT;
    var token := Write(w, sequence);
    Probed(
      s.(sequence := sequence, pending := Some(Pending(token, now + PROBE_TIMEOUT)), nextProbe := now + PROBE_INTERVAL,
         clock := now, probes := s.probes + [Probe(token, now)]),
      Some(token))
  }

  /** Nothing outstanding: either nothing was, or it lapsed. */
  function Idle(s: State, now: Instant): State {
    if s.pending.Some? then s.(pending := None, nextProbe := now) else s
  }

  /** probe: an outstanding probe is waited for; one that lapsed is sent again at once. */
  function ProbeAt(w: Writer, s: State, now: Instant): Probed {
    if s.pending.Some? && now < s.pending.value.expires then Probed(s.(clock := now), None)
    else
      var idle := Idle(s, now);
      if now < idle.nextProbe then Probed(idle.(clock := now), None) else SendProbe(w, idle, now)
  }

  predicate Answered(s: State, payload: Token, now: Instant) {
    s.pending.Some? && s.pending.value.token == payload && now < s.pending.value.expires
  }

  /** acknowledge: only the probe in flight can be answered. */
  function Acknowledge(s: State, payload: Token, now: Instant): State {
    if Answered(s, payload, now) then
      var answer := Answer(if s.probes == [] then 0 else |s.probes| - 1, now);
      MarkAlive(s.(pending := None, nextProbe := now + PROBE_INTERVAL, answers := s.answers + [answer]), now)
    else s.(clock := now)
  }

  // ----- What every call keeps -----

  /** The latest of some times. */
  function Latest(start: Instant, seen: seq<Instant>): Instant {
    if seen == [] then start else Max(Latest(start, seen[..|seen| - 1]), seen[|seen| - 1])
  }

  predicate ProbesOk(w: Writer, s: State) {
    && s.sequence == |s.probes| < U64_LIMIT
    && (forall i :: 0 <= i < |s.probes| ==> s.probes[i].token == Write(w, i + 1) && s.probes[i].at <= s.clock)
    && (forall i :: 0 < i < |s.probes| ==> s.probes[i - 1].at + PROBE_INTERVAL <= s.probes[i].at)
  }

  /** What is outstanding is the last probe; when nothing is, that probe was answered and the interval is kept. */
  predicate PendingOk(s: State) {
    && (s.pending.Some? ==> s.probes != [] && s.pending.value == Pending(Last(s).token, Last(s).at + PROBE_TIMEOUT))
    && (s.pending.None? && s.probes != [] ==> LastAnswered(s) && Last(s).at + PROBE_INTERVAL <= s.nextProbe)
  }

  predicate LastAnswered(s: State) {
    s.answers != [] && s.answers[|s.answers| - 1].probe == |s.probes| - 1
  }

  function Last(s: State): Probe
    requires s.probes != []
  {
    s.probes[|s.probes| - 1]
  }

  /** Every answer is to a probe of its own, while that probe had not lapsed. */
  predicate AnswersOk(s: State) {
    && (forall i :: 0 <= i < |s.answers| ==> s.answers[i].probe < |s.probes| && InTime(s, s.answers[i]))
    && (forall i, j :: 0 <= i < j < |s.answers| ==> s.answers[i].probe < s.answers[j].probe)
    && (s.pending.Some? && s.answers != [] ==> s.answers[|s.answers| - 1].probe < |s.probes| - 1)
  }

  predicate InTime(s: State, a: Answer)
    requires a.probe < |s.probes|
  {
    s.probes[a.probe].at <= a.at < s.probes[a.probe].at + PROBE_TIMEOUT
  }

  /** What does not speak of the signs of life. */
  predicate WireOk(w: Writer, s: State) {
    ProbesOk(w, s) && PendingOk(s) && AnswersOk(s)
  }

  predicate Ok(w: Writer, s: State) {
    WireOk(w, s) && s.lastSeen == Latest(s.start, s.seen)
  }

  datatype Event = Probing(now: Instant) | Marking(now: Instant) | Acknowledging(payload: Token, now: Instant)

  function Step(w: Writer, s: State, e: Event): State {
    match e
    case Probing(now) => ProbeAt(w, s, now).next
    case Marking(now) => MarkAlive(s, now)
    case Acknowledging(payload, now) => Acknowledge(s, payload, now)
  }

  function Next(w: Writer): (State, Event) -> State {
    (s: State, e: Event) => Step(w, s, e)
  }

  /** Time does not run back, and fewer than 2^64 probes have been sent. */
  predicate Possible(s: State, e: Event) {
    s.clock <= e.now && |s.probes| + 1 < U64_LIMIT
  }

  lemma LatestNow(start: Instant, seen: seq<Instant>, now: Instant)
    ensures Latest(start, seen + [now]) == Max(Latest(start, seen), now)
  {
    assert (seen + [now])[..|seen + [now]| - 1] == seen;
  }

  lemma MarkWireOk(w: Writer, s: State, now: Instant)
    requires WireOk(w, s) && s.clock <= now
    ensures WireOk(w, MarkAlive(s, now))
  {
  }

  lemma MarkOk(w: Writer, s: State, now: Instant)
    requires Ok(w, s) && s.clock <= now
    ensures Ok(w, MarkAlive(s, now))
  {
    MarkWireOk(w, s, now);
    LatestNow(s.start, s.seen, now);
  }

  lemma SentProbes(w: Writer, s: State, now: Instant)
    requires ProbesOk(w, s) && |s.probes| + 1 < U64_LIMIT
    requires s.clock <= now && (s.probes != [] ==> Last(s).at + PROBE_INTERVAL <= now)
    ensures ProbesOk(w, SendProbe(w, s, now).next)
  {
    var t := SendProbe(w, s, now).next;
    assert t.sequence == |t.probes|;
    forall i | 0 <= i < |t.probes|
      ensures t.probes[i].token == Write(w, i + 1) && t.probes[i].at <= t.clock
    {
      assert i < |s.probes| ==> t.probes[i] == s.probes[i];
    }
    forall i | 0 < i < |t.probes|
      ensures t.probes[i - 1].at + PROBE_INTERVAL <= t.probes[i].at
    {
      assert t.probes[i - 1] == s.probes[i - 1];
      assert i < |s.probes| ==> t.probes[i] == s.probes[i];
    }
  }

  lemma SentAnswers(w: Writer, s: State, now: Instant)
    requires AnswersOk(s)
    ensures AnswersOk(SendProbe(w, s, now).next)
  {
    var t := SendProbe(w, s, now).next;
    forall i | 0 <= i < |t.answers|
      ensures t.answers[i].probe < |t.probes| && InTime(t, t.answers[i])
    {
      assert InTime(s, s.answers[i]);
    }
  }

  lemma SendOk(w: Writer, s: State, now: Instant)
    requires ProbesOk(w, s) && AnswersOk(s) && s.lastSeen == Latest(s.start, s.seen) && |s.probes| + 1 < U64_LIMIT
    requires s.clock <= now && (s.probes != [] ==> Last(s).at + PROBE_INTERVAL <= now)
    ensures Ok(w, SendProbe(w, s, now).next)
  {
    SentProbes(w, s, now);
    SentAnswers(w, s, now);
  }

  lemma ClockOk(w: Writer, s: State, now: Instant)
    requires Ok(w, s) && s.clock <= now
    ensures Ok(w, s.(clock := now))
  {
  }

  lemma ProbeSplits(w: Writer, s: State, now: Instant)
    ensures now >= WakeAt(s) ==> ProbeAt(w, s, now) == SendProbe(w, Idle(s, now), now)
    ensures now < WakeAt(s) ==> ProbeAt(w, s, now) == Probed(s.(clock := now), None)
  {
  }

  lemma IdleReady(w: Writer, s: State, now: Instant)
    requires Ok(w, s) && now >= WakeAt(s)
    ensures var idle := Idle(s, now);
      && ProbesOk(w, idle) && AnswersOk(idle) && idle.lastSeen == Latest(idle.start, idle.seen)
      && (idle.probes != [] ==> Last(idle).at + PROBE_INTERVAL <= now)
  {
  }

  lemma ProbeOk(w: Writer, s: State, now: Instant)
    requires Ok(w, s) && Possible(s, Probing(now))
    ensures Ok(w, ProbeAt(w, s, now).next)
    ensures ProbeAt(w, s, now).token.Some? <==> now >= WakeAt(s)
    ensures Deadline(ProbeAt(w, s, now).next) == Deadline(s)
  {
    ProbeSplits(w, s, now);
    if now >= WakeAt(s) {
      IdleReady(w, s, now);
      SendOk(w, Idle(s, now), now);
    } else {
      ClockOk(w, s, now);
    }
  }

  /** The outstanding probe is answered in time. */
  function WithAnswer(s: State, now: Instant): State
    requires s.probes != []
  {
    s.(pending := None, nextProbe := now + PROBE_INTERVAL, answers := s.answers + [Answer(|s.probes| - 1, now)])
  }

  lemma AnswerKept(s: State, now: Instant)
    requires AnswersOk(s) && PendingOk(s) && s.pending.Some?
    requires Last(s).at <= now < s.pending.value.expires
    ensures AnswersOk(WithAnswer(s, now)) && PendingOk(WithAnswer(s, now))
  {
    var t := WithAnswer(s, now);
    forall i | 0 <= i < |t.answers|
      ensures t.answers[i].probe < |t.probes| && InTime(t, t.answers[i])
    {
      if i < |s.answers| {
        assert InTime(s, s.answers[i]);
      }
    }
  }

  lemma AcknowledgeOk(w: Writer, s: State, payload: Token, now: Instant)
    requires Ok(w, s) && s.clock <= now
    ensures Ok(w, Acknowledge(s, payload, now))
  {
    if Answered(s, payload, now) {
      AnswerKept(s, now);
      MarkOk(w, WithAnswer(s, now), now);
    } else {
      ClockOk(w, s, now);
    }
  }

  lemma NextOk(w: Writer, s: State, e: Event)
    requires Ok(w, s) && Possible(s, e)
    ensures Ok(w, Step(w, s, e))
  {
    match e {
      case Probing(now) => ProbeOk(w, s, now);
      case Marking(now) => MarkOk(w, s, now);
      case Acknowledging(payload, now) => AcknowledgeOk(w, s, payload, now);
    }
  }

  // ----- Runs -----

  function Run(w: Writer, start: Instant, events: seq<Event>, n: nat): State
    requires n <= |events|
  {
    RunTo(Next(w), Begin(start), events, n)
  }

  ghost predicate Lawful(w: Writer, start: Instant, events: seq<Event>) {
    Follows(Next(w), Possible, Begin(start), events)
  }

  lemma EveryRun(w: Writer, start: Instant, events: seq<Event>, n: nat)
    requires Lawful(w, start, events) && n <= |events|
    ensures Ok(w, Run(w, start, events, n))
  {
    var inv := (s: State) => Ok(w, s);
    forall s: State, e: Event | Holds(inv, s) && Fits(Possible, s, e)
      ensures Holds(inv, Apply(Next(w), s, e))
    {
      NextOk(w, s, e);
    }
    InductiveHolds(Next(w), inv, Possible, Begin(start), events, n);
  }

  // ----- Main results -----

  lemma TokenRead(n: nat)
    requires n < U64_LIMIT
    ensures FromBigEndian(TokenOf(n)) == n
  {
    WordSizes();
    BigEndianRoundTrip(n, 8);
    assert n % U64_LIMIT == n;
  }

  /** Fewer than 2^64 sequence numbers make as many tokens. */
  lemma TokensDistinct()
    ensures Distinct(TokenOf)
  {
    forall m: nat, n: nat | m < U64_LIMIT && n < U64_LIMIT && Write(TokenOf, m) == Write(TokenOf, n)
      ensures m == n
    {
      TokenRead(m);
      TokenRead(n);
    }
  }

  /** After any run a probe is sent exactly from the announced wake-up time on, and probing never moves the deadline. */
  lemma ProbeExactly(w: Writer, start: Instant, events: seq<Event>, n: nat, now: Instant)
    requires Lawful(w, start, events) && n <= |events| && Possible(Run(w, start, events, n), Probing(now))
    ensures var s := Run(w, start, events, n);
      (ProbeAt(w, s, now).token.Some? <==> now >= WakeAt(s)) && Deadline(ProbeAt(w, s, now).next) == Deadline(s)
  {
    EveryRun(w, start, events, n);
    ProbeOk(w, Run(w, start, events, n), now);
  }

  /** Over every run consecutive probes are at least the interval apart. */
  lemma ProbesSpaced(w: Writer, start: Instant, events: seq<Event>, n: nat, i: nat)
    requires Lawful(w, start, events) && n <= |events| && i + 1 < |Run(w, start, events, n).probes|
    ensures Run(w, start, events, n).probes[i].at + PROBE_INTERVAL <= Run(w, start, events, n).probes[i + 1].at
  {
    EveryRun(w, start, events, n);
  }

  /** Over every run each token is answered at most once, and only before it lapsed. */
  lemma AnswersOnce(w: Writer, start: Instant, events: seq<Event>, n: nat, i: nat, j: nat)
    requires Distinct(w) && Lawful(w, start, events) && n <= |events| && i <= j < |Run(w, start, events, n).answers|
    ensures var s := Run(w, start, events, n);
      && s.answers[i].probe < |s.probes| && s.answers[j].probe < |s.probes|
      && s.answers[i].at < s.probes[s.answers[i].probe].at + PROBE_TIMEOUT
      && (s.probes[s.answers[i].probe].token == s.probes[s.answers[j].probe].token ==> i == j)
  {
    EveryRun(w, start, events, n);
    OnceEach(w, Run(w, start, events, n), i, j);
  }

  /** After any run, an answer counts exactly when it carries the last token sent, no answer to it counted before, and
      it has not lapsed. */
  lemma AnswersExactly(w: Writer, start: Instant, events: seq<Event>, n: nat, payload: Token, now: Instant)
    requires Lawful(w, start, events) && n <= |events|
    ensures var s := Run(w, start, events, n);
      Answered(s, payload, now) <==>
        s.probes != [] && payload == Last(s).token && !LastAnswered(s) && now < Last(s).at + PROBE_TIMEOUT
  {
    EveryRun(w, start, events, n);
  }

  lemma OnceEach(w: Writer, s: State, i: nat, j: nat)
    requires Distinct(w) && Ok(w, s) && i <= j < |s.answers|
    ensures s.answers[i].probe < |s.probes| && s.answers[j].probe < |s.probes|
    ensures s.answers[i].at < s.probes[s.answers[i].probe].at + PROBE_TIMEOUT
    ensures s.probes[s.answers[i].probe].token == s.probes[s.answers[j].probe].token ==> i == j
  {
    var p, q := s.answers[i].probe, s.answers[j].probe;
    assert InTime(s, s.answers[i]);
    assert s.probes[p].token == Write(w, p + 1) && s.probes[q].token == Write(w, q + 1);
  }

  /** Over every run the deadline is the timeout after the latest sign of life: the start, a frame, or an answer that
      counted. */
  lemma DeadlineIsLatest(w: Writer, start: Instant, events: seq<Event>, n: nat)
    requires Lawful(w, start, events) && n <= |events|
    ensures Deadline(Run(w, start, events, n)) == Latest(start, SignsOfLife(w, start, events, n)) + SESSION_TIMEOUT
  {
    EveryRun(w, start, events, n);
    SeenAre(w, start, events, n);
  }

  /** The frames, and the answers that counted, in order. */
  function SignsOfLife(w: Writer, start: Instant, events: seq<Event>, n: nat): seq<Instant>
    requires n <= |events|
  {
    if n == 0 then []
    else
      SignsOfLife(w, start, events, n - 1) + match events[n - 1]
      case Probing(_) => []
      case Marking(now) => [now]
      case Acknowledging(payload, now) => if Answered(Run(w, start, events, n - 1), payload, now) then [now] else []
  }

  lemma {:induction false} SeenAre(w: Writer, start: Instant, events: seq<Event>, n: nat)
    requires n <= |events|
    ensures Run(w, start, events, n).start == start
    ensures Run(w, start, events, n).seen == SignsOfLife(w, start, events, n)
  {
    if n != 0 {
      SeenAre(w, start, events, n - 1);
      var s := Run(w, start, events, n - 1);
      assert Run(w, start, events, n) == Step(w, s, events[n - 1]);
      StepSeen(w, s, events[n - 1]);
    }
  }

  lemma StepSeen(w: Writer, s: State, e: Event)
    ensures Step(w, s, e).start == s.start
    ensures Step(w, s, e).seen == s.seen + match e
      case Probing(_) => []
      case Marking(now) => [now]
      case Acknowledging(payload, now) => if Answered(s, payload, now) then [now] else []
  {
  }

  /** The latest of some times is one of them, and none is later. */
  lemma {:induction false} LatestIs(start: Instant, seen: seq<Instant>)
    ensures Latest(start, seen) == start || Latest(start, seen) in seen
    ensures Latest(start, seen) >= start && forall t :: t in seen ==> t <= Latest(start, seen)
  {
    if seen != [] {
      LatestIs(start, seen[..|seen| - 1]);
      assert seen == seen[..|seen| - 1] + [seen[|seen| - 1]];
    }
  }

  // ----- The object -----

  class PeerHeartbeat {
    var nextProbe: Instant
    var pending: Option<Pending>
    var lastSeen: Instant
    var sequence: nat
    ghost var start: Instant
    ghost var clock: Instant
    ghost var probes: seq<Probe>
    ghost var answers: seq<Answer>
    ghost var seen: seq<Instant>

    ghost function Now(): State
      reads this
    {
      State(nextProbe, pending, lastSeen, sequence, start, clock, probes, answers, seen)
    }

    constructor (now: Instant)
      ensures Now() == Begin(now)
    {
      nextProbe, pending, lastSeen, sequence := now, None, now, 0;
      start, clock, probes, answers, seen := now, now, [], [], [];
    }

    function DeadlineNow(): (deadline: Instant)
      reads this
      ensures deadline == Deadline(Now())
    {
      lastSeen + SESSION_TIMEOUT
    }

    function Wake(): (at: Instant)
      reads this
      ensures at == WakeAt(Now())
    {
      match pending
      case Some(p) => p.expires
      case None => nextProbe
    }

    method Mark(now: Instant)
      modifies this
      ensures Now() == MarkAlive(old(Now()), now)
    {
      if now > lastSeen {
        lastSeen := now;
      }
      clock, seen := now, seen + [now];
    }

    method SendIfDue(now: Instant) returns (token: Option<Token>)
      modifies this
      ensures Probed(Now(), token) == ProbeAt(TokenOf, old(Now()), now)
    {
      clock := now;
      if pending.Some? {
        if now < pending.value.expires {
          return None;
        }
        pending := None;
        nextProbe := now;
      }
      if now < nextProbe {
        return None;
      }
      sequence := (sequence + 1) % U64_LIMIT;
      var t := Write(TokenOf, sequence);
      pending := Some(Pending(t, now + PROBE_TIMEOUT));
      nextProbe := now + PROBE_INTERVAL;
      probes := probes + [Probe(t, now)];
      return Some(t);
    }

    method Pong(payload: Token, now: Instant) returns (answered: bool)
      modifies this
      ensures Now() == Acknowledge(old(Now()), payload, now)
      ensures answered <==> Answered(old(Now()), payload, now)
    {
      clock := now;
      answered := pending.Some? && pending.value.token == payload && now < pending.value.expires;
      if answered {
        pending := None;
        nextProbe := now + PROBE_INTERVAL;
        answers := answers + [Answer(if probes == [] then 0 else |probes| - 1, now)];
        Mark(now);
      }
    }
  }
}
