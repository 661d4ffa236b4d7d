/** Every forwarded frame has a token of its own, so forwards keep to the bucket's bound. */
module AccountRelayTokens {
  import opened Wrappers
  import opened Runs
  import opened AccountRelay
  import opened AccountRelayLaws
  import opened AccountRelayFrames
  import opened AccountRelayRuns

  type Spends = map<(PairId, Role), seq<Spend>>

  function PurseOf(spends: Spends, p: PairId, role: Role): seq<Spend> {
    if (p, role) in spends then spends[(p, role)] else []
  }

  predicate SamePurse(e: Entry, f: Entry) {
    e.pairId == f.pairId && e.role == f.role
  }

  predicate HasToken(spends: Spends, e: Entry) {
    e.forwarded ==> e.token < |PurseOf(spends, e.pairId, e.role)|
  }

  /** Every forwarded frame took a token there is, and a later one of its pair and role than the frame before. */
  predicate Paid(log: seq<Entry>, spends: Spends) {
    && (forall k :: 0 <= k < |log| ==> HasToken(spends, log[k]))
    && (forall i, j :: 0 <= i < j < |log| && log[i].forwarded && log[j].forwarded && SamePurse(log[i], log[j]) ==>
          log[i].token < log[j].token)
  }

  lemma PaidMore(log: seq<Entry>, spends: Spends, more: Spends, e: Entry)
    requires Paid(log, spends)
    requires forall p, role :: |PurseOf(spends, p, role)| <= |PurseOf(more, p, role)|
    requires e.forwarded ==>
      e.token == |PurseOf(spends, e.pairId, e.role)| && e.token < |PurseOf(more, e.pairId, e.role)|
    ensures Paid(log + [e], more)
  {
    var l := log + [e];
    forall k | 0 <= k < |l|
      ensures HasToken(more, l[k])
    {
      if k < |log| {
        assert HasToken(spends, log[k]);
      }
    }
    forall i, j | 0 <= i < j < |l| && l[i].forwarded && l[j].forwarded && SamePurse(l[i], l[j])
      ensures l[i].token < l[j].token
    {
      if j == |log| {
        assert HasToken(spends, log[i]);
      }
    }
  }

  // ----- Every step -----

  lemma ChargeSpends(s: Relay, p: PairId, role: Role, now: int)
    requires p in s.rows
    ensures var t := Charge(s, p, role, now);
      && (forall q, r :: |PurseOf(s.spends, q, r)| <= |PurseOf(t.spends, q, r)|)
      && |PurseOf(t.spends, p, role)| == |PurseOf(s.spends, p, role)| + 1
  {
  }

  lemma ForwardPaid(s: Relay, h: Handle, frame: Frame, now: int, fault: SendFault)
    requires Linked(s) && h in s.sockets && s.sockets[h].attachment.Some?
    requires Judge(s, h, frame, now).Forward?
    requires Paid(s.log, s.spends)
    ensures Paid(Message(s, h, frame, now, fault).log, Message(s, h, frame, now, fault).spends)
  {
    var a := s.sockets[h].attachment.value;
    var t := Message(s, h, frame, now, fault);
    ChargeSpends(s, a.pairId, a.role, now);
    PaidMore(s.log, s.spends, t.spends, t.log[|s.log|]);
    assert t.log == s.log + [t.log[|s.log|]];
  }

  lemma MessagePaid(s: Relay, h: Handle, frame: Frame, now: int, fault: SendFault)
    requires Linked(s) && Paid(s.log, s.spends)
    ensures Paid(Message(s, h, frame, now, fault).log, Message(s, h, frame, now, fault).spends)
  {
    if h in s.sockets && s.sockets[h].attachment.Some? {
      if Judge(s, h, frame, now).Forward? {
        ForwardPaid(s, h, frame, now, fault);
      } else {
        PaidMore(s.log, s.spends, s.spends, EntryOf(s.sockets[h].attachment.value, frame));
      }
    }
  }

  predicate ForwardsNothing(s: Relay, t: Relay) {
    t.log == s.log && t.spends == s.spends
  }

  lemma ProvisionForwardsNothing(s: Relay, p: PairId, createdAt: int, d: Hash, ph: Hash, clock: int)
    ensures ForwardsNothing(s, Provision(s, p, createdAt, d, ph, clock).next)
  {
  }

  lemma LinkForwardsNothing(
      s: Relay, p: PairId, role: Role, digest: Hash, now: int, h: Handle, id: Id, g: Id, peer: Option<Handle>)
    requires p in s.rows
    requires peer.Some? ==> peer.value in s.sockets && s.sockets[peer.value].attachment.Some?
    ensures ForwardsNothing(s, Link(s, p, role, digest, now, h, id, g, peer))
  {
  }

  lemma JoinForwardsNothing(
      s: Relay, p: PairId, role: Role, digest: Hash, now: int, h: Handle, id: Id, g: Id, clock: int, fault: JoinFault)
    ensures ForwardsNothing(s, Join(s, p, role, digest, now, h, id, g, clock, fault).next)
  {
    if Authorized(s, p, role, digest, now) {
      var met := Meet(s, p, role, now);
      assert ForwardsNothing(s, met.relay);
      LinkForwardsNothing(met.relay, p, role, digest, now, h, id, g, met.peer);
    }
  }

  lemma OthersForwardNothing(s: Relay, e: Event)
    requires !e.Messaging?
    ensures ForwardsNothing(s, Next(s, e))
  {
    match e {
      case Provisioning(p, createdAt, d, ph, clock) => ProvisionForwardsNothing(s, p, createdAt, d, ph, clock);
      case Joining(p, role, digest, now, h, id, g, clock, fault) =>
        JoinForwardsNothing(s, p, role, digest, now, h, id, g, clock, fault);
      case Waking(now, clock) => AlarmShrinks(s, now, clock);
      case _ =>
    }
  }

  lemma NextPaid(s: Relay, e: Event)
    requires Invariant(s) && Paid(s.log, s.spends)
    ensures Paid(Next(s, e).log, Next(s, e).spends)
  {
    if e.Messaging? {
      MessagePaid(s, e.socket, e.frame, e.now, e.sendFault);
    } else {
      OthersForwardNothing(s, e);
    }
  }

  ghost predicate InvariantPaid(s: Relay) {
    Invariant(s) && Paid(s.log, s.spends)
  }

  lemma EveryRunPaid(events: seq<Event>, n: nat)
    requires Possible(events) && n <= |events|
    ensures InvariantPaid(Run(events, n))
  {
    forall s: Relay, e: Event | Holds(InvariantPaid, s) && Fits(Fresh, s, e)
      ensures Holds(InvariantPaid, Apply(Next, s, e))
    {
      NextKeeps(s, e);
      NextPaid(s, e);
    }
    assert Holds(InvariantPaid, EMPTY);
    InductiveHolds(Next, InvariantPaid, Fresh, EMPTY, events, n);
  }

  // ----- Counting forwards -----

  predicate ForwardedBy(e: Entry, p: PairId, role: Role) {
    e.forwarded && e.pairId == p && e.role == role
  }

  /** How many frames of a pair and role the log forwards from entry `i` to before entry `n`. */
  function Forwards(log: seq<Entry>, p: PairId, role: Role, i: nat, n: nat): nat
    requires i <= n <= |log|
    decreases n - i
  {
    if i == n then 0 else Forwards(log, p, role, i, n - 1) + if ForwardedBy(log[n - 1], p, role) then 1 else 0
  }

  /** Tokens below a bound, each later than the one before, are no more than the room there is. */
  lemma {:induction false} ForwardsTake(
      log: seq<Entry>, spends: Spends, p: PairId, role: Role, i: nat, n: nat, bound: nat)
    requires Paid(log, spends) && i < n <= |log| && ForwardedBy(log[i], p, role)
    requires forall k :: i <= k < n && ForwardedBy(log[k], p, role) ==> log[k].token < bound
    ensures Forwards(log, p, role, i, n) <= bound - log[i].token
    decreases n - i
  {
    if i + 1 < n {
      if ForwardedBy(log[n - 1], p, role) {
        assert SamePurse(log[i], log[n - 1]);
        forall k | i <= k < n - 1 && ForwardedBy(log[k], p, role)
          ensures log[k].token < log[n - 1].token
        {
          assert SamePurse(log[k], log[n - 1]);
        }
        ForwardsTake(log, spends, p, role, i, n - 1, log[n - 1].token);
      } else {
        ForwardsTake(log, spends, p, role, i, n - 1, bound);
      }
    }
  }

  /** Over every run, across reconnects, failures and a clock that steps back: the frames of one pair and role forwarded
      from one forward to another are paid for by one full bucket and the budget clock between the two. */
  lemma ForwardsBounded(events: seq<Event>, n: nat, i: nat, j: nat)
    requires Possible(events) && n <= |events|
    requires i <= j < |Run(events, n).log| && Run(events, n).log[i].forwarded && Run(events, n).log[j].forwarded
    requires SamePurse(Run(events, n).log[i], Run(events, n).log[j])
    ensures var s := Run(events, n);
      var e, f := s.log[i], s.log[j];
      var q := SpendsOf(s, e.pairId, e.role);
      && e.token <= f.token < |q|
      && q[e.token].at <= q[f.token].at
      && COST * Forwards(s.log, e.pairId, e.role, i, j + 1) <= BURST + (q[f.token].at - q[e.token].at)
  {
    EveryRunPaid(events, n);
    PaidWindow(Run(events, n), i, j);
  }

  lemma PaidWindow(s: Relay, i: nat, j: nat)
    requires Metered(s) && Paid(s.log, s.spends)
    requires i <= j < |s.log| && s.log[i].forwarded && s.log[j].forwarded && SamePurse(s.log[i], s.log[j])
    ensures var e, f := s.log[i], s.log[j];
      var q := SpendsOf(s, e.pairId, e.role);
      && e.token <= f.token < |q|
      && q[e.token].at <= q[f.token].at
      && COST * Forwards(s.log, e.pairId, e.role, i, j + 1) <= BURST + (q[f.token].at - q[e.token].at)
  {
    var e, f := s.log[i], s.log[j];
    var q := SpendsOf(s, e.pairId, e.role);
    assert HasToken(s.spends, f);
    forall k | i <= k < j + 1 && ForwardedBy(s.log[k], e.pairId, e.role)
      ensures s.log[k].token < f.token + 1
    {
      assert SamePurse(s.log[k], f);
    }
    ForwardsTake(s.log, s.spends, e.pairId, e.role, i, j + 1, f.token + 1);
    WindowBound(q, e.token, f.token);
  }
}
