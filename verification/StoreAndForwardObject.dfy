/** The session object of relay/src/session.rs and the calls of relay/src/relay.rs on it, in place. */
module StoreAndForwardObject {
  import opened Wrappers
  import opened StoreAndForward

  class SessionCell {
    const pairingKey: Key
    var android: Option<Channel>
    var desktop: Option<Channel>
    var pending: seq<Pending>
    var lastActive: Instant
    var androidWindow: Window
    var desktopWindow: Window
    /** History; it also numbers the messages, which the source has no need to. */
    var accepted: seq<Message>
    ghost var handed: seq<Message>
    ghost var expired: seq<Message>
    ghost var evicted: seq<Message>
    ghost var androidAdmissions: seq<Admission>
    ghost var desktopAdmissions: seq<Admission>

    ghost function State(): Session
      reads this
    {
      Session(pairingKey, android, desktop, pending, lastActive, androidWindow, desktopWindow,
        accepted, handed, expired, evicted, androidAdmissions, desktopAdmissions)
    }

    constructor (pairingKey: Key, now: Instant)
      ensures State() == NewSession(pairingKey, now)
    {
      this.pairingKey, android, desktop, pending, lastActive := pairingKey, None, None, [], now;
      androidWindow, desktopWindow := Window(now, 0), Window(now, 0);
      accepted, handed, expired, evicted, androidAdmissions, desktopAdmissions := [], [], [], [], [], [];
    }

    /** Drops expired messages, from the front. */
    method Expire(ttl: nat, now: Instant)
      modifies this`pending, this`expired
      ensures State() == ExpirePending(old(State()), ttl, now)
    {
      ghost var before := pending;
      ghost var k := 0;
      while pending != [] && Elapsed(now, pending[0].enqueuedAt) > ttl
        invariant k <= |before| && pending == before[k..]
        invariant Stale(before, ttl, now) == k + Stale(pending, ttl, now)
        invariant expired == old(expired) + Messages(before[..k])
        decreases |pending|
      {
        assert before[..k + 1] == before[..k] + [pending[0]];
        assert Messages(before[..k + 1]) == Messages(before[..k]) + [pending[0].message];
        expired := expired + [pending[0].message];
        pending := pending[1..];
        k := k + 1;
      }
    }

    method Enqueue(m: Message, max: nat, now: Instant)
      modifies this`pending, this`evicted
      ensures State() == EnqueuePending(old(State()), m, max, now)
    {
      if max == 0 {
        evicted := evicted + [m];
        return;
      }
      if |pending| >= max {
        evicted := evicted + [pending[0].message];
        pending := pending[1..];
      }
      pending := pending + [Pending(m, now)];
    }

    method AllowMessage(role: Role, limit: nat, now: Instant) returns (allowed: bool)
      modifies this`androidWindow, this`desktopWindow, this`androidAdmissions, this`desktopAdmissions
      ensures State() == AllowMessageAt(old(State()), role, limit, now)
      ensures allowed <==> Allowed(old(State()), role, limit, now)
    {
      var w := if role == Android then androidWindow else desktopWindow;
      if Elapsed(now, w.started) >= WINDOW_MS {
        w := Window(now, 0);
      }
      allowed := w.count < limit;
      if allowed {
        w := w.(count := w.count + 1);
        if role == Android {
          androidAdmissions := androidAdmissions + [Admission(now, w.started)];
        } else {
          desktopAdmissions := desktopAdmissions + [Admission(now, w.started)];
        }
      }
      if role == Android {
        androidWindow := w;
      } else {
        desktopWindow := w;
      }
    }

    /** Sends what waits, until the new desktop hangs up. */
    method FlushPending(sends: nat)
      requires desktop.Some?
      modifies this`pending, this`handed, this`desktop
      ensures State() == Flush(old(State()), sends)
    {
      ghost var before := pending;
      var sent := 0;
      while pending != []
        invariant sent <= |before| && sent <= sends && pending == before[sent..]
        invariant handed == old(handed) + Messages(before[..sent]) && desktop == old(desktop)
        decreases |pending|
      {
        if sent == sends {
          desktop := None;
          break;
        }
        assert before[..sent + 1] == before[..sent] + [pending[0]];
        assert Messages(before[..sent + 1]) == Messages(before[..sent]) + [pending[0].message];
        handed := handed + [pending[0].message];
        pending := pending[1..];
        sent := sent + 1;
      }
    }

    method Attach(c: Config, key: Key, role: Role, ch: Channel, now: Instant, sends: nat) returns (attached: bool)
      modifies this
      ensures State() == AttachTo(old(State()), c, key, role, ch, now, sends)
      ensures attached <==> key == pairingKey
    {
      if pairingKey != key {
        return false;
      }
      lastActive := now;
      if role == Android {
        android := Some(ch);
      } else {
        desktop := Some(ch);
        Expire(c.ttl, now);
        FlushPending(sends);
      }
      return true;
    }

    method Detach(role: Role, ch: Channel, now: Instant)
      modifies this
      ensures State() ==
        if Owns(old(State()), role, ch) then WithSender(old(State()), role, None).(lastActive := now) else old(State())
    {
      if (if role == Android then android else desktop) != Some(ch) {
        return;
      }
      if role == Android {
        android := None;
      } else {
        desktop := None;
      }
      lastActive := now;
    }

    method SendDesktop(
        c: Config, body: Body, ok: bool, expireAt: Instant, enqueueAt: Instant) returns (result: RouteResult)
      modifies this
      ensures Sent(State(), result) == SendToDesktop(old(State()), c, body, ok, expireAt, enqueueAt)
    {
      if |body| > c.maxBytes {
        return TooLarge;
      }
      var m := Message(|accepted|, body);
      accepted := accepted + [m];
      if desktop.Some? && ok {
        handed := handed + [m];
        return Delivered;
      }
      desktop := None;
      Expire(c.ttl, expireAt);
      Enqueue(m, c.maxPending, enqueueAt);
      return Queued;
    }

    method SendAndroid(c: Config, body: Body, ok: bool) returns (result: RouteResult)
      modifies this`android
      ensures Sent(State(), result) == SendToAndroid(old(State()), c, body, ok)
    {
      if |body| > c.maxBytes {
        return TooLarge;
      }
      if android.Some? && ok {
        return Delivered;
      }
      android := None;
      return Dropped;
    }

    method RouteFrom(
        c: Config, role: Role, ch: Channel, body: Body, ok: bool, admitAt: Instant, expireAt: Instant,
        enqueueAt: Instant)
      returns (result: RouteResult)
      modifies this
      ensures Sent(State(), result) == Route(old(State()), c, role, ch, body, ok, admitAt, expireAt, enqueueAt)
    {
      if (if role == Android then android else desktop) != Some(ch) {
        return StaleConnection;
      }
      var allowed := AllowMessage(role, c.limit, admitAt);
      if !allowed {
        return RateLimited;
      }
      lastActive := admitAt;
      if role == Android {
        result := SendDesktop(c, body, ok, expireAt, enqueueAt);
      } else {
        result := SendAndroid(c, body, ok);
      }
    }
  }
}
