/** Over every run of two honest ends, the records one end returns are a prefix of those the other was given. */
module RecordRuns {
  import opened Wrappers
  import opened Bytes
  import opened Records
  import opened Runs
  import opened SecureSession
  import opened SessionLaws
  import opened SessionExchange
  import opened TwoParty

  // ----- What a call takes and gives -----

  function TakenBy(call: Call, r: Result<Output, Error>): seq<seq<byte>> {
    if call.SealRecord? && r.Ok? then [call.record] else []
  }

  function GivenBy(r: Result<Output, Error>): seq<seq<byte>> {
    if r.Ok? && r.value.RecordOut? && r.value.record.Some? then [r.value.record.value] else []
  }

  function FramesBy(r: Result<Output, Error>): seq<Frame> {
    if r.Ok? && r.value.FramesOut? then r.value.frames else []
  }

  // ----- One call on one end -----

  function Lengths(plaintexts: seq<Plaintext>, n: nat): nat
    requires n <= |plaintexts|
  {
    if n == 0 then 0 else Lengths(plaintexts, n - 1) + PlaintextLength(plaintexts[n - 1])
  }

  /** Each plaintext is sealed at its own counter. */
  predicate SealedAs(t: Transport, frames: seq<Frame>, plaintexts: seq<Plaintext>, n: nat)
    requires n <= |plaintexts|
  {
    && |frames| == n
    && forall i :: 0 <= i < n ==> frames[i] == Sealed(t.binding, t.phone, t.sendCounter + i, plaintexts[i])
  }

  lemma {:induction false} EncryptSeals(s: State, plaintexts: seq<Plaintext>, n: nat)
    requires n <= |plaintexts| && s.transport.Some?
    requires EncryptTo(s, plaintexts, n).result.Ok?
    ensures var r := EncryptTo(s, plaintexts, n);
      && SealedAs(s.transport.value, r.result.value, plaintexts, n)
      && r.next.transport == Some(s.transport.value.(sendCounter := s.transport.value.sendCounter + n))
      && r.next.incoming == s.incoming && r.next.phone == s.phone
      && r.next.sentBytes == s.sentBytes + Lengths(plaintexts, n) && r.next.receivedBytes == s.receivedBytes
  {
    if n != 0 {
      EncryptSeals(s, plaintexts, n - 1);
    }
  }

  /** seal_record puts the fragments of the record on the wire at the next counters. */
  predicate Seals(s: State, data: seq<byte>, next: State, frames: seq<Frame>) {
    && s.phase == Ready == next.phase && next.phone == s.phone && Sealable(data) && s.transport.Some?
    && next.receivedBytes == s.receivedBytes
    && next.sentBytes == s.sentBytes
         + Lengths(RecordPlaintexts(s.outgoingRecord, data), |RecordPlaintexts(s.outgoingRecord, data)|)
    && s.outgoingRecord + 1 < U64_LIMIT && next.outgoingRecord == s.outgoingRecord + 1
    && SealedAs(s.transport.value, frames, RecordPlaintexts(s.outgoingRecord, data),
         |RecordPlaintexts(s.outgoingRecord, data)|)
    && next.transport == Some(s.transport.value.(sendCounter := s.transport.value.sendCounter + |frames|))
    && next.incoming == s.incoming
  }

  lemma SealStep(s: State, data: seq<byte>, now: Instant)
    requires Consistent(s) && Step(s, SealRecord(data), now).result.Ok?
    ensures var r := Step(s, SealRecord(data), now);
      r.result.value.FramesOut? && Seals(s, data, r.next, r.result.value.frames)
  {
    assert s.phase == Ready && Sealable(data);
    var ps := RecordPlaintexts(s.outgoingRecord, data);
    assert EncryptTo(s, ps, |ps|).result.Ok?;
    EncryptSeals(s, ps, |ps|);
    EncryptToKeepsRest(s, ps, |ps|);
  }

  /** open_frame opens the frame at the next counter and pushes its contents. */
  predicate OpensWith(s: State, f: Frame, now: Instant, next: State, record: Option<seq<byte>>) {
    && s.phase == Ready == next.phase && next.phone == s.phone && s.transport.Some?
    && Opens(s.transport.value, f) && f.plaintext.Contents?
    && next.sentBytes == s.sentBytes && next.receivedBytes == s.receivedBytes + |f.plaintext.bytes|
    && Push(s.incoming, f.plaintext.bytes, now) == Pushed(next.incoming, Ok(record))
    && next.transport == Some(s.transport.value.(receiveCounter := s.transport.value.receiveCounter + 1))
    && next.outgoingRecord == s.outgoingRecord
  }

  lemma OpenStep(s: State, f: Frame, now: Instant)
    requires Consistent(s) && Step(s, OpenFrame(f), now).result.Ok?
    ensures var r := Step(s, OpenFrame(f), now);
      r.result.value.RecordOut? && OpensWith(s, f, now, r.next, r.result.value.record)
  {
  }

  predicate MovesRecord(call: Call) {
    call.SealRecord? || call.OpenFrame?
  }

  /** Any other call moves no record; it may make the session ready, with one message each way behind it. */
  predicate Apart(s: State, r: Reply<Output>) {
    && r.next.outgoingRecord == s.outgoingRecord
    && GivenBy(r.result) == []
    && (forall f :: f in FramesBy(r.result) ==> f.Sealed? && f.counter == 0)
    && (r.next.phase != Closed ==> r.next.incoming == s.incoming && s.phase != Closed)
    && (r.next.phase == Ready ==> ReadyAfter(s, r.next))
    && (s.phase == Ready ==> r.next.phase in {Ready, Closed})
  }

  predicate ReadyAfter(s: State, next: State) {
    && next.transport.Some?
    && if s.phase == Ready then next.transport == s.transport
       else next.transport.value.sendCounter == 1 && next.transport.value.receiveCounter == 1
  }

  function ConfirmLength(phone: bool): nat {
    if phone then PHONE_CONFIRM_LENGTH else DESKTOP_CONFIRM_LENGTH
  }

  /** So far only confirmations have been sent and received. */
  predicate OnlyConfirmed(s: State) {
    && s.sentBytes == s.sentMessages * ConfirmLength(s.phone)
    && s.receivedBytes == s.receivedMessages * ConfirmLength(!s.phone)
  }

  /** Until it is ready a session exchanges confirmations only, and then only records. */
  lemma OtherStepBytes(s: State, call: Call, now: Instant)
    requires Consistent(s) && !MovesRecord(call) && Step(s, call, now).result.Ok?
    ensures var next := Step(s, call, now).next;
      && (s.phase == Ready ==> next.sentBytes == s.sentBytes && next.receivedBytes == s.receivedBytes)
      && (s.phase != Ready && OnlyConfirmed(s) ==> OnlyConfirmed(next))
  {
  }

  lemma OtherStep(s: State, call: Call, now: Instant)
    requires Consistent(s) && !MovesRecord(call)
    ensures Apart(s, Step(s, call, now))
  {
  }

  /** A call that fails closes the session and moves no record. */
  lemma FailedStep(s: State, call: Call, now: Instant)
    requires Consistent(s) && Step(s, call, now).result.Err?
    ensures Step(s, call, now).next.phase == Closed
    ensures Step(s, call, now).next.outgoingRecord == s.outgoingRecord
  {
    if call.SealRecord? && s.phase == Ready && Sealable(call.record) {
      var ps := RecordPlaintexts(s.outgoingRecord, call.record);
      EncryptToKeepsRest(s, ps, |ps|);
    }
  }

  // ----- Where a record's fragments stand in the stream -----

  lemma StreamOne(records: seq<seq<byte>>, x: seq<byte>)
    ensures Stream(records + [x]) == Stream(records) + RecordFragments(|records|, x)
  {
    assert (records + [x])[..|records|] == records;
  }

  /** The fragments of record `k` follow those of the records before it. */
  lemma {:induction false} StreamAt(records: seq<seq<byte>>, k: nat)
    requires k < |records|
    ensures var before, own := |Stream(records[..k])|, RecordFragments(k, records[k]);
      before + |own| <= |Stream(records)| && Stream(records)[before..before + |own|] == own
  {
    var n := |records| - 1;
    if k < n {
      StreamAt(records[..n], k);
      assert records[..n][..k] == records[..k];
    }
  }

  lemma {:induction false} StreamGrows(records: seq<seq<byte>>, k: nat)
    requires k <= |records|
    ensures Stream(records[..k]) <= Stream(records)
  {
    if k < |records| {
      var n := |records| - 1;
      StreamGrows(records[..n], k);
      assert records[..n][..k] == records[..k];
    } else {
      assert records[..k] == records;
    }
  }

  // ----- What one end has sealed -----

  /** The fragment `i` of the stream fits its header. */
  predicate FragmentOf(plaintext: Plaintext, records: seq<seq<byte>>, i: nat) {
    && i < |Stream(records)| && Encodable(Stream(records)[i])
    && plaintext == Contents(Encode(Stream(records)[i]))
  }

  /** A frame after the confirmation carries the fragment its counter says. */
  predicate FrameOf(f: Frame, fromPhone: bool, taken: seq<seq<byte>>) {
    f.Sealed? && f.fromPhone == fromPhone && f.counter >= 1 ==> FragmentOf(f.plaintext, taken, f.counter - 1)
  }

  predicate Sends(s: State, taken: seq<seq<byte>>) {
    && s.outgoingRecord == |taken| && AllSealable(taken)
    && (s.phase == Ready ==> s.transport.Some? && s.transport.value.sendCounter == 1 + |Stream(taken)|)
    && (s.phase !in {Ready, Closed} ==> taken == [])
  }

  lemma FrameStays(f: Frame, fromPhone: bool, taken: seq<seq<byte>>, x: seq<byte>)
    requires FrameOf(f, fromPhone, taken)
    ensures FrameOf(f, fromPhone, taken + [x])
  {
    StreamOne(taken, x);
  }

  lemma SealSends(s: State, data: seq<byte>, next: State, frames: seq<Frame>, taken: seq<seq<byte>>)
    requires Sends(s, taken) && Seals(s, data, next, frames)
    ensures Sends(next, taken + [data])
    ensures forall f :: f in frames ==> FrameOf(f, s.transport.value.phone, taken + [data])
  {
    StreamOne(taken, data);
    var ps := RecordPlaintexts(s.outgoingRecord, data);
    forall i | 0 <= i < |frames|
      ensures FrameOf(frames[i], s.transport.value.phone, taken + [data])
    {
      assert frames[i].plaintext == ps[i];
      assert Stream(taken + [data])[|Stream(taken)| + i] == RecordFragments(|taken|, data)[i];
    }
  }

  /** A call keeps what its end has sealed in step with its counters and its frames. */
  lemma SendsNext(s: State, call: Call, now: Instant, taken: seq<seq<byte>>)
    requires Consistent(s) && Sends(s, taken)
    ensures var r := Step(s, call, now);
      && Sends(r.next, taken + TakenBy(call, r.result))
      && forall f :: f in FramesBy(r.result) ==> FrameOf(f, s.phone, taken + TakenBy(call, r.result))
  {
    var r := Step(s, call, now);
    assert taken + [] == taken;
    if r.result.Err? {
      FailedStep(s, call, now);
    } else if call.SealRecord? {
      SealStep(s, call.record, now);
      SealSends(s, call.record, r.next, r.result.value.frames, taken);
    } else if call.OpenFrame? {
      OpenStep(s, call.frame, now);
    } else {
      OtherStep(s, call, now);
    }
  }

  // ----- What the other end has returned -----

  /** How many fragments of the record in progress are held. */
  function Held(a: Assembly): nat {
    |a.partial| / CHUNK
  }

  /** Between records, or some way into the next record the other end sealed. */
  predicate InRecord(a: Assembly, given: seq<seq<byte>>, taken: seq<seq<byte>>) {
    || a == Assembly(|given|, 0, None, [])
    || (|given| < |taken| && Held(a) > 0 && Held(a) * CHUNK < |taken[|given|]| && a.started.Some?
        && a == Midway(|given|, taken[|given|], Held(a), a.started.value))
  }

  predicate Receives(s: State, given: seq<seq<byte>>, taken: seq<seq<byte>>) {
    && given <= taken
    && (s.phase == Ready ==>
          && s.transport.Some? && InRecord(s.incoming, given, taken)
          && s.transport.value.receiveCounter == 1 + |Stream(given)| + Held(s.incoming))
    && (s.phase !in {Ready, Closed} ==> given == [] && s.incoming == FRESH)
  }

  lemma ReceivesMore(s: State, given: seq<seq<byte>>, taken: seq<seq<byte>>, more: seq<seq<byte>>)
    requires Receives(s, given, taken)
    ensures Receives(s, given, taken + more)
  {
  }

  /** The next fragment of a record is held, or completes it. */
  lemma PushNext(record: u64, data: seq<byte>, i: nat, start: Instant, now: Instant, pushed: Pushed)
    requires Sealable(data) && record + 1 < U64_LIMIT && i * CHUNK < |data| && i < |RecordFragments(record, data)|
    requires AllEncodable(RecordFragments(record, data)) && (i == 0 ==> start == now)
    requires pushed == Push(Midway(record, data, i, start), Encode(RecordFragments(record, data)[i]), now)
    requires pushed.reply.Ok?
    ensures pushed == if (i + 1) * CHUNK < |data| then Pushed(Midway(record, data, i + 1, start), Ok(None))
                      else Pushed(Assembly(record + 1, 0, None, []), Ok(Some(data)))
  {
    FragmentPushed(record, data, i, Midway(record, data, i, start), now);
    AcceptMidway(record, data, i, start, now);
  }

  /** A record of more than `i` chunks has more than `i` fragments, and one of no more than `i + 1` has no more. */
  lemma CountIs(record: nat, data: seq<byte>, i: nat)
    requires i * CHUNK < |data|
    ensures i < |RecordFragments(record, data)|
    ensures |data| <= (i + 1) * CHUNK ==> |RecordFragments(record, data)| == i + 1
  {
    FragmentCount(record, |data|, data, 0);
  }

  lemma StreamIndex(records: seq<seq<byte>>, k: nat, i: nat)
    requires k < |records| && i < |RecordFragments(k, records[k])|
    ensures |Stream(records[..k])| + i < |Stream(records)|
    ensures Stream(records)[|Stream(records[..k])| + i] == RecordFragments(k, records[k])[i]
  {
    StreamAt(records, k);
    var before, own := |Stream(records[..k])|, RecordFragments(k, records[k]);
    assert Stream(records)[before..before + |own|][i] == own[i];
  }

  /** The stream's fragment `i` places after the first `k` records is fragment `i` of record `k`. */
  lemma FragmentDue(taken: seq<seq<byte>>, k: nat, i: nat, plaintext: Plaintext)
    requires k <= |taken| && if k < |taken| then i * CHUNK < |taken[k]| else i == 0
    requires FragmentOf(plaintext, taken, |Stream(taken[..k])| + i)
    ensures k < |taken| && i < |RecordFragments(k, taken[k])|
    ensures Encodable(RecordFragments(k, taken[k])[i])
    ensures plaintext == Contents(Encode(RecordFragments(k, taken[k])[i]))
  {
    assert taken[..|taken|] == taken;
    if k < |taken| {
      CountIs(k, taken[k], i);
      StreamIndex(taken, k, i);
    }
  }

  lemma HeldMidway(record: nat, data: seq<byte>, i: nat, start: Instant)
    requires i * CHUNK < |data|
    ensures Held(Midway(record, data, i, start)) == i
  {
    if i > 0 {
      assert |data[..i * CHUNK]| == i * CHUNK;
    }
  }

  /** A receiver in a record is midway through the next one sealed, since some time. */
  lemma MidwayIn(a: Assembly, given: seq<seq<byte>>, taken: seq<seq<byte>>, now: Instant) returns (start: Instant)
    requires given <= taken && AllSealable(taken) && InRecord(a, given, taken)
    ensures Held(a) == 0 ==> start == now && a == Assembly(|given|, 0, None, [])
    ensures |given| < |taken| ==>
      Held(a) * CHUNK < |taken[|given|]| && a == Midway(|given|, taken[|given|], Held(a), start)
    ensures |given| == |taken| ==> Held(a) == 0
  {
    start := if Held(a) == 0 then now else a.started.value;
  }

  /** A fragment due moves the receiver one fragment on. */
  lemma PushReceives(
      a: Assembly, plaintext: Plaintext, now: Instant, next: Assembly, record: Option<seq<byte>>,
      given: seq<seq<byte>>, taken: seq<seq<byte>>)
    requires given <= taken && AllSealable(taken) && |taken| < U64_LIMIT && InRecord(a, given, taken)
    requires FragmentOf(plaintext, taken, |Stream(given)| + Held(a))
    requires Push(a, plaintext.bytes, now) == Pushed(next, Ok(record))
    ensures var more := given + if record.Some? then [record.value] else [];
      && more <= taken && InRecord(next, more, taken)
      && |Stream(more)| + Held(next) == |Stream(given)| + Held(a) + 1
  {
    var k, i := |given|, Held(a);
    var start := MidwayIn(a, given, taken, now);
    assert taken[..k] == given;
    FragmentDue(taken, k, i, plaintext);
    var data := taken[k];
    FragmentsEncodable(k, |data|, data, 0);
    PushNext(k, data, i, start, now, Pushed(next, Ok(record)));
    CountIs(k, data, i);
    if (i + 1) * CHUNK < |data| {
      HeldMidway(k, data, i + 1, start);
      assert given + [] == given;
    } else {
      StreamOne(given, data);
      assert given + [data] == taken[..k + 1];
    }
  }

  lemma OpenReceives(
      s: State, f: Frame, now: Instant, next: State, record: Option<seq<byte>>, given: seq<seq<byte>>,
      taken: seq<seq<byte>>)
    requires Receives(s, given, taken) && OpensWith(s, f, now, next, record)
    requires AllSealable(taken) && |taken| < U64_LIMIT
    requires f.counter >= 1 && FragmentOf(f.plaintext, taken, f.counter - 1)
    ensures Receives(next, given + (if record.Some? then [record.value] else []), taken)
  {
    PushReceives(s.incoming, f.plaintext, now, next.incoming, record, given, taken);
  }

  lemma ApartReceives(s: State, r: Reply<Output>, given: seq<seq<byte>>, taken: seq<seq<byte>>)
    requires Receives(s, given, taken) && Apart(s, r)
    ensures Receives(r.next, given, taken)
  {
    assert Stream([]) == [];
  }

  /** A call keeps what its end has returned in step with what the other has sealed. */
  lemma ReceivesNext(s: State, call: Call, now: Instant, given: seq<seq<byte>>, taken: seq<seq<byte>>)
    requires Consistent(s) && Receives(s, given, taken) && AllSealable(taken) && |taken| < U64_LIMIT
    requires call.OpenFrame? ==> call.frame.Unopenable? || FrameOf(call.frame, !s.phone, taken)
    ensures var r := Step(s, call, now);
      Receives(r.next, given + GivenBy(r.result), taken)
  {
    var r := Step(s, call, now);
    assert given + [] == given;
    if r.result.Err? {
      FailedStep(s, call, now);
    } else if call.SealRecord? {
      SealStep(s, call.record, now);
    } else if call.OpenFrame? {
      OpenStep(s, call.frame, now);
      OpenReceives(s, call.frame, now, r.next, r.result.value.record, given, taken);
    } else {
      OtherStep(s, call, now);
      ApartReceives(s, r, given, taken);
    }
  }

  // ----- Both ends -----

  function End(w: World, phone: bool): State {
    if phone then w.phone else w.desktop
  }

  function ResultOf(w: World, e: Event): Result<Output, Error> {
    Step(End(w, e.onPhone), e.call, e.now).result
  }

  /** An event moves one end, and puts on the wire what that end says. */
  lemma NextMoves(w: World, e: Event)
    ensures End(Next(w, e), e.onPhone) == Step(End(w, e.onPhone), e.call, e.now).next
    ensures End(Next(w, e), !e.onPhone) == End(w, !e.onPhone)
    ensures forall f :: f in Next(w, e).frames ==> f in w.frames || f in FramesBy(ResultOf(w, e))
  {
  }

  /** One direction: what the sender took, what is on the wire, and what the receiver gave. */
  predicate Flows(w: World, fromPhone: bool, taken: seq<seq<byte>>, given: seq<seq<byte>>) {
    && Sends(End(w, fromPhone), taken) && Receives(End(w, !fromPhone), given, taken)
    && forall f :: f in w.frames ==> FrameOf(f, fromPhone, taken)
  }

  lemma SenderFlows(w: World, e: Event, taken: seq<seq<byte>>, given: seq<seq<byte>>)
    requires Safe(w) && Flows(w, e.onPhone, taken, given)
    ensures Flows(Next(w, e), e.onPhone, taken + TakenBy(e.call, ResultOf(w, e)), given)
  {
    var more := TakenBy(e.call, ResultOf(w, e));
    NextMoves(w, e);
    SendsNext(End(w, e.onPhone), e.call, e.now, taken);
    ReceivesMore(End(w, !e.onPhone), given, taken, more);
    forall f | f in w.frames
      ensures FrameOf(f, e.onPhone, taken + more)
    {
      if more != [] {
        FrameStays(f, e.onPhone, taken, more[0]);
      } else {
        assert taken + more == taken;
      }
    }
  }

  lemma ReceiverFlows(w: World, e: Event, taken: seq<seq<byte>>, given: seq<seq<byte>>)
    requires Safe(w) && Deliverable(w, e.call) && Flows(w, !e.onPhone, taken, given)
    ensures Flows(Next(w, e), !e.onPhone, taken, given + GivenBy(ResultOf(w, e)))
  {
    NextMoves(w, e);
    ReceivesNext(End(w, e.onPhone), e.call, e.now, given, taken);
    EmitsOwn(End(w, e.onPhone), e.call, e.now);
  }

  /** Whatever an end emits is its own. */
  lemma EmitsOwn(s: State, call: Call, now: Instant)
    requires Consistent(s)
    ensures forall f :: f in FramesBy(Step(s, call, now).result) ==> f.Sealed? && f.fromPhone == s.phone
  {
    if call.SealRecord? && Step(s, call, now).result.Ok? {
      SealStep(s, call.record, now);
    }
  }

  function TakenAt(w: World, e: Event, phone: bool): seq<seq<byte>> {
    if e.onPhone == phone then TakenBy(e.call, ResultOf(w, e)) else []
  }

  function GivenAt(w: World, e: Event, phone: bool): seq<seq<byte>> {
    if e.onPhone == phone then GivenBy(ResultOf(w, e)) else []
  }

  lemma FlowsNext(w: World, e: Event, fromPhone: bool, taken: seq<seq<byte>>, given: seq<seq<byte>>)
    requires Safe(w) && Deliverable(w, e.call) && Flows(w, fromPhone, taken, given)
    ensures Flows(Next(w, e), fromPhone, taken + TakenAt(w, e, fromPhone), given + GivenAt(w, e, !fromPhone))
  {
    if e.onPhone == fromPhone {
      SenderFlows(w, e, taken, given);
      assert given + [] == given;
    } else {
      ReceiverFlows(w, e, taken, given);
      assert taken + [] == taken;
    }
  }

  // ----- Over every run -----

  type Tally = (World, Event, bool) -> seq<seq<byte>>

  function Counted(count: Tally, w: World, e: Event, phone: bool): seq<seq<byte>> {
    count(w, e, phone)
  }

  /** What an end's calls add up to over the first `n` events. */
  function Total(count: Tally, next: Stepper, w: World, events: seq<Event>, n: nat, phone: bool): seq<seq<byte>>
    requires n <= |events|
  {
    if n == 0 then []
    else
      Total(count, next, w, events, n - 1, phone)
      + Counted(count, RunTo(next, w, events, n - 1), events[n - 1], phone)
  }

  type Flow = (World, bool, seq<seq<byte>>, seq<seq<byte>>) -> bool

  predicate Flowing(flow: Flow, w: World, fromPhone: bool, taken: seq<seq<byte>>, given: seq<seq<byte>>) {
    flow(w, fromPhone, taken, given)
  }

  predicate FlowsOn(
      next: Stepper, flow: Flow, takes: Tally, gives: Tally,
      w: World, e: Event, fromPhone: bool, taken: seq<seq<byte>>, given: seq<seq<byte>>)
  {
    Flowing(flow, w, fromPhone, taken, given) ==>
      Flowing(flow, Runs.Apply(next, w, e), fromPhone,
        taken + Counted(takes, w, e, fromPhone), given + Counted(gives, w, e, !fromPhone))
  }

  /** A step from a safe world keeps the flow. */
  ghost predicate KeepsFlow(next: Stepper, safe: World -> bool, flow: Flow, takes: Tally, gives: Tally) {
    forall w, e, fromPhone, taken, given ::
      Holds(safe, w) && Fits(CanHappen, w, e) ==> FlowsOn(next, flow, takes, gives, w, e, fromPhone, taken, given)
  }

  ghost predicate SafeTo(next: Stepper, safe: World -> bool, w: World, events: seq<Event>, n: nat)
    requires n <= |events|
  {
    forall i :: 0 <= i <= n ==> Holds(safe, RunTo(next, w, events, i))
  }

  lemma FlowsOnce(
      next: Stepper, safe: World -> bool, flow: Flow, takes: Tally, gives: Tally,
      w: World, e: Event, fromPhone: bool, taken: seq<seq<byte>>, given: seq<seq<byte>>)
    requires KeepsFlow(next, safe, flow, takes, gives) && Holds(safe, w) && Fits(CanHappen, w, e)
    requires Flowing(flow, w, fromPhone, taken, given)
    ensures Flowing(flow, Runs.Apply(next, w, e), fromPhone,
      taken + Counted(takes, w, e, fromPhone), given + Counted(gives, w, e, !fromPhone))
  {
    assert FlowsOn(next, flow, takes, gives, w, e, fromPhone, taken, given);
  }

  lemma {:induction false} FlowsTo(
      next: Stepper, safe: World -> bool, flow: Flow, takes: Tally, gives: Tally,
      w: World, events: seq<Event>, n: nat, fromPhone: bool)
    requires KeepsFlow(next, safe, flow, takes, gives) && n <= |events| && Follows(next, CanHappen, w, events)
    requires SafeTo(next, safe, w, events, n) && Flowing(flow, w, fromPhone, [], [])
    ensures Flowing(flow, RunTo(next, w, events, n), fromPhone,
      Total(takes, next, w, events, n, fromPhone), Total(gives, next, w, events, n, !fromPhone))
  {
    if n != 0 {
      FlowsTo(next, safe, flow, takes, gives, w, events, n - 1, fromPhone);
      FlowsOnce(
        next, safe, flow, takes, gives, RunTo(next, w, events, n - 1), events[n - 1], fromPhone,
        Total(takes, next, w, events, n - 1, fromPhone), Total(gives, next, w, events, n - 1, !fromPhone));
    }
  }

  /** The records one end's seal_record took in the first `n` events, and those its open_frame gave. */
  function Taken(s: Setup, events: seq<Event>, n: nat, phone: bool): seq<seq<byte>>
    requires n <= |events|
  {
    Total(TakenAt, Next, Begin(s), events, n, phone)
  }

  function Given(s: Setup, events: seq<Event>, n: nat, phone: bool): seq<seq<byte>>
    requires n <= |events|
  {
    Total(GivenAt, Next, Begin(s), events, n, phone)
  }

  lemma EveryFlow(s: Setup, events: seq<Event>, n: nat, fromPhone: bool)
    requires s.phoneKey != s.desktopKey && n <= |events| && Possible(Begin(s), events)
    ensures Flowing(Flows, Run(Begin(s), events, n), fromPhone, Taken(s, events, n, fromPhone),
      Given(s, events, n, !fromPhone))
  {
    forall w, e, from, taken, given | Holds(Safe, w) && Fits(CanHappen, w, e)
      ensures FlowsOn(Next, Flows, TakenAt, GivenAt, w, e, from, taken, given)
    {
      if Flowing(Flows, w, from, taken, given) {
        FlowsNext(w, e, from, taken, given);
      }
    }
    forall i | 0 <= i <= n
      ensures Holds(Safe, RunTo(Next, Begin(s), events, i))
    {
      EveryRun(s, events, i);
    }
    BeginFlows(s, fromPhone);
    FlowsTo(Next, Safe, Flows, TakenAt, GivenAt, Begin(s), events, n, fromPhone);
  }

  lemma BeginFlows(s: Setup, fromPhone: bool)
    ensures Flowing(Flows, Begin(s), fromPhone, [], [])
  {
  }

  lemma FlowMeans(w: World, fromPhone: bool, taken: seq<seq<byte>>, given: seq<seq<byte>>)
    requires Flowing(Flows, w, fromPhone, taken, given)
    ensures given <= taken
  {
  }

  /** Over every run, whatever the network drops, repeats, reorders or invents, the records one end returns are a prefix
      of those sealed at the other, in order and unchanged. */
  lemma RecordsInOrder(s: Setup, events: seq<Event>, n: nat, fromPhone: bool)
    requires s.phoneKey != s.desktopKey && n <= |events| && Possible(Begin(s), events)
    ensures Given(s, events, n, !fromPhone) <= Taken(s, events, n, fromPhone)
  {
    EveryFlow(s, events, n, fromPhone);
    FlowMeans(Run(Begin(s), events, n), fromPhone, Taken(s, events, n, fromPhone), Given(s, events, n, !fromPhone));
  }
}
