/** In every reachable world, a receiver that has opened every frame sealed so far is in sync with the sender: same
    transcript, same budgets, same record boundary. */
module RecordSync {
  import opened Wrappers
  import opened Bytes
  import opened Minimum
  import opened Records
  import opened Runs
  import opened SecureSession
  import opened SessionLaws
  import opened SessionExchange
  import opened TwoParty
  import opened RecordRuns

  // ----- What fragments weigh -----

  function Weight(frags: seq<Frag>): nat {
    if frags == [] then 0 else Weight(frags[..|frags| - 1]) + HEADER + |frags[|frags| - 1].data|
  }

  lemma {:induction false} WeightJoined(a: seq<Frag>, b: seq<Frag>)
    ensures Weight(a + b) == Weight(a) + Weight(b)
  {
    if b == [] {
      assert a + b == a;
    } else {
      var n := |b| - 1;
      WeightJoined(a, b[..n]);
      assert (a + b)[..|a + b| - 1] == a + b[..n];
    }
  }

  lemma {:induction false} FragmentsWeigh(record: nat, total: nat, data: seq<byte>, offset: nat)
    requires offset <= |data|
    ensures Weight(Fragments(record, total, data, offset))
         == |data| - offset + HEADER * |Fragments(record, total, data, offset)|
    decreases |data| - offset
  {
    if offset < |data| {
      var frags := Fragments(record, total, data, offset);
      var next := Min(offset + CHUNK, |data|);
      var rest := Fragments(record, total, data, offset + CHUNK);
      var first := Frag(record, total, offset, data[offset..next]);
      assert frags == [first] + rest;
      assert [first][..0] == [];
      WeightJoined([first], rest);
      if offset + CHUNK <= |data| {
        FragmentsWeigh(record, total, data, offset + CHUNK);
      } else {
        assert rest == [];
      }
    }
  }

  lemma RecordWeighs(record: nat, data: seq<byte>)
    ensures Weight(RecordFragments(record, data)) == |data| + HEADER * |RecordFragments(record, data)|
  {
    FragmentsWeigh(record, |data|, data, 0);
  }

  lemma {:induction false} PlaintextsWeigh(record: u64, data: seq<byte>, n: nat)
    requires |data| <= MAX_RECORD && n <= |RecordPlaintexts(record, data)|
    ensures Lengths(RecordPlaintexts(record, data), n) == Weight(RecordFragments(record, data)[..n])
  {
    if n != 0 {
      PlaintextsWeigh(record, data, n - 1);
      var frags := RecordFragments(record, data);
      assert frags[..n][..n - 1] == frags[..n - 1];
      assert RecordPlaintexts(record, data)[n - 1] == Contents(Encode(frags[n - 1]));
    }
  }

  // ----- What each end has counted -----

  predicate SentWeighs(s: State, taken: seq<seq<byte>>) {
    && (s.phase == Ready ==> s.sentBytes == ConfirmLength(s.phone) + Weight(Stream(taken)))
    && (s.phase !in {Ready, Closed} ==> OnlyConfirmed(s))
  }

  predicate ReceivedWeighs(s: State, given: seq<seq<byte>>) {
    && (s.phase == Ready ==>
          s.receivedBytes
          == ConfirmLength(!s.phone) + Weight(Stream(given)) + HEADER * Held(s.incoming) + |s.incoming.partial|)
    && (s.phase !in {Ready, Closed} ==> OnlyConfirmed(s))
  }

  lemma SealWeighs(s: State, data: seq<byte>, next: State, frames: seq<Frame>, taken: seq<seq<byte>>)
    requires Sends(s, taken) && SentWeighs(s, taken) && Seals(s, data, next, frames)
    ensures SentWeighs(next, taken + [data])
  {
    var ps, frags := RecordPlaintexts(s.outgoingRecord, data), RecordFragments(|taken|, data);
    PlaintextsWeigh(s.outgoingRecord, data, |ps|);
    assert frags[..|frags|] == frags;
    StreamOne(taken, data);
    WeightJoined(Stream(taken), frags);
  }

  /** What one fragment adds to what is held and returned. */
  lemma PushWeighs(
      a: Assembly, plaintext: Plaintext, now: Instant, next: Assembly, record: Option<seq<byte>>,
      given: seq<seq<byte>>, taken: seq<seq<byte>>)
    requires given <= taken && AllSealable(taken) && |taken| < U64_LIMIT && InRecord(a, given, taken)
    requires FragmentOf(plaintext, taken, |Stream(given)| + Held(a))
    requires Push(a, plaintext.bytes, now) == Pushed(next, Ok(record))
    ensures var more := given + if record.Some? then [record.value] else [];
      Weight(Stream(more)) + HEADER * Held(next) + |next.partial|
      == Weight(Stream(given)) + HEADER * Held(a) + |a.partial| + |plaintext.bytes|
  {
    PushReceives(a, plaintext, now, next, record, given, taken);
    PushLengths(a, plaintext, now, next, record, given, taken);
    if record.Some? {
      StreamOne(given, record.value);
      RecordWeighs(|given|, record.value);
      WeightJoined(Stream(given), RecordFragments(|given|, record.value));
    } else {
      assert given + [] == given;
    }
  }

  /** The data of a fragment is added to what is held, or completes the record. */
  lemma PushLengths(
      a: Assembly, plaintext: Plaintext, now: Instant, next: Assembly, record: Option<seq<byte>>,
      given: seq<seq<byte>>, taken: seq<seq<byte>>)
    requires given <= taken && AllSealable(taken) && |taken| < U64_LIMIT && InRecord(a, given, taken)
    requires FragmentOf(plaintext, taken, |Stream(given)| + Held(a))
    requires Push(a, plaintext.bytes, now) == Pushed(next, Ok(record))
    ensures if record.Some? then next.partial == [] && |record.value| == |a.partial| + |plaintext.bytes| - HEADER
            else |next.partial| == |a.partial| + |plaintext.bytes| - HEADER
  {
    var f := Stream(taken)[|Stream(given)| + Held(a)];
    assert plaintext.bytes == Encode(f);
    assert |Parse(plaintext.bytes).data| == |plaintext.bytes| - HEADER;
  }

  lemma OpenWeighs(
      s: State, f: Frame, now: Instant, next: State, record: Option<seq<byte>>, given: seq<seq<byte>>,
      taken: seq<seq<byte>>)
    requires Receives(s, given, taken) && ReceivedWeighs(s, given) && OpensWith(s, f, now, next, record)
    requires AllSealable(taken) && |taken| < U64_LIMIT
    requires f.counter >= 1 && FragmentOf(f.plaintext, taken, f.counter - 1)
    ensures ReceivedWeighs(next, given + if record.Some? then [record.value] else [])
  {
    PushWeighs(s.incoming, f.plaintext, now, next.incoming, record, given, taken);
  }

  /** A call that moves no record leaves the weights right, and a session just made ready has them right. */
  lemma OtherSent(s: State, call: Call, now: Instant, taken: seq<seq<byte>>)
    requires Consistent(s) && !MovesRecord(call) && Step(s, call, now).result.Ok?
    requires Sends(s, taken) && SentWeighs(s, taken)
    ensures SentWeighs(Step(s, call, now).next, taken)
  {
    StepLaws(s, call, now);
    OtherStep(s, call, now);
    OtherStepBytes(s, call, now);
    assert Stream([]) == [];
  }

  lemma OtherReceived(s: State, call: Call, now: Instant, given: seq<seq<byte>>, taken: seq<seq<byte>>)
    requires Consistent(s) && !MovesRecord(call) && Step(s, call, now).result.Ok?
    requires Receives(s, given, taken) && ReceivedWeighs(s, given)
    ensures ReceivedWeighs(Step(s, call, now).next, given)
  {
    StepLaws(s, call, now);
    OtherStep(s, call, now);
    OtherStepBytes(s, call, now);
    assert Stream([]) == [];
  }

  lemma SentWeighsNext(s: State, call: Call, now: Instant, taken: seq<seq<byte>>)
    requires Consistent(s) && Sends(s, taken) && SentWeighs(s, taken)
    ensures var r := Step(s, call, now);
      SentWeighs(r.next, taken + TakenBy(call, r.result))
  {
    var r := Step(s, call, now);
    assert taken + [] == taken;
    if r.result.Err? {
      FailedStep(s, call, now);
    } else if call.SealRecord? {
      SealStep(s, call.record, now);
      SealWeighs(s, call.record, r.next, r.result.value.frames, taken);
    } else if call.OpenFrame? {
      OpenStep(s, call.frame, now);
    } else {
      OtherSent(s, call, now, taken);
    }
  }

  lemma ReceivedWeighsNext(s: State, call: Call, now: Instant, given: seq<seq<byte>>, taken: seq<seq<byte>>)
    requires Consistent(s) && Receives(s, given, taken) && ReceivedWeighs(s, given)
    requires AllSealable(taken) && |taken| < U64_LIMIT
    requires call.OpenFrame? ==> call.frame.Unopenable? || FrameOf(call.frame, !s.phone, taken)
    ensures var r := Step(s, call, now);
      ReceivedWeighs(r.next, given + GivenBy(r.result))
  {
    var r := Step(s, call, now);
    assert given + [] == given;
    if r.result.Err? {
      FailedStep(s, call, now);
    } else if call.SealRecord? {
      SealStep(s, call.record, now);
    } else if call.OpenFrame? {
      OpenStep(s, call.frame, now);
      OpenWeighs(s, call.frame, now, r.next, r.result.value.record, given, taken);
    } else {
      OtherReceived(s, call, now, given, taken);
    }
  }

  // ----- Both ends, over every run -----

  predicate WeighedFlows(w: World, fromPhone: bool, taken: seq<seq<byte>>, given: seq<seq<byte>>) {
    Flows(w, fromPhone, taken, given) && SentWeighs(End(w, fromPhone), taken)
      && ReceivedWeighs(End(w, !fromPhone), given)
  }

  lemma WeighedNext(w: World, e: Event, fromPhone: bool, taken: seq<seq<byte>>, given: seq<seq<byte>>)
    requires Safe(w) && Deliverable(w, e.call) && WeighedFlows(w, fromPhone, taken, given)
    ensures WeighedFlows(Next(w, e), fromPhone, taken + TakenAt(w, e, fromPhone), given + GivenAt(w, e, !fromPhone))
  {
    FlowsNext(w, e, fromPhone, taken, given);
    NextMoves(w, e);
    if e.onPhone == fromPhone {
      SentWeighsNext(End(w, fromPhone), e.call, e.now, taken);
      assert given + [] == given;
    } else {
      ReceivedWeighsNext(End(w, !fromPhone), e.call, e.now, given, taken);
      assert taken + [] == taken;
    }
  }

  lemma BeginWeighed(s: Setup, fromPhone: bool)
    ensures Flowing(WeighedFlows, Begin(s), fromPhone, [], [])
  {
  }

  lemma EveryWeighed(s: Setup, events: seq<Event>, n: nat, fromPhone: bool)
    requires s.phoneKey != s.desktopKey && n <= |events| && Possible(Begin(s), events)
    ensures Flowing(WeighedFlows, Run(Begin(s), events, n), fromPhone,
      Taken(s, events, n, fromPhone), Given(s, events, n, !fromPhone))
  {
    forall w, e, from, taken, given | Holds(Safe, w) && Fits(CanHappen, w, e)
      ensures FlowsOn(Next, WeighedFlows, TakenAt, GivenAt, w, e, from, taken, given)
    {
      if Flowing(WeighedFlows, w, from, taken, given) {
        WeighedNext(w, e, from, taken, given);
      }
    }
    forall i | 0 <= i <= n
      ensures Holds(Safe, RunTo(Next, Begin(s), events, i))
    {
      EveryRun(s, events, i);
    }
    BeginWeighed(s, fromPhone);
    FlowsTo(Next, Safe, WeighedFlows, TakenAt, GivenAt, Begin(s), events, n, fromPhone);
  }

  /** Where the counters meet, nothing is held and every record taken was given. */
  lemma AllGiven(given: seq<seq<byte>>, taken: seq<seq<byte>>, a: Assembly)
    requires given <= taken && AllSealable(taken) && InRecord(a, given, taken)
    requires |Stream(given)| + Held(a) == |Stream(taken)|
    ensures given == taken && a == Assembly(|taken|, 0, None, [])
  {
    var start := MidwayIn(a, given, taken, 0);
    assert taken[..|given|] == given;
    if |given| < |taken| {
      CountIs(|given|, taken[|given|], Held(a));
      StreamIndex(taken, |given|, Held(a));
      assert false;
    }
  }

  lemma MetInSync(w: World, fromPhone: bool, taken: seq<seq<byte>>, given: seq<seq<byte>>)
    requires Safe(w) && w.phone.phase == Ready && w.desktop.phase == Ready
    requires WeighedFlows(w, fromPhone, taken, given)
    requires End(w, !fromPhone).transport.value.receiveCounter == End(w, fromPhone).transport.value.sendCounter
    ensures InSync(End(w, fromPhone), End(w, !fromPhone)) && given == taken
  {
    AllGiven(given, taken, End(w, !fromPhone).incoming);
  }

  predicate BothReady(w: World) {
    w.phone.phase == Ready && w.desktop.phase == Ready && w.phone.transport.Some? && w.desktop.transport.Some?
  }

  /** In every reachable world with both ends ready, an end that has opened every frame the other has sealed is in sync
      with it, and has returned exactly the records the other took.  From there RecordsExchanged applies. */
  lemma CaughtUp(s: Setup, events: seq<Event>, n: nat, fromPhone: bool)
    requires s.phoneKey != s.desktopKey && n <= |events| && Possible(Begin(s), events)
    requires BothReady(Run(Begin(s), events, n))
    requires var w := Run(Begin(s), events, n);
      End(w, !fromPhone).transport.value.receiveCounter == End(w, fromPhone).transport.value.sendCounter
    ensures var w := Run(Begin(s), events, n);
      InSync(End(w, fromPhone), End(w, !fromPhone))
    ensures Given(s, events, n, !fromPhone) == Taken(s, events, n, fromPhone)
  {
    EveryRun(s, events, n);
    EveryWeighed(s, events, n, fromPhone);
    MetInSync(Run(Begin(s), events, n), fromPhone, Taken(s, events, n, fromPhone), Given(s, events, n, !fromPhone));
  }
}
