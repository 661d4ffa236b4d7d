/** What one end seals, the other end opens: budgets in lockstep and records delivered whole. */
module SessionExchange {
  import opened Wrappers
  import opened Bytes
  import opened Records
  import opened SecureSession

  // ----- Budgets in lockstep -----

  /** Everything `a` encrypted so far, `b` has decrypted. */
  predicate Linked(a: State, b: State) {
    && a.transport.Some? && b.transport.Some?
    && a.transport.value.binding == b.transport.value.binding
    && a.transport.value.phone != b.transport.value.phone
    && a.transport.value.sendCounter == b.transport.value.receiveCounter
    && a.sentMessages == b.receivedMessages
    && a.sentBytes == b.receivedBytes
  }

  /** A frame the sender was allowed to encrypt never trips the receiver's budget. */
  lemma EncryptDecrypt(a: State, b: State, plaintext: Plaintext)
    requires Linked(a, b)
    ensures var sent := Encrypt(a, plaintext);
      sent.result.Ok? ==>
        && Decrypt(b, sent.result.value).result == Ok(plaintext)
        && Linked(sent.next, Decrypt(b, sent.result.value).next)
  {
  }

  /** Decrypts the first `n` frames in order, stopping at the first error. */
  function DecryptTo(b: State, frames: seq<Frame>, n: nat): Reply<seq<Plaintext>>
    requires n <= |frames|
  {
    if n == 0 then Reply(b, Ok([]))
    else
      var before := DecryptTo(b, frames, n - 1);
      match before.result
      case Err(e) => Fail(before.next, e)
      case Ok(plaintexts) =>
        var got := Decrypt(before.next, frames[n - 1]);
        match got.result
        case Err(e) => Fail(got.next, e)
        case Ok(plaintext) => Reply(got.next, Ok(plaintexts + [plaintext]))
  }

  lemma {:induction false} EncryptPrefix(a: State, plaintexts: seq<Plaintext>, n: nat, m: nat)
    requires n <= m <= |plaintexts|
    requires EncryptTo(a, plaintexts, m).result.Ok?
    ensures EncryptTo(a, plaintexts, n).result.Ok?
    ensures |EncryptTo(a, plaintexts, m).result.value| == m
    ensures EncryptTo(a, plaintexts, n).result.value == EncryptTo(a, plaintexts, m).result.value[..n]
    decreases m
  {
    if n == m {
      if m != 0 {
        EncryptPrefix(a, plaintexts, n - 1, m - 1);
      }
    } else {
      EncryptPrefix(a, plaintexts, n, m - 1);
    }
  }

  /** One more frame delivered, after the first `n` are. */
  lemma LockstepOne(a: State, b: State, plaintexts: seq<Plaintext>, frames: seq<Frame>, n: nat)
    requires n < |plaintexts| && n < |frames|
    requires EncryptTo(a, plaintexts, n + 1).result.Ok? && |EncryptTo(a, plaintexts, n + 1).result.value| == n + 1
    requires EncryptTo(a, plaintexts, n + 1).result.value[n] == frames[n]
    requires DecryptTo(b, frames, n).result == Ok(plaintexts[..n])
    requires Linked(EncryptTo(a, plaintexts, n).next, DecryptTo(b, frames, n).next)
    ensures DecryptTo(b, frames, n + 1).result == Ok(plaintexts[..n + 1])
    ensures Linked(EncryptTo(a, plaintexts, n + 1).next, DecryptTo(b, frames, n + 1).next)
  {
    EncryptDecrypt(EncryptTo(a, plaintexts, n).next, DecryptTo(b, frames, n).next, plaintexts[n]);
    assert plaintexts[..n + 1] == plaintexts[..n] + [plaintexts[n]];
  }

  /** However far the receiver lags behind, in-order delivery decrypts every frame, and once all are
      delivered the received counters equal the sent ones. */
  lemma {:induction false} BudgetLockstep(a: State, b: State, plaintexts: seq<Plaintext>, n: nat)
    requires Linked(a, b) && n <= |plaintexts|
    requires EncryptTo(a, plaintexts, |plaintexts|).result.Ok?
    ensures |EncryptTo(a, plaintexts, |plaintexts|).result.value| == |plaintexts|
    ensures var got := DecryptTo(b, EncryptTo(a, plaintexts, |plaintexts|).result.value, n);
      got.result == Ok(plaintexts[..n]) && Linked(EncryptTo(a, plaintexts, n).next, got.next)
  {
    EncryptPrefix(a, plaintexts, n, |plaintexts|);
    if n != 0 {
      BudgetLockstep(a, b, plaintexts, n - 1);
      LockstepOne(a, b, plaintexts, EncryptTo(a, plaintexts, |plaintexts|).result.value, n - 1);
    }
  }

  // ----- Records delivered whole -----

  /** A public call that opens one frame. */
  type Opener = (State, Frame, Instant) -> Reply<Option<seq<byte>>>

  function OpenFrameNow(s: State, frame: Frame, now: Instant): Reply<Option<seq<byte>>> {
    Checked(s, now, TryOpenFrame(s, frame, now))
  }

  function Apply(open: Opener, s: State, frame: Frame, now: Instant): Reply<Option<seq<byte>>> {
    open(s, frame, now)
  }

  /** Opens the first `n` frames, stopping at the first error. */
  function WalkTo(open: Opener, b: State, frames: seq<Frame>, times: seq<Instant>, n: nat)
    : Reply<seq<Option<seq<byte>>>>
    requires n <= |frames| == |times|
  {
    if n == 0 then Reply(b, Ok([]))
    else
      var before := WalkTo(open, b, frames, times, n - 1);
      match before.result
      case Err(e) => Fail(before.next, e)
      case Ok(records) =>
        var got := Apply(open, before.next, frames[n - 1], times[n - 1]);
        match got.result
        case Err(e) => Fail(got.next, e)
        case Ok(record) => Reply(got.next, Ok(records + [record]))
  }

  function OpenAll(b: State, frames: seq<Frame>, times: seq<Instant>): Reply<seq<Option<seq<byte>>>>
    requires |frames| == |times|
  {
    WalkTo(OpenFrameNow, b, frames, times, |frames|)
  }

  lemma {:induction false} WalkFollows(
      open: Opener, states: seq<State>, frames: seq<Frame>, times: seq<Instant>, outputs: seq<Option<seq<byte>>>,
      n: nat)
    requires n <= |frames| == |times| == |outputs| == |states| - 1
    requires forall i :: 0 <= i < |frames| ==>
      Apply(open, states[i], frames[i], times[i]) == Reply(states[i + 1], Ok(outputs[i]))
    ensures WalkTo(open, states[0], frames, times, n) == Reply(states[n], Ok(outputs[..n]))
  {
    if n != 0 {
      WalkFollows(open, states, frames, times, outputs, n - 1);
      assert outputs[..n] == outputs[..n - 1] + [outputs[n - 1]];
    }
  }

  /** Both ends are ready and agree on everything delivered so far, at a record boundary. */
  predicate InSync(a: State, b: State) {
    && Linked(a, b)
    && a.phase == Ready && b.phase == Ready
    && b.incoming == Assembly(a.outgoingRecord, 0, None, [])
  }

  /** The session is young enough at every one of the times. */
  predicate Young(b: State, times: seq<Instant>) {
    forall i :: 0 <= i < |times| ==> Elapsed(times[i], b.created) < MAX_AGE_MS
  }

  /** None for every frame of a record but the last, and the record itself on the last. */
  function Outputs(data: seq<byte>, count: nat): (o: seq<Option<seq<byte>>>)
    ensures |o| == count
  {
    seq(count, i => if i == count - 1 then Some(data) else None)
  }

  lemma DecryptIgnoresIncoming(b: State, incoming: Assembly, frame: Frame)
    ensures Decrypt(b.(incoming := incoming), frame)
         == Reply(Decrypt(b, frame).next.(incoming := incoming), Decrypt(b, frame).result)
  {
  }

  lemma {:induction false} DecryptToKeepsRest(b: State, frames: seq<Frame>, n: nat)
    requires n <= |frames|
    ensures var next := DecryptTo(b, frames, n).next;
      next.phase == b.phase && next.created == b.created && next.incoming == b.incoming
  {
    if n != 0 {
      DecryptToKeepsRest(b, frames, n - 1);
    }
  }

  lemma {:induction false} EncryptToKeepsRest(a: State, plaintexts: seq<Plaintext>, n: nat)
    requires n <= |plaintexts|
    ensures var next := EncryptTo(a, plaintexts, n).next;
      next.phase == a.phase && next.created == a.created && next.outgoingRecord == a.outgoingRecord
  {
    if n != 0 {
      EncryptToKeepsRest(a, plaintexts, n - 1);
    }
  }

  /** One public call on the next frame of a record, seen as a decryption and a push. */
  lemma OpenOne(before: State, incoming: Assembly, frame: Frame, bytes: seq<byte>, now: Instant)
    requires before.phase == Ready && !Expired(incoming, now) && Elapsed(now, before.created) < MAX_AGE_MS
    requires Decrypt(before, frame).result == Ok(Contents(bytes))
    requires Push(incoming, bytes, now).reply.Ok?
    ensures var pushed := Push(incoming, bytes, now);
      Checked(before.(incoming := incoming), now, TryOpenFrame(before.(incoming := incoming), frame, now))
      == Reply(Decrypt(before, frame).next.(incoming := pushed.next), Ok(pushed.reply.value))
  {
    DecryptIgnoresIncoming(before, incoming, frame);
  }

  /** The assembly after `i` of `count` frames of a record. */
  function Reached(record: nat, data: seq<byte>, i: nat, count: nat, start: Instant): Assembly {
    if i == count then Assembly(record + 1, 0, None, []) else Midway(record, data, i, start)
  }

  lemma FragmentPushed(record: u64, data: seq<byte>, i: nat, a: Assembly, now: Instant)
    requires Sealable(data) && i < |RecordFragments(record, data)|
    ensures AllEncodable(RecordFragments(record, data))
    ensures Push(a, Encode(RecordFragments(record, data)[i]), now) == Accept(a, RecordFragments(record, data)[i], now)
  {
    FragmentsEncodable(record, |data|, data, 0);
    FragmentCount(record, |data|, data, 0);
    FragmentAt(record, |data|, data, 0, i);
    PushEncoded(RecordFragments(record, data)[i]);
  }

  lemma PushReached(record: u64, data: seq<byte>, i: nat, start: Instant, now: Instant)
    requires Sealable(data) && record + 1 < U64_LIMIT && i < |RecordFragments(record, data)|
    requires now - start < RECORD_TIMEOUT_MS && (i == 0 ==> start == now)
    ensures var count := |RecordFragments(record, data)|;
      && AllEncodable(RecordFragments(record, data))
      && Push(Midway(record, data, i, start), Encode(RecordFragments(record, data)[i]), now)
         == Pushed(Reached(record, data, i + 1, count, start), Ok(Outputs(data, count)[i]))
      && !Expired(Midway(record, data, i, start), now)
  {
    FragmentPushed(record, data, i, Midway(record, data, i, start), now);
    FragmentCount(record, |data|, data, 0);
    AcceptMidway(record, data, i, start, now);
  }

  /** The frames decrypt, one after the other, to the fragments of this record. */
  predicate Carries(b: State, frames: seq<Frame>, record: u64, data: seq<byte>)
    requires |data| <= MAX_RECORD
  {
    var ps := RecordPlaintexts(record, data);
    && |frames| == |ps|
    && forall k :: 0 <= k < |frames| ==>
         && DecryptTo(b, frames, k).result.Ok?
         && Decrypt(DecryptTo(b, frames, k).next, frames[k]).result == Ok(ps[k])
  }

  /** The receiver after `i` frames of a record. */
  function StateAfter(b: State, frames: seq<Frame>, record: nat, data: seq<byte>, i: nat, start: Instant): State
    requires i <= |frames|
  {
    DecryptTo(b, frames, i).next.(incoming := Reached(record, data, i, |frames|, start))
  }

  lemma OpenNext(b: State, frames: seq<Frame>, record: u64, data: seq<byte>, times: seq<Instant>, i: nat)
    requires Sealable(data) && record + 1 < U64_LIMIT && Carries(b, frames, record, data)
    requires b.phase == Ready
    requires i < |frames| == |times| && Young(b, times) && WithinLimit(times)
    ensures OpenFrameNow(StateAfter(b, frames, record, data, i, times[0]), frames[i], times[i])
         == Reply(StateAfter(b, frames, record, data, i + 1, times[0]), Ok(Outputs(data, |frames|)[i]))
  {
    var ps := RecordPlaintexts(record, data);
    var before := DecryptTo(b, frames, i).next;
    DecryptToKeepsRest(b, frames, i);
    PushReached(record, data, i, times[0], times[i]);
    OpenOne(before, Midway(record, data, i, times[0]), frames[i], ps[i].bytes, times[i]);
  }

  function StatesAfter(b: State, frames: seq<Frame>, record: nat, data: seq<byte>, start: Instant): (states: seq<State>)
    ensures |states| == |frames| + 1
    ensures forall i :: 0 <= i <= |frames| ==> states[i] == StateAfter(b, frames, record, data, i, start)
  {
    seq(|frames| + 1, i requires 0 <= i <= |frames| => StateAfter(b, frames, record, data, i, start))
  }

  lemma OpensInTurn(b: State, frames: seq<Frame>, record: u64, data: seq<byte>, times: seq<Instant>, states: seq<State>)
    requires Sealable(data) && record + 1 < U64_LIMIT && Carries(b, frames, record, data)
    requires b.phase == Ready
    requires |frames| == |times| && frames != [] && Young(b, times) && WithinLimit(times)
    requires states == StatesAfter(b, frames, record, data, times[0])
    ensures forall i :: 0 <= i < |frames| ==>
      Apply(OpenFrameNow, states[i], frames[i], times[i]) == Reply(states[i + 1], Ok(Outputs(data, |frames|)[i]))
  {
    forall i | 0 <= i < |frames|
      ensures Apply(OpenFrameNow, states[i], frames[i], times[i])
        == Reply(states[i + 1], Ok(Outputs(data, |frames|)[i]))
    {
      OpenNext(b, frames, record, data, times, i);
    }
  }

  lemma {:induction false} RecordOpens(b: State, frames: seq<Frame>, record: u64, data: seq<byte>, times: seq<Instant>)
    requires Sealable(data) && record + 1 < U64_LIMIT && Carries(b, frames, record, data)
    requires b.phase == Ready && b.incoming == Assembly(record, 0, None, [])
    requires |frames| == |times| && Young(b, times) && WithinLimit(times)
    ensures frames != []
    ensures OpenAll(b, frames, times)
         == Reply(StateAfter(b, frames, record, data, |frames|, times[0]), Ok(Outputs(data, |frames|)))
  {
    FragmentCount(record, |data|, data, 0);
    var states := StatesAfter(b, frames, record, data, times[0]);
    var outputs := Outputs(data, |frames|);
    OpensInTurn(b, frames, record, data, times, states);
    assert states[0] == b;
    WalkFollows(OpenFrameNow, states, frames, times, outputs, |frames|);
    assert outputs[..|frames|] == outputs;
  }

  lemma {:induction false} SealedCarries(a: State, b: State, data: seq<byte>)
    requires Linked(a, b) && Sealable(data)
    requires var ps := RecordPlaintexts(a.outgoingRecord, data); EncryptTo(a, ps, |ps|).result.Ok?
    ensures var ps := RecordPlaintexts(a.outgoingRecord, data);
      Carries(b, EncryptTo(a, ps, |ps|).result.value, a.outgoingRecord, data)
  {
    var ps := RecordPlaintexts(a.outgoingRecord, data);
    var frames := EncryptTo(a, ps, |ps|).result.value;
    EncryptPrefix(a, ps, |ps|, |ps|);
    forall k | 0 <= k < |frames|
      ensures DecryptTo(b, frames, k).result.Ok?
      ensures Decrypt(DecryptTo(b, frames, k).next, frames[k]).result == Ok(ps[k])
    {
      BudgetLockstep(a, b, ps, k);
      BudgetLockstep(a, b, ps, k + 1);
      assert ps[..k + 1][k] == ps[k];
    }
  }

  /** A sealed record, opened in order and in time, yields nothing on every frame but the last and exactly
      the record on the last; and both ends stand at the same record boundary afterwards. */
  lemma {:induction false} SealedRecordOpens(a: State, b: State, data: seq<byte>, now: Instant, times: seq<Instant>)
    requires InSync(a, b)
    requires Checked(a, now, TrySealRecord(a, data)).result.Ok?
    requires |times| == |Checked(a, now, TrySealRecord(a, data)).result.value|
    requires Young(b, times) && WithinLimit(times)
    ensures var sealed := Checked(a, now, TrySealRecord(a, data));
      var opening := OpenAll(b, sealed.result.value, times);
      opening.result == Ok(Outputs(data, |times|)) && InSync(sealed.next, opening.next)
  {
    var ps := RecordPlaintexts(a.outgoingRecord, data);
    var frames := EncryptTo(a, ps, |ps|).result.value;
    SealedCarries(a, b, data);
    RecordOpens(b, frames, a.outgoingRecord, data, times);
    BudgetLockstep(a, b, ps, |ps|);
    DecryptToKeepsRest(b, frames, |ps|);
    EncryptToKeepsRest(a, ps, |ps|);
  }

  /** A public call that seals one record. */
  type Sealer = (State, seq<byte>, Instant) -> Reply<seq<Frame>>

  function SealRecordNow(s: State, data: seq<byte>, now: Instant): Reply<seq<Frame>> {
    Checked(s, now, TrySealRecord(s, data))
  }

  function ApplySeal(seal: Sealer, s: State, data: seq<byte>, now: Instant): Reply<seq<Frame>> {
    seal(s, data, now)
  }

  /** Seals the first `n` records of a list, stopping at the first error. */
  function SealMany(seal: Sealer, a: State, records: seq<seq<byte>>, sealedAt: seq<Instant>, n: nat)
    : Reply<seq<seq<Frame>>>
    requires n <= |records| == |sealedAt|
  {
    if n == 0 then Reply(a, Ok([]))
    else
      var before := SealMany(seal, a, records, sealedAt, n - 1);
      match before.result
      case Err(e) => Fail(before.next, e)
      case Ok(lists) =>
        var sealed := ApplySeal(seal, before.next, records[n - 1], sealedAt[n - 1]);
        match sealed.result
        case Err(e) => Fail(sealed.next, e)
        case Ok(frames) => Reply(sealed.next, Ok(lists + [frames]))
  }

  /** Opens the frames of the first `n` records in order, stopping at the first error. */
  function OpenMany(open: Opener, b: State, lists: seq<seq<Frame>>, times: seq<seq<Instant>>, n: nat)
    : Reply<seq<seq<Option<seq<byte>>>>>
    requires n <= |lists| == |times|
    requires forall k :: 0 <= k < |lists| ==> |lists[k]| == |times[k]|
  {
    if n == 0 then Reply(b, Ok([]))
    else
      var before := OpenMany(open, b, lists, times, n - 1);
      match before.result
      case Err(e) => Fail(before.next, e)
      case Ok(outputs) =>
        var got := WalkTo(open, before.next, lists[n - 1], times[n - 1], |lists[n - 1]|);
        match got.result
        case Err(e) => Fail(got.next, e)
        case Ok(output) => Reply(got.next, Ok(outputs + [output]))
  }

  function AllOutputs(records: seq<seq<byte>>, lists: seq<seq<Frame>>, n: nat): seq<seq<Option<seq<byte>>>>
    requires n <= |records| == |lists|
  {
    if n == 0 then [] else AllOutputs(records, lists, n - 1) + [Outputs(records[n - 1], |lists[n - 1]|)]
  }

  lemma {:induction false} SealManyPrefix(
      seal: Sealer, a: State, records: seq<seq<byte>>, sealedAt: seq<Instant>, n: nat, m: nat)
    requires n <= m <= |records| == |sealedAt|
    requires SealMany(seal, a, records, sealedAt, m).result.Ok?
    ensures SealMany(seal, a, records, sealedAt, n).result.Ok?
    ensures |SealMany(seal, a, records, sealedAt, m).result.value| == m
    ensures SealMany(seal, a, records, sealedAt, n).result.value
      == SealMany(seal, a, records, sealedAt, m).result.value[..n]
    decreases m
  {
    if n == m {
      if m != 0 {
        SealManyPrefix(seal, a, records, sealedAt, n - 1, m - 1);
      }
    } else {
      SealManyPrefix(seal, a, records, sealedAt, n, m - 1);
    }
  }

  /** A sealed record opens on the other end, which keeps its age. */
  ghost predicate Delivers(seal: Sealer, open: Opener) {
    forall a, b, data, now, times ::
      var sealed := ApplySeal(seal, a, data, now);
      InSync(a, b) && sealed.result.Ok? && |times| == |sealed.result.value| && Young(b, times) && WithinLimit(times)
      ==> var opening := WalkTo(open, b, sealed.result.value, times, |times|);
          && opening.result == Ok(Outputs(data, |times|))
          && InSync(sealed.next, opening.next)
          && opening.next.created == b.created
  }

  lemma {:induction false} DeliversMany(
      seal: Sealer, open: Opener, a: State, b: State, records: seq<seq<byte>>, sealedAt: seq<Instant>,
      lists: seq<seq<Frame>>, times: seq<seq<Instant>>, n: nat)
    requires Delivers(seal, open) && InSync(a, b)
    requires n <= |records| == |sealedAt| == |lists| == |times|
    requires SealMany(seal, a, records, sealedAt, |records|).result == Ok(lists)
    requires forall k :: 0 <= k < |lists| ==> |lists[k]| == |times[k]| && Young(b, times[k]) && WithinLimit(times[k])
    ensures var opening := OpenMany(open, b, lists, times, n);
      && opening.result == Ok(AllOutputs(records, lists, n))
      && InSync(SealMany(seal, a, records, sealedAt, n).next, opening.next)
      && opening.next.created == b.created
  {
    if n != 0 {
      DeliversMany(seal, open, a, b, records, sealedAt, lists, times, n - 1);
      SealManyPrefix(seal, a, records, sealedAt, n, |records|);
      SealManyPrefix(seal, a, records, sealedAt, n - 1, |records|);
      assert SealMany(seal, a, records, sealedAt, n).result.value[n - 1] == lists[n - 1];
      var sender := SealMany(seal, a, records, sealedAt, n - 1).next;
      var receiver := OpenMany(open, b, lists, times, n - 1).next;
      assert ApplySeal(seal, sender, records[n - 1], sealedAt[n - 1]).result == Ok(lists[n - 1]);
      assert InSync(sender, receiver) && Young(receiver, times[n - 1]) && WithinLimit(times[n - 1]);
      assert WalkTo(open, receiver, lists[n - 1], times[n - 1], |lists[n - 1]|).result
          == Ok(Outputs(records[n - 1], |lists[n - 1]|));
    }
  }

  lemma {:induction false} OpenKeepsCreated(b: State, frames: seq<Frame>, times: seq<Instant>, n: nat)
    requires n <= |frames| == |times|
    ensures WalkTo(OpenFrameNow, b, frames, times, n).next.created == b.created
  {
    if n != 0 {
      OpenKeepsCreated(b, frames, times, n - 1);
    }
  }

  /** For every list of records the sender's budgets and age let it seal, opening the frames in order and in
      time returns None on every frame but the last of each record and exactly the record on that one, and the
      two ends' record counters agree at every record boundary. */
  lemma RecordsExchanged(
      a: State, b: State, records: seq<seq<byte>>, sealedAt: seq<Instant>,
      lists: seq<seq<Frame>>, times: seq<seq<Instant>>, n: nat)
    requires InSync(a, b)
    requires n <= |records| == |sealedAt| == |lists| == |times|
    requires SealMany(SealRecordNow, a, records, sealedAt, |records|).result == Ok(lists)
    requires forall k :: 0 <= k < |lists| ==> |lists[k]| == |times[k]| && Young(b, times[k]) && WithinLimit(times[k])
    ensures var opening := OpenMany(OpenFrameNow, b, lists, times, n);
      && opening.result == Ok(AllOutputs(records, lists, n))
      && InSync(SealMany(SealRecordNow, a, records, sealedAt, n).next, opening.next)
  {
    forall x, y, data, now, ts |
      var sealed := ApplySeal(SealRecordNow, x, data, now);
      InSync(x, y) && sealed.result.Ok? && |ts| == |sealed.result.value| && Young(y, ts) && WithinLimit(ts)
      ensures var sealed := ApplySeal(SealRecordNow, x, data, now);
        var opening := WalkTo(OpenFrameNow, y, sealed.result.value, ts, |ts|);
        && opening.result == Ok(Outputs(data, |ts|))
        && InSync(sealed.next, opening.next)
        && opening.next.created == y.created
    {
      SealedRecordOpens(x, y, data, now, ts);
      OpenKeepsCreated(y, SealRecordNow(x, data, now).result.value, ts, |ts|);
    }
    DeliversMany(SealRecordNow, OpenFrameNow, a, b, records, sealedAt, lists, times, n);
  }

  // ----- Nothing else is accepted -----

  function Returned(outputs: seq<Option<seq<byte>>>): seq<seq<byte>> {
    if outputs == [] then []
    else
      var last := outputs[|outputs| - 1];
      Returned(outputs[..|outputs| - 1]) + if last.Some? then [last.value] else []
  }

  predicate CarriesContents(frames: seq<Frame>) {
    forall i :: 0 <= i < |frames| ==> frames[i].Sealed? && frames[i].plaintext.Contents?
  }

  function ContentsOf(frames: seq<Frame>): (contents: seq<seq<byte>>)
    requires CarriesContents(frames)
    ensures |contents| == |frames|
    ensures forall i :: 0 <= i < |frames| ==> contents[i] == frames[i].plaintext.bytes
  {
    seq(|frames|, i requires 0 <= i < |frames| => frames[i].plaintext.bytes)
  }

  lemma OpenedOne(s: State, frame: Frame, now: Instant)
    requires OpenFrameNow(s, frame, now).result.Ok?
    ensures frame.Sealed? && frame.plaintext.Contents?
    ensures var got := OpenFrameNow(s, frame, now);
      && s.transport.Some? && got.next.transport.Some?
      && frame.counter == s.transport.value.receiveCounter
      && frame.binding == s.transport.value.binding
      && got.next.transport.value.binding == s.transport.value.binding
      && got.next.transport.value.receiveCounter == s.transport.value.receiveCounter + 1
      && Push(s.incoming, frame.plaintext.bytes, now) == Pushed(got.next.incoming, got.result)
  {
  }

  lemma ReturnedStep(outputs: seq<Option<seq<byte>>>, output: Option<seq<byte>>, a: Assembly, b: Assembly)
    ensures Extend(Opened(a, Returned(outputs)), Pushed(b, Ok(output)))
         == Some(Opened(b, Returned(outputs + [output])))
  {
    assert (outputs + [output])[..|outputs|] == outputs;
    assert Returned(outputs) + [] == Returned(outputs);
  }

  /** What a successful call says about the frame it opened. */
  predicate OpenedNext(before: State, frame: Frame, got: Reply<Option<seq<byte>>>) {
    && frame.Sealed? && frame.plaintext.Contents?
    && before.transport.Some? && got.next.transport.Some?
    && frame.counter == before.transport.value.receiveCounter
    && frame.binding == before.transport.value.binding == got.next.transport.value.binding
    && got.next.transport.value.receiveCounter == frame.counter + 1
  }

  ghost predicate Orderly(open: Opener) {
    forall s, frame, now :: Apply(open, s, frame, now).result.Ok?
      ==> OpenedNext(s, frame, Apply(open, s, frame, now))
  }

  predicate InOrder(b: State, frames: seq<Frame>, after: State, n: nat)
    requires n <= |frames|
  {
    && b.transport.Some? && after.transport.Some?
    && after.transport.value.binding == b.transport.value.binding
    && after.transport.value.receiveCounter == b.transport.value.receiveCounter + n
    && forall i :: 0 <= i < n ==>
         && frames[i].Sealed? && frames[i].plaintext.Contents?
         && frames[i].binding == b.transport.value.binding
         && frames[i].counter == b.transport.value.receiveCounter + i
  }

  lemma {:induction false} OrderlyWalk(open: Opener, b: State, frames: seq<Frame>, times: seq<Instant>, n: nat)
    requires Orderly(open)
    requires n <= |frames| == |times| && b.transport.Some?
    requires WalkTo(open, b, frames, times, n).result.Ok?
    ensures InOrder(b, frames, WalkTo(open, b, frames, times, n).next, n)
  {
    if n != 0 {
      OrderlyWalk(open, b, frames, times, n - 1);
      var before := WalkTo(open, b, frames, times, n - 1).next;
      assert OpenedNext(before, frames[n - 1], Apply(open, before, frames[n - 1], times[n - 1]));
    }
  }

  /** Frames opened without an error are this session's, with consecutive counters: none was dropped, repeated
      or reordered. */
  lemma OpenedInOrder(b: State, frames: seq<Frame>, times: seq<Instant>)
    requires |frames| == |times| && b.transport.Some?
    requires OpenAll(b, frames, times).result.Ok?
    ensures InOrder(b, frames, OpenAll(b, frames, times).next, |frames|)
  {
    forall s, frame, now | Apply(OpenFrameNow, s, frame, now).result.Ok?
      ensures OpenedNext(s, frame, Apply(OpenFrameNow, s, frame, now))
    {
      OpenedOne(s, frame, now);
    }
    OrderlyWalk(OpenFrameNow, b, frames, times, |frames|);
  }

  /** The reassembler saw the contents of those frames, in that order. */
  lemma {:induction false} OpenedPushes(b: State, frames: seq<Frame>, times: seq<Instant>, n: nat)
    requires n <= |frames| == |times| && CarriesContents(frames)
    requires WalkTo(OpenFrameNow, b, frames, times, n).result.Ok?
    ensures var run := WalkTo(OpenFrameNow, b, frames, times, n);
      FoldTo(Push, b.incoming, ContentsOf(frames), times, n)
      == Some(Opened(run.next.incoming, Returned(run.result.value)))
  {
    if n != 0 {
      OpenedPushes(b, frames, times, n - 1);
      var before := WalkTo(OpenFrameNow, b, frames, times, n - 1);
      var got := Apply(OpenFrameNow, before.next, frames[n - 1], times[n - 1]);
      OpenedOne(before.next, frames[n - 1], times[n - 1]);
      ReturnedStep(before.result.value, got.result.value, before.next.incoming, got.next.incoming);
    }
  }

  /** Reassembly is sound at the session's edge: a run of open_frame calls without an error has consumed exactly
      the fragmentation of the records it returned and a proper prefix of one further record. */
  lemma {:induction false} OpenedRecordsSound(b: State, frames: seq<Frame>, times: seq<Instant>)
    requires |frames| == |times| && b.transport.Some? && b.incoming == FRESH
    requires OpenAll(b, frames, times).result.Ok?
    ensures var run := OpenAll(b, frames, times);
      var records := Returned(run.result.value);
      var fragments := Stream(records) + Unfinished(run.next.incoming);
      && CarriesContents(frames)
      && AllSealable(records)
      && WellFormed(run.next.incoming)
      && run.next.incoming.record == |records|
      && AllEncodable(fragments)
      && ContentsOf(frames) == EncodeAll(fragments)
  {
    OpenedInOrder(b, frames, times);
    OpenedPushes(b, frames, times, |frames|);
    ReassemblySound(ContentsOf(frames), times);
  }
}
