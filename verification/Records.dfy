/** Record fragmentation and reassembly (shared/secure-channel/src/records.rs, and the framing of
    seal_record in lib.rs).  The argument runs on parsed frames; the last section carries it to bytes. */
module Records {
  import opened Wrappers
  import opened Bytes
  import opened Minimum

  const MAX_FRAME: nat := 65535
  const MAX_RECORD: nat := 1024 * 1024
  const HEADER: nat := 16
  const CHUNK: nat := 60 * 1024
  const RECORD_TIMEOUT_MS: nat := 30_000

  datatype Error =
    | InvalidState
    | InvalidInput
    | AuthenticationFailed
    | InitializationFailed
    | LimitReached

  /** Milliseconds on a monotonic clock. */
  type Instant = int

  /** One frame: record number, total record length, offset of this chunk, and the chunk. */
  datatype Frag = Frag(record: nat, total: nat, offset: nat, data: seq<byte>)

  predicate Encodable(f: Frag) {
    f.record < U64_LIMIT && f.total < U32_LIMIT && f.offset < U32_LIMIT
  }

  // ----- Fragmentation -----

  /** The chunks of `data` from `offset` on, each under a header that announces `total`. */
  function Fragments(record: nat, total: nat, data: seq<byte>, offset: nat): (fs: seq<Frag>)
    decreases |data| - offset
  {
    if offset >= |data| then []
    else
      [Frag(record, total, offset, data[offset..Min(offset + CHUNK, |data|)])]
      + Fragments(record, total, data, offset + CHUNK)
  }

  /** The frames that carry one whole record. */
  function RecordFragments(record: nat, data: seq<byte>): seq<Frag> {
    Fragments(record, |data|, data, 0)
  }

  predicate Sealable(data: seq<byte>) {
    0 < |data| <= MAX_RECORD
  }

  predicate AllSealable(records: seq<seq<byte>>) {
    forall i :: 0 <= i < |records| ==> Sealable(records[i])
  }

  /** The frames of a run of records, numbered from zero. */
  function Stream(records: seq<seq<byte>>): seq<Frag> {
    if records == [] then []
    else Stream(records[..|records| - 1]) + RecordFragments(|records| - 1, records[|records| - 1])
  }

  // ----- Reassembly -----

  datatype Assembly = Assembly(record: nat, total: nat, started: Option<Instant>, partial: seq<byte>)

  const FRESH := Assembly(0, 0, None, [])

  datatype Pushed = Pushed(next: Assembly, reply: Result<Option<seq<byte>>, Error>)

  predicate Expired(a: Assembly, now: Instant) {
    a.started.Some? && now - a.started.value >= RECORD_TIMEOUT_MS
  }

  /** The receiver's whole decision about one parsed frame. */
  function Accept(a: Assembly, f: Frag, now: Instant): Pushed {
    if Expired(a, now) then Pushed(a, Err(LimitReached))
    else if !(0 < |f.data| <= CHUNK) then Pushed(a, Err(InvalidInput))
    else if f.record != a.record || f.total == 0 || f.total > MAX_RECORD || f.offset != |a.partial| then
      Pushed(a, Err(InvalidInput))
    else
      var b := if f.offset == 0 then a.(total := f.total, started := Some(now)) else a;
      var remaining := if f.total < f.offset then 0 else f.total - f.offset;
      if f.total != b.total || |f.data| != Min(CHUNK, remaining) then Pushed(b, Err(InvalidInput))
      else
        var partial := a.partial + f.data;
        if |partial| != f.total then Pushed(b.(partial := partial), Ok(None))
        else if f.record + 1 >= U64_LIMIT then Pushed(b.(partial := partial), Err(LimitReached))
        else Pushed(Assembly(f.record + 1, 0, None, []), Ok(Some(partial)))
  }

  /** The reassembly state between calls: nothing held, or whole chunks short of the announced total. */
  predicate WellFormed(a: Assembly) {
    && a.record < U64_LIMIT
    && a.total <= MAX_RECORD
    && (a.partial == [] ==> a.total == 0 && a.started.None?)
    && (a.partial != [] ==> a.started.Some? && |a.partial| % CHUNK == 0 && |a.partial| < a.total)
  }

  /** Frames consumed for the record still in progress. */
  function Unfinished(a: Assembly): seq<Frag> {
    Fragments(a.record, a.total, a.partial, 0)
  }

  lemma NextMultiple(offset: nat, length: nat)
    requires offset % CHUNK == 0 && length % CHUNK == 0 && offset < length
    ensures offset + CHUNK <= length && (offset + CHUNK) % CHUNK == 0
  {
  }

  lemma {:induction false} AppendChunk(record: nat, total: nat, data: seq<byte>, more: seq<byte>, offset: nat)
    requires |data| % CHUNK == 0 && offset % CHUNK == 0 && offset <= |data|
    requires 0 < |more| <= CHUNK
    ensures Fragments(record, total, data + more, offset)
         == Fragments(record, total, data, offset) + [Frag(record, total, |data|, more)]
    decreases |data| - offset
  {
    if offset == |data| {
      assert (data + more)[offset..Min(offset + CHUNK, |data + more|)] == more;
    } else {
      NextMultiple(offset, |data|);
      AppendChunk(record, total, data, more, offset + CHUNK);
      assert (data + more)[offset..offset + CHUNK] == data[offset..offset + CHUNK];
    }
  }

  /** What an accepted frame does to the record in progress. */
  predicate Continues(a: Assembly, f: Frag, pushed: Pushed) {
    match pushed
    case Pushed(b, Ok(None)) =>
      WellFormed(b) && b.record == a.record && Unfinished(b) == Unfinished(a) + [f]
    case Pushed(b, Ok(Some(data))) =>
      && a.record + 1 < U64_LIMIT
      && b == Assembly(a.record + 1, 0, None, [])
      && Sealable(data)
      && RecordFragments(a.record, data) == Unfinished(a) + [f]
    case Pushed(_, Err(_)) => true
  }

  lemma {:induction false} AcceptContinues(a: Assembly, f: Frag, now: Instant)
    requires WellFormed(a)
    ensures Continues(a, f, Accept(a, f, now))
  {
    if Accept(a, f, now).reply.Ok? {
      assert a.partial == [] ==> Unfinished(a) == [] == Fragments(a.record, f.total, a.partial, 0);
      AppendChunk(a.record, f.total, a.partial, f.data, 0);
    }
  }

  datatype Opened = Opened(state: Assembly, records: seq<seq<byte>>)

  type Receiver<!F> = (Assembly, F, Instant) -> Pushed

  function Extend(run: Opened, pushed: Pushed): Option<Opened>
  {
    match pushed
    case Pushed(a, Ok(None)) => Some(Opened(a, run.records))
    case Pushed(a, Ok(Some(data))) => Some(Opened(a, run.records + [data]))
    case Pushed(_, Err(_)) => None
  }

  function Call<F>(receive: Receiver<F>, a: Assembly, frame: F, now: Instant): Pushed {
    receive(a, frame, now)
  }

  /** The first `n` calls of a run; None as soon as one of them fails, because the session then ends. */
  function FoldTo<F>(receive: Receiver<F>, a: Assembly, frames: seq<F>, times: seq<Instant>, n: nat): Option<Opened>
    requires n <= |frames| == |times|
  {
    if n == 0 then Some(Opened(a, []))
    else
      var run :- FoldTo(receive, a, frames, times, n - 1);
      Extend(run, Call(receive, run.state, frames[n - 1], times[n - 1]))
  }

  function Fold<F>(receive: Receiver<F>, a: Assembly, frames: seq<F>, times: seq<Instant>): Option<Opened>
    requires |frames| == |times|
  {
    FoldTo(receive, a, frames, times, |frames|)
  }

  /** The frames fragment the records returned and then, in part, the record in progress. */
  predicate Fragmentation(frames: seq<Frag>, run: Opened) {
    && WellFormed(run.state)
    && AllSealable(run.records)
    && run.state.record == |run.records|
    && frames == Stream(run.records) + Unfinished(run.state)
  }

  lemma {:induction false} ContinueFragmentation(frames: seq<Frag>, run: Opened, f: Frag, pushed: Pushed)
    requires Fragmentation(frames, run)
    requires Continues(run.state, f, pushed) && pushed.reply.Ok?
    ensures Fragmentation(frames + [f], Extend(run, pushed).value)
  {
    match pushed.reply.value {
      case None =>
      case Some(data) =>
        var all := run.records + [data];
        assert all[..|all| - 1] == run.records;
        assert Unfinished(pushed.next) == [];
    }
  }

  lemma {:induction false} AcceptKeepsFragmentation(frames: seq<Frag>, run: Opened, f: Frag, now: Instant)
    requires Fragmentation(frames, run)
    ensures Call(Accept, run.state, f, now).reply.Ok?
      ==> Fragmentation(frames + [f], Extend(run, Call(Accept, run.state, f, now)).value)
  {
    var pushed := Accept(run.state, f, now);
    AcceptContinues(run.state, f, now);
    if pushed.reply.Ok? {
      ContinueFragmentation(frames, run, f, pushed);
    }
  }

  ghost predicate KeepsFragmentation(receive: Receiver<Frag>) {
    forall frames, run, f, now :: Fragmentation(frames, run) && Call(receive, run.state, f, now).reply.Ok?
      ==> Fragmentation(frames + [f], Extend(run, Call(receive, run.state, f, now)).value)
  }

  lemma {:induction false} FoldKeepsFragmentation(
      receive: Receiver<Frag>, frames: seq<Frag>, times: seq<Instant>, n: nat)
    requires KeepsFragmentation(receive)
    requires n <= |frames| == |times|
    requires FoldTo(receive, FRESH, frames, times, n).Some?
    ensures Fragmentation(frames[..n], FoldTo(receive, FRESH, frames, times, n).value)
  {
    if n == 0 {
      assert Fragmentation([], Opened(FRESH, []));
    } else {
      FoldKeepsFragmentation(receive, frames, times, n - 1);
      assert frames[..n] == frames[..n - 1] + [frames[n - 1]];
    }
  }

  /** Soundness of reassembly on parsed frames. */
  lemma {:induction false} AcceptedFragmentation(frames: seq<Frag>, times: seq<Instant>)
    requires |frames| == |times|
    requires Fold(Accept, FRESH, frames, times).Some?
    ensures Fragmentation(frames, Fold(Accept, FRESH, frames, times).value)
  {
    forall fs, run, f, now | Fragmentation(fs, run) && Call(Accept, run.state, f, now).reply.Ok?
      ensures Fragmentation(fs + [f], Extend(run, Call(Accept, run.state, f, now)).value)
    {
      AcceptKeepsFragmentation(fs, run, f, now);
    }
    FoldKeepsFragmentation(Accept, frames, times, |frames|);
    assert frames[..|frames|] == frames;
  }

  lemma PrefixAfter<T>(head: seq<T>, s: seq<T>, t: seq<T>)
    requires s < t
    ensures head + s < head + t
  {
    assert head + t == (head + s) + t[|s|..];
  }

  /** The frames held in progress are a proper prefix of those of every completion of that record. */
  lemma {:induction false} UnfinishedIsProperPrefix(a: Assembly, rest: seq<byte>, offset: nat)
    requires WellFormed(a) && a.partial != []
    requires |a.partial + rest| == a.total
    requires offset % CHUNK == 0 && offset <= |a.partial|
    ensures Fragments(a.record, a.total, a.partial, offset) < Fragments(a.record, a.total, a.partial + rest, offset)
    decreases |a.partial| - offset
  {
    var data := a.partial + rest;
    if offset < |a.partial| {
      NextMultiple(offset, |a.partial|);
      UnfinishedIsProperPrefix(a, rest, offset + CHUNK);
      assert data[offset..offset + CHUNK] == a.partial[offset..offset + CHUNK];
      PrefixAfter([Frag(a.record, a.total, offset, data[offset..offset + CHUNK])],
        Fragments(a.record, a.total, a.partial, offset + CHUNK), Fragments(a.record, a.total, data, offset + CHUNK));
    }
  }

  // ----- Completeness -----

  /** Every time in the list falls within the reassembly limit of the first. */
  predicate WithinLimit(times: seq<Instant>) {
    forall i :: 0 <= i < |times| ==> times[i] - times[0] < RECORD_TIMEOUT_MS
  }

  lemma {:induction false} FragmentCount(record: nat, total: nat, data: seq<byte>, offset: nat)
    ensures |Fragments(record, total, data, offset)|
         == if offset >= |data| then 0 else (|data| - offset + CHUNK - 1) / CHUNK
    decreases |data| - offset
  {
    if offset < |data| {
      FragmentCount(record, total, data, offset + CHUNK);
    }
  }

  lemma {:induction false} FragmentAt(record: nat, total: nat, data: seq<byte>, offset: nat, i: nat)
    requires i < |Fragments(record, total, data, offset)|
    ensures offset + i * CHUNK < |data|
    ensures Fragments(record, total, data, offset)[i]
         == Frag(record, total, offset + i * CHUNK, data[offset + i * CHUNK..Min(offset + i * CHUNK + CHUNK, |data|)])
    decreases |data| - offset
  {
    if i > 0 {
      FragmentAt(record, total, data, offset + CHUNK, i - 1);
    }
  }

  /** The state after the first `i` fragments of a record that has more than `i`. */
  function Midway(record: nat, data: seq<byte>, i: nat, start: Instant): Assembly {
    if i == 0 || i * CHUNK >= |data| then Assembly(record, 0, None, [])
    else Assembly(record, |data|, Some(start), data[..i * CHUNK])
  }

  lemma {:induction false} AcceptMidway(record: nat, data: seq<byte>, i: nat, start: Instant, now: Instant)
    requires Sealable(data) && record + 1 < U64_LIMIT && i < |RecordFragments(record, data)|
    requires now - start < RECORD_TIMEOUT_MS && (i == 0 ==> start == now)
    ensures Accept(Midway(record, data, i, start), RecordFragments(record, data)[i], now)
         == if (i + 1) * CHUNK < |data| then Pushed(Midway(record, data, i + 1, start), Ok(None))
            else Pushed(Assembly(record + 1, 0, None, []), Ok(Some(data)))
  {
    FragmentAt(record, |data|, data, 0, i);
    var chunk := data[i * CHUNK..Min(i * CHUNK + CHUNK, |data|)];
    assert data[..i * CHUNK] + chunk == data[..Min((i + 1) * CHUNK, |data|)];
    assert data[..|data|] == data;
  }

  lemma {:induction false} FoldPrefix<F>(
      receive: Receiver<F>, a: Assembly, f: seq<F>, s: seq<Instant>, g: seq<F>, t: seq<Instant>, n: nat)
    requires n <= |f| == |s| && |g| == |t|
    ensures FoldTo(receive, a, f + g, s + t, n) == FoldTo(receive, a, f, s, n)
  {
    if n != 0 {
      FoldPrefix(receive, a, f, s, g, t, n - 1);
    }
  }

  lemma {:induction false} ExtendConcat(earlier: seq<seq<byte>>, run: Opened, pushed: Pushed)
    ensures var whole := Extend(run, pushed);
      Extend(Opened(run.state, earlier + run.records), pushed)
      == if whole.None? then None else Some(Opened(whole.value.state, earlier + whole.value.records))
  {
    match pushed {
      case Pushed(_, Ok(Some(data))) => assert (earlier + run.records) + [data] == earlier + (run.records + [data]);
      case _ =>
    }
  }

  lemma {:induction false} FoldJoinTo<F>(
      receive: Receiver<F>, a: Assembly, f: seq<F>, s: seq<Instant>, mid: Opened, g: seq<F>, t: seq<Instant>, n: nat)
    requires |f| == |s| && n <= |g| == |t|
    requires Fold(receive, a, f, s) == Some(mid)
    ensures var rest := FoldTo(receive, mid.state, g, t, n);
      FoldTo(receive, a, f + g, s + t, |f| + n)
      == if rest.None? then None else Some(Opened(rest.value.state, mid.records + rest.value.records))
  {
    if n == 0 {
      FoldPrefix(receive, a, f, s, g, t, |f|);
      assert mid.records + [] == mid.records;
    } else {
      FoldJoinTo(receive, a, f, s, mid, g, t, n - 1);
      var before := FoldTo(receive, mid.state, g, t, n - 1);
      if before.Some? {
        ExtendConcat(mid.records, before.value, Call(receive, before.value.state, g[n - 1], t[n - 1]));
      }
    }
  }

  /** One run after another. */
  lemma {:induction false} FoldJoin<F>(
      receive: Receiver<F>, a: Assembly, f: seq<F>, s: seq<Instant>, mid: Opened,
      g: seq<F>, t: seq<Instant>, last: Opened)
    requires |f| == |s| && |g| == |t|
    requires Fold(receive, a, f, s) == Some(mid) && Fold(receive, mid.state, g, t) == Some(last)
    ensures Fold(receive, a, f + g, s + t) == Some(Opened(last.state, mid.records + last.records))
  {
    FoldJoinTo(receive, a, f, s, mid, g, t, |g|);
  }

  /** The fragments of a record before the last, pushed in time, return nothing. */
  lemma {:induction false} FragmentsReturnNothing(record: nat, data: seq<byte>, times: seq<Instant>, i: nat)
    requires Sealable(data) && record + 1 < U64_LIMIT
    requires i < |RecordFragments(record, data)| == |times| && WithinLimit(times)
    ensures FoldTo(Accept, Assembly(record, 0, None, []), RecordFragments(record, data), times, i)
         == Some(Opened(Midway(record, data, i, times[0]), []))
  {
    if i != 0 {
      FragmentCount(record, |data|, data, 0);
      FragmentsReturnNothing(record, data, times, i - 1);
      AcceptMidway(record, data, i - 1, times[0], times[i - 1]);
    }
  }

  lemma {:induction false} FoldLast<F>(
      receive: Receiver<F>, a: Assembly, frames: seq<F>, times: seq<Instant>, last: Assembly, next: Assembly,
      data: seq<byte>)
    requires 0 < |frames| == |times|
    requires FoldTo(receive, a, frames, times, |frames| - 1) == Some(Opened(last, []))
    requires Call(receive, last, frames[|frames| - 1], times[|frames| - 1]) == Pushed(next, Ok(Some(data)))
    ensures Fold(receive, a, frames, times) == Some(Opened(next, [data]))
  {
    assert [] + [data] == [data];
  }

  /** The last fragment returns exactly the record and leaves nothing behind. */
  lemma {:induction false} RecordReassembles(record: nat, data: seq<byte>, times: seq<Instant>)
    requires Sealable(data) && record + 1 < U64_LIMIT
    requires |RecordFragments(record, data)| == |times| && WithinLimit(times)
    ensures Fold(Accept, Assembly(record, 0, None, []), RecordFragments(record, data), times)
         == Some(Opened(Assembly(record + 1, 0, None, []), [data]))
  {
    FragmentCount(record, |data|, data, 0);
    var n := |times| - 1;
    FragmentsReturnNothing(record, data, times, n);
    var frames, last, next := RecordFragments(record, data), Midway(record, data, n, times[0]),
      Assembly(record + 1, 0, None, []);
    assert Call(Accept, last, frames[n], times[n]) == Pushed(next, Ok(Some(data))) by {
      AcceptMidway(record, data, n, times[0], times[n]);
    }
    FoldLast(Accept, Assembly(record, 0, None, []), frames, times, last, next, data);
  }

  /** One list of arrival times per record, one time per fragment, each record within its limit. */
  predicate Timely(records: seq<seq<byte>>, times: seq<seq<Instant>>) {
    && |times| == |records|
    && forall k :: 0 <= k < |records| ==>
         |times[k]| == |RecordFragments(k, records[k])| && WithinLimit(times[k])
  }

  function Flatten<T>(lists: seq<seq<T>>): seq<T> {
    if lists == [] then [] else Flatten(lists[..|lists| - 1]) + lists[|lists| - 1]
  }

  function Pieces(records: seq<seq<byte>>): seq<seq<Frag>> {
    seq(|records|, k requires 0 <= k < |records| => RecordFragments(k, records[k]))
  }

  lemma {:induction false} StreamIsFlattened(records: seq<seq<byte>>)
    ensures Stream(records) == Flatten(Pieces(records))
  {
    if records != [] {
      var n := |records| - 1;
      StreamIsFlattened(records[..n]);
      assert Pieces(records)[..n] == Pieces(records[..n]);
    }
  }

  lemma FlattenStep<T>(lists: seq<seq<T>>, n: nat)
    requires 0 < n <= |lists|
    ensures Flatten(lists[..n]) == Flatten(lists[..n - 1]) + lists[n - 1]
  {
    assert lists[..n][..n - 1] == lists[..n - 1];
  }

  /** Runs that each return one record, one after the other. */
  lemma {:induction false} FoldFlattened<F>(
      receive: Receiver<F>, states: seq<Assembly>, pieces: seq<seq<F>>, times: seq<seq<Instant>>,
      records: seq<seq<byte>>,
      n: nat)
    requires n <= |pieces| == |times| == |records| == |states| - 1
    requires forall k :: 0 <= k < |pieces| ==> |pieces[k]| == |times[k]|
    requires forall k :: 0 <= k < |pieces| ==>
      Fold(receive, states[k], pieces[k], times[k]) == Some(Opened(states[k + 1], [records[k]]))
    ensures |Flatten(pieces[..n])| == |Flatten(times[..n])|
    ensures Fold(receive, states[0], Flatten(pieces[..n]), Flatten(times[..n])) == Some(Opened(states[n], records[..n]))
  {
    if n != 0 {
      FoldFlattened(receive, states, pieces, times, records, n - 1);
      FlattenStep(pieces, n);
      FlattenStep(times, n);
      var mid, last := Opened(states[n - 1], records[..n - 1]), Opened(states[n], [records[n - 1]]);
      FoldJoin(receive, states[0], Flatten(pieces[..n - 1]), Flatten(times[..n - 1]), mid,
               pieces[n - 1], times[n - 1], last);
      assert records[..n] == mid.records + last.records;
    }
  }

  /** Completeness on parsed frames. */
  lemma {:induction false} StreamAccepted(records: seq<seq<byte>>, times: seq<seq<Instant>>)
    requires AllSealable(records) && |records| < U64_LIMIT && Timely(records, times)
    ensures |Flatten(times)| == |Stream(records)|
    ensures Fold(Accept, FRESH, Stream(records), Flatten(times))
         == Some(Opened(Assembly(|records|, 0, None, []), records))
  {
    var states := seq(|records| + 1, k requires 0 <= k <= |records| => Assembly(k, 0, None, []));
    var pieces := Pieces(records);
    forall k | 0 <= k < |records|
      ensures |pieces[k]| == |times[k]|
      ensures Fold(Accept, states[k], pieces[k], times[k]) == Some(Opened(states[k + 1], [records[k]]))
    {
      RecordReassembles(k, records[k], times[k]);
    }
    FoldFlattened(Accept, states, pieces, times, records, |records|);
    assert pieces[..|records|] == pieces && times[..|records|] == times && records[..|records|] == records;
    StreamIsFlattened(records);
  }

  // ----- Bytes -----

  /** Sixteen header bytes in network order, then the data. */
  function Encode(f: Frag): (c: seq<byte>)
    requires Encodable(f)
    ensures |c| == HEADER + |f.data|
  {
    WordSizes();
    BigEndian(f.record, 8) + BigEndian(f.total, 4) + BigEndian(f.offset, 4) + f.data
  }

  function Parse(contents: seq<byte>): (f: Frag)
    requires |contents| >= HEADER
    ensures Encodable(f) && |f.data| == |contents| - HEADER
  {
    WordSizes();
    Frag(
      FromBigEndian(contents[..8]),
      FromBigEndian(contents[8..12]),
      FromBigEndian(contents[12..16]),
      contents[HEADER..])
  }

  /** Parsing undoes encoding. */
  lemma {:induction false} EncodeParses(f: Frag)
    requires Encodable(f)
    ensures Parse(Encode(f)) == f
  {
    WordSizes();
    var c := Encode(f);
    assert c[..8] == BigEndian(f.record, 8);
    assert c[8..12] == BigEndian(f.total, 4);
    assert c[12..16] == BigEndian(f.offset, 4);
    BigEndianRoundTrip(f.record, 8);
    BigEndianRoundTrip(f.total, 4);
    BigEndianRoundTrip(f.offset, 4);
  }

  /** Encoding undoes parsing: no two byte strings parse to the same frame. */
  lemma {:induction false} ParseEncodes(c: seq<byte>)
    requires |c| >= HEADER
    ensures Encode(Parse(c)) == c
  {
    WordSizes();
    FromBigEndianRoundTrip(c[..8]);
    FromBigEndianRoundTrip(c[8..12]);
    FromBigEndianRoundTrip(c[12..16]);
    assert c == c[..8] + c[8..12] + c[12..16] + c[HEADER..];
  }

  /** The receiver's decision about the decrypted contents of one frame. */
  function Push(a: Assembly, contents: seq<byte>, now: Instant): Pushed {
    if |contents| <= HEADER then
      Pushed(a, Err(if Expired(a, now) then LimitReached else InvalidInput))
    else Accept(a, Parse(contents), now)
  }

  predicate AllEncodable(frames: seq<Frag>) {
    forall i :: 0 <= i < |frames| ==> Encodable(frames[i])
  }

  function EncodeAll(frames: seq<Frag>): (contents: seq<seq<byte>>)
    requires AllEncodable(frames)
    ensures |contents| == |frames|
    ensures forall i :: 0 <= i < |frames| ==> contents[i] == Encode(frames[i])
  {
    if frames == [] then []
    else EncodeAll(frames[..|frames| - 1]) + [Encode(frames[|frames| - 1])]
  }

  lemma {:induction false} FragmentsEncodable(record: nat, total: nat, data: seq<byte>, offset: nat)
    requires record < U64_LIMIT && total < U32_LIMIT && |data| < U32_LIMIT
    ensures AllEncodable(Fragments(record, total, data, offset))
    decreases |data| - offset
  {
    if offset < |data| {
      FragmentsEncodable(record, total, data, offset + CHUNK);
    }
  }

  lemma {:induction false} StreamEncodable(records: seq<seq<byte>>)
    requires AllSealable(records) && |records| <= U64_LIMIT
    ensures AllEncodable(Stream(records))
  {
    if records != [] {
      var n := |records| - 1;
      StreamEncodable(records[..n]);
      FragmentsEncodable(n, |records[n]|, records[n], 0);
    }
  }

  function PushAll(contents: seq<seq<byte>>, times: seq<Instant>): Option<Opened>
    requires |contents| == |times|
  {
    Fold(Push, FRESH, contents, times)
  }

  ghost predicate Alike<F, G>(receive: Receiver<F>, f: F, other: Receiver<G>, g: G) {
    forall a, now :: Call(receive, a, f, now) == Call(other, a, g, now)
  }

  /** Two receivers that decide alike on corresponding frames make the same run. */
  lemma {:induction false} FoldAlike<F, G>(
      receive: Receiver<F>, other: Receiver<G>, a: Assembly, frames: seq<F>, others: seq<G>, times: seq<Instant>,
      n: nat)
    requires n <= |frames| == |others| == |times|
    requires forall i :: 0 <= i < |frames| ==> Alike(receive, frames[i], other, others[i])
    ensures FoldTo(receive, a, frames, times, n) == FoldTo(other, a, others, times, n)
  {
    if n != 0 {
      FoldAlike(receive, other, a, frames, others, times, n - 1);
      assert Alike(receive, frames[n - 1], other, others[n - 1]);
    }
  }

  lemma {:induction false} PushEncoded(f: Frag)
    requires Encodable(f) && f.data != []
    ensures forall a, now :: Push(a, Encode(f), now) == Accept(a, f, now)
  {
    EncodeParses(f);
  }

  /** A run that goes through has seen nothing shorter than a header and one byte. */
  lemma {:induction false} FoldLongEnough(contents: seq<seq<byte>>, times: seq<Instant>, n: nat)
    requires n <= |contents| == |times| && FoldTo(Push, FRESH, contents, times, n).Some?
    ensures forall i :: 0 <= i < n ==> |contents[i]| > HEADER
  {
    if n != 0 {
      FoldLongEnough(contents, times, n - 1);
    }
  }

  function ParseAll(contents: seq<seq<byte>>): (frames: seq<Frag>)
    requires forall i :: 0 <= i < |contents| ==> |contents[i]| > HEADER
    ensures |frames| == |contents|
    ensures forall i :: 0 <= i < |contents| ==> frames[i] == Parse(contents[i])
  {
    seq(|contents|, i requires 0 <= i < |contents| => Parse(contents[i]))
  }

  lemma {:induction false} ParseAllEncodes(contents: seq<seq<byte>>)
    requires forall i :: 0 <= i < |contents| ==> |contents[i]| > HEADER
    ensures AllEncodable(ParseAll(contents))
    ensures EncodeAll(ParseAll(contents)) == contents
  {
    forall i | 0 <= i < |contents|
      ensures Encode(Parse(contents[i])) == contents[i]
    {
      ParseEncodes(contents[i]);
    }
  }

  lemma {:induction false} PushIsAccept(contents: seq<seq<byte>>, times: seq<Instant>)
    requires forall i :: 0 <= i < |contents| ==> |contents[i]| > HEADER
    requires |contents| == |times|
    ensures PushAll(contents, times) == Fold(Accept, FRESH, ParseAll(contents), times)
  {
    forall i | 0 <= i < |contents|
      ensures Alike(Push, contents[i], Accept, ParseAll(contents)[i])
    {
    }
    FoldAlike(Push, Accept, FRESH, contents, ParseAll(contents), times, |contents|);
  }

  /** Soundness of reassembly: the contents accepted are byte for byte the fragmentation of the records
      returned, followed by a proper prefix of one more (UnfinishedIsProperPrefix). A dropped, repeated,
      reordered or spliced fragment therefore ends the session. */
  lemma {:induction false} ReassemblySound(contents: seq<seq<byte>>, times: seq<Instant>)
    requires |contents| == |times| && PushAll(contents, times).Some?
    ensures var Opened(a, records) := PushAll(contents, times).value;
      && WellFormed(a)
      && AllSealable(records)
      && a.record == |records|
      && AllEncodable(Stream(records) + Unfinished(a))
      && contents == EncodeAll(Stream(records) + Unfinished(a))
  {
    FoldLongEnough(contents, times, |contents|);
    PushIsAccept(contents, times);
    ParseAllEncodes(contents);
    AcceptedFragmentation(ParseAll(contents), times);
  }

  /** Completeness: the fragments of any run of records, pushed in time, return exactly those records
      and leave nothing over. With ReassemblySound this fixes what a receiver accepts. */
  lemma {:induction false} ReassemblyComplete(records: seq<seq<byte>>, times: seq<seq<Instant>>)
    requires AllSealable(records) && |records| < U64_LIMIT && Timely(records, times)
    ensures AllEncodable(Stream(records)) && |Flatten(times)| == |Stream(records)|
    ensures PushAll(EncodeAll(Stream(records)), Flatten(times))
         == Some(Opened(Assembly(|records|, 0, None, []), records))
  {
    StreamEncodable(records);
    StreamAccepted(records, times);
    var frames := Stream(records);
    StreamDataNonempty(records);
    forall i | 0 <= i < |frames|
      ensures Alike(Push, EncodeAll(frames)[i], Accept, frames[i])
    {
      PushEncoded(frames[i]);
    }
    FoldAlike(Push, Accept, FRESH, EncodeAll(frames), frames, Flatten(times), |frames|);
  }

  lemma {:induction false} StreamDataNonempty(records: seq<seq<byte>>)
    ensures forall i :: 0 <= i < |Stream(records)| ==> Stream(records)[i].data != []
  {
    if records != [] {
      var n := |records| - 1;
      StreamDataNonempty(records[..n]);
      var last := RecordFragments(n, records[n]);
      forall i | 0 <= i < |last|
        ensures last[i].data != []
      {
        FragmentAt(n, |records[n]|, records[n], 0, i);
      }
    }
  }

  // ----- The object -----

  /** The reassembly buffer of one session. */
  class Assembler {
    var record: nat
    var total: nat
    var started: Option<Instant>
    var partial: seq<byte>

    ghost function State(): Assembly
      reads this
    {
      Assembly(record, total, started, partial)
    }

    constructor ()
      ensures State() == FRESH
    {
      record, total, started, partial := 0, 0, None, [];
    }

    method HasExpired(now: Instant) returns (late: bool)
      ensures late == Expired(State(), now)
    {
      late := started.Some? && now - started.value >= RECORD_TIMEOUT_MS;
    }

    method PushContents(contents: seq<byte>, now: Instant) returns (reply: Result<Option<seq<byte>>, Error>)
      modifies this
      ensures Pushed(State(), reply) == Push(old(State()), contents, now)
    {
      var late := HasExpired(now);
      if late {
        return Err(LimitReached);
      }
      if |contents| <= HEADER || |contents| > HEADER + CHUNK {
        return Err(InvalidInput);
      }
      var f := Parse(contents);
      if f.record != record || f.total == 0 || f.total > MAX_RECORD || f.offset != |partial| {
        return Err(InvalidInput);
      }
      if f.offset == 0 {
        total := f.total;
        started := Some(now);
      }
      var remaining := if f.total < f.offset then 0 else f.total - f.offset;
      if f.total != total || |f.data| != Min(CHUNK, remaining) {
        return Err(InvalidInput);
      }
      partial := partial + f.data;
      if |partial| == f.total {
        if record + 1 >= U64_LIMIT {
          return Err(LimitReached);
        }
        record := record + 1;
        total := 0;
        started := None;
        reply := Ok(Some(partial));
        partial := [];
      } else {
        reply := Ok(None);
      }
    }
  }
}
