/** The phone's decoder as the source carries it out: a reader whose index each read advances. */
module PhoneObject {
  import opened Wrappers
  import opened CompactCodec
  import opened PhoneCodec

  class CompactReader {
    const bytes: seq<SignedByte>
    var at: nat

    constructor (bytes: seq<SignedByte>)
      ensures this.bytes == bytes && at == 0
    {
      this.bytes, at := bytes, 0;
    }

    /** Every read is bounds-checked, so a truncated code is refused, not half-read. */
    method TakeBytes(length: nat) returns (r: Option<seq<SignedByte>>)
      modifies this
      ensures match TakeAt(bytes, old(at), length)
        case None => r.None? && at == old(at)
        case Some(taken) => r == Some(taken.0) && at == taken.1
    {
      if at + length > |bytes| {
        return None;
      }
      r := Some(bytes[at..at + length]);
      at := at + length;
    }

    method Byte() returns (r: Option<SignedByte>)
      modifies this
      ensures match TakeAt(bytes, old(at), 1)
        case None => r.None?
        case Some(taken) => r == Some(taken.0[0]) && at == taken.1
    {
      var taken := TakeBytes(1);
      if taken.None? {
        return None;
      }
      r := Some(taken.value[0]);
    }
  }

  method ReadIdentity(reader: CompactReader) returns (r: Option<Identity>)
    modifies reader
    ensures match IdentityAt(reader.bytes, old(reader.at))
      case None => r.None?
      case Some(read) => r == Some(read.0) && reader.at == read.1
  {
    var flags := reader.Byte();
    if flags.None? {
      return None;
    }
    var device := reader.TakeBytes(16);
    if device.None? {
      return None;
    }
    var pairing := reader.TakeBytes(32);
    if pairing.None? {
      return None;
    }
    var cert := reader.TakeBytes(32);
    if cert.None? {
      return None;
    }
    r := Some(Identity(flags.value, device.value, pairing.value, cert.value));
  }

  /** What is still to be read, and what it makes of the whole. */
  ghost predicate Resumes(bytes: seq<SignedByte>, start: nat, count: nat, done: seq<seq<SignedByte>>, now: nat)
    requires |done| <= count
  {
    match CandidatesAt(bytes, now, count - |done|)
    case None => CandidatesAt(bytes, start, count).None?
    case Some(read) => CandidatesAt(bytes, start, count) == Some((done + read.0, read.1))
  }

  lemma ResumesStart(bytes: seq<SignedByte>, start: nat, count: nat)
    ensures Resumes(bytes, start, count, [], start)
  {
    var read := CandidatesAt(bytes, start, count);
    assert read.Some? ==> [] + read.value.0 == read.value.0;
  }

  lemma ResumesNext(
      bytes: seq<SignedByte>, start: nat, count: nat, done: seq<seq<SignedByte>>, now: nat, raw: seq<SignedByte>,
      next: nat)
    requires |done| < count && Resumes(bytes, start, count, done, now) && TakeAt(bytes, now, 6) == Some((raw, next))
    ensures Resumes(bytes, start, count, done + [raw], next)
  {
    var rest := CandidatesAt(bytes, next, count - |done| - 1);
    if rest.Some? {
      assert done + ([raw] + rest.value.0) == done + [raw] + rest.value.0;
    }
  }

  method ReadCandidates(reader: CompactReader, count: nat) returns (r: Option<seq<seq<SignedByte>>>)
    modifies reader
    ensures match CandidatesAt(reader.bytes, old(reader.at), count)
      case None => r.None?
      case Some(read) => r == Some(read.0) && reader.at == read.1
  {
    ghost var start := reader.at;
    var done: seq<seq<SignedByte>> := [];
    ResumesStart(reader.bytes, start, count);
    for i := 0 to count
      invariant |done| == i && Resumes(reader.bytes, start, count, done, reader.at)
    {
      ghost var now := reader.at;
      var raw := reader.TakeBytes(6);
      if raw.None? {
        return None;
      }
      ResumesNext(reader.bytes, start, count, done, now, raw.value, reader.at);
      done := done + [raw.value];
    }
    assert done + [] == done;
    r := Some(done);
  }

  method ReadRelay(reader: CompactReader) returns (r: Option<RawRelay>)
    modifies reader
    ensures match RelayAt(reader.bytes, old(reader.at))
      case None => r.None?
      case Some(read) => r == Some(read.0) && reader.at == read.1
  {
    var length := reader.Byte();
    if length.None? {
      return None;
    }
    var url := reader.TakeBytes(Low8(length.value));
    if url.None? {
      return None;
    }
    var account := reader.TakeBytes(32);
    if account.None? {
      return None;
    }
    var pair := reader.TakeBytes(16);
    if pair.None? {
      return None;
    }
    var capability := reader.TakeBytes(32);
    if capability.None? {
      return None;
    }
    var desktopKey := reader.TakeBytes(32);
    if desktopKey.None? {
      return None;
    }
    var psk := reader.TakeBytes(32);
    if psk.None? {
      return None;
    }
    r := Some(RawRelay(url.value, account.value, pair.value, capability.value, desktopKey.value, psk.value));
  }

  method ReadCode(bytes: seq<SignedByte>) returns (r: Option<RawCode>)
    ensures r == CodeAt(bytes)
  {
    var reader := new CompactReader(bytes);
    var version := reader.Byte();
    if version.None? || version.value != 3 {
      return None;
    }
    var id := ReadIdentity(reader);
    if id.None? {
      return None;
    }
    var count := reader.Byte();
    if count.None? {
      return None;
    }
    var candidates := ReadCandidates(reader, Low8(count.value));
    if candidates.None? || candidates.value == [] {
      return None;
    }
    var relay: Option<RawRelay> := None;
    if id.value.flags % 2 != 0 {
      relay := ReadRelay(reader);
      if relay.None? {
        return None;
      }
    }
    if reader.at != |bytes| {
      return None;
    }
    r := Some(RawCode(id.value, candidates.value, relay));
  }

  /** decodeCompactPayload, once the text is bytes. */
  method DecodeCompactPayload(replace: Replacer, bytes: seq<SignedByte>) returns (r: Option<Payload>)
    ensures r == PhoneDecode(replace, bytes)
  {
    var code := ReadCode(bytes);
    if code.None? {
      return None;
    }
    r := Some(PhoneShow(replace, code.value));
  }
}
