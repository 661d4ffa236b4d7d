/** The codec as the source carries it out: bytes appended to a buffer, and a bounds-checked cursor read in order. */
module CompactObject {
  import opened Wrappers
  import opened Bytes
  import opened Codes
  import opened PairingText
  import opened SocketText
  import opened CompactLayout
  import opened CompactCodec

  // ----- Decoding -----

  class CompactCursor {
    const bytes: seq<byte>
    var at: nat

    ghost predicate Valid()
      reads this
    {
      at <= |bytes|
    }

    ghost function Rest(): seq<byte>
      reads this
      requires Valid()
    {
      bytes[at..]
    }

    constructor (bytes: seq<byte>)
      ensures Valid() && Rest() == bytes
    {
      this.bytes, at := bytes, 0;
    }

    /** Every read is bounds-checked; one that does not fit moves nothing. */
    method TakeBytes(n: nat) returns (r: Option<seq<byte>>)
      requires Valid()
      modifies this
      ensures Valid()
      ensures match Take(old(Rest()), n)
        case None => r.None? && at == old(at)
        case Some(taken) => r == Some(taken.0) && Rest() == taken.1
    {
      if |bytes| < at + n {
        return None;
      }
      assert bytes[at..][..n] == bytes[at..at + n] && bytes[at..][n..] == bytes[at + n..];
      r := Some(bytes[at..at + n]);
      at := at + n;
    }

    method Byte() returns (r: Option<byte>)
      requires Valid()
      modifies this
      ensures Valid()
      ensures match Take(old(Rest()), 1)
        case None => r.None?
        case Some(taken) => r == Some(taken.0[0]) && Rest() == taken.1
    {
      var taken := TakeBytes(1);
      if taken.None? {
        return None;
      }
      r := Some(taken.value[0]);
    }

    method Finished() returns (done: bool)
      requires Valid()
      ensures done <==> Rest() == []
    {
      done := at == |bytes|;
    }
  }

  method DecodeHeader(c: CompactCursor) returns (r: Option<Header>)
    requires c.Valid()
    modifies c
    ensures c.Valid()
    ensures match ReadHeader(old(c.Rest()))
      case None => r.None?
      case Some(read) => r == Some(read.0) && c.Rest() == read.1
  {
    var flags := c.Byte();
    if flags.None? {
      return None;
    }
    var device := c.TakeBytes(16);
    if device.None? {
      return None;
    }
    var pairing := c.TakeBytes(32);
    if pairing.None? {
      return None;
    }
    var cert := c.TakeBytes(32);
    if cert.None? {
      return None;
    }
    r := Some(Header(flags.value, device.value, pairing.value, cert.value));
  }

  /** What is still to be read, and what it makes of the whole. */
  ghost predicate Resumes(start: seq<byte>, count: nat, done: seq<Socket>, now: seq<byte>)
    requires |done| <= count
  {
    match ReadSockets(now, count - |done|)
    case None => ReadSockets(start, count).None?
    case Some(read) => ReadSockets(start, count) == Some((done + read.0, read.1))
  }

  lemma ResumesNext(start: seq<byte>, count: nat, done: seq<Socket>, now: seq<byte>, raw: seq<byte>, next: seq<byte>)
    requires |done| < count && Resumes(start, count, done, now) && Take(now, 6) == Some((raw, next))
    ensures Resumes(start, count, done + [SocketOf(raw)], next)
  {
    var rest := ReadSockets(next, count - |done| - 1);
    if rest.Some? {
      assert done + ([SocketOf(raw)] + rest.value.0) == done + [SocketOf(raw)] + rest.value.0;
    }
  }

  lemma ResumesStart(start: seq<byte>, count: nat)
    ensures Resumes(start, count, [], start)
  {
    var read := ReadSockets(start, count);
    assert read.Some? ==> [] + read.value.0 == read.value.0;
  }

  lemma ResumesEnd(start: seq<byte>, count: nat, done: seq<Socket>, now: seq<byte>)
    requires |done| == count && Resumes(start, count, done, now)
    ensures ReadSockets(start, count) == Some((done, now))
  {
    assert done + [] == done;
  }

  /** The candidates, and their text as it is pushed. */
  method DecodeCandidates(c: CompactCursor, count: nat) returns (r: Option<(seq<Socket>, seq<Text>)>)
    requires c.Valid()
    modifies c
    ensures c.Valid()
    ensures match ReadSockets(old(c.Rest()), count)
      case None => r.None?
      case Some(read) => r == Some((read.0, ShowSockets(read.0))) && c.Rest() == read.1
  {
    ghost var start := c.Rest();
    var sockets: seq<Socket> := [];
    var candidates: seq<Text> := [];
    ResumesStart(start, count);
    for i := 0 to count
      invariant c.Valid() && |sockets| == i && Resumes(start, count, sockets, c.Rest())
      invariant candidates == ShowSockets(sockets)
    {
      ghost var now := c.Rest();
      var raw := c.TakeBytes(6);
      if raw.None? {
        return None;
      }
      ResumesNext(start, count, sockets, now, raw.value, c.Rest());
      sockets := sockets + [SocketOf(raw.value)];
      candidates := candidates + [SocketString(SocketOf(raw.value))];
    }
    ResumesEnd(start, count, sockets, c.Rest());
    r := Some((sockets, candidates));
  }

  method DecodeKeys(c: CompactCursor) returns (r: Option<Keys>)
    requires c.Valid()
    modifies c
    ensures c.Valid()
    ensures match ReadKeys(old(c.Rest()))
      case None => r.None?
      case Some(read) => r == Some(read.0) && c.Rest() == read.1
  {
    var account := c.TakeBytes(32);
    if account.None? {
      return None;
    }
    var pair := c.TakeBytes(16);
    if pair.None? {
      return None;
    }
    var capability := c.TakeBytes(32);
    if capability.None? {
      return None;
    }
    var desktopKey := c.TakeBytes(32);
    if desktopKey.None? {
      return None;
    }
    var psk := c.TakeBytes(32);
    if psk.None? {
      return None;
    }
    r := Some(Keys(account.value, pair.value, capability.value, desktopKey.value, psk.value));
  }

  /** The relay block; a URL that is not UTF-8 is refused. */
  method DecodeRelay(c: CompactCursor) returns (r: Option<Relay>)
    requires c.Valid()
    modifies c
    ensures c.Valid()
    ensures match ReadRelay(old(c.Rest()))
      case None => r.None?
      case Some(read) =>
        if ValidUtf8(read.0.url) then r == Some(read.0) && c.Rest() == read.1 else r.None?
  {
    var length := c.Byte();
    if length.None? {
      return None;
    }
    var url := c.TakeBytes(length.value);
    if url.None? || !ValidUtf8(url.value) {
      return None;
    }
    var keys := DecodeKeys(c);
    if keys.None? {
      return None;
    }
    r := Some(Relay(url.value, keys.value));
  }

  method DecodeBlock(c: CompactCursor, present: bool) returns (r: Option<Option<Relay>>)
    requires c.Valid()
    modifies c
    ensures c.Valid()
    ensures match ReadBlock(old(c.Rest()), present)
      case None => r.None?
      case Some(read) =>
        if read.0.Some? ==> ValidUtf8(read.0.value.url) then r == Some(read.0) && c.Rest() == read.1 else r.None?
  {
    if !present {
      return Some(None);
    }
    var relay := DecodeRelay(c);
    if relay.None? {
      return None;
    }
    r := Some(Some(relay.value));
  }

  /** Everything up to the end of the last field. */
  method DecodeLayout(c: CompactCursor) returns (r: Option<(Layout, seq<Text>)>)
    requires c.Valid()
    modifies c
    ensures c.Valid()
    ensures match Read(old(c.Rest()))
      case None => r.None?
      case Some(read) =>
        if read.0.relay.Some? ==> ValidUtf8(read.0.relay.value.url) then
          r == Some((read.0, ShowSockets(read.0.sockets))) && c.Rest() == read.1
        else r.None?
  {
    var version := c.Byte();
    if version.None? || version.value != VERSION {
      return None;
    }
    var header := DecodeHeader(c);
    if header.None? {
      return None;
    }
    var count := c.Byte();
    if count.None? {
      return None;
    }
    var listed := DecodeCandidates(c, count.value);
    if listed.None? || listed.value.1 == [] {
      return None;
    }
    var block := DecodeBlock(c, header.value.flags % 2 == 1);
    if block.None? {
      return None;
    }
    r := Some((Layout(header.value, listed.value.0, block.value), listed.value.1));
  }

  /** decode_compact. */
  method DecodeCompact(bytes: seq<byte>) returns (r: Option<Payload>)
    ensures r == Decode(bytes)
  {
    if Read(bytes).Some? {
      OntoRead(bytes);
    }
    var c := new CompactCursor(bytes);
    var read := DecodeLayout(c);
    if read.None? {
      return None;
    }
    var finished := c.Finished();
    if !finished {
      return None;
    }
    var (l, candidates) := read.value;
    r := Some(Payload(
      if l.relay.Some? then 2 else 1, LOCAL, candidates[0], candidates, None, None,
      UuidString(l.header.device), HexString(l.header.pairing), HexString(l.header.cert),
      if l.relay.Some? then Some(ShowRelay(l.relay.value)) else None,
      if l.relay.Some? then Some(ShowNoise(l.relay.value)) else None));
  }

  // ----- Encoding -----

  /** hex_bytes: an array filled two characters at a time. */
  method FillHex(n: nat, t: Text) returns (r: Option<array<byte>>)
    ensures match HexBytes(n, t)
      case None => r.None?
      case Some(b) => r.Some? && fresh(r.value) && r.value[..] == b
  {
    if |t| != 2 * n {
      return None;
    }
    var out := new byte[n](_ => 0);
    for i := 0 to n
      invariant FromHex(t[..2 * i]) == Some(out[..i])
    {
      var pair := FromHexPair(t[2 * i], t[2 * i + 1]);
      assert t[..2 * i + 2][..2 * i] == t[..2 * i];
      if pair.None? {
        HexPrefix(t, i + 1);
        return None;
      }
      out[i] := pair.value;
      assert out[..i + 1] == out[..i] + [pair.value];
    }
    assert t[..2 * n] == t && out[..n] == out[..];
    r := Some(out);
  }

  /** Hexadecimal text none of whose prefixes fails. */
  lemma {:induction false} HexPrefix(t: Text, k: nat)
    requires 2 * k <= |t| && |t| % 2 == 0
    ensures FromHex(t).Some? ==> FromHex(t[..2 * k]).Some?
    decreases |t|
  {
    if 2 * k == |t| {
      assert t[..2 * k] == t;
    } else {
      HexPrefix(t[..|t| - 2], k);
      assert t[..|t| - 2][..2 * k] == t[..2 * k];
    }
  }

  function SocketsJoined(s: seq<Socket>, n: nat): seq<byte>
    requires n <= |s|
  {
    if n == 0 then [] else SocketsJoined(s, n - 1) + SocketBytes(s[n - 1])
  }

  lemma {:induction false} SocketsOntoJoined(s: seq<Socket>, n: nat, rest: seq<byte>)
    requires n <= |s|
    ensures SocketsOnto(s, rest) == SocketsJoined(s, n) + SocketsOnto(s[n..], rest)
  {
    if n == 0 {
      assert s[0..] == s;
      assert [] + SocketsOnto(s, rest) == SocketsOnto(s, rest);
    } else {
      SocketsOntoJoined(s, n - 1, rest);
      assert s[n - 1..][1..] == s[n..];
      Associative(SocketsJoined(s, n - 1), SocketBytes(s[n - 1]), SocketsOnto(s[n..], rest));
    }
  }

  lemma HeaderJoined(h: Header, rest: seq<byte>)
    ensures [VERSION, h.flags] + h.device + h.pairing + h.cert + rest == [VERSION] + HeaderOnto(h, rest)
  {
    assert [VERSION, h.flags] == [VERSION] + [h.flags];
    Associative([VERSION, h.flags] + h.device + h.pairing, h.cert, rest);
    Associative([VERSION, h.flags] + h.device, h.pairing, h.cert + rest);
    Associative([VERSION, h.flags], h.device, h.pairing + (h.cert + rest));
    Associative([VERSION], [h.flags], h.device + (h.pairing + (h.cert + rest)));
  }

  lemma KeysJoined(out: seq<byte>, k: Keys)
    ensures out + k.account + k.pair + k.capability + k.desktopKey + k.psk == out + KeysOnto(k, [])
  {
    assert k.psk + [] == k.psk;
    Associative(out + k.account + k.pair + k.capability, k.desktopKey, k.psk);
    Associative(out + k.account + k.pair, k.capability, k.desktopKey + k.psk);
    Associative(out + k.account, k.pair, k.capability + (k.desktopKey + k.psk));
    Associative(out, k.account, k.pair + (k.capability + (k.desktopKey + k.psk)));
  }

  lemma RelayJoined(out: seq<byte>, r: Relay)
    requires |r.url| <= 255
    ensures out + [|r.url|] + r.url + KeysOnto(r.keys, []) == out + RelayOnto(r, [])
  {
    Associative(out + [|r.url|], r.url, KeysOnto(r.keys, []));
    Associative(out, [|r.url|], r.url + KeysOnto(r.keys, []));
  }

  method DistinctCandidates(p: Payload) returns (candidates: seq<Text>)
    ensures candidates == Candidates(p)
  {
    var all := [p.endpoint] + p.endpointCandidates;
    candidates := [];
    for i := 0 to |all|
      invariant candidates == Dedupe(all, i)
    {
      if all[i] !in candidates {
        candidates := candidates + [all[i]];
      }
    }
  }

  method AppendHeader(p: Payload) returns (out: Option<seq<byte>>)
    ensures match ParseHeader(p)
      case None => out.None?
      case Some(h) => out == Some([VERSION, h.flags] + h.device + h.pairing + h.cert)
  {
    var buffer: seq<byte> := [VERSION, if p.relay.Some? then 1 else 0];
    var device := FillHex(16, WithoutHyphens(p.deviceId));
    if device.None? {
      return None;
    }
    buffer := buffer + device.value[..];
    var pairing := FillHex(32, p.pairingKey);
    if pairing.None? {
      return None;
    }
    buffer := buffer + pairing.value[..];
    var cert := FillHex(32, p.certFingerprint);
    if cert.None? {
      return None;
    }
    out := Some(buffer + cert.value[..]);
  }

  lemma SocketsAll(s: seq<Socket>)
    ensures SocketsOnto(s, []) == SocketsJoined(s, |s|)
  {
    SocketsOntoJoined(s, |s|, []);
    assert SocketsOnto(s[|s|..], []) == [];
    NothingAppended(SocketsJoined(s, |s|));
  }

  method AppendSockets(front: seq<byte>, candidates: seq<Text>) returns (out: Option<seq<byte>>)
    ensures match ParseSockets(candidates, |candidates|)
      case None => out.None?
      case Some(s) => out == Some(front + SocketsOnto(s, []))
  {
    var buffer := front;
    ghost var done: seq<Socket> := [];
    ghost var joined: seq<byte> := [];
    NothingAppended(front);
    for i := 0 to |candidates|
      invariant ParseSockets(candidates, i) == Some(done)
      invariant |done| == i && joined == SocketsJoined(done, |done|) && buffer == front + joined
    {
      var parts := SocketParts(candidates[i]);
      if parts.None? {
        return None;
      }
      ghost var block := SocketBytes(parts.value);
      Associative(front, joined, block);
      JoinedMore(done, parts.value);
      done, joined := done + [parts.value], joined + block;
      buffer := buffer + SocketBytes(parts.value);
    }
    SocketsAll(done);
    out := Some(buffer);
  }

  lemma {:induction false} JoinedSame(s: seq<Socket>, x: Socket, n: nat)
    requires n <= |s|
    ensures SocketsJoined(s + [x], n) == SocketsJoined(s, n)
  {
    if n != 0 {
      JoinedSame(s, x, n - 1);
      assert (s + [x])[n - 1] == s[n - 1];
    }
  }

  lemma JoinedMore(s: seq<Socket>, x: Socket)
    ensures SocketsJoined(s + [x], |s + [x]|) == SocketsJoined(s, |s|) + SocketBytes(x)
  {
    JoinedSame(s, x, |s|);
    assert (s + [x])[|s|] == x;
  }

  method AppendRelay(front: seq<byte>, r: QrRelay, n: QrNoise) returns (out: Option<seq<byte>>)
    ensures match ParseRelay(r, n)
      case None => out.None?
      case Some(l) => out == Some(front + RelayOnto(l, []))
  {
    if |r.url| > 255 {
      return None;
    }
    var buffer := front + [|r.url|] + r.url;
    var account := FillHex(32, r.accountKey);
    if account.None? {
      return None;
    }
    var pair := FillHex(16, r.pairId);
    if pair.None? {
      return None;
    }
    var capability, desktopKey, psk := KeyBytes(r.capability), KeyBytes(n.desktopKey), KeyBytes(n.psk);
    if capability.None? || desktopKey.None? || psk.None? {
      return None;
    }
    ghost var l := Relay(r.url, Keys(account.value[..], pair.value[..], capability.value, desktopKey.value, psk.value));
    KeysJoined(buffer, l.keys);
    RelayJoined(front, l);
    out := Some(buffer + account.value[..] + pair.value[..] + capability.value + desktopKey.value + psk.value);
  }

  lemma PackJoined(l: Layout)
    requires Shaped(l)
    ensures var h := l.header;
      [VERSION, h.flags] + h.device + h.pairing + h.cert + [|l.sockets|] + SocketsOnto(l.sockets, [])
        + BlockOnto(l.relay, [])
      == Pack(l)
  {
    var h, block := l.header, BlockOnto(l.relay, []);
    var front := [VERSION, h.flags] + h.device + h.pairing + h.cert;
    SocketsAppend(l.sockets, [], block);
    assert [] + block == block;
    Associative(front + [|l.sockets|], SocketsOnto(l.sockets, []), block);
    Associative(front, [|l.sockets|], SocketsOnto(l.sockets, block));
    HeaderJoined(h, [|l.sockets|] + SocketsOnto(l.sockets, block));
  }

  lemma NothingAppended(b: seq<byte>)
    ensures b + [] == b
  {
  }

  /** encode_compact. */
  method EncodeCompact(p: Payload) returns (out: Option<seq<byte>>)
    ensures out == Encode(p)
  {
    if !IsLocal(p.mode) || p.relayUrl.Some? || p.devicePairId.Some? || (p.relay.Some? != p.noise.Some?) {
      return None;
    }
    var front := AppendHeader(p);
    if front.None? {
      return None;
    }
    var candidates := DistinctCandidates(p);
    if |candidates| > 255 {
      return None;
    }
    var listed := AppendSockets(front.value + [|candidates|], candidates);
    if listed.None? {
      return None;
    }
    out := listed;
    if p.relay.Some? {
      out := AppendRelay(listed.value, p.relay.value, p.noise.value);
    } else {
      NothingAppended(listed.value);
    }
    if out.Some? {
      PackJoined(Parse(p).value);
    }
  }
}
