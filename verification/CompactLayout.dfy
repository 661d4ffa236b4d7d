/** The compact pairing layout, version 3 (desktop/core/src/qr.rs and PairingManager.kt): the bytes, field by field,
    and the bounds-checked reading of them. */
module CompactLayout {
  import opened Wrappers
  import opened Bytes
  import opened Codes
  import opened SocketText

  const VERSION: byte := 3

  type Bytes16 = b: seq<byte> | |b| == 16 witness seq(16, _ => 0)
  type Bytes32 = b: seq<byte> | |b| == 32 witness seq(32, _ => 0)

  datatype Keys = Keys(account: Bytes32, pair: Bytes16, capability: Bytes32, desktopKey: Bytes32, psk: Bytes32)
  datatype Relay = Relay(url: seq<byte>, keys: Keys)
  datatype Header = Header(flags: byte, device: Bytes16, pairing: Bytes32, cert: Bytes32)
  datatype Layout = Layout(header: Header, sockets: seq<Socket>, relay: Option<Relay>)

  /** Between 1 and 255 candidates, a relay block exactly when the flag says so, and a length that fits a byte. */
  predicate Shaped(l: Layout) {
    && 1 <= |l.sockets| <= 255
    && (l.relay.Some? <==> l.header.flags % 2 == 1)
    && (l.relay.Some? ==> |l.relay.value.url| <= 255)
  }

  // ----- Writing, each part in front of what follows it -----

  function HeaderOnto(h: Header, rest: seq<byte>): seq<byte> {
    [h.flags] + (h.device + (h.pairing + (h.cert + rest)))
  }

  /** The address, then the port, most significant byte first. */
  function SocketBytes(s: Socket): (b: seq<byte>)
    ensures |b| == 6
  {
    s.ip + [s.port / 256, s.port % 256]
  }

  function SocketsOnto(s: seq<Socket>, rest: seq<byte>): seq<byte> {
    if s == [] then rest else SocketBytes(s[0]) + SocketsOnto(s[1..], rest)
  }

  function KeysOnto(k: Keys, rest: seq<byte>): seq<byte> {
    k.account + (k.pair + (k.capability + (k.desktopKey + (k.psk + rest))))
  }

  function RelayOnto(r: Relay, rest: seq<byte>): seq<byte>
    requires |r.url| <= 255
  {
    [|r.url|] + (r.url + KeysOnto(r.keys, rest))
  }

  function BlockOnto(r: Option<Relay>, rest: seq<byte>): seq<byte>
    requires r.Some? ==> |r.value.url| <= 255
  {
    if r.Some? then RelayOnto(r.value, rest) else rest
  }

  function Onto(l: Layout, rest: seq<byte>): seq<byte>
    requires Shaped(l)
  {
    [VERSION] + HeaderOnto(l.header, [|l.sockets|] + SocketsOnto(l.sockets, BlockOnto(l.relay, rest)))
  }

  function Pack(l: Layout): seq<byte>
    requires Shaped(l)
  {
    Onto(l, [])
  }

  // ----- Reading -----

  /** Some bytes off the front, if there are that many, and what is left. */
  function Take(b: seq<byte>, n: nat): (r: Option<(seq<byte>, seq<byte>)>)
    ensures r.Some? ==> |r.value.0| == n
  {
    if |b| < n then None else Some((b[..n], b[n..]))
  }

  function ReadHeader(b: seq<byte>): Option<(Header, seq<byte>)> {
    var flags :- Take(b, 1);
    var device :- Take(flags.1, 16);
    var pairing :- Take(device.1, 32);
    var cert :- Take(pairing.1, 32);
    Some((Header(flags.0[0], device.0, pairing.0, cert.0), cert.1))
  }

  function SocketOf(raw: seq<byte>): Socket
    requires |raw| == 6
  {
    var high: int, low: int := raw[4], raw[5];
    Socket(raw[..4], high * 256 + low)
  }

  function ReadSockets(b: seq<byte>, n: nat): (r: Option<(seq<Socket>, seq<byte>)>)
    ensures r.Some? ==> |r.value.0| == n
  {
    if n == 0 then Some(([], b))
    else
      var raw :- Take(b, 6);
      var rest :- ReadSockets(raw.1, n - 1);
      Some(([SocketOf(raw.0)] + rest.0, rest.1))
  }

  function ReadKeys(b: seq<byte>): Option<(Keys, seq<byte>)> {
    var account :- Take(b, 32);
    var pair :- Take(account.1, 16);
    var capability :- Take(pair.1, 32);
    var desktopKey :- Take(capability.1, 32);
    var psk :- Take(desktopKey.1, 32);
    Some((Keys(account.0, pair.0, capability.0, desktopKey.0, psk.0), psk.1))
  }

  function ReadRelay(b: seq<byte>): Option<(Relay, seq<byte>)> {
    var length :- Take(b, 1);
    var url :- Take(length.1, length.0[0]);
    var keys :- ReadKeys(url.1);
    Some((Relay(url.0, keys.0), keys.1))
  }

  function ReadBlock(b: seq<byte>, present: bool): Option<(Option<Relay>, seq<byte>)> {
    if present then
      var relay :- ReadRelay(b);
      Some((Some(relay.0), relay.1))
    else Some((None, b))
  }

  /** What follows the candidates. */
  function ReadTail(header: Header, sockets: seq<Socket>, b: seq<byte>): Option<(Layout, seq<byte>)> {
    var block :- ReadBlock(b, header.flags % 2 == 1);
    Some((Layout(header, sockets, block.0), block.1))
  }

  /** What follows the header; a code without candidates is refused. */
  function ReadBody(header: Header, b: seq<byte>): Option<(Layout, seq<byte>)> {
    var count :- Take(b, 1);
    var sockets :- ReadSockets(count.1, count.0[0]);
    if sockets.0 == [] then None else ReadTail(header, sockets.0, sockets.1)
  }

  /** Everything in order; a code of another version is refused. */
  function Read(b: seq<byte>): Option<(Layout, seq<byte>)> {
    var version :- Take(b, 1);
    if version.0[0] != VERSION then None
    else
      var header :- ReadHeader(version.1);
      ReadBody(header.0, header.1)
  }

  // ----- Each part is read back as it was written -----

  lemma TakeOf(x: seq<byte>, rest: seq<byte>)
    ensures Take(x + rest, |x|) == Some((x, rest))
  {
    assert (x + rest)[..|x|] == x && (x + rest)[|x|..] == rest;
  }

  lemma TakeJoins(b: seq<byte>, n: nat)
    requires Take(b, n).Some?
    ensures b == Take(b, n).value.0 + Take(b, n).value.1
  {
  }

  lemma HeaderRead(h: Header, rest: seq<byte>)
    ensures ReadHeader(HeaderOnto(h, rest)) == Some((h, rest))
  {
    TakeOf([h.flags], h.device + (h.pairing + (h.cert + rest)));
    TakeOf(h.device, h.pairing + (h.cert + rest));
    TakeOf(h.pairing, h.cert + rest);
    TakeOf(h.cert, rest);
  }

  lemma HeaderWritten(b: seq<byte>)
    requires ReadHeader(b).Some?
    ensures b == HeaderOnto(ReadHeader(b).value.0, ReadHeader(b).value.1)
  {
    var flags := Take(b, 1).value;
    var device := Take(flags.1, 16).value;
    var pairing := Take(device.1, 32).value;
    TakeJoins(b, 1);
    TakeJoins(flags.1, 16);
    TakeJoins(device.1, 32);
    TakeJoins(pairing.1, 32);
    assert flags.0 == [flags.0[0]];
  }

  lemma SocketRead(s: Socket)
    ensures SocketOf(SocketBytes(s)) == s
  {
    assert SocketBytes(s)[..4] == s.ip;
  }

  lemma SocketWritten(raw: seq<byte>)
    requires |raw| == 6
    ensures SocketBytes(SocketOf(raw)) == raw
  {
    var high: int, low: int := raw[4], raw[5];
    assert (high * 256 + low) / 256 == high && (high * 256 + low) % 256 == low;
    assert raw == raw[..4] + [raw[4], raw[5]];
  }

  lemma {:induction false} SocketsRead(s: seq<Socket>, rest: seq<byte>)
    ensures ReadSockets(SocketsOnto(s, rest), |s|) == Some((s, rest))
  {
    if s != [] {
      TakeOf(SocketBytes(s[0]), SocketsOnto(s[1..], rest));
      SocketRead(s[0]);
      SocketsRead(s[1..], rest);
      assert s == [s[0]] + s[1..];
    }
  }

  lemma {:induction false} SocketsWritten(b: seq<byte>, n: nat)
    requires ReadSockets(b, n).Some?
    ensures b == SocketsOnto(ReadSockets(b, n).value.0, ReadSockets(b, n).value.1)
  {
    if n != 0 {
      var raw := Take(b, 6).value;
      TakeJoins(b, 6);
      SocketWritten(raw.0);
      SocketsWritten(raw.1, n - 1);
      var s := ReadSockets(b, n).value.0;
      assert s[1..] == ReadSockets(raw.1, n - 1).value.0;
    }
  }

  lemma KeysRead(k: Keys, rest: seq<byte>)
    ensures ReadKeys(KeysOnto(k, rest)) == Some((k, rest))
  {
    TakeOf(k.account, k.pair + (k.capability + (k.desktopKey + (k.psk + rest))));
    TakeOf(k.pair, k.capability + (k.desktopKey + (k.psk + rest)));
    TakeOf(k.capability, k.desktopKey + (k.psk + rest));
    TakeOf(k.desktopKey, k.psk + rest);
    TakeOf(k.psk, rest);
  }

  lemma KeysWritten(b: seq<byte>)
    requires ReadKeys(b).Some?
    ensures b == KeysOnto(ReadKeys(b).value.0, ReadKeys(b).value.1)
  {
    var account := Take(b, 32).value;
    var pair := Take(account.1, 16).value;
    var capability := Take(pair.1, 32).value;
    var desktopKey := Take(capability.1, 32).value;
    TakeJoins(b, 32);
    TakeJoins(account.1, 16);
    TakeJoins(pair.1, 32);
    TakeJoins(capability.1, 32);
    TakeJoins(desktopKey.1, 32);
  }

  lemma RelayRead(r: Relay, rest: seq<byte>)
    requires |r.url| <= 255
    ensures ReadRelay(RelayOnto(r, rest)) == Some((r, rest))
  {
    TakeOf([|r.url|], r.url + KeysOnto(r.keys, rest));
    TakeOf(r.url, KeysOnto(r.keys, rest));
    KeysRead(r.keys, rest);
  }

  lemma RelayWritten(b: seq<byte>)
    requires ReadRelay(b).Some?
    ensures |ReadRelay(b).value.0.url| <= 255
    ensures b == RelayOnto(ReadRelay(b).value.0, ReadRelay(b).value.1)
  {
    var length := Take(b, 1).value;
    var url := Take(length.1, length.0[0]).value;
    TakeJoins(b, 1);
    TakeJoins(length.1, length.0[0]);
    KeysWritten(url.1);
    assert length.0 == [length.0[0]];
  }

  lemma BlockRead(r: Option<Relay>, rest: seq<byte>)
    requires r.Some? ==> |r.value.url| <= 255
    ensures ReadBlock(BlockOnto(r, rest), r.Some?) == Some((r, rest))
  {
    if r.Some? {
      RelayRead(r.value, rest);
    }
  }

  /** A layout in front of anything is read back, and the rest is left. */
  lemma ReadOnto(l: Layout, rest: seq<byte>)
    requires Shaped(l)
    ensures Read(Onto(l, rest)) == Some((l, rest))
  {
    var block := BlockOnto(l.relay, rest);
    var sockets := SocketsOnto(l.sockets, block);
    TakeOf([VERSION], HeaderOnto(l.header, [|l.sockets|] + sockets));
    HeaderRead(l.header, [|l.sockets|] + sockets);
    TakeOf([|l.sockets|], sockets);
    SocketsRead(l.sockets, block);
    BlockRead(l.relay, rest);
  }

  /** Whatever is read was written, in the one way there is. */
  lemma OntoRead(b: seq<byte>)
    requires Read(b).Some?
    ensures Shaped(Read(b).value.0) && b == Onto(Read(b).value.0, Read(b).value.1)
  {
    var version := Take(b, 1).value;
    var header := ReadHeader(version.1).value;
    var count := Take(header.1, 1).value;
    var sockets := ReadSockets(count.1, count.0[0]).value;
    TakeJoins(b, 1);
    HeaderWritten(version.1);
    TakeJoins(header.1, 1);
    SocketsWritten(count.1, count.0[0]);
    if header.0.flags % 2 == 1 {
      RelayWritten(sockets.1);
    }
    assert version.0 == [VERSION] && count.0 == [count.0[0]];
  }

  // ----- Appending -----

  lemma {:induction false} SocketsAppend(s: seq<Socket>, rest: seq<byte>, x: seq<byte>)
    ensures SocketsOnto(s, rest) + x == SocketsOnto(s, rest + x)
  {
    if s != [] {
      Associative(SocketBytes(s[0]), SocketsOnto(s[1..], rest), x);
      SocketsAppend(s[1..], rest, x);
    }
  }

  lemma HeaderAppend(h: Header, rest: seq<byte>, x: seq<byte>)
    ensures HeaderOnto(h, rest) + x == HeaderOnto(h, rest + x)
  {
    Associative([h.flags], h.device + (h.pairing + (h.cert + rest)), x);
    Associative(h.device, h.pairing + (h.cert + rest), x);
    Associative(h.pairing, h.cert + rest, x);
    Associative(h.cert, rest, x);
  }

  lemma RelayAppend(r: Relay, rest: seq<byte>, x: seq<byte>)
    requires |r.url| <= 255
    ensures RelayOnto(r, rest) + x == RelayOnto(r, rest + x)
  {
    var k := r.keys;
    Associative([|r.url|], r.url + KeysOnto(k, rest), x);
    Associative(r.url, KeysOnto(k, rest), x);
    Associative(k.account, k.pair + (k.capability + (k.desktopKey + (k.psk + rest))), x);
    Associative(k.pair, k.capability + (k.desktopKey + (k.psk + rest)), x);
    Associative(k.capability, k.desktopKey + (k.psk + rest), x);
    Associative(k.desktopKey, k.psk + rest, x);
    Associative(k.psk, rest, x);
  }

  lemma OntoAppend(l: Layout, rest: seq<byte>, x: seq<byte>)
    requires Shaped(l)
    ensures Onto(l, rest) + x == Onto(l, rest + x)
  {
    var block := BlockOnto(l.relay, rest);
    if l.relay.Some? {
      RelayAppend(l.relay.value, rest, x);
    }
    var sockets := SocketsOnto(l.sockets, block);
    SocketsAppend(l.sockets, block, x);
    Associative([|l.sockets|], sockets, x);
    HeaderAppend(l.header, [|l.sockets|] + sockets, x);
    Associative([VERSION], HeaderOnto(l.header, [|l.sockets|] + sockets), x);
  }

  /** Bytes that are one layout and nothing more. */
  predicate Whole(b: seq<byte>) {
    Read(b).Some? && Read(b).value.1 == []
  }

  /** No whole code is a proper prefix of another. */
  lemma NoPrefix(a: seq<byte>, b: seq<byte>)
    requires Whole(a) && Whole(b) && a <= b
    ensures a == b
  {
    var l, x := Read(a).value.0, b[|a|..];
    OntoRead(a);
    OntoAppend(l, [], x);
    assert b == a + x && [] + x == x;
    ReadOnto(l, x);
  }
}
