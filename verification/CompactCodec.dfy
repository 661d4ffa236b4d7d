/** The compact pairing codec (desktop/core/src/qr.rs): which payloads it encodes, and what comes back. */
module CompactCodec {
  import opened Wrappers
  import opened Bytes
  import B = Base64
  import opened PairingText
  import opened SocketText
  import opened CompactLayout

  // ----- UTF-8, as a Rust string guarantees it -----

  predicate Continues(c: byte) {
    0x80 <= c < 0xC0
  }

  /** The length of the well-formed sequence a text begins with, or 0. */
  function Leading(t: Text): nat
    requires t != []
  {
    if t[0] < 0x80 then 1
    else if 0xC2 <= t[0] < 0xE0 && |t| >= 2 && Continues(t[1]) then 2
    else if 0xE0 <= t[0] < 0xF0 && |t| >= 3 && Continues(t[1]) && Continues(t[2])
            && (t[0] == 0xE0 ==> t[1] >= 0xA0) && (t[0] == 0xED ==> t[1] < 0xA0) then 3
    else if 0xF0 <= t[0] < 0xF5 && |t| >= 4 && Continues(t[1]) && Continues(t[2]) && Continues(t[3])
            && (t[0] == 0xF0 ==> t[1] >= 0x90) && (t[0] == 0xF4 ==> t[1] < 0x90) then 4
    else 0
  }

  predicate ValidUtf8(t: Text) {
    t == [] || (Leading(t) > 0 && ValidUtf8(t[Leading(t)..]))
  }

  type Utf8 = t: Text | ValidUtf8(t) witness []

  // ----- Payloads -----

  datatype QrRelay = QrRelay(url: Utf8, accountKey: Text, pairId: Text, capability: Text)
  datatype QrNoise = QrNoise(desktopKey: Text, psk: Text)
  datatype Payload = Payload(
    v: nat, mode: Text, endpoint: Text, endpointCandidates: seq<Text>, relayUrl: Option<Text>,
    devicePairId: Option<Text>,
    deviceId: Text, pairingKey: Text, certFingerprint: Text, relay: Option<QrRelay>, noise: Option<QrNoise>)

  /** "local" */
  const LOCAL: Text := [108, 111, 99, 97, 108]

  function Lower(c: byte): byte {
    if 65 <= c < 91 then c + 32 else c
  }

  predicate IsLocal(mode: Text) {
    |mode| == 5 && forall i :: 0 <= i < 5 ==> Lower(mode[i]) == LOCAL[i]
  }

  // ----- Encoding -----

  /** The first `n` texts, each at its first occurrence. */
  function Dedupe(ts: seq<Text>, n: nat): seq<Text>
    requires n <= |ts|
  {
    if n == 0 then []
    else
      var front := Dedupe(ts, n - 1);
      if ts[n - 1] in front then front else front + [ts[n - 1]]
  }

  /** The endpoint, then the other candidates, none twice. */
  function Candidates(p: Payload): seq<Text> {
    var all := [p.endpoint] + p.endpointCandidates;
    Dedupe(all, |all|)
  }

  function ParseHeader(p: Payload): (r: Option<Header>)
    ensures r.Some? ==> r.value.flags == if p.relay.Some? then 1 else 0
  {
    var device :- UuidBytes(p.deviceId);
    var pairing :- HexBytes(32, p.pairingKey);
    var cert :- HexBytes(32, p.certFingerprint);
    Some(Header(if p.relay.Some? then 1 else 0, device, pairing, cert))
  }

  function ParseSockets(ts: seq<Text>, n: nat): (r: Option<seq<Socket>>)
    requires n <= |ts|
    ensures r.Some? ==> |r.value| == n && forall i :: 0 <= i < n ==> SocketParts(ts[i]) == Some(r.value[i])
  {
    if n == 0 then Some([])
    else
      var front := ParseSockets(ts, n - 1);
      if front.None? then None
      else
        var last := SocketParts(ts[n - 1]);
        if last.None? then None else Some(front.value + [last.value])
  }

  /** b64_bytes: 32 bytes in either alphabet, padded or not. */
  function KeyBytes(t: Text): (r: Option<seq<byte>>)
    ensures r.Some? ==> |r.value| == 32
  {
    var b :- B.DecodeEither(t);
    if |b| == 32 then Some(b) else None
  }

  function ParseRelay(r: QrRelay, n: QrNoise): (l: Option<Relay>)
    ensures l.Some? ==> l.value.url == r.url && |r.url| <= 255
  {
    var account :- HexBytes(32, r.accountKey);
    var pair :- HexBytes(16, r.pairId);
    var capability :- KeyBytes(r.capability);
    var desktopKey :- KeyBytes(n.desktopKey);
    var psk :- KeyBytes(n.psk);
    if |r.url| > 255 then None else Some(Relay(r.url, Keys(account, pair, capability, desktopKey, psk)))
  }

  predicate FitsBlock(l: Option<Relay>, r: Option<QrRelay>) {
    && (l.Some? <==> r.Some?)
    && (l.Some? ==> l.value.url == r.value.url && |l.value.url| <= 255)
  }

  function ParseBlock(p: Payload): (r: Option<Option<Relay>>)
    requires p.relay.Some? <==> p.noise.Some?
    ensures r.Some? ==> FitsBlock(r.value, p.relay)
  {
    if p.relay.None? then Some(None)
    else
      var relay :- ParseRelay(p.relay.value, p.noise.value);
      Some(Some(relay))
  }

  /** Within the shape the compact form has a place for. */
  predicate Compact(p: Payload) {
    IsLocal(p.mode) && p.relayUrl.None? && p.devicePairId.None? && (p.relay.Some? <==> p.noise.Some?)
  }

  /** The candidates' sockets; their number must fit a byte. */
  function ParseCandidates(p: Payload): (r: Option<seq<Socket>>)
    ensures r.Some? ==> 1 <= |r.value| <= 255
  {
    CandidatesNonempty(p);
    var candidates := Candidates(p);
    if |candidates| > 255 then None else ParseSockets(candidates, |candidates|)
  }

  function Parse(p: Payload): (r: Option<Layout>)
    ensures r.Some? ==> Shaped(r.value)
  {
    if !Compact(p) then None
    else
      var header :- ParseHeader(p);
      var sockets :- ParseCandidates(p);
      var block :- ParseBlock(p);
      Some(Layout(header, sockets, block))
  }

  lemma {:induction false} DedupeNonempty(ts: seq<Text>, n: nat)
    requires 0 < n <= |ts|
    ensures Dedupe(ts, n) != [] && Dedupe(ts, n)[0] == ts[0]
  {
    if n > 1 {
      DedupeNonempty(ts, n - 1);
    } else {
      assert Dedupe(ts, 0) == [];
    }
  }

  lemma CandidatesNonempty(p: Payload)
    ensures Candidates(p) != [] && Candidates(p)[0] == p.endpoint
  {
    var all := [p.endpoint] + p.endpointCandidates;
    DedupeNonempty(all, |all|);
  }

  function Encode(p: Payload): Option<seq<byte>> {
    var l :- Parse(p);
    Some(Pack(l))
  }

  // ----- Decoding -----

  function ShowSockets(s: seq<Socket>): (r: seq<Text>)
    ensures |r| == |s| && forall i :: 0 <= i < |s| ==> r[i] == SocketString(s[i])
  {
    if s == [] then [] else ShowSockets(s[..|s| - 1]) + [SocketString(s[|s| - 1])]
  }

  predicate Readable(l: Layout) {
    Shaped(l) && (l.relay.Some? ==> ValidUtf8(l.relay.value.url))
  }

  function ShowRelay(r: Relay): QrRelay
    requires ValidUtf8(r.url)
  {
    QrRelay(r.url, HexString(r.keys.account), HexString(r.keys.pair), B.Encode(true, r.keys.capability))
  }

  function ShowNoise(r: Relay): QrNoise {
    QrNoise(B.EncodePadded(false, r.keys.desktopKey), B.EncodePadded(false, r.keys.psk))
  }

  function Show(l: Layout): Payload
    requires Readable(l)
  {
    var candidates := ShowSockets(l.sockets);
    Payload(
      if l.relay.Some? then 2 else 1, LOCAL, candidates[0], candidates, None, None,
      UuidString(l.header.device), HexString(l.header.pairing), HexString(l.header.cert),
      if l.relay.Some? then Some(ShowRelay(l.relay.value)) else None,
      if l.relay.Some? then Some(ShowNoise(l.relay.value)) else None)
  }

  function Decode(b: seq<byte>): Option<Payload> {
    if !Whole(b) then None
    else
      OntoRead(b);
      var l := Read(b).value.0;
      if Readable(l) then Some(Show(l)) else None
  }

  // ----- Whatever encodes, decodes -----

  /** A decoded code is what the encoder made of the payload, shown again. */
  lemma DecodeEncoded(p: Payload)
    requires Encode(p).Some?
    ensures Readable(Parse(p).value)
    ensures Decode(Encode(p).value) == Some(Show(Parse(p).value))
  {
    ParseReadable(p);
    ReadOnto(Parse(p).value, []);
    DecodeRead(Pack(Parse(p).value), Parse(p).value);
  }

  lemma ParseReadable(p: Payload)
    requires Parse(p).Some?
    ensures Readable(Parse(p).value) && (Parse(p).value.relay.Some? <==> p.relay.Some?)
  {
    assert FitsBlock(Parse(p).value.relay, p.relay);
  }

  lemma DecodeRead(b: seq<byte>, l: Layout)
    requires Read(b) == Some((l, [])) && Readable(l)
    ensures Decode(b) == Some(Show(l))
  {
  }

  // ----- Canonical fields -----

  /** base64url of 32 bytes, without padding. */
  predicate CanonicalToken(t: Text) {
    B.FromLetters(true, t).Some?
  }

  /** base64 of 32 bytes: 43 letters and one padding character. */
  predicate CanonicalKey(t: Text) {
    |t| == 44 && t[43] == B.PAD && B.FromLetters(false, t[..43]).Some?
  }

  lemma {:induction false} SextetsLength(b: seq<byte>)
    ensures |B.Sextets(b)| == (4 * |b| + 2) / 3
  {
    if |b| >= 3 {
      SextetsLength(b[3..]);
    }
  }

  lemma NoPad(url: bool, t: Text)
    requires B.FromLetters(url, t).Some?
    ensures B.TrimEnd(t) == t
  {
    if t != [] {
      assert B.FromLetter(url, t[|t| - 1]).Some?;
    }
    B.TrimAppended(t, []);
    assert t + [] == t;
  }

  lemma TokenCanonical(t: Text)
    requires KeyBytes(t).Some?
    ensures B.Encode(true, KeyBytes(t).value) == t <==> CanonicalToken(t)
  {
    var b := KeyBytes(t).value;
    if CanonicalToken(t) {
      NoPad(true, t);
      if B.Decode(true, t).None? {
        B.AlphabetsAgree(t);
        assert false;
      }
      B.EncodeDecode(true, t);
    }
    if B.Encode(true, b) == t {
      B.LettersRoundTrip(true, B.Sextets(b));
    }
  }

  lemma KeyCanonical(t: Text)
    requires KeyBytes(t).Some?
    ensures B.EncodePadded(false, KeyBytes(t).value) == t <==> CanonicalKey(t)
  {
    var b := KeyBytes(t).value;
    SextetsLength(b);
    assert B.Padding(|b|) == [B.PAD];
    var shown := B.Encode(false, b);
    assert |shown| == 43 && (shown + [B.PAD])[..43] == shown;
    B.LettersRoundTrip(false, B.Sextets(b));
    if CanonicalKey(t) {
      KeyRead(t);
    }
  }

  lemma KeyRead(t: Text)
    requires KeyBytes(t).Some? && CanonicalKey(t)
    ensures B.EncodePadded(false, KeyBytes(t).value) == t
  {
    var front := t[..43];
    assert t == front + [B.PAD];
    assert B.FromLetter(false, front[42]).Some?;
    B.TrimAppended(front, [B.PAD]);
    if B.Decode(true, front).Some? {
      B.AlphabetsAgree(front);
    }
    B.EncodeDecode(false, front);
    assert B.Padding(32) == [B.PAD];
  }

  predicate CanonicalRelay(r: QrRelay, n: QrNoise) {
    LowerHex(r.accountKey) && LowerHex(r.pairId) && CanonicalToken(r.capability) && CanonicalKey(n.desktopKey)
      && CanonicalKey(n.psk)
  }

  predicate CanonicalSockets(ts: seq<Text>) {
    forall i :: 0 <= i < |ts| ==> PlainPort(ts[i])
  }

  /** Written as the decoder writes: lower case, hyphens in place, plain ports, each key in its own alphabet. */
  predicate Canonical(p: Payload) {
    && p.v == (if p.relay.Some? then 2 else 1)
    && p.mode == LOCAL
    && CanonicalUuid(p.deviceId) && LowerHex(p.pairingKey) && LowerHex(p.certFingerprint)
    && CanonicalSockets(Candidates(p))
    && (p.relay.Some? && p.noise.Some? ==> CanonicalRelay(p.relay.value, p.noise.value))
  }

  /** The payload with its candidate list as the encoder keeps it. */
  function Deduped(p: Payload): Payload {
    p.(endpointCandidates := Candidates(p))
  }

  lemma SocketsCanonical(ts: seq<Text>)
    requires ParseSockets(ts, |ts|).Some?
    ensures ShowSockets(ParseSockets(ts, |ts|).value) == ts <==> CanonicalSockets(ts)
  {
    ShownCanonical(ts, ParseSockets(ts, |ts|).value, ShowSockets(ParseSockets(ts, |ts|).value));
  }

  lemma ShownCanonical(ts: seq<Text>, s: seq<Socket>, shown: seq<Text>)
    requires |s| == |ts| == |shown|
    requires forall i :: 0 <= i < |ts| ==> SocketParts(ts[i]) == Some(s[i])
    requires forall i :: 0 <= i < |s| ==> shown[i] == SocketString(s[i])
    ensures shown == ts <==> CanonicalSockets(ts)
  {
    forall i | 0 <= i < |ts|
      ensures shown[i] == ts[i] <==> PlainPort(ts[i])
    {
      assert SocketParts(ts[i]) == Some(s[i]);
      SocketCanonical(ts[i]);
    }
    if shown == ts {
      assert forall i :: 0 <= i < |ts| ==> shown[i] == ts[i];
    }
  }

  lemma RelayParts(r: QrRelay, n: QrNoise)
    requires ParseRelay(r, n).Some?
    ensures var l := ParseRelay(r, n).value;
      && l.url == r.url
      && HexBytes(32, r.accountKey) == Some(l.keys.account)
      && HexBytes(16, r.pairId) == Some(l.keys.pair)
      && KeyBytes(r.capability) == Some(l.keys.capability)
  {
  }

  lemma HexBytesCanonical(size: nat, t: Text, b: seq<byte>)
    requires HexBytes(size, t) == Some(b)
    ensures HexString(b) == t <==> LowerHex(t)
  {
    HexCanonical(t);
  }

  lemma RelayTexts(r: QrRelay, n: QrNoise, l: Relay)
    requires ParseRelay(r, n) == Some(l)
    ensures ValidUtf8(l.url)
    ensures ShowRelay(l) == r <==> LowerHex(r.accountKey) && LowerHex(r.pairId) && CanonicalToken(r.capability)
  {
    RelayParts(r, n);
    HexBytesCanonical(32, r.accountKey, l.keys.account);
    HexBytesCanonical(16, r.pairId, l.keys.pair);
    TokenCanonical(r.capability);
  }

  lemma NoiseTexts(r: QrRelay, n: QrNoise)
    requires ParseRelay(r, n).Some?
    ensures ShowNoise(ParseRelay(r, n).value) == n <==> CanonicalKey(n.desktopKey) && CanonicalKey(n.psk)
  {
    KeyCanonical(n.desktopKey);
    KeyCanonical(n.psk);
  }

  lemma RelayCanonical(r: QrRelay, n: QrNoise)
    requires ParseRelay(r, n).Some?
    ensures var l := ParseRelay(r, n).value;
      ValidUtf8(l.url) && (ShowRelay(l) == r && ShowNoise(l) == n <==> CanonicalRelay(r, n))
  {
    RelayTexts(r, n, ParseRelay(r, n).value);
    NoiseTexts(r, n);
  }

  lemma HeaderCanonical(p: Payload)
    requires ParseHeader(p).Some?
    ensures var h := ParseHeader(p).value;
      && (UuidString(h.device) == p.deviceId <==> CanonicalUuid(p.deviceId))
      && (HexString(h.pairing) == p.pairingKey <==> LowerHex(p.pairingKey))
      && (HexString(h.cert) == p.certFingerprint <==> LowerHex(p.certFingerprint))
  {
    UuidCanonical(p.deviceId);
    HexCanonical(p.pairingKey);
    HexCanonical(p.certFingerprint);
  }

  /** For every payload the encoder accepts, decoding gives it back, its candidates the first-occurrence dedupe of the
      endpoint and the list, exactly when its fields are canonical. */
  lemma RoundTrip(p: Payload)
    requires Encode(p).Some?
    ensures Decode(Encode(p).value) == Some(Deduped(p)) <==> Canonical(p)
  {
    DecodeEncoded(p);
    var l := Parse(p).value;
    HeaderCanonical(p);
    SocketsCanonical(Candidates(p));
    CandidatesNonempty(p);
    if p.relay.Some? {
      RelayCanonical(p.relay.value, p.noise.value);
    }
    ShownAsParsed(p, l);
  }

  lemma ShownAsParsed(p: Payload, l: Layout)
    requires Compact(p) && Readable(l) && (l.relay.Some? <==> p.relay.Some?)
    requires Candidates(p) != [] && Candidates(p)[0] == p.endpoint
    ensures Show(l) == Deduped(p) <==>
      && p.v == (if p.relay.Some? then 2 else 1)
      && p.mode == LOCAL
      && UuidString(l.header.device) == p.deviceId
      && HexString(l.header.pairing) == p.pairingKey && HexString(l.header.cert) == p.certFingerprint
      && ShowSockets(l.sockets) == Candidates(p)
      && (p.relay.Some? ==> ShowRelay(l.relay.value) == p.relay.value && ShowNoise(l.relay.value) == p.noise.value)
  {
  }

  // ----- Encoding what was decoded -----

  predicate Distinct(ts: seq<Text>) {
    forall i, j :: 0 <= i < j < |ts| ==> ts[i] != ts[j]
  }

  lemma {:induction false} DedupeKeeps(ts: seq<Text>, n: nat)
    requires n <= |ts|
    ensures |Dedupe(ts, n)| <= n
    ensures forall x :: x in Dedupe(ts, n) ==> x in ts[..n]
    ensures Dedupe(ts, n) == ts[..n] <==> Distinct(ts[..n])
    ensures |Dedupe(ts, n)| == n <==> Distinct(ts[..n])
  {
    if n != 0 {
      DedupeKeeps(ts, n - 1);
      assert ts[..n] == ts[..n - 1] + [ts[n - 1]];
      DistinctGrows(ts, n);
    }
  }

  lemma DistinctGrows(ts: seq<Text>, n: nat)
    requires 0 < n <= |ts|
    ensures Distinct(ts[..n]) <==> Distinct(ts[..n - 1]) && ts[n - 1] !in ts[..n - 1]
  {
    var a, b := ts[..n], ts[..n - 1];
    assert a == b + [ts[n - 1]];
    if Distinct(a) {
      assert forall i :: 0 <= i < n - 1 ==> b[i] == a[i];
    }
  }

  /** Repeating the first element in front changes nothing. */
  lemma {:induction false} DedupeHead(ts: seq<Text>, n: nat)
    requires 0 < n <= |ts|
    ensures Dedupe([ts[0]] + ts, n + 1) == Dedupe(ts, n)
  {
    var all := [ts[0]] + ts;
    if n == 1 {
      assert Dedupe(all, 1) == [ts[0]] == Dedupe(ts, 1) by {
        assert Dedupe(all, 0) == [] && Dedupe(ts, 0) == [];
      }
      assert all[1] == ts[0];
    } else {
      DedupeHead(ts, n - 1);
      assert all[n] == ts[n - 1];
    }
  }

  lemma {:induction false} ParseSocketsAll(ts: seq<Text>, n: nat)
    requires n <= |ts| && forall i :: 0 <= i < n ==> SocketParts(ts[i]).Some?
    ensures ParseSockets(ts, n).Some?
  {
    if n != 0 {
      ParseSocketsAll(ts, n - 1);
    }
  }

  lemma DedupeSockets(s: seq<Socket>, n: nat)
    requires n <= |s|
    ensures ParseSockets(Dedupe(ShowSockets(s), n), |Dedupe(ShowSockets(s), n)|).Some?
  {
    var ts := Dedupe(ShowSockets(s), n);
    DedupeKeeps(ShowSockets(s), n);
    forall i | 0 <= i < |ts|
      ensures SocketParts(ts[i]).Some?
    {
      assert ts[i] in ShowSockets(s)[..n];
      var k :| 0 <= k < n && ShowSockets(s)[k] == ts[i];
      SocketRoundTrip(s[k]);
    }
    ParseSocketsAll(ts, |ts|);
  }

  lemma RelayShown(r: Relay)
    requires ValidUtf8(r.url) && |r.url| <= 255
    ensures ParseRelay(ShowRelay(r), ShowNoise(r)) == Some(r)
  {
    HexRoundTrip(r.keys.account);
    HexRoundTrip(r.keys.pair);
    B.DecodeEitherEncoded(true, r.keys.capability);
    B.DecodeEitherEncoded(false, r.keys.desktopKey);
    B.DecodeEitherEncoded(false, r.keys.psk);
  }

  lemma HeaderShown(l: Layout)
    requires Readable(l)
    ensures ParseHeader(Show(l)) == Some(l.header.(flags := if l.relay.Some? then 1 else 0))
  {
    UuidRoundTrip(l.header.device);
    HexRoundTrip(l.header.pairing);
    HexRoundTrip(l.header.cert);
  }

  lemma CandidatesShown(l: Layout)
    requires Readable(l)
    ensures Candidates(Show(l)) == Dedupe(ShowSockets(l.sockets), |l.sockets|)
  {
    DedupeHead(ShowSockets(l.sockets), |l.sockets|);
  }

  lemma BlockShown(l: Layout)
    requires Readable(l)
    ensures ParseBlock(Show(l)) == Some(l.relay)
  {
    if l.relay.Some? {
      RelayShown(l.relay.value);
    }
  }

  lemma SocketsShown(l: Layout)
    requires Readable(l)
    ensures ParseCandidates(Show(l)).Some?
    ensures var s := ParseCandidates(Show(l)).value;
      s == l.sockets <==> Distinct(ShowSockets(l.sockets))
  {
    var ts, n := ShowSockets(l.sockets), |l.sockets|;
    CandidatesShown(l);
    DedupeSockets(l.sockets, n);
    DedupeKeeps(ts, n);
    assert ts[..n] == ts;
    if Distinct(ts) {
      SocketsParsed(l.sockets, ts, ParseSockets(ts, n).value);
    }
  }

  lemma SocketsParsed(s: seq<Socket>, ts: seq<Text>, t: seq<Socket>)
    requires |t| == |s| == |ts| && forall i :: 0 <= i < |s| ==> ts[i] == SocketString(s[i])
    requires forall i :: 0 <= i < |s| ==> SocketParts(ts[i]) == Some(t[i])
    ensures s == t
  {
    forall i | 0 <= i < |s|
      ensures s[i] == t[i]
    {
      SocketRoundTrip(s[i]);
      assert SocketParts(ts[i]) == Some(t[i]);
    }
  }

  /** The flag byte with no unused bit set. */
  function PlainFlags(l: Layout): Layout {
    l.(header := l.header.(flags := if l.relay.Some? then 1 else 0))
  }

  /** What is shown parses as it was, but for unused flag bits and repeated candidates. */
  lemma ShownParses(l: Layout)
    requires Readable(l)
    ensures Parse(Show(l)).Some?
    ensures var s := ParseCandidates(Show(l)).value;
      && Parse(Show(l)).value == PlainFlags(l).(sockets := s)
      && (s == l.sockets <==> Distinct(ShowSockets(l.sockets)))
  {
    HeaderShown(l);
    SocketsShown(l);
    BlockShown(l);
    ShownCompact(l);
    ParseMade(Show(l), PlainFlags(l).header, ParseCandidates(Show(l)).value, l.relay);
  }

  lemma ShownCompact(l: Layout)
    requires Readable(l)
    ensures Compact(Show(l))
  {
    assert IsLocal(LOCAL);
  }

  lemma ParseMade(p: Payload, h: Header, s: seq<Socket>, r: Option<Relay>)
    requires Compact(p)
    requires ParseHeader(p) == Some(h) && ParseCandidates(p) == Some(s) && ParseBlock(p) == Some(r)
    ensures Parse(p) == Some(Layout(h, s, r))
  {
  }

  lemma PacksApart(l: Layout, m: Layout)
    requires Shaped(l) && Shaped(m) && Pack(l) == Pack(m)
    ensures l == m
  {
    ReadOnto(l, []);
    ReadOnto(m, []);
  }

  lemma FlagByte(l: Layout)
    requires Shaped(l)
    ensures |Pack(l)| > 1 && Pack(l)[1] == l.header.flags
  {
  }

  lemma EncodesAs(p: Payload, l: Layout, m: Layout)
    requires Parse(p) == Some(m) && Shaped(l) && Shaped(m)
    ensures Encode(p) == Some(Pack(l)) <==> m == l
  {
    if Pack(m) == Pack(l) {
      PacksApart(m, l);
    }
  }

  lemma PlainFlagsSame(l: Layout, s: seq<Socket>)
    requires Shaped(l)
    ensures PlainFlags(l).(sockets := s) == l <==> l.header.flags in {0, 1} && s == l.sockets
  {
  }

  /** Showing a layout and encoding what is shown gives its bytes back exactly when nothing was normalized. */
  lemma ShownEncodes(l: Layout)
    requires Readable(l)
    ensures Encode(Show(l)) == Some(Pack(l)) <==> l.header.flags in {0, 1} && Distinct(ShowSockets(l.sockets))
  {
    ShownParses(l);
    var s := ParseCandidates(Show(l)).value;
    EncodesAs(Show(l), l, PlainFlags(l).(sockets := s));
    PlainFlagsSame(l, s);
  }

  lemma DecodedShown(b: seq<byte>) returns (l: Layout)
    requires Decode(b).Some?
    ensures Readable(l) && b == Pack(l) && Decode(b) == Some(Show(l))
  {
    OntoRead(b);
    l := Read(b).value.0;
  }

  /** Re-encoding gives back an accepted code exactly when its flag byte is 0 or 1 and no candidate occurs twice. */
  lemma EncodeDecoded(b: seq<byte>)
    requires Decode(b).Some?
    ensures Encode(Decode(b).value) == Some(b) <==>
      |b| > 1 && b[1] in {0, 1} && Distinct(Decode(b).value.endpointCandidates)
  {
    var l := DecodedShown(b);
    ShownEncodes(l);
    FlagByte(l);
    ShownCandidates(l);
  }

  lemma ShownCandidates(l: Layout)
    requires Readable(l)
    ensures Show(l).endpointCandidates == ShowSockets(l.sockets)
  {
  }

  /** No accepted code is a proper prefix of another. */
  lemma CodesApart(a: seq<byte>, b: seq<byte>)
    requires Decode(a).Some? && Decode(b).Some? && a <= b
    ensures a == b
  {
    NoPrefix(a, b);
  }
}
