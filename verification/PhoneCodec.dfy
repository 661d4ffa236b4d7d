/** The phone's own decoder of the compact pairing code (PairingManager.kt), over signed bytes and a running index, and
    its agreement with the desktop's. */
module PhoneCodec {
  import opened Wrappers
  import opened Bytes
  import B = Base64
  import opened PairingText
  import opened SocketText
  import opened CompactLayout
  import opened CompactCodec

  /** A JVM byte. */
  type SignedByte = x: int | -128 <= x < 128

  function Signed(b: byte): SignedByte {
    if b < 128 then b else b - 256
  }

  /** `toInt() and 0xFF`. */
  function Low8(x: SignedByte): byte {
    if x < 0 then x + 256 else x
  }

  function SignedAll(b: seq<byte>): (r: seq<SignedByte>)
    ensures |r| == |b|
  {
    seq(|b|, i requires 0 <= i < |b| => Signed(b[i]))
  }

  function Low8All(b: seq<SignedByte>): (r: seq<byte>)
    ensures |r| == |b|
  {
    seq(|b|, i requires 0 <= i < |b| => Low8(b[i]))
  }

  // ----- The decoder -----

  /** CompactReader.take from an index: the bytes, and the index after them. */
  function TakeAt(bytes: seq<SignedByte>, at: nat, length: nat): (r: Option<(seq<SignedByte>, nat)>)
    ensures r.Some? ==> |r.value.0| == length && r.value.1 == at + length <= |bytes|
  {
    if at + length <= |bytes| then Some((bytes[at..at + length], at + length)) else None
  }

  /** toHex: two lower-case digits for each byte, from the first on. */
  function ToHex(b: seq<SignedByte>): (t: Text)
    ensures |t| == 2 * |b|
  {
    if b == [] then [] else [HexDigit(Low8(b[0]) / 16), HexDigit(Low8(b[0]) % 16)] + ToHex(b[1..])
  }

  /** "wss://host:port" */
  function Address(a: Text, b: Text, c: Text, d: Text, port: Text): Text {
    SCHEME + (a + [DOT] + b + [DOT] + c + [DOT] + d) + [COLON] + port
  }

  function CandidateText(raw: seq<SignedByte>): Text
    requires |raw| == 6
  {
    var high: int, low: int := Low8(raw[4]), Low8(raw[5]);
    Address(Decimal(Low8(raw[0])), Decimal(Low8(raw[1])), Decimal(Low8(raw[2])), Decimal(Low8(raw[3])),
      Decimal(high * 256 + low))
  }

  function CandidatesAt(bytes: seq<SignedByte>, at: nat, n: nat): (r: Option<(seq<seq<SignedByte>>, nat)>)
    ensures r.Some? ==> |r.value.0| == n && forall i :: 0 <= i < n ==> |r.value.0[i]| == 6
    decreases n
  {
    if n == 0 then Some(([], at))
    else
      var raw :- TakeAt(bytes, at, 6);
      var rest :- CandidatesAt(bytes, raw.1, n - 1);
      Some(([raw.0] + rest.0, rest.1))
  }

  /** The pieces of a relay block. */
  datatype RawRelay = RawRelay(
    url: seq<SignedByte>, account: seq<SignedByte>, pair: seq<SignedByte>, capability: seq<SignedByte>,
    desktopKey: seq<SignedByte>, psk: seq<SignedByte>)

  function RelayAt(bytes: seq<SignedByte>, at: nat): Option<(RawRelay, nat)> {
    var length :- TakeAt(bytes, at, 1);
    var url :- TakeAt(bytes, length.1, Low8(length.0[0]));
    var account :- TakeAt(bytes, url.1, 32);
    var pair :- TakeAt(bytes, account.1, 16);
    var capability :- TakeAt(bytes, pair.1, 32);
    var desktopKey :- TakeAt(bytes, capability.1, 32);
    var psk :- TakeAt(bytes, desktopKey.1, 32);
    Some((RawRelay(url.0, account.0, pair.0, capability.0, desktopKey.0, psk.0), psk.1))
  }

  function OptionalRelayAt(bytes: seq<SignedByte>, at: nat, present: bool): Option<(Option<RawRelay>, nat)> {
    if present then
      var relay :- RelayAt(bytes, at);
      Some((Some(relay.0), relay.1))
    else Some((None, at))
  }

  datatype Identity = Identity(flags: SignedByte, device: seq<SignedByte>, pairing: seq<SignedByte>,
    cert: seq<SignedByte>)

  function IdentityAt(bytes: seq<SignedByte>, at: nat): Option<(Identity, nat)> {
    var flags :- TakeAt(bytes, at, 1);
    var device :- TakeAt(bytes, flags.1, 16);
    var pairing :- TakeAt(bytes, device.1, 32);
    var cert :- TakeAt(bytes, pairing.1, 32);
    Some((Identity(flags.0[0], device.0, pairing.0, cert.0), cert.1))
  }

  /** All the pieces of a code. */
  datatype RawCode = RawCode(id: Identity, candidates: seq<seq<SignedByte>>, relay: Option<RawRelay>)

  /** What follows the candidates; nothing may be left over. */
  function TailAt(bytes: seq<SignedByte>, id: Identity, candidates: seq<seq<SignedByte>>, at: nat): Option<RawCode> {
    var relay :- OptionalRelayAt(bytes, at, id.flags % 2 != 0);
    if relay.1 != |bytes| then None else Some(RawCode(id, candidates, relay.0))
  }

  function BodyAt(bytes: seq<SignedByte>, id: Identity, at: nat): Option<RawCode> {
    var count :- TakeAt(bytes, at, 1);
    var candidates :- CandidatesAt(bytes, count.1, Low8(count.0[0]));
    if candidates.0 == [] then None else TailAt(bytes, id, candidates.0, candidates.1)
  }

  /** Pieces of the sizes the reader takes. */
  predicate Sized(c: RawCode) {
    && |c.id.device| == 16 && c.candidates != []
    && forall i :: 0 <= i < |c.candidates| ==> |c.candidates[i]| == 6
  }

  function CodeAt(bytes: seq<SignedByte>): (r: Option<RawCode>)
    ensures r.Some? ==> Sized(r.value)
  {
    var version :- TakeAt(bytes, 0, 1);
    if version.0[0] != 3 then None
    else
      var id :- IdentityAt(bytes, version.1);
      BodyAt(bytes, id.0, id.1)
  }

  // ----- Its texts -----

  /** `String(bytes, UTF_8)`, which replaces what is malformed. */
  type Replacer = seq<byte> -> Utf8

  function UrlText(replace: Replacer, raw: seq<byte>): Utf8 {
    if ValidUtf8(raw) then raw else replace(raw)
  }

  function RelayText(replace: Replacer, r: RawRelay): QrRelay {
    QrRelay(UrlText(replace, Low8All(r.url)), ToHex(r.account), ToHex(r.pair), B.Encode(true, Low8All(r.capability)))
  }

  function NoiseText(r: RawRelay): QrNoise {
    QrNoise(B.EncodePadded(false, Low8All(r.desktopKey)), B.EncodePadded(false, Low8All(r.psk)))
  }

  function Texts(candidates: seq<seq<SignedByte>>): (t: seq<Text>)
    requires forall i :: 0 <= i < |candidates| ==> |candidates[i]| == 6
    ensures |t| == |candidates| && forall i :: 0 <= i < |t| ==> t[i] == CandidateText(candidates[i])
  {
    if candidates == [] then []
    else Texts(candidates[..|candidates| - 1]) + [CandidateText(candidates[|candidates| - 1])]
  }

  function PhoneShow(replace: Replacer, c: RawCode): Payload
    requires Sized(c)
  {
    var candidates := Texts(c.candidates);
    Payload(
      if c.relay.Some? then 2 else 1, LOCAL, candidates[0], candidates, None, None,
      Grouped(ToHex(c.id.device)), ToHex(c.id.pairing), ToHex(c.id.cert),
      if c.relay.Some? then Some(RelayText(replace, c.relay.value)) else None,
      if c.relay.Some? then Some(NoiseText(c.relay.value)) else None)
  }

  /** decodeCompactPayload, once the text is bytes. */
  function PhoneDecode(replace: Replacer, bytes: seq<SignedByte>): Option<Payload> {
    var code :- CodeAt(bytes);
    Some(PhoneShow(replace, code))
  }

  // ----- Where everything lies -----

  /** Where the candidates end. */
  function CandidatesEnd(b: seq<byte>): nat
    requires |b| >= 83
  {
    var count: int := b[82];
    83 + 6 * count
  }

  /** Where the keys of a relay block begin. */
  function KeysStart(b: seq<byte>, at: nat): nat
    requires at < |b|
  {
    var length: int := b[at];
    at + 1 + length
  }

  predicate HasRelay(b: seq<byte>)
    requires |b| >= 83
  {
    b[1] % 2 == 1
  }

  predicate RelayFits(b: seq<byte>, at: nat) {
    at < |b| && KeysStart(b, at) + 144 <= |b|
  }

  /** Every field lies within the code. */
  predicate Fits(b: seq<byte>) {
    && |b| >= 83 && b[0] == VERSION && b[82] > 0 && CandidatesEnd(b) <= |b|
    && (HasRelay(b) ==> RelayFits(b, CandidatesEnd(b)))
  }

  function End(b: seq<byte>): nat
    requires Fits(b)
  {
    if HasRelay(b) then KeysStart(b, CandidatesEnd(b)) + 144 else CandidatesEnd(b)
  }

  // ----- The desktop reads by place -----

  lemma TakeFrom(b: seq<byte>, at: nat, n: nat)
    requires at <= |b|
    ensures Take(b[at..], n) == if at + n <= |b| then Some((b[at..at + n], b[at + n..])) else None
  {
    if at + n <= |b| {
      assert b[at..][..n] == b[at..at + n] && b[at..][n..] == b[at + n..];
    }
  }

  function HeaderPiece(b: seq<byte>): Header
    requires |b| >= 82
  {
    Header(b[1], b[2..18], b[18..50], b[50..82])
  }

  lemma HeaderAt(b: seq<byte>)
    requires 1 <= |b|
    ensures ReadHeader(b[1..]) == if |b| >= 82 then Some((HeaderPiece(b), b[82..])) else None
  {
    TakeFrom(b, 1, 1);
    if 2 <= |b| {
      TakeFrom(b, 2, 16);
      if 18 <= |b| {
        TakeFrom(b, 18, 32);
        if 50 <= |b| {
          TakeFrom(b, 50, 32);
        }
      }
    }
  }

  function SocketsAt(b: seq<byte>, at: nat, n: nat): (s: seq<Socket>)
    requires at + 6 * n <= |b|
    ensures |s| == n
    decreases n
  {
    if n == 0 then [] else [SocketOf(b[at..at + 6])] + SocketsAt(b, at + 6, n - 1)
  }

  lemma {:induction false} SocketsRead(b: seq<byte>, at: nat, n: nat)
    requires at <= |b|
    ensures ReadSockets(b[at..], n) == if at + 6 * n <= |b| then Some((SocketsAt(b, at, n), b[at + 6 * n..])) else None
    decreases n
  {
    if n != 0 {
      TakeFrom(b, at, 6);
      if at + 6 <= |b| {
        SocketsRead(b, at + 6, n - 1);
      }
    }
  }

  function KeysPiece(b: seq<byte>, k: nat): Keys
    requires k + 144 <= |b|
  {
    Keys(b[k..k + 32], b[k + 32..k + 48], b[k + 48..k + 80], b[k + 80..k + 112], b[k + 112..k + 144])
  }

  lemma KeysAt(b: seq<byte>, k: nat)
    requires k <= |b|
    ensures ReadKeys(b[k..]) == if k + 144 <= |b| then Some((KeysPiece(b, k), b[k + 144..])) else None
  {
    TakeFrom(b, k, 32);
    if k + 32 <= |b| {
      TakeFrom(b, k + 32, 16);
      if k + 48 <= |b| {
        TakeFrom(b, k + 48, 32);
        if k + 80 <= |b| {
          TakeFrom(b, k + 80, 32);
          if k + 112 <= |b| {
            TakeFrom(b, k + 112, 32);
          }
        }
      }
    }
  }

  function RelayPiece(b: seq<byte>, at: nat): Relay
    requires RelayFits(b, at)
  {
    Relay(b[at + 1..KeysStart(b, at)], KeysPiece(b, KeysStart(b, at)))
  }

  lemma RelayRead(b: seq<byte>, at: nat)
    requires at <= |b|
    ensures ReadRelay(b[at..]) ==
      if RelayFits(b, at) then Some((RelayPiece(b, at), b[KeysStart(b, at) + 144..])) else None
  {
    TakeFrom(b, at, 1);
    if at < |b| {
      TakeFrom(b, at + 1, b[at]);
      if KeysStart(b, at) <= |b| {
        KeysAt(b, KeysStart(b, at));
      }
    }
  }

  function LayoutPiece(b: seq<byte>): Layout
    requires Fits(b)
  {
    Layout(HeaderPiece(b), SocketsAt(b, 83, b[82]), if HasRelay(b) then Some(RelayPiece(b, CandidatesEnd(b))) else None)
  }

  /** The desktop reads exactly the codes whose fields lie within them. */
  lemma ReadAt(b: seq<byte>)
    ensures Read(b) == if Fits(b) then Some((LayoutPiece(b), b[End(b)..])) else None
  {
    assert b[0..] == b;
    TakeFrom(b, 0, 1);
    if |b| > 0 {
      HeaderAt(b);
      if |b| >= 82 && b[0] == VERSION {
        BodyRead(b);
      }
    }
  }

  lemma BodyRead(b: seq<byte>)
    requires |b| >= 82 && b[0] == VERSION
    ensures ReadBody(HeaderPiece(b), b[82..]) == if Fits(b) then Some((LayoutPiece(b), b[End(b)..])) else None
  {
    TakeFrom(b, 82, 1);
    if |b| >= 83 {
      SocketsRead(b, 83, b[82]);
      if CandidatesEnd(b) <= |b| && b[82] > 0 {
        TailRead(b, HeaderPiece(b), SocketsAt(b, 83, b[82]), CandidatesEnd(b));
      }
    }
  }

  lemma TailRead(b: seq<byte>, h: Header, sockets: seq<Socket>, at: nat)
    requires at <= |b|
    ensures h.flags % 2 != 1 ==> ReadTail(h, sockets, b[at..]) == Some((Layout(h, sockets, None), b[at..]))
    ensures h.flags % 2 == 1 && !RelayFits(b, at) ==> ReadTail(h, sockets, b[at..]).None?
    ensures h.flags % 2 == 1 && RelayFits(b, at) ==>
      ReadTail(h, sockets, b[at..]) == Some((Layout(h, sockets, Some(RelayPiece(b, at))), b[KeysStart(b, at) + 144..]))
  {
    RelayRead(b, at);
  }

  // ----- The phone reads by place -----

  function PiecesAt(s: seq<SignedByte>, at: nat, n: nat): (r: seq<seq<SignedByte>>)
    requires at + 6 * n <= |s|
    ensures |r| == n
    decreases n
  {
    if n == 0 then [] else [s[at..at + 6]] + PiecesAt(s, at + 6, n - 1)
  }

  lemma {:induction false} PiecesRead(s: seq<SignedByte>, at: nat, n: nat)
    requires at <= |s|
    ensures CandidatesAt(s, at, n) == if at + 6 * n <= |s| then Some((PiecesAt(s, at, n), at + 6 * n)) else None
    decreases n
  {
    if n != 0 && at + 6 <= |s| {
      PiecesRead(s, at + 6, n - 1);
    }
  }

  function IdentityPiece(s: seq<SignedByte>): Identity
    requires |s| >= 82
  {
    Identity(s[1], s[2..18], s[18..50], s[50..82])
  }

  lemma IdentityRead(s: seq<SignedByte>)
    requires |s| >= 1
    ensures IdentityAt(s, 1) == if |s| >= 82 then Some((IdentityPiece(s), 82)) else None
  {
  }

  function RawPiece(s: seq<SignedByte>, at: nat, k: nat): RawRelay
    requires at < k && k + 144 <= |s|
  {
    RawRelay(s[at + 1..k], s[k..k + 32], s[k + 32..k + 48], s[k + 48..k + 80], s[k + 80..k + 112], s[k + 112..k + 144])
  }

  lemma RawRead(s: seq<SignedByte>, at: nat, k: nat)
    requires at < |s| && k == at + 1 + Low8(s[at])
    ensures k + 144 <= |s| ==> RelayAt(s, at) == Some((RawPiece(s, at, k), k + 144))
    ensures k + 144 > |s| ==> RelayAt(s, at).None?
  {
  }

  function CodePiece(s: seq<SignedByte>, b: seq<byte>): RawCode
    requires Fits(b) && |s| == |b|
  {
    var at := CandidatesEnd(b);
    RawCode(
      IdentityPiece(s), PiecesAt(s, 83, b[82]), if HasRelay(b) then Some(RawPiece(s, at, KeysStart(b, at))) else None)
  }

  /** The bytes the reader branches on are the same bits. */
  predicate SameBranches(s: seq<SignedByte>, b: seq<byte>) {
    && |s| == |b|
    && (|b| >= 1 ==> (s[0] == 3 <==> b[0] == VERSION))
    && (|b| >= 83 ==> Low8(s[82]) == b[82] && (s[1] % 2 != 0 <==> HasRelay(b)))
    && (|b| >= 83 && CandidatesEnd(b) < |b| ==> Low8(s[CandidatesEnd(b)]) == b[CandidatesEnd(b)])
  }

  lemma TailByPlace(s: seq<SignedByte>, b: seq<byte>)
    requires SameBranches(s, b) && |b| >= 83 && b[0] == VERSION && b[82] > 0 && CandidatesEnd(b) <= |b|
    ensures TailAt(s, IdentityPiece(s), PiecesAt(s, 83, b[82]), CandidatesEnd(b))
         == if Fits(b) && End(b) == |b| then Some(CodePiece(s, b)) else None
  {
    var at := CandidatesEnd(b);
    if at < |b| {
      RawRead(s, at, KeysStart(b, at));
    }
  }

  /** The phone reads exactly the codes whose fields lie within them and fill them. */
  lemma CodeByPlace(s: seq<SignedByte>, b: seq<byte>)
    requires SameBranches(s, b)
    ensures CodeAt(s) == if Fits(b) && End(b) == |b| then Some(CodePiece(s, b)) else None
  {
    if |s| > 0 {
      IdentityRead(s);
      if |s| >= 83 {
        PiecesRead(s, 83, b[82]);
        if b[0] == VERSION && CandidatesEnd(b) <= |b| && b[82] > 0 {
          TailByPlace(s, b);
        }
      }
    }
  }

  // ----- The pieces are written alike -----

  /** The same bits, seen as signed bytes. */
  ghost predicate Mirrors(s: seq<SignedByte>, b: seq<byte>) {
    |s| == |b| && forall i :: 0 <= i < |b| ==> Low8(s[i]) == b[i]
  }

  lemma MirrorsBranch(s: seq<SignedByte>, b: seq<byte>)
    requires Mirrors(s, b)
    ensures SameBranches(s, b)
  {
    if |b| >= 83 {
      assert Low8(s[1]) == b[1];
    }
  }

  ghost predicate DigitsAt(t: Text, x: byte, i: nat) {
    2 * i + 1 < |t| && t[2 * i] == HexDigit(x / 16) && t[2 * i + 1] == HexDigit(x % 16)
  }

  lemma {:induction false} ToHexAt(s: seq<SignedByte>, i: nat)
    requires i < |s|
    ensures DigitsAt(ToHex(s), Low8(s[i]), i)
  {
    if i > 0 {
      ToHexAt(s[1..], i - 1);
    }
  }

  lemma {:induction false} HexStringAt(b: seq<byte>, i: nat)
    requires i < |b|
    ensures DigitsAt(HexString(b), b[i], i)
  {
    if i < |b| - 1 {
      HexStringAt(b[..|b| - 1], i);
    }
  }

  lemma HexAgrees(s: seq<SignedByte>, b: seq<byte>)
    requires Mirrors(s, b)
    ensures ToHex(s) == HexString(b)
  {
    var t, u := ToHex(s), HexString(b);
    forall k | 0 <= k < |t|
      ensures t[k] == u[k]
    {
      ToHexAt(s, k / 2);
      HexStringAt(b, k / 2);
    }
  }

  lemma BytesAgree(s: seq<SignedByte>, b: seq<byte>)
    requires Mirrors(s, b)
    ensures Low8All(s) == b
  {
  }

  lemma MirrorSlice(s: seq<SignedByte>, b: seq<byte>, lo: nat, hi: nat)
    requires Mirrors(s, b) && lo <= hi <= |b|
    ensures Mirrors(s[lo..hi], b[lo..hi])
  {
    forall i | 0 <= i < hi - lo
      ensures Low8(s[lo..hi][i]) == b[lo..hi][i]
    {
      assert Low8(s[lo + i]) == b[lo + i];
    }
  }

  lemma AddressAgrees(a: Text, b: Text, c: Text, d: Text, port: Text)
    ensures Address(a, b, c, d, port) == SCHEME + (Dotted(a, b, c, d) + [COLON] + port)
  {
    assert a + [DOT] + b + [DOT] + c + [DOT] + d == Dotted(a, b, c, d);
  }

  lemma CandidateAgrees(s: seq<SignedByte>, raw: seq<byte>)
    requires |raw| == 6 && Mirrors(s, raw)
    ensures CandidateText(s) == SocketString(SocketOf(raw))
  {
    assert Low8(s[0]) == raw[0] && Low8(s[1]) == raw[1] && Low8(s[2]) == raw[2] && Low8(s[3]) == raw[3];
    assert Low8(s[4]) == raw[4] && Low8(s[5]) == raw[5];
    AddressAgrees(
      Decimal(raw[0]), Decimal(raw[1]), Decimal(raw[2]), Decimal(raw[3]), Decimal(SocketOf(raw).port));
  }

  ghost predicate MirrorsRelay(p: RawRelay, r: Relay) {
    && Mirrors(p.url, r.url) && Mirrors(p.account, r.keys.account) && Mirrors(p.pair, r.keys.pair)
    && Mirrors(p.capability, r.keys.capability) && Mirrors(p.desktopKey, r.keys.desktopKey)
      && Mirrors(p.psk, r.keys.psk)
  }

  lemma RelayAgrees(replace: Replacer, p: RawRelay, r: Relay)
    requires MirrorsRelay(p, r) && ValidUtf8(r.url)
    ensures RelayText(replace, p) == ShowRelay(r) && NoiseText(p) == ShowNoise(r)
  {
    BytesAgree(p.url, r.url);
    HexAgrees(p.account, r.keys.account);
    HexAgrees(p.pair, r.keys.pair);
    BytesAgree(p.capability, r.keys.capability);
    BytesAgree(p.desktopKey, r.keys.desktopKey);
    BytesAgree(p.psk, r.keys.psk);
  }

  ghost predicate MirrorsCandidates(p: seq<seq<SignedByte>>, s: seq<Socket>) {
    |p| == |s| && forall i :: 0 <= i < |s| ==> |p[i]| == 6 && CandidateText(p[i]) == SocketString(s[i])
  }

  lemma TextsAgree(p: seq<seq<SignedByte>>, s: seq<Socket>)
    requires MirrorsCandidates(p, s)
    ensures Texts(p) == ShowSockets(s)
  {
    var t, u := Texts(p), ShowSockets(s);
    forall i | 0 <= i < |s|
      ensures t[i] == u[i]
    {
      assert t[i] == CandidateText(p[i]) && u[i] == SocketString(s[i]);
    }
  }

  ghost predicate MirrorsIdentity(p: Identity, h: Header) {
    Mirrors(p.device, h.device) && Mirrors(p.pairing, h.pairing) && Mirrors(p.cert, h.cert)
  }

  lemma IdentityAgrees(p: Identity, h: Header)
    requires MirrorsIdentity(p, h)
    ensures |p.device| == 16 && Grouped(ToHex(p.device)) == UuidString(h.device)
    ensures ToHex(p.pairing) == HexString(h.pairing) && ToHex(p.cert) == HexString(h.cert)
  {
    HexAgrees(p.device, h.device);
    HexAgrees(p.pairing, h.pairing);
    HexAgrees(p.cert, h.cert);
  }

  ghost predicate MirrorsCode(c: RawCode, l: Layout) {
    && MirrorsIdentity(c.id, l.header)
    && MirrorsCandidates(c.candidates, l.sockets)
    && (c.relay.Some? <==> l.relay.Some?)
    && (c.relay.Some? ==> MirrorsRelay(c.relay.value, l.relay.value))
  }

  /** The same pieces are shown as the same payload. */
  lemma ShowsAgree(replace: Replacer, c: RawCode, l: Layout)
    requires MirrorsCode(c, l) && Readable(l)
    ensures Sized(c) && PhoneShow(replace, c) == Show(l)
  {
    IdentityAgrees(c.id, l.header);
    TextsAgree(c.candidates, l.sockets);
    if c.relay.Some? {
      RelayAgrees(replace, c.relay.value, l.relay.value);
    }
  }

  // ----- The pieces are the same -----

  lemma {:induction false} PiecesMirror(s: seq<SignedByte>, b: seq<byte>, at: nat, n: nat)
    requires Mirrors(s, b) && at + 6 * n <= |b|
    ensures MirrorsCandidates(PiecesAt(s, at, n), SocketsAt(b, at, n))
    decreases n
  {
    if n != 0 {
      MirrorSlice(s, b, at, at + 6);
      CandidateAgrees(s[at..at + 6], b[at..at + 6]);
      PiecesMirror(s, b, at + 6, n - 1);
    }
  }

  lemma RawMirrors(s: seq<SignedByte>, b: seq<byte>, at: nat)
    requires Mirrors(s, b) && RelayFits(b, at)
    ensures MirrorsRelay(RawPiece(s, at, KeysStart(b, at)), RelayPiece(b, at))
  {
    var k := KeysStart(b, at);
    MirrorSlice(s, b, at + 1, k);
    MirrorSlice(s, b, k, k + 32);
    MirrorSlice(s, b, k + 32, k + 48);
    MirrorSlice(s, b, k + 48, k + 80);
    MirrorSlice(s, b, k + 80, k + 112);
    MirrorSlice(s, b, k + 112, k + 144);
  }

  lemma IdentityMirrors(s: seq<SignedByte>, b: seq<byte>)
    requires Mirrors(s, b) && |b| >= 82
    ensures MirrorsIdentity(IdentityPiece(s), HeaderPiece(b))
  {
    MirrorSlice(s, b, 2, 18);
    MirrorSlice(s, b, 18, 50);
    MirrorSlice(s, b, 50, 82);
  }

  lemma CodeMirrors(s: seq<SignedByte>, b: seq<byte>)
    requires Mirrors(s, b) && Fits(b)
    ensures MirrorsCode(CodePiece(s, b), LayoutPiece(b))
  {
    IdentityMirrors(s, b);
    PiecesMirror(s, b, 83, b[82]);
    if HasRelay(b) {
      RawMirrors(s, b, CandidatesEnd(b));
    }
  }

  // ----- Main results -----

  lemma LayoutShaped(b: seq<byte>)
    requires Fits(b)
    ensures Shaped(LayoutPiece(b))
  {
  }

  /** The relay URL of a code, if it has one, is UTF-8. */
  predicate UrlIsUtf8(b: seq<byte>) {
    Whole(b) && Read(b).value.0.relay.Some? ==> ValidUtf8(Read(b).value.0.relay.value.url)
  }

  lemma SignedMirrors(b: seq<byte>)
    ensures Mirrors(SignedAll(b), b)
  {
  }

  lemma DesktopAt(b: seq<byte>)
    ensures Whole(b) <==> Fits(b) && End(b) == |b|
    ensures Fits(b) ==> Shaped(LayoutPiece(b))
    ensures Decode(b)
         == if Fits(b) && End(b) == |b| && Readable(LayoutPiece(b)) then Some(Show(LayoutPiece(b))) else None
    ensures UrlIsUtf8(b) <==> (Fits(b) && End(b) == |b| ==> Readable(LayoutPiece(b)))
  {
    ReadAt(b);
    if Fits(b) {
      LayoutShaped(b);
    }
  }

  /** On every byte string the two decoders agree, both refusing or both giving the same payload, exactly unless the
      phone accepts a relay URL that is not UTF-8. */
  lemma DecodersAgree(replace: Replacer, b: seq<byte>)
    ensures PhoneDecode(replace, SignedAll(b)) == Decode(b) <==> UrlIsUtf8(b)
  {
    var s := SignedAll(b);
    SignedMirrors(b);
    MirrorsBranch(s, b);
    CodeByPlace(s, b);
    DesktopAt(b);
    if Fits(b) && End(b) == |b| {
      CodeMirrors(s, b);
      if Readable(LayoutPiece(b)) {
        ShowsAgree(replace, CodePiece(s, b), LayoutPiece(b));
      }
    }
  }

  /** decodeCompactPayload from the text of the link. */
  function PhoneLink(replace: Replacer, text: Text): Option<Payload> {
    var bytes :- B.DecodeLenient(true, B.TrimEnd(text));
    PhoneDecode(replace, SignedAll(bytes))
  }

  /** The link the desktop shows for a canonical payload gives the phone that payload, its candidates deduped. */
  lemma LinkDelivers(replace: Replacer, p: Payload)
    requires Encode(p).Some?
    ensures PhoneLink(replace, B.Encode(true, Encode(p).value)) == Some(Deduped(p)) <==> Canonical(p)
  {
    var b := Encode(p).value;
    B.TrimEncoded(true, b);
    B.DecodeEncode(true, b);
    DecodeEncoded(p);
    DecodersAgree(replace, b);
    RoundTrip(p);
  }
}
