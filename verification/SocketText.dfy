/** LAN candidates as text, `wss://<IPv4>:<port>` (desktop/core/src/qr.rs, socket_parts and the decoder's format). */
module SocketText {
  import opened Wrappers
  import opened Bytes
  import opened PairingText

  type Ip = s: seq<byte> | |s| == 4 witness [0, 0, 0, 0]
  type Port = x: int | 0 <= x < 65536

  datatype Socket = Socket(ip: Ip, port: Port)

  // ----- Splitting -----

  function SplitFirst(t: Text, c: byte): Option<(Text, Text)> {
    if t == [] then None
    else if t[0] == c then Some(([], t[1..]))
    else
      var rest :- SplitFirst(t[1..], c);
      Some(([t[0]] + rest.0, rest.1))
  }

  function SplitLast(t: Text, c: byte): Option<(Text, Text)> {
    if t == [] then None
    else if t[|t| - 1] == c then Some((t[..|t| - 1], []))
    else
      var rest :- SplitLast(t[..|t| - 1], c);
      Some((rest.0, rest.1 + [t[|t| - 1]]))
  }

  lemma {:induction false} SplitFirstOf(a: Text, c: byte, b: Text)
    requires c !in a
    ensures SplitFirst(a + [c] + b, c) == Some((a, b))
  {
    var t := a + [c] + b;
    if a == [] {
      assert t[1..] == b;
    } else {
      SplitFirstOf(a[1..], c, b);
      assert t[1..] == a[1..] + [c] + b;
      assert a == [a[0]] + a[1..];
    }
  }

  lemma {:induction false} SplitFirstJoins(t: Text, c: byte)
    requires SplitFirst(t, c).Some?
    ensures var r := SplitFirst(t, c).value;
      t == r.0 + [c] + r.1 && c !in r.0
  {
    if t[0] == c {
      assert t == [] + [c] + t[1..];
    } else {
      SplitFirstJoins(t[1..], c);
      var r := SplitFirst(t[1..], c).value;
      assert t == [t[0]] + (r.0 + [c] + r.1);
    }
  }

  lemma {:induction false} SplitLastOf(a: Text, c: byte, b: Text)
    requires c !in b
    ensures SplitLast(a + [c] + b, c) == Some((a, b))
  {
    var t := a + [c] + b;
    if b == [] {
      assert t == a + [c];
      assert t[..|t| - 1] == a;
    } else {
      var n := |b| - 1;
      SplitLastOf(a, c, b[..n]);
      assert t[..|t| - 1] == a + [c] + b[..n];
      assert b == b[..n] + [b[n]];
    }
  }

  lemma {:induction false} SplitLastJoins(t: Text, c: byte)
    requires SplitLast(t, c).Some?
    ensures var r := SplitLast(t, c).value;
      t == r.0 + [c] + r.1 && c !in r.1
  {
    var n := |t| - 1;
    if t[n] == c {
      assert t == t[..n] + [c] + [];
    } else {
      SplitLastJoins(t[..n], c);
      var r := SplitLast(t[..n], c).value;
      assert t == (r.0 + [c] + r.1) + [t[n]];
    }
  }

  lemma DigitsOnly(t: Text)
    requires Digits(t)
    ensures DOT !in t && COLON !in t && PLUS !in t
  {
    forall c | c in t
      ensures Digit(c)
    {
      var i :| 0 <= i < |t| && t[i] == c;
    }
  }

  // ----- Addresses -----

  /** At most three digits, no leading zero, below 256. */
  function FromOctet(t: Text): Option<byte> {
    if |t| > 3 || !Plain(t) then None
    else
      var n :- FromDecimal(t);
      if n < 256 then Some(n) else None
  }

  function FromIp(t: Text): Option<Ip> {
    var a :- SplitFirst(t, DOT);
    var b :- SplitFirst(a.1, DOT);
    var c :- SplitFirst(b.1, DOT);
    var p :- FromOctet(a.0);
    var q :- FromOctet(b.0);
    var r :- FromOctet(c.0);
    var s :- FromOctet(c.1);
    Some([p, q, r, s])
  }

  function Dotted(a: Text, b: Text, c: Text, d: Text): Text {
    a + [DOT] + (b + [DOT] + (c + [DOT] + d))
  }

  function IpString(ip: Ip): Text {
    Dotted(Decimal(ip[0]), Decimal(ip[1]), Decimal(ip[2]), Decimal(ip[3]))
  }

  lemma OctetRoundTrip(x: byte)
    ensures FromOctet(Decimal(x)) == Some(x) && Digits(Decimal(x))
  {
    DecimalRoundTrip(x);
    if x >= 10 {
      if x >= 100 {
        assert |Decimal(x / 10 / 10)| == 1;
      }
    }
  }

  lemma OctetCanonical(t: Text)
    requires FromOctet(t).Some?
    ensures Decimal(FromOctet(t).value) == t
  {
    DecimalCanonical(t);
  }

  lemma FromDotted(a: Text, b: Text, c: Text, d: Text)
    requires DOT !in a && DOT !in b && DOT !in c
    ensures SplitFirst(Dotted(a, b, c, d), DOT) == Some((a, b + [DOT] + (c + [DOT] + d)))
    ensures SplitFirst(b + [DOT] + (c + [DOT] + d), DOT) == Some((b, c + [DOT] + d))
    ensures SplitFirst(c + [DOT] + d, DOT) == Some((c, d))
  {
    SplitFirstOf(a, DOT, b + [DOT] + (c + [DOT] + d));
    SplitFirstOf(b, DOT, c + [DOT] + d);
    SplitFirstOf(c, DOT, d);
  }

  lemma IpRoundTrip(ip: Ip)
    ensures FromIp(IpString(ip)) == Some(ip)
  {
    var a, b, c, d := Decimal(ip[0]), Decimal(ip[1]), Decimal(ip[2]), Decimal(ip[3]);
    OctetRoundTrip(ip[0]);
    OctetRoundTrip(ip[1]);
    OctetRoundTrip(ip[2]);
    OctetRoundTrip(ip[3]);
    DigitsOnly(a);
    DigitsOnly(b);
    DigitsOnly(c);
    FromDotted(a, b, c, d);
    FromParts(a, b, c, d, ip);
  }

  lemma FromParts(a: Text, b: Text, c: Text, d: Text, ip: Ip)
    requires SplitFirst(Dotted(a, b, c, d), DOT) == Some((a, b + [DOT] + (c + [DOT] + d)))
    requires SplitFirst(b + [DOT] + (c + [DOT] + d), DOT) == Some((b, c + [DOT] + d))
    requires SplitFirst(c + [DOT] + d, DOT) == Some((c, d))
    requires FromOctet(a) == Some(ip[0]) && FromOctet(b) == Some(ip[1])
    requires FromOctet(c) == Some(ip[2]) && FromOctet(d) == Some(ip[3])
    ensures FromIp(Dotted(a, b, c, d)) == Some(ip)
  {
    assert ip == [ip[0], ip[1], ip[2], ip[3]];
  }

  /** An address that parses is written in the one way it is printed. */
  lemma IpCanonical(t: Text)
    requires FromIp(t).Some?
    ensures IpString(FromIp(t).value) == t
  {
    var a := SplitFirst(t, DOT).value;
    var b := SplitFirst(a.1, DOT).value;
    var c := SplitFirst(b.1, DOT).value;
    SplitFirstJoins(t, DOT);
    SplitFirstJoins(a.1, DOT);
    SplitFirstJoins(b.1, DOT);
    OctetCanonical(a.0);
    OctetCanonical(b.0);
    OctetCanonical(c.0);
    OctetCanonical(c.1);
  }

  // ----- Candidates -----

  /** A decimal number below 65536; the parser takes a leading plus sign and leading zeros. */
  function FromPort(t: Text): Option<Port> {
    var n :- FromDecimal(if t != [] && t[0] == PLUS then t[1..] else t);
    if n < 65536 then Some(n) else None
  }

  /** socket_parts. */
  function SocketParts(t: Text): Option<Socket> {
    if !(SCHEME <= t) then None
    else
      var parts :- SplitLast(t[|SCHEME|..], COLON);
      var ip :- FromIp(parts.0);
      var port :- FromPort(parts.1);
      Some(Socket(ip, port))
  }

  function SocketString(s: Socket): Text {
    SCHEME + (IpString(s.ip) + [COLON] + Decimal(s.port))
  }

  /** The text after the last colon is a number as it would be printed. */
  predicate PlainPort(t: Text) {
    SplitLast(t, COLON).Some? && Digits(SplitLast(t, COLON).value.1) && Plain(SplitLast(t, COLON).value.1)
  }

  lemma PortRoundTrip(p: Port)
    ensures FromPort(Decimal(p)) == Some(p) && Digits(Decimal(p)) && Plain(Decimal(p))
  {
    DecimalRoundTrip(p);
    DigitsOnly(Decimal(p));
  }

  lemma PartsRoundTrip(host: Text, port: Text, ip: Ip, p: Port)
    requires FromIp(host) == Some(ip) && FromPort(port) == Some(p) && Digits(port) && Plain(port)
    ensures SocketParts(SCHEME + (host + [COLON] + port)) == Some(Socket(ip, p))
    ensures PlainPort(SCHEME + (host + [COLON] + port))
  {
    var t := SCHEME + (host + [COLON] + port);
    DigitsOnly(port);
    SplitLastOf(host, COLON, port);
    assert t[|SCHEME|..] == host + [COLON] + port;
    SplitLastOf(SCHEME + host, COLON, port);
    assert t == SCHEME + host + [COLON] + port;
  }

  lemma SocketRoundTrip(s: Socket)
    ensures SocketParts(SocketString(s)) == Some(s) && PlainPort(SocketString(s))
  {
    PortRoundTrip(s.port);
    IpRoundTrip(s.ip);
    PartsRoundTrip(IpString(s.ip), Decimal(s.port), s.ip, s.port);
  }

  lemma PortCanonical(t: Text)
    requires FromPort(t).Some?
    ensures Decimal(FromPort(t).value) == t <==> Digits(t) && Plain(t)
  {
    PortRoundTrip(FromPort(t).value);
    if Digits(t) {
      DigitsOnly(t);
      DecimalCanonical(t);
    }
  }

  /** A candidate is given back as it was exactly when its port has neither a sign nor a leading zero. */
  lemma SocketCanonical(t: Text)
    requires SocketParts(t).Some?
    ensures SocketString(SocketParts(t).value) == t <==> PlainPort(t)
  {
    var rest := t[|SCHEME|..];
    var parts := SplitLast(rest, COLON).value;
    SplitLastJoins(rest, COLON);
    IpCanonical(parts.0);
    PortCanonical(parts.1);
    assert t == SCHEME + rest;
    SplitLastOf(SCHEME + parts.0, COLON, parts.1);
    assert t == SCHEME + parts.0 + [COLON] + parts.1;
    var shown := Decimal(FromPort(parts.1).value);
    SameTail(SCHEME, parts.0 + [COLON], shown, parts.1);
  }

  lemma SameTail(a: Text, b: Text, x: Text, y: Text)
    ensures a + (b + x) == a + (b + y) <==> x == y
  {
    if a + (b + x) == a + (b + y) {
      assert (a + (b + x))[|a| + |b|..] == x && (a + (b + y))[|a| + |b|..] == y;
    }
  }

  /** Different sockets are written differently. */
  lemma SocketsApart(s: Socket, t: Socket)
    requires SocketString(s) == SocketString(t)
    ensures s == t
  {
    SocketRoundTrip(s);
    SocketRoundTrip(t);
  }
}
