/** The text forms of a pairing payload's fields (desktop/core/src/qr.rs): hexadecimal, UUIDs, and socket addresses.
    Text is its UTF-8 bytes. */
module PairingText {
  import opened Wrappers
  import opened Bytes

  type Text = seq<byte>

  const HYPHEN: byte := 45
  const PLUS: byte := 43
  const DOT: byte := 46
  const COLON: byte := 58
  /** "wss://" */
  const SCHEME: Text := [119, 115, 115, 58, 47, 47]

  // ----- Hexadecimal -----

  function HexDigit(x: nat): byte
    requires x < 16
  {
    if x < 10 then 48 + x else 87 + x
  }

  function FromHexDigit(c: byte): Option<nat> {
    if 48 <= c < 58 then Some(c - 48)
    else if 97 <= c < 103 then Some(c - 87)
    else if 65 <= c < 71 then Some(c - 55)
    else None
  }

  predicate LowerHexDigit(c: byte) {
    48 <= c < 58 || 97 <= c < 103
  }

  predicate LowerHex(t: Text) {
    forall i :: 0 <= i < |t| ==> LowerHexDigit(t[i])
  }

  /** A radix-16 number of two characters: the parser takes a leading plus sign. */
  function FromHexPair(c: byte, d: byte): (r: Option<byte>) {
    var low :- FromHexDigit(d);
    if c == PLUS then if low < 256 then Some(low) else None
    else
      var high :- FromHexDigit(c);
      if high * 16 + low < 256 then Some(high * 16 + low) else None
  }

  function HexString(b: seq<byte>): (t: Text)
    ensures |t| == 2 * |b|
  {
    if b == [] then []
    else HexString(b[..|b| - 1]) + [HexDigit(b[|b| - 1] / 16), HexDigit(b[|b| - 1] % 16)]
  }

  function FromHex(t: Text): (r: Option<seq<byte>>)
    ensures r.Some? ==> 2 * |r.value| == |t|
  {
    if t == [] then Some([])
    else if |t| == 1 then None
    else
      var front :- FromHex(t[..|t| - 2]);
      var last :- FromHexPair(t[|t| - 2], t[|t| - 1]);
      Some(front + [last])
  }

  /** hex_bytes: exactly `n` bytes, two characters each. */
  function HexBytes(n: nat, t: Text): (r: Option<seq<byte>>)
    ensures r.Some? ==> |r.value| == n
  {
    if |t| != 2 * n then None else FromHex(t)
  }

  lemma {:induction false} HexStringLower(b: seq<byte>)
    ensures LowerHex(HexString(b))
  {
    if b != [] {
      HexStringLower(b[..|b| - 1]);
    }
  }

  lemma PairRoundTrip(b: byte)
    ensures FromHexPair(HexDigit(b / 16), HexDigit(b % 16)) == Some(b)
  {
  }

  lemma {:induction false} HexRoundTrip(b: seq<byte>)
    ensures FromHex(HexString(b)) == Some(b)
  {
    if b != [] {
      var t, n := HexString(b), |b| - 1;
      HexRoundTrip(b[..n]);
      PairRoundTrip(b[n]);
      assert t[..|t| - 2] == HexString(b[..n]);
      assert b == b[..n] + [b[n]];
    }
  }

  lemma PairCanonical(c: byte, d: byte)
    requires FromHexPair(c, d).Some?
    ensures var b := FromHexPair(c, d).value;
      c == HexDigit(b / 16) && d == HexDigit(b % 16) <==> LowerHexDigit(c) && LowerHexDigit(d)
  {
    var low := FromHexDigit(d).value;
    if c != PLUS {
      var high := FromHexDigit(c).value;
      assert (high * 16 + low) / 16 == high && (high * 16 + low) % 16 == low;
    }
  }

  lemma LowerHexSplit(t: Text)
    requires |t| >= 2
    ensures LowerHex(t) <==> LowerHex(t[..|t| - 2]) && LowerHexDigit(t[|t| - 2]) && LowerHexDigit(t[|t| - 1])
  {
    var front := t[..|t| - 2];
    assert forall i :: 0 <= i < |front| ==> front[i] == t[i];
  }

  lemma LastTwo(a: Text, t: Text)
    requires |a| == |t| >= 2
    ensures a == t <==> a[..|t| - 2] == t[..|t| - 2] && a[|t| - 2] == t[|t| - 2] && a[|t| - 1] == t[|t| - 1]
  {
    assert t == t[..|t| - 2] + [t[|t| - 2], t[|t| - 1]] && a == a[..|t| - 2] + [a[|t| - 2], a[|t| - 1]];
  }

  /** Hexadecimal text is given back as it was exactly when it is lower case without plus signs. */
  lemma {:induction false} HexCanonical(t: Text)
    requires FromHex(t).Some?
    ensures HexString(FromHex(t).value) == t <==> LowerHex(t)
  {
    if t != [] {
      var front, n := t[..|t| - 2], |t| - 2;
      HexCanonical(front);
      PairCanonical(t[n], t[n + 1]);
      var b := FromHex(t).value;
      assert b[..|b| - 1] == FromHex(front).value;
      var shown := HexString(b);
      assert shown[..n] == HexString(FromHex(front).value);
      LastTwo(shown, t);
      LowerHexSplit(t);
    }
  }

  // ----- UUIDs -----

  function WithoutHyphens(t: Text): Text {
    if t == [] then []
    else WithoutHyphens(t[..|t| - 1]) + if t[|t| - 1] == HYPHEN then [] else [t[|t| - 1]]
  }

  function UuidBytes(t: Text): (r: Option<seq<byte>>)
    ensures r.Some? ==> |r.value| == 16
  {
    HexBytes(16, WithoutHyphens(t))
  }

  /** The hexadecimal digits in groups of 8, 4, 4, 4 and 12. */
  function Grouped(h: Text): Text
    requires |h| == 32
  {
    h[0..8] + [HYPHEN] + h[8..12] + [HYPHEN] + h[12..16] + [HYPHEN] + h[16..20] + [HYPHEN] + h[20..32]
  }

  function UuidString(b: seq<byte>): Text
    requires |b| == 16
  {
    Grouped(HexString(b))
  }

  predicate CanonicalUuid(t: Text) {
    && |t| == 36 && t[8] == t[13] == t[18] == t[23] == HYPHEN
    && forall i :: 0 <= i < 36 && i !in {8, 13, 18, 23} ==> LowerHexDigit(t[i])
  }

  lemma {:induction false} WithoutHyphensAppend(a: Text, b: Text)
    ensures WithoutHyphens(a + b) == WithoutHyphens(a) + WithoutHyphens(b)
  {
    if b == [] {
      assert a + b == a;
    } else {
      var n := |b| - 1;
      WithoutHyphensAppend(a, b[..n]);
      assert (a + b)[..|a + b| - 1] == a + b[..n];
    }
  }

  lemma {:induction false} NoHyphens(t: Text)
    requires LowerHex(t)
    ensures WithoutHyphens(t) == t
  {
    if t != [] {
      NoHyphens(t[..|t| - 1]);
      assert t == t[..|t| - 1] + [t[|t| - 1]];
    }
  }

  /** Five runs of digits with a hyphen between each two. */
  function Runs(a: Text, b: Text, c: Text, d: Text, e: Text): Text {
    a + [HYPHEN] + b + [HYPHEN] + c + [HYPHEN] + d + [HYPHEN] + e
  }

  lemma RunsWithoutHyphens(a: Text, b: Text, c: Text, d: Text, e: Text)
    requires LowerHex(a) && LowerHex(b) && LowerHex(c) && LowerHex(d) && LowerHex(e)
    ensures WithoutHyphens(Runs(a, b, c, d, e)) == a + b + c + d + e
  {
    NoHyphens(a);
    NoHyphens(b);
    NoHyphens(c);
    NoHyphens(d);
    NoHyphens(e);
    Joint(a, b);
    Joint(a + [HYPHEN] + b, c);
    Joint(a + [HYPHEN] + b + [HYPHEN] + c, d);
    Joint(a + [HYPHEN] + b + [HYPHEN] + c + [HYPHEN] + d, e);
  }

  lemma Joint(a: Text, b: Text)
    ensures WithoutHyphens(a + [HYPHEN] + b) == WithoutHyphens(a) + WithoutHyphens(b)
  {
    WithoutHyphensAppend(a + [HYPHEN], b);
    HyphenVanishes(a);
  }

  lemma HyphenVanishes(a: Text)
    ensures WithoutHyphens(a + [HYPHEN]) == WithoutHyphens(a)
  {
    assert (a + [HYPHEN])[..|a + [HYPHEN]| - 1] == a;
  }

  lemma GroupedPlain(h: Text)
    requires |h| == 32 && LowerHex(h)
    ensures WithoutHyphens(Grouped(h)) == h
  {
    RunsWithoutHyphens(h[0..8], h[8..12], h[12..16], h[16..20], h[20..32]);
    assert h[0..8] + h[8..12] + h[12..16] + h[16..20] + h[20..32] == h;
  }

  lemma GroupedCanonical(h: Text)
    requires |h| == 32 && LowerHex(h)
    ensures CanonicalUuid(Grouped(h))
  {
  }

  lemma UuidRoundTrip(b: seq<byte>)
    requires |b| == 16
    ensures UuidBytes(UuidString(b)) == Some(b) && CanonicalUuid(UuidString(b))
  {
    HexStringLower(b);
    GroupedPlain(HexString(b));
    GroupedCanonical(HexString(b));
    HexRoundTrip(b);
  }

  /** A canonical UUID is its own digits in groups. */
  lemma CanonicalGrouped(t: Text)
    requires CanonicalUuid(t)
    ensures var h := t[0..8] + t[9..13] + t[14..18] + t[19..23] + t[24..36];
      |h| == 32 && LowerHex(h) && Grouped(h) == t
  {
    var h := t[0..8] + t[9..13] + t[14..18] + t[19..23] + t[24..36];
    assert h[0..8] == t[0..8] && h[8..12] == t[9..13] && h[12..16] == t[14..18];
    assert h[16..20] == t[19..23] && h[20..32] == t[24..36];
    assert t == t[0..8] + [t[8]] + t[9..13] + [t[13]] + t[14..18] + [t[18]] + t[19..23] + [t[23]] + t[24..36];
  }

  /** A UUID is given back as it was exactly when it is lower case with its hyphens in their places. */
  lemma UuidCanonical(t: Text)
    requires UuidBytes(t).Some?
    ensures UuidString(UuidBytes(t).value) == t <==> CanonicalUuid(t)
  {
    UuidRoundTrip(UuidBytes(t).value);
    if CanonicalUuid(t) {
      CanonicalGrouped(t);
      var h := t[0..8] + t[9..13] + t[14..18] + t[19..23] + t[24..36];
      GroupedPlain(h);
      HexCanonical(h);
    }
  }

  // ----- Decimal numbers -----

  function Decimal(n: nat): (t: Text)
    ensures t != []
  {
    if n < 10 then [48 + n] else Decimal(n / 10) + [48 + n % 10]
  }

  predicate Digit(c: byte) {
    48 <= c < 58
  }

  predicate Digits(t: Text) {
    forall i :: 0 <= i < |t| ==> Digit(t[i])
  }

  function FromDecimal(t: Text): (r: Option<nat>)
    ensures r.Some? <==> t != [] && Digits(t)
  {
    if t == [] then None
    else if !Digit(t[|t| - 1]) then None
    else if |t| == 1 then Some(t[0] - 48)
    else
      var front := FromDecimal(t[..|t| - 1]);
      assert Digits(t) ==> Digits(t[..|t| - 1]);
      if front.None? then
        assert !Digits(t[..|t| - 1]);
        None
      else
        assert forall i :: 0 <= i < |t| - 1 ==> t[i] == t[..|t| - 1][i];
        Some(front.value * 10 + (t[|t| - 1] - 48))
  }

  /** No leading zero, unless it is the only digit. */
  predicate Plain(t: Text) {
    t != [] && (t[0] == 48 ==> |t| == 1)
  }

  lemma {:induction false} DecimalRoundTrip(n: nat)
    ensures FromDecimal(Decimal(n)) == Some(n) && Plain(Decimal(n)) && Digits(Decimal(n))
    ensures Decimal(n)[0] == 48 ==> n == 0
    ensures n > 0 ==> Decimal(n)[0] != 48
  {
    if n >= 10 {
      var t := Decimal(n);
      DecimalRoundTrip(n / 10);
      assert t[..|t| - 1] == Decimal(n / 10);
      assert t[0] == Decimal(n / 10)[0];
    }
  }

  lemma {:induction false} DecimalCanonical(t: Text)
    requires FromDecimal(t).Some?
    ensures Decimal(FromDecimal(t).value) == t <==> Plain(t)
    ensures Plain(t) && |t| > 1 ==> FromDecimal(t).value >= 10
  {
    DecimalRoundTrip(FromDecimal(t).value);
    if |t| > 1 && Plain(t) {
      var front := t[..|t| - 1];
      DecimalCanonical(front);
      var n, m := FromDecimal(t).value, FromDecimal(front).value;
      assert m >= 1;
      assert n / 10 == m && n % 10 == t[|t| - 1] - 48;
      assert t == front + [t[|t| - 1]];
    }
  }
}
