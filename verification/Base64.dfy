/** Base64 and base64url, sections 4 and 5 of RFC 4648: the encoders, the strict decoder the desktop uses, and the
    lenient one the phone uses.  Text is its ASCII bytes. */
module Base64 {
  import opened Wrappers
  import opened Bytes

  type Sextet = x: int | 0 <= x < 64
  type Text = seq<byte>

  // ----- Bytes and sextets -----

  function Quad(a: byte, b: byte, c: byte): (r: seq<Sextet>)
    ensures |r| == 4
  {
    [a / 4, a % 4 * 16 + b / 16, b % 16 * 4 + c / 64, c % 64]
  }

  function Triple(a: Sextet, b: Sextet, c: Sextet, d: Sextet): (r: seq<byte>)
    ensures |r| == 3
  {
    [a * 4 + b / 16, b % 16 * 16 + c / 4, c % 4 * 64 + d]
  }

  lemma QuadTriple(a: byte, b: byte, c: byte)
    ensures var q := Quad(a, b, c);
      Triple(q[0], q[1], q[2], q[3]) == [a, b, c]
  {
    Digits16(a % 4, b / 16);
    Digits4(b % 16, c / 64);
  }

  lemma TripleQuad(a: Sextet, b: Sextet, c: Sextet, d: Sextet)
    ensures var t := Triple(a, b, c, d);
      Quad(t[0], t[1], t[2]) == [a, b, c, d]
  {
    var x, y, z := a * 4 + b / 16, b % 16 * 16 + c / 4, c % 4 * 64 + d;
    assert x / 4 == a && x % 4 == b / 16 by { Digits4(a, b / 16); }
    assert y / 16 == b % 16 && y % 16 == c / 4 by { Digits16(b % 16, c / 4); }
    assert z / 64 == c % 4 && z % 64 == d by { Digits64(c % 4, d); }
    QuadOf(x, y, z, a, b / 16, b % 16, c / 4, c % 4, d);
  }

  lemma QuadOf(x: byte, y: byte, z: byte, a: nat, b1: nat, b2: nat, c1: nat, c2: nat, d: nat)
    requires x / 4 == a && x % 4 == b1 && y / 16 == b2 && y % 16 == c1 && z / 64 == c2 && z % 64 == d
    ensures Quad(x, y, z) == [a, b1 * 16 + b2, c1 * 4 + c2, d]
  {
  }

  lemma Digits4(q: nat, r: nat)
    requires r < 4
    ensures (q * 4 + r) / 4 == q && (q * 4 + r) % 4 == r
  {
  }

  lemma Digits16(q: nat, r: nat)
    requires r < 16
    ensures (q * 16 + r) / 16 == q && (q * 16 + r) % 16 == r
  {
  }

  lemma Digits64(q: nat, r: nat)
    requires r < 64
    ensures (q * 64 + r) / 64 == q && (q * 64 + r) % 64 == r
  {
  }

  /** Three bytes become four sextets; a final two or one become three or two, their spare bits zero. */
  function Sextets(b: seq<byte>): seq<Sextet> {
    if b == [] then []
    else if |b| == 1 then Quad(b[0], 0, 0)[..2]
    else if |b| == 2 then Quad(b[0], b[1], 0)[..3]
    else Quad(b[0], b[1], b[2]) + Sextets(b[3..])
  }

  /** The inverse; `strict` refuses spare bits that are not zero. */
  function FromSextets(s: seq<Sextet>, strict: bool): Option<seq<byte>> {
    if s == [] then Some([])
    else if |s| == 1 then None
    else if |s| == 2 then if strict && s[1] % 16 != 0 then None else Some(Triple(s[0], s[1], 0, 0)[..1])
    else if |s| == 3 then if strict && s[2] % 4 != 0 then None else Some(Triple(s[0], s[1], s[2], 0)[..2])
    else
      var rest :- FromSextets(s[4..], strict);
      Some(Triple(s[0], s[1], s[2], s[3]) + rest)
  }

  lemma {:induction false} SextetsRoundTrip(b: seq<byte>, strict: bool)
    ensures FromSextets(Sextets(b), strict) == Some(b)
  {
    if |b| >= 3 {
      SextetsRoundTrip(b[3..], strict);
      QuadTriple(b[0], b[1], b[2]);
      var q := Quad(b[0], b[1], b[2]);
      assert Sextets(b)[4..] == Sextets(b[3..]) && Sextets(b)[..4] == q;
      assert Sextets(b)[0] == q[0] && Sextets(b)[1] == q[1] && Sextets(b)[2] == q[2] && Sextets(b)[3] == q[3];
      assert b == [b[0], b[1], b[2]] + b[3..];
    } else {
      SextetsEnd(b, strict);
    }
  }

  lemma SextetsEnd(b: seq<byte>, strict: bool)
    requires |b| < 3
    ensures FromSextets(Sextets(b), strict) == Some(b)
  {
    if |b| == 1 {
      var q := Quad(b[0], 0, 0);
      QuadTriple(b[0], 0, 0);
      assert q[1] == b[0] % 4 * 16 && q[2] == 0 && q[3] == 0;
      assert Sextets(b) == [q[0], q[1]] && q[1] % 16 == 0;
      assert Triple(q[0], q[1], 0, 0)[..1] == b;
    } else if |b| == 2 {
      var q := Quad(b[0], b[1], 0);
      QuadTriple(b[0], b[1], 0);
      assert q[2] == b[1] % 16 * 4 && q[3] == 0;
      assert Sextets(b) == [q[0], q[1], q[2]] && q[2] % 4 == 0;
      assert Triple(q[0], q[1], q[2], 0)[..2] == b;
    }
  }

  lemma {:induction false} StrictRoundTrip(s: seq<Sextet>)
    requires FromSextets(s, true).Some?
    ensures Sextets(FromSextets(s, true).value) == s
  {
    if |s| >= 4 {
      StrictRoundTrip(s[4..]);
      var t, b := Triple(s[0], s[1], s[2], s[3]), FromSextets(s, true).value;
      TripleQuad(s[0], s[1], s[2], s[3]);
      assert b[3..] == FromSextets(s[4..], true).value && b[..3] == t;
      assert b[0] == t[0] && b[1] == t[1] && b[2] == t[2];
      assert s == [s[0], s[1], s[2], s[3]] + s[4..];
    } else {
      StrictEnd(s);
    }
  }

  lemma StrictEnd(s: seq<Sextet>)
    requires |s| < 4 && FromSextets(s, true).Some?
    ensures Sextets(FromSextets(s, true).value) == s
  {
    if |s| == 2 {
      TripleQuad(s[0], s[1], 0, 0);
    } else if |s| == 3 {
      TripleQuad(s[0], s[1], s[2], 0);
    }
  }

  // ----- Alphabets -----

  /** The character of a sextet: upper case, lower case, digits, and two that depend on the alphabet. */
  function Letter(url: bool, x: Sextet): byte {
    if x < 26 then 65 + x
    else if x < 52 then 97 + (x - 26)
    else if x < 62 then 48 + (x - 52)
    else if x == 62 then if url then 45 else 43
    else if url then 95 else 47
  }

  function FromLetter(url: bool, c: byte): Option<Sextet> {
    if 65 <= c < 91 then Some(c - 65)
    else if 97 <= c < 123 then Some(c - 97 + 26)
    else if 48 <= c < 58 then Some(c - 48 + 52)
    else if c == (if url then 45 else 43) then Some(62)
    else if c == (if url then 95 else 47) then Some(63)
    else None
  }

  function Letters(url: bool, s: seq<Sextet>): (r: Text)
    ensures |r| == |s| && forall i :: 0 <= i < |s| ==> r[i] == Letter(url, s[i])
  {
    if s == [] then [] else Letters(url, s[..|s| - 1]) + [Letter(url, s[|s| - 1])]
  }

  function FromLetters(url: bool, t: Text): (r: Option<seq<Sextet>>)
    ensures r.Some? ==> |r.value| == |t| && forall i :: 0 <= i < |t| ==> FromLetter(url, t[i]) == Some(r.value[i])
    ensures r.None? ==> exists i :: 0 <= i < |t| && FromLetter(url, t[i]).None?
  {
    if t == [] then Some([])
    else
      var front := FromLetters(url, t[..|t| - 1]);
      var last := FromLetter(url, t[|t| - 1]);
      if last.None? then
        assert FromLetter(url, t[|t| - 1]).None?;
        None
      else if front.None? then
        var i :| 0 <= i < |t| - 1 && FromLetter(url, t[..|t| - 1][i]).None?;
        assert FromLetter(url, t[i]).None?;
        None
      else Some(front.value + [last.value])
  }

  lemma LettersRoundTrip(url: bool, s: seq<Sextet>)
    ensures FromLetters(url, Letters(url, s)) == Some(s)
  {
    var t := Letters(url, s);
    forall i | 0 <= i < |t|
      ensures FromLetter(url, t[i]) == Some(s[i])
    {
      assert t[i] == Letter(url, s[i]);
    }
    var r := FromLetters(url, t);
    assert r.Some?;
    assert forall i :: 0 <= i < |s| ==> FromLetter(url, t[i]) == Some(r.value[i]);
    assert r.value == s;
  }

  lemma FromLettersRoundTrip(url: bool, t: Text)
    requires FromLetters(url, t).Some?
    ensures Letters(url, FromLetters(url, t).value) == t
  {
    var s := FromLetters(url, t).value;
    forall i | 0 <= i < |t|
      ensures Letter(url, s[i]) == t[i]
    {
      assert FromLetter(url, t[i]) == Some(s[i]);
    }
  }

  // ----- The codecs -----

  const PAD: byte := 61

  function Encode(url: bool, b: seq<byte>): Text {
    Letters(url, Sextets(b))
  }

  function Padding(n: nat): Text {
    if n % 3 == 1 then [PAD, PAD] else if n % 3 == 2 then [PAD] else []
  }

  function EncodePadded(url: bool, b: seq<byte>): Text {
    Encode(url, b) + Padding(|b|)
  }

  /** Without padding, every spare bit zero. */
  function Decode(url: bool, t: Text): Option<seq<byte>> {
    var s :- FromLetters(url, t);
    FromSextets(s, true)
  }

  /** Without padding, spare bits ignored. */
  function DecodeLenient(url: bool, t: Text): Option<seq<byte>> {
    var s :- FromLetters(url, t);
    FromSextets(s, false)
  }

  function TrimEnd(t: Text): (r: Text)
    ensures r <= t && (r != [] ==> r[|r| - 1] != PAD)
  {
    if t != [] && t[|t| - 1] == PAD then TrimEnd(t[..|t| - 1]) else t
  }

  lemma DecodeEncode(url: bool, b: seq<byte>)
    ensures Decode(url, Encode(url, b)) == Some(b)
    ensures DecodeLenient(url, Encode(url, b)) == Some(b)
  {
    LettersRoundTrip(url, Sextets(b));
    SextetsRoundTrip(b, true);
    SextetsRoundTrip(b, false);
  }

  lemma EncodeDecode(url: bool, t: Text)
    requires Decode(url, t).Some?
    ensures Encode(url, Decode(url, t).value) == t
  {
    FromLettersRoundTrip(url, t);
    StrictRoundTrip(FromLetters(url, t).value);
  }

  lemma {:induction false} TrimAppended(t: Text, pad: Text)
    requires t != [] ==> t[|t| - 1] != PAD
    requires forall i :: 0 <= i < |pad| ==> pad[i] == PAD
    ensures TrimEnd(t + pad) == t
  {
    if pad == [] {
      assert t + pad == t;
    } else {
      TrimAppended(t, pad[..|pad| - 1]);
      assert (t + pad)[..|t + pad| - 1] == t + pad[..|pad| - 1];
    }
  }

  lemma TrimEncoded(url: bool, b: seq<byte>)
    ensures TrimEnd(Encode(url, b)) == Encode(url, b)
    ensures TrimEnd(EncodePadded(url, b)) == Encode(url, b)
  {
    var t := Encode(url, b);
    if t != [] {
      assert t[|t| - 1] == Letter(url, Sextets(b)[|t| - 1]);
    }
    TrimAppended(t, []);
    assert t + [] == t;
    TrimAppended(t, Padding(|b|));
  }

  /** b64_bytes before the length check: either alphabet, padded or not. */
  function DecodeEither(t: Text): Option<seq<byte>> {
    var trimmed := TrimEnd(t);
    var r := Decode(true, trimmed);
    if r.Some? then r else Decode(false, trimmed)
  }

  /** Where both alphabets read a text, they read the same. */
  lemma AlphabetsAgree(t: Text)
    requires FromLetters(true, t).Some? && FromLetters(false, t).Some?
    ensures FromLetters(true, t) == FromLetters(false, t)
  {
    var a, b := FromLetters(true, t).value, FromLetters(false, t).value;
    forall i | 0 <= i < |t|
      ensures a[i] == b[i]
    {
      assert FromLetter(true, t[i]) == Some(a[i]) && FromLetter(false, t[i]) == Some(b[i]);
    }
  }

  /** Whichever alphabet a value was written in, and padded or not, it is read back. */
  lemma DecodeEitherEncoded(url: bool, b: seq<byte>)
    ensures DecodeEither(Encode(url, b)) == Some(b) && DecodeEither(EncodePadded(url, b)) == Some(b)
  {
    TrimEncoded(url, b);
    DecodeEncode(url, b);
    var t := Encode(url, b);
    if !url && Decode(true, t).Some? {
      AlphabetsAgree(t);
    }
  }
}
