/** Inputs on which the pairing codec does less than a reader may expect: the exact conditions of CompactCodec and
    PhoneCodec do exclude something. */
module PairingWitnesses {
  import opened Wrappers
  import opened Bytes
  import opened PairingText
  import opened SocketText
  import opened CompactCodec
  import opened PhoneCodec

  // ----- Plus signs -----

  /** Hexadecimal text stays readable when its first two digits are replaced by a readable pair. */
  lemma {:induction false} HeadReplaced(t: Text, c: byte, d: byte)
    requires |t| >= 2 && FromHex(t).Some? && FromHexPair(c, d).Some?
    ensures FromHex([c, d] + t[2..]).Some?
  {
    var u := [c, d] + t[2..];
    if |t| == 2 {
      assert u[..0] == [] && t[..0] == [];
    } else {
      assert u[..|u| - 2] == [c, d] + t[..|t| - 2][2..];
      HeadReplaced(t[..|t| - 2], c, d);
    }
  }

  /** A plus sign in place of the first digit of the pairing key. */
  function PlusKey(p: Payload): Payload
    requires |p.pairingKey| >= 2
  {
    p.(pairingKey := [PLUS, 48] + p.pairingKey[2..])
  }

  lemma PlusHeader(p: Payload)
    requires ParseHeader(p).Some?
    ensures ParseHeader(PlusKey(p)).Some?
  {
    HeadReplaced(p.pairingKey, PLUS, 48);
  }

  /** Every payload the encoder accepts has one with a plus sign in its pairing key, which is accepted too and does not
      come back as it went in. */
  lemma PlusSignLost(p: Payload)
    requires Encode(p).Some?
    ensures |p.pairingKey| >= 2 && Encode(PlusKey(p)).Some?
    ensures Decode(Encode(PlusKey(p)).value) != Some(Deduped(PlusKey(p)))
  {
    var q := PlusKey(p);
    PlusHeader(p);
    assert Candidates(q) == Candidates(p);
    assert Parse(q).Some?;
    assert !LowerHexDigit(q.pairingKey[0]);
    RoundTrip(q);
  }

  /** "+1" and "01" are read as port 1, which is shown as "1". */
  lemma PortSpellings()
    ensures FromPort([PLUS, 49]) == FromPort([48, 49]) == FromPort([49]) == Some(1) && Decimal(1) == [49]
  {
    var none: Text := [];
    assert [PLUS, 49][1..] == [49] && [49][..0] == none && [48][..0] == none && [48, 49][..1] == [48];
    assert FromDecimal([48]) == Some(0) && FromDecimal([49]) == Some(1);
  }

  // ----- A relay URL that is not UTF-8 -----

  /** A code with one candidate and a relay whose URL is the single byte 255. */
  const STRAY: seq<byte> :=
    seq(235, i => if i == 0 then 3 else if i == 1 || i == 82 || i == 89 then 1 else if i == 90 then 255 else 0)

  lemma StrayFits()
    ensures Fits(STRAY) && End(STRAY) == |STRAY| && HasRelay(STRAY)
    ensures RelayPiece(STRAY, CandidatesEnd(STRAY)).url == [255]
  {
    assert CandidatesEnd(STRAY) == 89 && KeysStart(STRAY, 89) == 91;
    assert STRAY[90..91] == [255];
  }

  /** Any whole code with such a URL is refused by the desktop. */
  lemma DesktopRefuses(b: seq<byte>)
    requires Fits(b) && HasRelay(b) && !ValidUtf8(RelayPiece(b, CandidatesEnd(b)).url)
    ensures Decode(b).None?
  {
    DesktopAt(b);
    assert !Readable(LayoutPiece(b));
  }

  lemma PhoneAccepts(replace: Replacer, b: seq<byte>)
    requires Fits(b) && End(b) == |b|
    ensures PhoneDecode(replace, SignedAll(b)).Some?
  {
    SignedMirrors(b);
    MirrorsBranch(SignedAll(b), b);
    CodeByPlace(SignedAll(b), b);
  }

  /** The phone accepts it, whatever it shows in place of the byte, and the desktop refuses it. */
  lemma StrayDisagrees(replace: Replacer)
    ensures Decode(STRAY).None? && PhoneDecode(replace, SignedAll(STRAY)).Some?
  {
    StrayFits();
    var url: Text := [255];
    assert !ValidUtf8(url);
    DesktopRefuses(STRAY);
    PhoneAccepts(replace, STRAY);
  }
}
