/** Codes that can be read off the front of a string in only one way, and lists of them. */
module Codes {
  import opened Bytes

  function Enc<T>(code: T -> seq<byte>, v: T): seq<byte> {
    code(v)
  }

  /** One string begins with both codewords. */
  predicate Clash<T>(code: T -> seq<byte>, v: T, w: T, x: seq<byte>, y: seq<byte>) {
    Enc(code, v) + x == Enc(code, w) + y
  }

  /** Whatever follows a codeword, the value and the rest are determined by the string. */
  ghost predicate Decodes<T(!new)>(code: T -> seq<byte>) {
    forall v, w, x, y :: Clash(code, v, w, x, y) ==> v == w && x == y
  }

  ghost predicate Nonempty<T(!new)>(code: T -> seq<byte>) {
    forall v :: Enc(code, v) != []
  }

  /** The codewords of the first `n` values, in order. */
  function All<T>(code: T -> seq<byte>, s: seq<T>, n: nat): seq<byte>
    requires n <= |s|
  {
    if n == 0 then [] else All(code, s, n - 1) + Enc(code, s[n - 1])
  }

  lemma Associative(a: seq<byte>, b: seq<byte>, c: seq<byte>)
    ensures a + b + c == a + (b + c)
  {
  }

  lemma Split(a: seq<byte>, b: seq<byte>, x: seq<byte>, y: seq<byte>)
    requires |a| == |b| && a + x == b + y
    ensures a == b && x == y
  {
    assert (a + x)[..|a|] == a && (b + y)[..|b|] == b;
    assert (a + x)[|a|..] == x && (b + y)[|b|..] == y;
  }

  /** Feeding one more codeword. */
  lemma AllStep<T>(code: T -> seq<byte>, front: seq<byte>, s: seq<T>, i: nat)
    requires i < |s|
    ensures front + All(code, s, i) + Enc(code, s[i]) == front + All(code, s, i + 1)
  {
    Associative(front, All(code, s, i), Enc(code, s[i]));
  }

  lemma {:induction false} AllDecodes<T(!new)>(
      code: T -> seq<byte>, s: seq<T>, t: seq<T>, n: nat, x: seq<byte>, y: seq<byte>)
    requires Decodes(code) && n <= |s| && n <= |t|
    requires All(code, s, n) + x == All(code, t, n) + y
    ensures s[..n] == t[..n] && x == y
  {
    if n == 0 {
      assert [] + x == x && [] + y == y;
    } else {
      Associative(All(code, s, n - 1), Enc(code, s[n - 1]), x);
      Associative(All(code, t, n - 1), Enc(code, t[n - 1]), y);
      AllDecodes(code, s, t, n - 1, Enc(code, s[n - 1]) + x, Enc(code, t[n - 1]) + y);
      assert Clash(code, s[n - 1], t[n - 1], x, y);
      assert s[..n] == s[..n - 1] + [s[n - 1]] && t[..n] == t[..n - 1] + [t[n - 1]];
    }
  }

  /** A longer list is a longer string. */
  lemma {:induction false} AllGrows<T(!new)>(code: T -> seq<byte>, s: seq<T>, k: nat, n: nat) returns (tail: seq<byte>)
    requires Nonempty(code) && k <= n <= |s|
    ensures All(code, s, n) == All(code, s, k) + tail
    ensures tail == [] <==> k == n
    decreases n - k
  {
    if k == n {
      tail := [];
    } else {
      var front := AllGrows(code, s, k, n - 1);
      tail := front + Enc(code, s[n - 1]);
      Associative(All(code, s, k), front, Enc(code, s[n - 1]));
    }
  }

  /** With no count and no terminator, a whole list of non-empty codewords still decodes in only one way. */
  lemma ListDecodes<T(!new)>(code: T -> seq<byte>, s: seq<T>, t: seq<T>)
    requires Decodes(code) && Nonempty(code)
    requires All(code, s, |s|) == All(code, t, |t|)
    ensures s == t
  {
    var n := if |s| < |t| then |s| else |t|;
    var x := AllGrows(code, s, n, |s|);
    var y := AllGrows(code, t, n, |t|);
    AllDecodes(code, s, t, n, x, y);
    assert s == s[..n] && t == t[..n];
  }
}
