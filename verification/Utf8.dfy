/**
 UTF-8 as the standard library reads it: strictly (`from_utf8`), or lossily (`from_utf8_lossy`), where each
 maximal ill-formed piece becomes one U+FFFD.
 */
module Utf8 {
  import opened Wrappers
  import opened Text

  /** The front of some bytes: a well-formed character of n bytes, or n bytes that form none. */
  datatype Front = Front(ok: bool, n: nat)

  predicate Continues(x: byte) {
    0x80 <= x <= 0xBF
  }

  predicate ContinuesAt(b: seq<byte>, i: nat) {
    i < |b| && Continues(b[i])
  }

  /** Which second bytes a lead byte allows: no overlong forms, no surrogates, nothing beyond U+10FFFF. */
  predicate SecondAt(b: seq<byte>)
    requires b != []
  {
    |b| > 1
    && (if b[0] == 0xE0 then 0xA0 else if b[0] == 0xF0 then 0x90 else 0x80) <= b[1]
    && b[1] <= (if b[0] == 0xED then 0x9F else if b[0] == 0xF4 then 0x8F else 0xBF)
  }

  function Scan(b: seq<byte>): (f: Front)
    requires b != []
    ensures 1 <= f.n <= |b| && f.n <= 4
  {
    if b[0] < 0x80 then Front(true, 1)
    else if 0xC2 <= b[0] <= 0xDF then
      if SecondAt(b) then Front(true, 2) else Front(false, 1)
    else if 0xE0 <= b[0] <= 0xEF then
      if !SecondAt(b) then Front(false, 1)
      else if !ContinuesAt(b, 2) then Front(false, 2)
      else Front(true, 3)
    else if 0xF0 <= b[0] <= 0xF4 then
      if !SecondAt(b) then Front(false, 1)
      else if !ContinuesAt(b, 2) then Front(false, 2)
      else if !ContinuesAt(b, 3) then Front(false, 3)
      else Front(true, 4)
    else Front(false, 1)
  }

  /** The low six bits of the i-th byte of a character. */
  function Six(b: seq<byte>, i: nat): int
    requires i < |b|
  {
    b[i] as int - 0x80
  }

  function CodeAt(b: seq<byte>): int
    requires b != [] && Scan(b).ok
  {
    if Scan(b).n == 1 then b[0]
    else if Scan(b).n == 2 then (b[0] as int - 0xC0) * 64 + Six(b, 1)
    else if Scan(b).n == 3 then ((b[0] as int - 0xE0) * 64 + Six(b, 1)) * 64 + Six(b, 2)
    else (((b[0] as int - 0xF0) * 64 + Six(b, 1)) * 64 + Six(b, 2)) * 64 + Six(b, 3)
  }

  function CharAt(b: seq<byte>): char
    requires b != [] && Scan(b).ok
  {
    CodeAt(b) as char
  }

  function EncodeChar(c: char): (b: seq<byte>)
    ensures 1 <= |b| <= 4
  {
    var v := c as int;
    if v < 0x80 then [v]
    else if v < 0x800 then [0xC0 + v / 64, 0x80 + v % 64]
    else if v < 0x10000 then [0xE0 + v / 64 / 64, 0x80 + v / 64 % 64, 0x80 + v % 64]
    else [0xF0 + v / 64 / 64 / 64, 0x80 + v / 64 / 64 % 64, 0x80 + v / 64 % 64, 0x80 + v % 64]
  }

  function Encode(s: string): seq<byte> {
    if s == "" then [] else EncodeChar(s[0]) + Encode(s[1..])
  }

  function Decode(b: seq<byte>): Option<string> {
    if b == [] then Some("")
    else if !Scan(b).ok then None
    else
      match Decode(b[Scan(b).n..])
      case Some(s) => Some([CharAt(b)] + s)
      case None => None
  }

  const REPLACEMENT: char := 0xFFFD as char

  function Lossy(b: seq<byte>): string {
    if b == [] then "" else [if Scan(b).ok then CharAt(b) else REPLACEMENT] + Lossy(b[Scan(b).n..])
  }

  // -- One character ---------------------------------------------------------------------------

  lemma Digits64(x: int, y: int)
    requires 0 <= y < 64
    ensures (x * 64 + y) / 64 == x && (x * 64 + y) % 64 == y
  {
  }

  lemma ScanOfEncoded(c: char, rest: seq<byte>)
    ensures Scan(EncodeChar(c) + rest) == Front(true, |EncodeChar(c)|)
  {
    var v, e, b := c as int, EncodeChar(c), EncodeChar(c) + rest;
    assert forall i :: 0 <= i < |e| ==> b[i] == e[i];
    if 0x800 <= v < 0x10000 {
      assert b[0] == 0xE0 ==> v / 64 >= 32;
      assert b[0] == 0xED ==> v < 0xD800;
    }
  }

  lemma CodeOfEncoded(c: char, rest: seq<byte>)
    requires Scan(EncodeChar(c) + rest) == Front(true, |EncodeChar(c)|)
    ensures CodeAt(EncodeChar(c) + rest) == c as int
  {
    var v, e, b := c as int, EncodeChar(c), EncodeChar(c) + rest;
    assert forall i :: 0 <= i < |e| ==> b[i] == e[i];
  }

  lemma CharRoundTrip(c: char, rest: seq<byte>)
    ensures Scan(EncodeChar(c) + rest) == Front(true, |EncodeChar(c)|)
    ensures CharAt(EncodeChar(c) + rest) == c
  {
    ScanOfEncoded(c, rest);
    CodeOfEncoded(c, rest);
  }

  lemma CharCanonical(b: seq<byte>)
    requires b != [] && Scan(b).ok
    ensures EncodeChar(CharAt(b)) == b[..Scan(b).n]
  {
    var n, v := Scan(b).n, CodeAt(b);
    if n == 2 {
      Digits64(b[0] as int - 0xC0, Six(b, 1));
    } else if n == 3 {
      var hi := (b[0] as int - 0xE0) * 64 + Six(b, 1);
      Digits64(hi, Six(b, 2));
      Digits64(b[0] as int - 0xE0, Six(b, 1));
      assert v / 64 == hi;
    } else if n == 4 {
      var hi := (b[0] as int - 0xF0) * 64 + Six(b, 1);
      var mid := hi * 64 + Six(b, 2);
      Digits64(mid, Six(b, 3));
      Digits64(hi, Six(b, 2));
      Digits64(b[0] as int - 0xF0, Six(b, 1));
      assert v / 64 == mid && mid / 64 == hi;
    }
  }

  /** What stands at the front does not depend on what follows it. */
  lemma ScanLocal(b: seq<byte>, rest: seq<byte>)
    requires b != [] && Scan(b).ok
    ensures Scan(b[..Scan(b).n] + rest) == Scan(b) && CharAt(b[..Scan(b).n] + rest) == CharAt(b)
  {
  }

  /** The encoding by ranges, each byte by its bits: this, and nothing shorter or longer. */
  lemma EncodedIs(c: char)
    ensures var v, b := c as int, EncodeChar(c);
      && (v <= 0x7F ==> b == [v])
      && (0x80 <= v <= 0x7FF ==>
            && |b| == 2 && 0xC0 <= b[0] <= 0xDF && Continues(b[1])
            && v == (b[0] as int - 0xC0) * 64 + (b[1] as int - 0x80))
      && (0x800 <= v <= 0xFFFF ==>
            && |b| == 3 && 0xE0 <= b[0] <= 0xEF && Continues(b[1]) && Continues(b[2])
            && v == (b[0] as int - 0xE0) * 4096 + (b[1] as int - 0x80) * 64 + (b[2] as int - 0x80))
      && (0x10000 <= v ==>
            && |b| == 4 && 0xF0 <= b[0] <= 0xF7 && Continues(b[1]) && Continues(b[2]) && Continues(b[3])
            && v == (b[0] as int - 0xF0) * 262144 + (b[1] as int - 0x80) * 4096 + (b[2] as int - 0x80) * 64
                    + (b[3] as int - 0x80))
  {
    var v := c as int;
    assert v == v / 64 * 64 + v % 64;
    assert v / 64 == v / 64 / 64 * 64 + v / 64 % 64;
    assert v / 64 / 64 == v / 64 / 64 / 64 * 64 + v / 64 / 64 % 64;
  }

  /** Bytes begin with a character exactly when they begin with the encoding of one. */
  lemma AcceptedIff(b: seq<byte>)
    requires b != []
    ensures Scan(b).ok <==> exists c :: EncodeChar(c) <= b
    ensures Scan(b).ok ==> Scan(b).n == |EncodeChar(CharAt(b))| && EncodeChar(CharAt(b)) <= b
  {
    if Scan(b).ok {
      CharCanonical(b);
    }
    forall c | EncodeChar(c) <= b ensures Scan(b).ok {
      CharRoundTrip(c, b[|EncodeChar(c)|..]);
      assert EncodeChar(c) + b[|EncodeChar(c)|..] == b;
    }
  }

  /** How far an ill-formed piece reaches: one byte, or the longest start of a character. */
  lemma ReplacedPieces()
    ensures Lossy([0xFF, 0x41]) == [REPLACEMENT, 'A'] && Lossy([0xC3, 0x41]) == [REPLACEMENT, 'A']
    ensures Lossy([0xE2, 0x82, 0x41]) == [REPLACEMENT, 'A'] && Lossy([0xF0, 0x9F, 0x98, 0x41]) == [REPLACEMENT, 'A']
    ensures Scan([0xED, 0xA0, 0x80]) == Front(false, 1) && Scan([0xC0, 0x80]) == Front(false, 1)
    ensures Scan([0xF4, 0x90, 0x80, 0x80]) == Front(false, 1) && Scan([0xE0, 0x80, 0x80]) == Front(false, 1)
    ensures REPLACEMENT as int == 0xFFFD
  {
    LossyStep([0xFF, 0x41], 1);
    LossyStep([0xC3, 0x41], 1);
    LossyStep([0xE2, 0x82, 0x41], 2);
    LossyStep([0xF0, 0x9F, 0x98, 0x41], 3);
  }

  lemma LossyStep(b: seq<byte>, n: nat)
    requires b != [] && Scan(b) == Front(false, n) && b[n..] == [0x41]
    ensures Lossy(b) == [REPLACEMENT, 'A']
  {
    assert [0x41][1..] == [];
  }

  // -- Whole texts -----------------------------------------------------------------------------

  lemma {:induction false} RoundTrip(s: string)
    ensures Decode(Encode(s)) == Some(s) && Lossy(Encode(s)) == s
  {
    if s != "" {
      RoundTrip(s[1..]);
      CharRoundTrip(s[0], Encode(s[1..]));
      assert Encode(s)[|EncodeChar(s[0])|..] == Encode(s[1..]);
      assert s == [s[0]] + s[1..];
    }
  }

  lemma EncodeCons(c: char, s: string)
    ensures Encode([c] + s) == EncodeChar(c) + Encode(s)
  {
    assert ([c] + s)[1..] == s;
  }

  lemma DecodeFront(b: seq<byte>)
    requires b != [] && Decode(b).Some?
    ensures Scan(b).ok && Decode(b[Scan(b).n..]).Some?
    ensures Decode(b).value == [CharAt(b)] + Decode(b[Scan(b).n..]).value
    ensures Lossy(b) == [CharAt(b)] + Lossy(b[Scan(b).n..])
  {
  }

  lemma {:induction false} Canonical(b: seq<byte>)
    requires Decode(b).Some?
    ensures Encode(Decode(b).value) == b && Lossy(b) == Decode(b).value
  {
    if b != [] {
      var n := Scan(b).n;
      DecodeFront(b);
      Canonical(b[n..]);
      CharCanonical(b);
      FrontCanonical(b, n, CharAt(b), Decode(b[n..]).value);
    }
  }

  lemma FrontCanonical(b: seq<byte>, n: nat, c: char, s: string)
    requires n <= |b| && EncodeChar(c) == b[..n] && Encode(s) == b[n..]
    ensures Encode([c] + s) == b
  {
    EncodeCons(c, s);
    assert b == b[..n] + b[n..];
  }

  /** Text without a replacement character was not replaced. */
  lemma {:induction false} NothingReplaced(b: seq<byte>)
    requires REPLACEMENT !in Lossy(b)
    ensures Decode(b) == Some(Lossy(b))
  {
    if b != [] {
      var n := Scan(b).n;
      assert Lossy(b)[0] != REPLACEMENT;
      assert forall c <- Lossy(b[n..]) :: c in Lossy(b);
      NothingReplaced(b[n..]);
    }
  }

  lemma {:induction false} Twin(b: seq<byte>) returns (t: seq<byte>)
    requires REPLACEMENT in Lossy(b)
    ensures t != b && Lossy(t) == Lossy(b)
  {
    var n := Scan(b).n;
    if Scan(b).ok && CharAt(b) != REPLACEMENT {
      assert REPLACEMENT in Lossy(b[n..]);
      var u := Twin(b[n..]);
      t := b[..n] + u;
      ScanLocal(b, u);
      assert t[n..] == u;
    } else if Scan(b).ok {
      t := [0xFF] + b[n..];
      assert t[1..] == b[n..];
    } else {
      t := [0xEF, 0xBF, 0xBD] + b[n..];
      assert t[3..] == b[n..];
    }
  }

  /** Reading lossily tells a body from every other exactly when it shows no replacement character. */
  lemma LossyDistinguishesIff(b: seq<byte>)
    ensures (forall c: seq<byte> | Lossy(c) == Lossy(b) :: c == b) <==> REPLACEMENT !in Lossy(b)
  {
    if REPLACEMENT in Lossy(b) {
      var t := Twin(b);
      assert Lossy(t) == Lossy(b) && t != b;
    } else {
      forall c: seq<byte> | Lossy(c) == Lossy(b) ensures c == b {
        NothingReplaced(b);
        NothingReplaced(c);
        Canonical(b);
        Canonical(c);
      }
    }
  }

  // -- Cutting a text --------------------------------------------------------------------------

  lemma ScanOfCut(b: seq<byte>, n: nat)
    requires b != [] && Scan(b).ok && 0 < n <= |b|
    ensures Scan(b[..n]).ok <==> Scan(b).n <= n
    ensures n >= Scan(b).n ==> Scan(b[..n]) == Scan(b) && CharAt(b[..n]) == CharAt(b)
    ensures n < Scan(b).n ==> ContinuesAt(b, n)
  {
  }

  /** A cut leaves text exactly when it does not fall inside a character. */
  lemma {:induction false} CutIff(b: seq<byte>, n: nat)
    requires Decode(b).Some? && n <= |b|
    ensures Decode(b[..n]).Some? <==> !ContinuesAt(b, n)
    ensures Decode(b[..n]).Some? ==> Decode(b[..n]).value <= Decode(b).value
  {
    if n > 0 {
      ScanOfCut(b, n);
      var m := Scan(b).n;
      if n >= m {
        CutIff(b[m..], n - m);
        assert b[..n][m..] == b[m..][..n - m];
        assert b[m..] == [] ==> !ContinuesAt(b, n);
        assert n - m < |b[m..]| ==> b[m..][n - m] == b[n];
      }
    }
  }
}
