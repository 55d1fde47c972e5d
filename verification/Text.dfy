/**
 The text encodings the service prints and parses: base64 (sections 4 and 5 of RFC 4648), hexadecimal
 (section 8 of RFC 4648), decimal integers and UUIDs (section 4 of RFC 9562).
 */
module Text {
  import opened Wrappers

  type byte = x: int | 0 <= x < 256

  function Map2<T>(a: Option<seq<T>>, b: Option<seq<T>>): Option<seq<T>> {
    if a.Some? && b.Some? then Some(a.value + b.value) else None
  }

  // -- splitting ---------------------------------------------------------------------------

  function SplitOnce(s: string, c: char): Option<(string, string)> {
    if s == "" then None
    else if s[0] == c then Some(("", s[1..]))
    else
      match SplitOnce(s[1..], c)
      case Some((left, right)) => Some(([s[0]] + left, right))
      case None => None
  }

  /** Splitting undoes joining exactly when the separator is not in the left part. */
  lemma {:induction false} SplitOnceIff(s: string, c: char, left: string, right: string)
    ensures SplitOnce(s, c) == Some((left, right)) <==> s == left + [c] + right && c !in left
  {
    if s != "" {
      if s[0] == c {
        assert left == "" ==> left + [c] + right == [c] + right;
        assert left != "" && s == left + [c] + right ==> left[0] == c;
        assert s == [c] + s[1..];
      } else if left == "" {
        assert (left + [c] + right)[0] == c;
      } else {
        SplitOnceIff(s[1..], c, left[1..], right);
        assert s == [s[0]] + s[1..];
        assert left == [left[0]] + left[1..];
        assert left + [c] + right == [left[0]] + (left[1..] + [c] + right);
        assert (left + [c] + right)[1..] == left[1..] + [c] + right;
        if SplitOnce(s, c) == Some((left, right)) {
          assert SplitOnce(s[1..], c).value.0 == left[1..];
        }
      }
    } else {
      assert |left + [c] + right| > 0;
    }
  }

  // -- white space and case -----------------------------------------------------------------

  /** Unicode's White_Space property, which `str::trim` goes by. */
  predicate Space(c: char) {
    '\t' <= c <= '\r' || c == ' ' || c as int in {0x85, 0xa0, 0x1680, 0x2028, 0x2029, 0x202f, 0x205f, 0x3000}
    || 0x2000 <= c as int <= 0x200a
  }

  function TrimStart(s: string): string {
    if s != "" && Space(s[0]) then TrimStart(s[1..]) else s
  }

  function TrimEnd(s: string): string {
    if s != "" && Space(s[|s| - 1]) then TrimEnd(s[..|s| - 1]) else s
  }

  function Trim(s: string): string {
    TrimEnd(TrimStart(s))
  }

  function LowerCase(c: char): char {
    if 'A' <= c <= 'Z' then (c as int + 32) as char else c
  }

  function Lower(s: string): string {
    if s == "" then "" else [LowerCase(s[0])] + Lower(s[1..])
  }

  /** White space, character by character. */
  lemma SpaceIff(c: char)
    ensures Space(c) <==>
            c as int in {0x09, 0x0A, 0x0B, 0x0C, 0x0D, 0x20, 0x85, 0xA0, 0x1680, 0x2000, 0x2001, 0x2002, 0x2003, 0x2004,
                         0x2005, 0x2006, 0x2007, 0x2008, 0x2009, 0x200A, 0x2028, 0x2029, 0x202F, 0x205F, 0x3000}
  {
  }

  /** What is trimmed is white space, and none is left at either end. */
  lemma {:induction false} TrimIs(s: string) returns (i: nat, j: nat)
    ensures i <= j <= |s| && Trim(s) == s[i..j]
    ensures forall k :: 0 <= k < i || j <= k < |s| ==> Space(s[k])
    ensures i < j ==> !Space(s[i]) && !Space(s[j - 1])
  {
    i := StartIs(s);
    j := EndIs(s[i..]);
    assert s[i..][..j] == s[i..i + j];
    forall k | i + j <= k < |s| ensures Space(s[k]) {
      assert s[k] == s[i..][k - i];
    }
    j := i + j;
  }

  lemma {:induction false} StartIs(s: string) returns (i: nat)
    ensures i <= |s| && TrimStart(s) == s[i..]
    ensures forall k :: 0 <= k < i ==> Space(s[k])
    ensures i < |s| ==> !Space(s[i])
  {
    i := 0;
    if s != "" && Space(s[0]) {
      i := StartIs(s[1..]);
      assert forall k :: 0 < k < i + 1 ==> s[k] == s[1..][k - 1];
      assert s[1..][i..] == s[i + 1..];
      i := i + 1;
    }
  }

  lemma {:induction false} EndIs(s: string) returns (j: nat)
    ensures j <= |s| && TrimEnd(s) == s[..j]
    ensures forall k :: j <= k < |s| ==> Space(s[k])
    ensures j > 0 ==> !Space(s[j - 1])
  {
    j := |s|;
    if s != "" && Space(s[|s| - 1]) {
      j := EndIs(s[..|s| - 1]);
      assert s[..|s| - 1][..j] == s[..j];
    }
  }

  /** ASCII letters are lowered, one by one. */
  lemma {:induction false} LowerAt(s: string, i: nat)
    requires i < |s|
    ensures |Lower(s)| == |s|
    ensures Lower(s)[i] == if 65 <= s[i] as int <= 90 then (s[i] as int + 32) as char else s[i]
  {
    if i > 0 {
      LowerAt(s[1..], i - 1);
    } else if |s| > 1 {
      LowerAt(s[1..], 0);
    }
  }

  // -- base64 ------------------------------------------------------------------------------

  datatype Alphabet = Standard | UrlSafe

  function Symbol(a: Alphabet, i: int): char
    requires 0 <= i < 64
  {
    if i < 26 then ('A' as int + i) as char
    else if i < 52 then ('a' as int + (i - 26)) as char
    else if i < 62 then ('0' as int + (i - 52)) as char
    else if i == 62 then (if a.Standard? then '+' else '-')
    else (if a.Standard? then '/' else '_')
  }

  function Value(a: Alphabet, c: char): Option<int> {
    if 'A' <= c <= 'Z' then Some(c as int - 'A' as int)
    else if 'a' <= c <= 'z' then Some(c as int - 'a' as int + 26)
    else if '0' <= c <= '9' then Some(c as int - '0' as int + 52)
    else if c == (if a.Standard? then '+' else '-') then Some(62)
    else if c == (if a.Standard? then '/' else '_') then Some(63)
    else None
  }

  lemma SymbolValue(a: Alphabet, i: int, c: char)
    requires 0 <= i < 64
    ensures Value(a, Symbol(a, i)) == Some(i)
    ensures Value(a, c).Some? ==> 0 <= Value(a, c).value < 64 && Symbol(a, Value(a, c).value) == c
    ensures Symbol(a, i) != '='
  {
  }

  /** Three bytes as four symbols; a last group of one or two bytes is padded or not. */
  function Encode64(a: Alphabet, b: seq<byte>, pad: bool): string {
    if b == [] then ""
    else if |b| == 1 then
      [Symbol(a, b[0] / 4), Symbol(a, b[0] % 4 * 16)] + (if pad then "==" else "")
    else if |b| == 2 then
      [Symbol(a, b[0] / 4), Symbol(a, b[0] % 4 * 16 + b[1] / 16), Symbol(a, b[1] % 16 * 4)] + (if pad then "=" else "")
    else
      Group(a, b[0], b[1], b[2]) + Encode64(a, b[3..], pad)
  }

  /** One byte from two symbols; the bits left over must be zero. */
  function Tail2(a: Alphabet, s: string): Option<seq<byte>>
    requires |s| == 2
  {
    match (Value(a, s[0]), Value(a, s[1]))
    case (Some(p), Some(q)) => if q % 16 == 0 then Some([p * 4 + q / 16]) else None
    case _ => None
  }

  function Tail3(a: Alphabet, s: string): Option<seq<byte>>
    requires |s| == 3
  {
    match (Value(a, s[0]), Value(a, s[1]), Value(a, s[2]))
    case (Some(p), Some(q), Some(r)) => if r % 4 == 0 then Some([p * 4 + q / 16, q % 16 * 16 + r / 4]) else None
    case _ => None
  }

  function Quad(a: Alphabet, s: string): Option<seq<byte>>
    requires |s| == 4
  {
    match (Value(a, s[0]), Value(a, s[1]), Value(a, s[2]), Value(a, s[3]))
    case (Some(p), Some(q), Some(r), Some(t)) => Some([p * 4 + q / 16, q % 16 * 16 + r / 4, r % 4 * 64 + t])
    case _ => None
  }

  /** Padding is required when `pad`, and refused otherwise. */
  function Decode64(a: Alphabet, s: string, pad: bool): Option<seq<byte>> {
    if s == "" then Some([])
    else if |s| < 4 then
      if pad || |s| == 1 then None else if |s| == 2 then Tail2(a, s) else Tail3(a, s)
    else if pad && |s| == 4 && s[3] == '=' then
      if s[2] == '=' then Tail2(a, s[..2]) else Tail3(a, s[..3])
    else Map2(Quad(a, s[..4]), Decode64(a, s[4..], pad))
  }

  /** The bit arithmetic: regrouping 3 x 8 bits as 4 x 6 and back. */
  lemma Regroup(x: byte, y: byte, z: byte)
    ensures var q, r := x % 4 * 16 + y / 16, y % 16 * 4 + z / 64;
            && 0 <= q < 64 && 0 <= r < 64
            && x / 4 * 4 + q / 16 == x && q % 16 * 16 + r / 4 == y && r % 4 * 64 + z % 64 == z
  {
  }

  lemma Ungroup(p: int, q: int, r: int, t: int)
    requires 0 <= p < 64 && 0 <= q < 64 && 0 <= r < 64 && 0 <= t < 64
    ensures var x, y, z := p * 4 + q / 16, q % 16 * 16 + r / 4, r % 4 * 64 + t;
            0 <= x < 256 && 0 <= y < 256 && 0 <= z < 256
            && x / 4 == p && x % 4 * 16 + y / 16 == q && y % 16 * 4 + z / 64 == r && z % 64 == t
  {
  }

  function Group(a: Alphabet, x: byte, y: byte, z: byte): (s: string)
    ensures |s| == 4
  {
    [Symbol(a, x / 4), Symbol(a, x % 4 * 16 + y / 16), Symbol(a, y % 16 * 4 + z / 64), Symbol(a, z % 64)]
  }

  lemma SymbolRead(a: Alphabet, i: int)
    requires 0 <= i < 64
    ensures Value(a, Symbol(a, i)) == Some(i) && Symbol(a, i) != '='
  {
    SymbolValue(a, i, 'A');
  }

  lemma QuadOfSymbols(a: Alphabet, p: int, q: int, r: int, u: int, x: byte, y: byte, z: byte)
    requires 0 <= p < 64 && 0 <= q < 64 && 0 <= r < 64 && 0 <= u < 64
    requires x == p * 4 + q / 16 && y == q % 16 * 16 + r / 4 && z == r % 4 * 64 + u
    ensures Quad(a, [Symbol(a, p), Symbol(a, q), Symbol(a, r), Symbol(a, u)]) == Some([x, y, z])
  {
    SymbolRead(a, p);
    SymbolRead(a, q);
    SymbolRead(a, r);
    SymbolRead(a, u);
  }

  lemma QuadOfGroup(a: Alphabet, x: byte, y: byte, z: byte)
    ensures Quad(a, Group(a, x, y, z)) == Some([x, y, z])
    ensures forall i :: 0 <= i < 4 ==> Value(a, Group(a, x, y, z)[i]).Some? && Group(a, x, y, z)[i] != '='
  {
    Regroup(x, y, z);
    var p, q, r, u := x / 4, x % 4 * 16 + y / 16, y % 16 * 4 + z / 64, z % 64;
    QuadOfSymbols(a, p, q, r, u, x, y, z);
    SymbolRead(a, p);
    SymbolRead(a, q);
    SymbolRead(a, r);
    SymbolRead(a, u);
  }

  lemma GroupIs(a: Alphabet, x: byte, y: byte, z: byte, p: int, q: int, r: int, u: int)
    requires 0 <= p < 64 && 0 <= q < 64 && 0 <= r < 64 && 0 <= u < 64
    requires x / 4 == p && x % 4 * 16 + y / 16 == q && y % 16 * 4 + z / 64 == r && z % 64 == u
    ensures Group(a, x, y, z) == [Symbol(a, p), Symbol(a, q), Symbol(a, r), Symbol(a, u)]
  {
  }

  lemma SymbolBack(a: Alphabet, c: char, p: int)
    requires Value(a, c) == Some(p)
    ensures 0 <= p < 64 && Symbol(a, p) == c
  {
    SymbolValue(a, 0, c);
  }

  lemma QuadFrom(a: Alphabet, s: string, p: int, q: int, r: int, u: int, x: byte, y: byte, z: byte)
    requires |s| == 4 && Value(a, s[0]) == Some(p) && Value(a, s[1]) == Some(q)
    requires Value(a, s[2]) == Some(r) && Value(a, s[3]) == Some(u)
    requires x == p * 4 + q / 16 && y == q % 16 * 16 + r / 4 && z == r % 4 * 64 + u
    ensures Group(a, x, y, z) == s
  {
    SymbolBack(a, s[0], p);
    SymbolBack(a, s[1], q);
    SymbolBack(a, s[2], r);
    SymbolBack(a, s[3], u);
    Ungroup(p, q, r, u);
    GroupIs(a, x, y, z, p, q, r, u);
  }

  lemma GroupOfQuad(a: Alphabet, s: string)
    requires |s| == 4 && Quad(a, s).Some?
    ensures var b := Quad(a, s).value; |b| == 3 && Group(a, b[0], b[1], b[2]) == s
  {
    var b := Quad(a, s).value;
    QuadFrom(a, s, Value(a, s[0]).value, Value(a, s[1]).value, Value(a, s[2]).value, Value(a, s[3]).value,
             b[0], b[1], b[2]);
  }

  /** One or two bytes, unpadded: encoding and decoding are inverse. */
  lemma TailDecodes(a: Alphabet, b: seq<byte>)
    requires 1 <= |b| <= 2
    ensures var s := Encode64(a, b, false);
            |s| == |b| + 1 && (if |b| == 1 then Tail2(a, s) else Tail3(a, s)) == Some(b)
            && forall i :: 0 <= i < |s| ==> Value(a, s[i]).Some? && s[i] != '='
  {
    var y := if |b| == 2 then b[1] else 0;
    Regroup(b[0], y, 0);
    SymbolValue(a, b[0] / 4, 'A');
    SymbolValue(a, b[0] % 4 * 16 + y / 16, 'A');
    SymbolValue(a, y % 16 * 4, 'A');
    var s := Encode64(a, b, false);
    if |b| == 1 {
      assert s == [Symbol(a, b[0] / 4), Symbol(a, b[0] % 4 * 16)];
      assert Tail2(a, s) == Some([b[0]]) && [b[0]] == b;
    } else {
      assert s == [Symbol(a, b[0] / 4), Symbol(a, b[0] % 4 * 16 + y / 16), Symbol(a, y % 16 * 4)];
      assert Tail3(a, s) == Some([b[0], y]) && [b[0], y] == b;
    }
  }

  lemma Tail2Canonical(a: Alphabet, s: string)
    requires |s| == 2 && Tail2(a, s).Some?
    ensures |Tail2(a, s).value| == 1 && Encode64(a, Tail2(a, s).value, false) == s
  {
    SymbolValue(a, 0, s[0]);
    SymbolValue(a, 0, s[1]);
    Ungroup(Value(a, s[0]).value, Value(a, s[1]).value, 0, 0);
  }

  lemma TwoEncoded(a: Alphabet, x: byte, y: byte, p: int, q: int, r: int)
    requires 0 <= p < 64 && 0 <= q < 64 && 0 <= r < 64
    requires x / 4 == p && x % 4 * 16 + y / 16 == q && y % 16 * 4 == r
    ensures Encode64(a, [x, y], false) == [Symbol(a, p), Symbol(a, q), Symbol(a, r)]
  {
  }

  lemma Tail3From(a: Alphabet, s: string, p: int, q: int, r: int, x: byte, y: byte)
    requires |s| == 3 && Value(a, s[0]) == Some(p) && Value(a, s[1]) == Some(q) && Value(a, s[2]) == Some(r)
    requires 0 <= p < 64 && 0 <= q < 64 && 0 <= r < 64 && r % 4 == 0
    requires x == p * 4 + q / 16 && y == q % 16 * 16 + r / 4
    ensures Encode64(a, [x, y], false) == s
  {
    SymbolValue(a, 0, s[0]);
    SymbolValue(a, 0, s[1]);
    SymbolValue(a, 0, s[2]);
    Ungroup(p, q, r, 0);
    TwoEncoded(a, x, y, p, q, r);
  }

  lemma Tail3Canonical(a: Alphabet, s: string)
    requires |s| == 3 && Tail3(a, s).Some?
    ensures |Tail3(a, s).value| == 2 && Encode64(a, Tail3(a, s).value, false) == s
  {
    SymbolValue(a, 0, s[0]);
    SymbolValue(a, 0, s[1]);
    SymbolValue(a, 0, s[2]);
    var b := Tail3(a, s).value;
    Tail3From(a, s, Value(a, s[0]).value, Value(a, s[1]).value, Value(a, s[2]).value, b[0], b[1]);
    assert b == [b[0], b[1]];
  }

  lemma GroupEncoded(a: Alphabet, b: seq<byte>, pad: bool)
    requires |b| >= 3
    ensures var s := Encode64(a, b, pad);
            |s| == 4 + |Encode64(a, b[3..], pad)|
            && s[..4] == Group(a, b[0], b[1], b[2]) && s[4..] == Encode64(a, b[3..], pad)
  {
  }

  lemma TailEncoded(a: Alphabet, b: seq<byte>, pad: bool)
    requires 1 <= |b| <= 2
    ensures var s := Encode64(a, b, pad);
            |s| == (if pad then 4 else |b| + 1) && s[..|b| + 1] == Encode64(a, b, false)
            && (pad ==> s[3] == '=' && (s[2] == '=' <==> |b| == 1))
  {
    TailDecodes(a, b);
  }

  lemma DecodeGroup(a: Alphabet, s: string, pad: bool)
    requires |s| >= 4 && s[3] != '='
    ensures Decode64(a, s, pad) == Map2(Quad(a, s[..4]), Decode64(a, s[4..], pad))
  {
  }

  lemma GroupRoundTrip(a: Alphabet, b: seq<byte>, pad: bool)
    requires |b| >= 3 && Decode64(a, Encode64(a, b[3..], pad), pad) == Some(b[3..])
    ensures Decode64(a, Encode64(a, b, pad), pad) == Some(b)
  {
    var s := Encode64(a, b, pad);
    GroupEncoded(a, b, pad);
    QuadOfGroup(a, b[0], b[1], b[2]);
    assert s[3] == s[..4][3];
    DecodeGroup(a, s, pad);
    assert b == [b[0], b[1], b[2]] + b[3..];
  }

  lemma TailRoundTrip(a: Alphabet, b: seq<byte>, pad: bool)
    requires 1 <= |b| <= 2
    ensures Decode64(a, Encode64(a, b, pad), pad) == Some(b)
  {
    TailDecodes(a, b);
    TailEncoded(a, b, pad);
  }

  /** Decoding inverts encoding, for both alphabets, padded or not. */
  lemma {:induction false} Base64RoundTrip(a: Alphabet, b: seq<byte>, pad: bool)
    ensures Decode64(a, Encode64(a, b, pad), pad) == Some(b)
  {
    if |b| >= 3 {
      Base64RoundTrip(a, b[3..], pad);
      GroupRoundTrip(a, b, pad);
    } else if |b| > 0 {
      TailRoundTrip(a, b, pad);
    }
  }

  /** Decoding is canonical: nothing but the encoding of a value decodes to it. */
  lemma {:induction false} Base64Canonical(a: Alphabet, s: string, pad: bool)
    requires Decode64(a, s, pad).Some?
    ensures Encode64(a, Decode64(a, s, pad).value, pad) == s
  {
    if s == "" {
    } else if |s| < 4 || (pad && |s| == 4 && s[3] == '=') {
      TailCanonical(a, s, pad);
    } else {
      Base64Canonical(a, s[4..], pad);
      GroupOfQuad(a, s[..4]);
      GroupCanonical(a, s, Quad(a, s[..4]).value, Decode64(a, s[4..], pad).value, pad);
    }
  }

  lemma TailCanonical(a: Alphabet, s: string, pad: bool)
    requires s != "" && (|s| < 4 || (pad && |s| == 4 && s[3] == '=')) && Decode64(a, s, pad).Some?
    ensures Encode64(a, Decode64(a, s, pad).value, pad) == s
  {
    var n := if |s| == 4 then (if s[2] == '=' then 2 else 3) else |s|;
    assert s[..n] == if |s| == 4 then s[..n] else s;
    if n == 2 {
      Tail2Canonical(a, s[..2]);
    } else {
      Tail3Canonical(a, s[..3]);
    }
    TailEncoded(a, Decode64(a, s, pad).value, pad);
  }

  lemma GroupCanonical(a: Alphabet, s: string, q: seq<byte>, rest: seq<byte>, pad: bool)
    requires |s| >= 4 && |q| == 3 && Group(a, q[0], q[1], q[2]) == s[..4] && Encode64(a, rest, pad) == s[4..]
    ensures Encode64(a, q + rest, pad) == s
  {
    GroupEncoded(a, q + rest, pad);
    assert (q + rest)[3..] == rest;
    assert s == s[..4] + s[4..];
  }

  function Length64(n: nat, pad: bool): nat {
    if pad then (n + 2) / 3 * 4 else (4 * n + 2) / 3
  }

  lemma Length64Step(n: nat, pad: bool)
    requires n >= 3
    ensures Length64(n, pad) == 4 + Length64(n - 3, pad)
  {
    if pad {
      assert (n + 2) / 3 == (n - 3 + 2) / 3 + 1;
    } else {
      assert (4 * n + 2) / 3 == (4 * (n - 3) + 2) / 3 + 4;
    }
  }

  // -- base64, by its tables -----------------------------------------------------------------

  /** Tables 1 and 2 of RFC 4648. */
  const UPPER_LETTERS := "ABCDEFGHIJKLMNOPQRSTUVWXYZ"
  const LOWER_LETTERS := "abcdefghijklmnopqrstuvwxyz"
  const DIGITS := "0123456789"
  const STANDARD_TABLE := UPPER_LETTERS + LOWER_LETTERS + DIGITS + "+/"
  const URL_SAFE_TABLE := UPPER_LETTERS + LOWER_LETTERS + DIGITS + "-_"

  function Table(a: Alphabet): string {
    match a
    case Standard => STANDARD_TABLE
    case UrlSafe => URL_SAFE_TABLE
  }

  /** The symbols are those of the table, in its order. */
  lemma SymbolTable(a: Alphabet, i: nat)
    requires i < 64
    ensures |Table(a)| == 64 && Symbol(a, i) == Table(a)[i]
  {
    if i < 26 {
      assert Table(a)[i] == UPPER_LETTERS[i];
      UpperLetters(i);
    } else if i < 52 {
      assert Table(a)[i] == LOWER_LETTERS[i - 26];
      LowerLetters(i - 26);
    } else if i < 62 {
      assert Table(a)[i] == DIGITS[i - 52];
    }
  }

  lemma UpperLetters(i: nat)
    requires i < 26
    ensures UPPER_LETTERS[i] as int == 'A' as int + i
  {
  }

  lemma LowerLetters(i: nat)
    requires i < 26
    ensures LOWER_LETTERS[i] as int == 'a' as int + i
  {
  }

  /** Three bytes are one number of 24 bits, written in base 64 with the table's digits. */
  lemma GroupDigits(a: Alphabet, x: byte, y: byte, z: byte)
    ensures var n := x * 65536 + y * 256 + z;
            && 0 <= n < 16777216 && |Table(a)| == 64
            && Group(a, x, y, z) ==
               [Table(a)[n / 262144], Table(a)[n / 4096 % 64], Table(a)[n / 64 % 64], Table(a)[n % 64]]
  {
    var n := x * 65536 + y * 256 + z;
    var p, q, r, u := x / 4, x % 4 * 16 + y / 16, y % 16 * 4 + z / 64, z % 64;
    Regroup(x, y, z);
    assert n == p * 262144 + q * 4096 + r * 64 + u;
    Base64Digits(n, p, q, r, u);
    SymbolTable(a, p);
    SymbolTable(a, q);
    SymbolTable(a, r);
    SymbolTable(a, u);
  }

  lemma Base64Digits(n: int, p: int, q: int, r: int, u: int)
    requires 0 <= p < 64 && 0 <= q < 64 && 0 <= r < 64 && 0 <= u < 64
    requires n == p * 262144 + q * 4096 + r * 64 + u
    ensures n / 262144 == p && n / 4096 % 64 == q && n / 64 % 64 == r && n % 64 == u
  {
    assert n / 4096 == p * 64 + q;
    assert n / 64 == p * 4096 + q * 64 + r;
  }

  /** The k-th three bytes are the k-th four symbols. */
  lemma {:induction false} GroupAt(a: Alphabet, b: seq<byte>, pad: bool, k: nat)
    requires 3 * k + 3 <= |b|
    ensures |Encode64(a, b, pad)| >= 4 * k + 4
    ensures Encode64(a, b, pad)[4 * k..4 * k + 4] == Group(a, b[3 * k], b[3 * k + 1], b[3 * k + 2])
  {
    GroupEncoded(a, b, pad);
    if k > 0 {
      var rest := b[3..];
      GroupAt(a, rest, pad, k - 1);
      assert forall i :: 0 <= i < |rest| ==> rest[i] == b[i + 3];
      assert Encode64(a, b, pad)[4 * k..4 * k + 4] == Encode64(a, b, pad)[4..][4 * (k - 1)..4 * (k - 1) + 4];
    }
  }

  /** A last single byte, with zero bits up to the next symbol, and padding up to four if asked for. */
  lemma LastByteDigits(a: Alphabet, x: byte, pad: bool)
    ensures |Table(a)| == 64
    ensures Encode64(a, [x], pad) == [Table(a)[x / 4], Table(a)[x % 4 * 16]] + if pad then "==" else ""
  {
    SymbolTable(a, x / 4);
    SymbolTable(a, x % 4 * 16);
  }

  lemma TwoDigits(x: byte, y: byte)
    ensures var n, q, r := x * 1024 + y * 4, x % 4 * 16 + y / 16, y % 16 * 4;
            && 0 <= q < 64 && 0 <= r < 64 && n == x / 4 * 4096 + q * 64 + r
            && n / 4096 == x / 4 && n / 64 % 64 == q && n % 64 == r
  {
    var n, q, r := x * 1024 + y * 4, x % 4 * 16 + y / 16, y % 16 * 4;
    assert n == x / 4 * 4096 + q * 64 + r;
    Base64Digits(n, 0, x / 4, q, r);
  }

  /** And the last two bytes. */
  lemma LastTwoDigits(a: Alphabet, x: byte, y: byte, pad: bool)
    ensures |Table(a)| == 64
    ensures var n := x * 1024 + y * 4;
            && 0 <= n < 262144
            && Encode64(a, [x, y], pad) ==
               [Table(a)[n / 4096], Table(a)[n / 64 % 64], Table(a)[n % 64]] + if pad then "=" else ""
  {
    TwoDigits(x, y);
    ThreeSymbols(a, x, y, x / 4, x % 4 * 16 + y / 16, y % 16 * 4, pad);
    FromTable(a, x / 4, x % 4 * 16 + y / 16, y % 16 * 4);
  }

  lemma FromTable(a: Alphabet, p: int, q: int, r: int)
    requires 0 <= p < 64 && 0 <= q < 64 && 0 <= r < 64
    ensures |Table(a)| == 64
    ensures [Symbol(a, p), Symbol(a, q), Symbol(a, r)] == [Table(a)[p], Table(a)[q], Table(a)[r]]
  {
    SymbolTable(a, p);
    SymbolTable(a, q);
    SymbolTable(a, r);
  }

  lemma ThreeSymbols(a: Alphabet, x: byte, y: byte, p: int, q: int, r: int, pad: bool)
    requires p == x / 4 && q == x % 4 * 16 + y / 16 && r == y % 16 * 4
    requires 0 <= p < 64 && 0 <= q < 64 && 0 <= r < 64
    ensures Encode64(a, [x, y], pad) == [Symbol(a, p), Symbol(a, q), Symbol(a, r)] + if pad then "=" else ""
  {
  }

  lemma {:induction false} Base64Length(a: Alphabet, b: seq<byte>, pad: bool)
    ensures |Encode64(a, b, pad)| == Length64(|b|, pad)
  {
    if |b| >= 3 {
      Base64Length(a, b[3..], pad);
      GroupEncoded(a, b, pad);
      Length64Step(|b|, pad);
    } else if |b| > 0 {
      TailEncoded(a, b, pad);
    }
  }

  predicate EndsPadded(s: string) {
    s != "" && s[|s| - 1] == '='
  }

  lemma GroupShows(a: Alphabet, b: seq<byte>)
    requires |b| >= 3 && EndsPadded(Encode64(a, b[3..], true))
    ensures EndsPadded(Encode64(a, b, true))
  {
    GroupEncoded(a, b, true);
    LastOf(Encode64(a, b, true), 4);
  }

  lemma LastOf(s: string, n: nat)
    requires n < |s|
    ensures s[|s| - 1] == s[n..][|s| - n - 1]
  {
  }

  lemma Mod3(n: nat)
    requires n >= 3
    ensures (n - 3) % 3 == n % 3
  {
  }

  lemma {:induction false} PaddingShows(a: Alphabet, b: seq<byte>)
    requires |b| % 3 != 0
    ensures EndsPadded(Encode64(a, b, true))
  {
    if |b| >= 3 {
      Mod3(|b|);
      PaddingShows(a, b[3..]);
      GroupShows(a, b);
    } else {
      TailEncoded(a, b, true);
    }
  }

  /** What decodes unpadded is letters, digits and the alphabet's two signs. */
  lemma {:induction false} Base64Symbols(a: Alphabet, s: string, i: nat)
    requires Decode64(a, s, false).Some? && i < |s|
    ensures Value(a, s[i]).Some?
  {
    if |s| >= 4 && i >= 4 {
      Base64Symbols(a, s[4..], i - 4);
    }
  }

  // -- hexadecimal ---------------------------------------------------------------------------

  function HexDigit(n: int): char
    requires 0 <= n < 16
  {
    if n < 10 then ('0' as int + n) as char else ('a' as int + (n - 10)) as char
  }

  /** Either case is accepted. */
  function HexValue(c: char): Option<int> {
    if '0' <= c <= '9' then Some(c as int - '0' as int)
    else if 'a' <= c <= 'f' then Some(c as int - 'a' as int + 10)
    else if 'A' <= c <= 'F' then Some(c as int - 'A' as int + 10)
    else None
  }

  function HexPrint(b: seq<byte>): string {
    if b == [] then "" else [HexDigit(b[0] / 16), HexDigit(b[0] % 16)] + HexPrint(b[1..])
  }

  function HexPair(p: char, q: char): Option<seq<byte>> {
    match (HexValue(p), HexValue(q))
    case (Some(x), Some(y)) => Some([x * 16 + y])
    case _ => None
  }

  /** Pairs of digits; an odd length or any other character is refused. */
  function HexDecode(s: string): Option<seq<byte>> {
    if s == "" then Some([])
    else if |s| == 1 then None
    else Map2(HexPair(s[0], s[1]), HexDecode(s[2..]))
  }

  lemma {:induction false} HexRoundTrip(b: seq<byte>)
    ensures |HexPrint(b)| == 2 * |b| && HexDecode(HexPrint(b)) == Some(b)
  {
    if b != [] {
      HexRoundTrip(b[1..]);
      assert HexPair(HexDigit(b[0] / 16), HexDigit(b[0] % 16)) == Some([b[0]]);
      assert HexPrint(b)[2..] == HexPrint(b[1..]) && b == [b[0]] + b[1..];
    }
  }

  lemma {:induction false} HexPlain(b: seq<byte>, i: nat)
    requires i < |HexPrint(b)|
    ensures HexValue(HexPrint(b)[i]).Some?
  {
    if i >= 2 {
      HexPlain(b[1..], i - 2);
    }
  }

  /** What `hex_decode` accepts: an even number of hex digits, half as many bytes. */
  lemma {:induction false} HexAccepts(s: string)
    ensures HexDecode(s).Some? <==> |s| % 2 == 0 && forall i :: 0 <= i < |s| ==> HexValue(s[i]).Some?
    ensures HexDecode(s).Some? ==> |HexDecode(s).value| * 2 == |s|
  {
    if |s| >= 2 {
      HexAccepts(s[2..]);
      assert s == [s[0], s[1]] + s[2..];
      if HexDecode(s).Some? {
        forall i | 0 <= i < |s| ensures HexValue(s[i]).Some? {
          if i >= 2 {
            assert s[i] == s[2..][i - 2];
          }
        }
      }
    }
  }

  const HEX_TABLE := "0123456789abcdef"
  const UPPER_HEX_TABLE := "0123456789ABCDEF"

  lemma HexTable(n: nat)
    requires n < 16
    ensures HexDigit(n) == HEX_TABLE[n]
    ensures HexValue(HEX_TABLE[n]) == Some(n) == HexValue(UPPER_HEX_TABLE[n])
  {
  }

  lemma HexValueIff(c: char, n: nat)
    requires n < 16
    ensures HexValue(c) == Some(n) <==> c == HEX_TABLE[n] || c == UPPER_HEX_TABLE[n]
  {
    HexTable(n);
  }

  /** The i-th pair of characters prints x. */
  predicate PrintedAt(s: string, i: nat, x: byte) {
    2 * i + 1 < |s| && s[2 * i] == HEX_TABLE[x / 16] && s[2 * i + 1] == HEX_TABLE[x % 16]
  }

  lemma PrintedShift(p: string, s: string, i: nat, x: byte)
    requires |p| == 2 && PrintedAt(s, i, x)
    ensures PrintedAt(p + s, i + 1, x)
  {
    assert (p + s)[2 * (i + 1)] == s[2 * i];
    assert (p + s)[2 * (i + 1) + 1] == s[2 * i + 1];
  }

  lemma PrintedFirst(x: byte, s: string)
    ensures PrintedAt([HexDigit(x / 16), HexDigit(x % 16)] + s, 0, x)
  {
    HexTable(x / 16);
    HexTable(x % 16);
  }

  /** The i-th byte is printed as its two digits, the higher first. */
  lemma {:induction false} HexPrintAt(b: seq<byte>, i: nat)
    requires i < |b|
    ensures PrintedAt(HexPrint(b), i, b[i])
  {
    if i > 0 {
      HexPrintAt(b[1..], i - 1);
      PrintedShift([HexDigit(b[0] / 16), HexDigit(b[0] % 16)], HexPrint(b[1..]), i - 1, b[i]);
    } else {
      PrintedFirst(b[0], HexPrint(b[1..]));
    }
  }

  predicate DigitOf(c: char, n: int)
    requires 0 <= n < 16
  {
    c == HEX_TABLE[n] || c == UPPER_HEX_TABLE[n]
  }

  lemma Nibbles(hi: int, lo: int)
    requires 0 <= hi < 16 && 0 <= lo < 16
    ensures 0 <= hi * 16 + lo < 256 && (hi * 16 + lo) / 16 == hi && (hi * 16 + lo) % 16 == lo
  {
  }

  lemma HexRead(c: char)
    requires HexValue(c).Some?
    ensures 0 <= HexValue(c).value < 16 && DigitOf(c, HexValue(c).value)
  {
    HexValueIff(c, HexValue(c).value);
  }

  lemma HexPairDigits(p: char, q: char)
    requires HexPair(p, q).Some?
    ensures |HexPair(p, q).value| == 1
    ensures var x := HexPair(p, q).value[0]; DigitOf(p, x / 16) && DigitOf(q, x % 16)
  {
    HexRead(p);
    HexRead(q);
    Nibbles(HexValue(p).value, HexValue(q).value);
  }

  /** The i-th pair of characters are the two digits of x. */
  predicate DigitsAt(s: string, i: nat, x: byte) {
    2 * i + 1 < |s| && DigitOf(s[2 * i], x / 16) && DigitOf(s[2 * i + 1], x % 16)
  }

  lemma DigitsShift(s: string, i: nat, x: byte)
    requires |s| >= 2 && i > 0 && DigitsAt(s[2..], i - 1, x)
    ensures DigitsAt(s, i, x)
  {
    assert s[2..][2 * (i - 1)] == s[2 * i];
    assert s[2..][2 * (i - 1) + 1] == s[2 * i + 1];
  }

  lemma HexStep(s: string)
    requires s != "" && HexDecode(s).Some?
    ensures |s| >= 2 && HexPair(s[0], s[1]).Some? && |HexPair(s[0], s[1]).value| == 1 && HexDecode(s[2..]).Some?
    ensures HexDecode(s).value == HexPair(s[0], s[1]).value + HexDecode(s[2..]).value
  {
  }

  /** And read from them, in either case. */
  lemma {:induction false} HexDecodeAt(s: string, i: nat)
    requires HexDecode(s).Some? && i < |HexDecode(s).value|
    ensures DigitsAt(s, i, HexDecode(s).value[i])
  {
    HexStep(s);
    if i > 0 {
      HexDecodeAt(s[2..], i - 1);
      DigitsShift(s, i, HexDecode(s[2..]).value[i - 1]);
    } else {
      HexPairDigits(s[0], s[1]);
    }
  }

  /** `sha256_hex` and its kind print a digest byte by byte. */
  method PrintHex(b: seq<byte>) returns (out: string)
    ensures out == HexPrint(b)
  {
    out := "";
    for i := 0 to |b|
      invariant out + HexPrint(b[i..]) == HexPrint(b)
    {
      out := out + [HexDigit(b[i] / 16), HexDigit(b[i] % 16)];
      assert b[i..][1..] == b[i + 1..];
    }
  }

  // -- decimal --------------------------------------------------------------------------------

  const I64_MIN: int := -0x8000_0000_0000_0000
  const I64_MAX: int := 0x7fff_ffff_ffff_ffff

  function Digit(n: int): char
    requires 0 <= n < 10
  {
    ('0' as int + n) as char
  }

  function PrintNat(n: nat): string {
    if n < 10 then [Digit(n)] else PrintNat(n / 10) + [Digit(n % 10)]
  }

  function PrintInt(n: int): string {
    if n < 0 then "-" + PrintNat(-n) else PrintNat(n)
  }

  function ParseNat(s: string): Option<nat> {
    if s == "" then None
    else
      var c := s[|s| - 1];
      if !('0' <= c <= '9') then None
      else if |s| == 1 then Some(c as int - '0' as int)
      else
        match ParseNat(s[..|s| - 1])
        case Some(n) => Some(n * 10 + (c as int - '0' as int))
        case None => None
  }

  /** An optional sign and at least one digit, within 64 bits. */
  function ParseI64(s: string): Option<int> {
    var negative := s != "" && s[0] == '-';
    var digits := if s != "" && (s[0] == '-' || s[0] == '+') then s[1..] else s;
    match ParseNat(digits)
    case None => None
    case Some(n) =>
      var v: int := if negative then 0 - n else n;
      if I64_MIN <= v <= I64_MAX then Some(v) else None
  }

  lemma {:induction false} NatRoundTrip(n: nat)
    ensures ParseNat(PrintNat(n)) == Some(n) && |PrintNat(n)| > 0
    ensures forall i :: 0 <= i < |PrintNat(n)| ==> '0' <= PrintNat(n)[i] <= '9'
  {
    if n >= 10 {
      NatRoundTrip(n / 10);
      var s := PrintNat(n);
      assert s[..|s| - 1] == PrintNat(n / 10);
    }
  }

  function Pow10(k: nat): nat {
    if k == 0 then 1 else 10 * Pow10(k - 1)
  }

  lemma Pow10Positive(k: nat)
    ensures Pow10(k) > 0
  {
  }

  lemma DivDiv(n: nat, k: nat)
    requires k > 0
    ensures Pow10(k) > 0 && Pow10(k - 1) > 0 && n / Pow10(k) == n / 10 / Pow10(k - 1)
  {
    Pow10Positive(k);
    Pow10Positive(k - 1);
    var p := Pow10(k - 1);
    var q, m := n / 10 / p, n / 10;
    assert m == q * p + m % p;
    assert n == 10 * m + n % 10;
    assert n == q * (10 * p) + (10 * (m % p) + n % 10);
    Quotient(n, 10 * p, q, 10 * (m % p) + n % 10);
  }

  lemma Quotient(n: int, d: int, q: int, rest: int)
    requires d > 0 && n == q * d + rest && 0 <= rest < d
    ensures n / d == q
  {
    var p := n / d;
    assert n == p * d + n % d;
    if p < q {
      Multiples(p + 1, q, d);
    } else if p > q {
      Multiples(q + 1, p, d);
    }
  }

  lemma Multiples(a: int, b: int, d: int)
    requires a <= b && d > 0
    ensures a * d <= b * d && a * d == (a - 1) * d + d
  {
  }

  /** The k-th character from the right is the k-th decimal digit. */
  lemma {:induction false} DecimalDigit(n: nat, k: nat)
    requires k < |PrintNat(n)|
    ensures Pow10(k) > 0 && PrintNat(n)[|PrintNat(n)| - 1 - k] == "0123456789"[n / Pow10(k) % 10]
  {
    Pow10Positive(k);
    if k == 0 {
      assert n / Pow10(0) == n;
    } else {
      DecimalDigit(n / 10, k - 1);
      DivDiv(n, k);
    }
  }

  /** Without leading zeros, and with a minus sign exactly before the digits of a negative number. */
  lemma {:induction false} DecimalForm(n: int)
    ensures n >= 0 ==> PrintInt(n) == PrintNat(n)
    ensures n < 0 ==> PrintInt(n) == ['-'] + PrintNat(-n)
    ensures n >= 0 ==> PrintNat(n) != "" && (|PrintNat(n)| > 1 ==> PrintNat(n)[0] != '0')
  {
    if n >= 10 {
      DecimalForm(n / 10);
      if n / 10 < 10 {
        assert PrintNat(n / 10)[0] != '0';
      }
    }
  }

  lemma I64RoundTrip(n: int)
    requires I64_MIN <= n <= I64_MAX
    ensures ParseI64(PrintInt(n)) == Some(n)
    ensures forall i :: 0 <= i < |PrintInt(n)| ==> PrintInt(n)[i] == '-' || '0' <= PrintInt(n)[i] <= '9'
  {
    var m: nat := if n < 0 then -n else n;
    var digits := PrintNat(m);
    NatRoundTrip(m);
    if n < 0 {
      SignedDigits(digits);
    }
  }

  lemma SignedDigits(digits: string)
    ensures ("-" + digits)[0] == '-' && ("-" + digits)[1..] == digits
  {
  }

  // -- UUIDs -----------------------------------------------------------------------------------

  type Uuid = u: seq<byte> | |u| == 16 witness seq(16, _ => 0)

  function PrintUuid(u: Uuid): string {
    HexPrint(u[..4]) + "-" + HexPrint(u[4..6]) + "-" + HexPrint(u[6..8]) + "-" + HexPrint(u[8..10])
    + "-" + HexPrint(u[10..])
  }

  function ParseHyphenated(s: string): Option<seq<byte>>
    requires |s| == 36
  {
    if s[8] == '-' && s[13] == '-' && s[18] == '-' && s[23] == '-' then
      Map2(HexDecode(s[..8]), Map2(HexDecode(s[9..13]),
        Map2(HexDecode(s[14..18]), Map2(HexDecode(s[19..23]), HexDecode(s[24..])))))
    else None
  }

  /** Simple, hyphenated, braced and URN forms are told apart by their length. */
  function ParseUuid(s: string): (r: Option<seq<byte>>)
    ensures r.Some? ==> |r.value| == 16
  {
    if |s| == 32 then
      HexAccepts(s);
      HexDecode(s)
    else if |s| == 36 then
      HyphenatedLength(s);
      ParseHyphenated(s)
    else if |s| == 38 && s[0] == '{' && s[37] == '}' then
      HyphenatedLength(s[1..37]);
      ParseHyphenated(s[1..37])
    else if |s| == 45 && s[..9] == "urn:uuid:" then
      HyphenatedLength(s[9..]);
      ParseHyphenated(s[9..])
    else None
  }

  lemma HyphenatedLength(s: string)
    requires |s| == 36
    ensures ParseHyphenated(s).Some? ==> |ParseHyphenated(s).value| == 16
  {
    HexAccepts(s[..8]);
    HexAccepts(s[9..13]);
    HexAccepts(s[14..18]);
    HexAccepts(s[19..23]);
    HexAccepts(s[24..]);
  }

  /** Five fields joined by hyphens, each where its length puts it. */
  lemma Fields(a: string, b: string, c: string, d: string, e: string)
    requires |a| == 8 && |b| == |c| == |d| == 4 && |e| == 12
    ensures var s := a + "-" + b + "-" + c + "-" + d + "-" + e;
            |s| == 36 && s[8] == '-' && s[13] == '-' && s[18] == '-' && s[23] == '-'
            && s[..8] == a && s[9..13] == b && s[14..18] == c && s[19..23] == d && s[24..] == e
  {
  }

  lemma UuidSlices(u: Uuid)
    ensures var s := PrintUuid(u);
            |s| == 36 && s[8] == '-' && s[13] == '-' && s[18] == '-' && s[23] == '-'
            && s[..8] == HexPrint(u[..4]) && s[9..13] == HexPrint(u[4..6]) && s[14..18] == HexPrint(u[6..8])
            && s[19..23] == HexPrint(u[8..10]) && s[24..] == HexPrint(u[10..])
  {
    HexRoundTrip(u[..4]);
    HexRoundTrip(u[4..6]);
    HexRoundTrip(u[6..8]);
    HexRoundTrip(u[8..10]);
    HexRoundTrip(u[10..]);
    Fields(HexPrint(u[..4]), HexPrint(u[4..6]), HexPrint(u[6..8]), HexPrint(u[8..10]), HexPrint(u[10..]));
  }

  lemma HyphenatedIs(s: string, a: seq<byte>, b: seq<byte>, c: seq<byte>, d: seq<byte>, e: seq<byte>)
    requires |s| == 36 && s[8] == '-' && s[13] == '-' && s[18] == '-' && s[23] == '-'
    requires HexDecode(s[..8]) == Some(a) && HexDecode(s[9..13]) == Some(b) && HexDecode(s[14..18]) == Some(c)
    requires HexDecode(s[19..23]) == Some(d) && HexDecode(s[24..]) == Some(e)
    ensures ParseHyphenated(s) == Some(a + (b + (c + (d + e))))
  {
  }

  lemma FiveFields(u: Uuid)
    ensures u == u[..4] + (u[4..6] + (u[6..8] + (u[8..10] + u[10..])))
  {
  }

  lemma UuidRoundTrip(u: Uuid)
    ensures ParseUuid(PrintUuid(u)) == Some(u)
  {
    UuidSlices(u);
    HexRoundTrip(u[..4]);
    HexRoundTrip(u[4..6]);
    HexRoundTrip(u[6..8]);
    HexRoundTrip(u[8..10]);
    HexRoundTrip(u[10..]);
    HyphenatedIs(PrintUuid(u), u[..4], u[4..6], u[6..8], u[8..10], u[10..]);
    FiveFields(u);
  }

  /** The other forms in which a UUID is accepted: without hyphens, in braces, and as a URN. */
  lemma UuidForms(u: Uuid)
    ensures ParseUuid(HexPrint(u)) == Some(u)
    ensures ParseUuid("{" + PrintUuid(u) + "}") == Some(u)
    ensures ParseUuid("urn:uuid:" + PrintUuid(u)) == Some(u)
  {
    HexRoundTrip(u);
    UuidRoundTrip(u);
    UuidSlices(u);
    Braced(PrintUuid(u));
    AsUrn(PrintUuid(u));
  }

  lemma Braced(s: string)
    requires |s| == 36
    ensures ParseUuid("{" + s + "}") == ParseUuid(s)
  {
    assert ("{" + s + "}")[1..37] == s;
  }

  lemma AsUrn(s: string)
    requires |s| == 36
    ensures ParseUuid("urn:uuid:" + s) == ParseUuid(s)
  {
    var n := "urn:uuid:" + s;
    assert |n| == 45 && n[..9] == "urn:uuid:" && n[9..] == s;
  }

  /** A printed UUID is hex digits and hyphens. */
  lemma UuidPlain(u: Uuid, i: nat)
    requires i < 36
    ensures |PrintUuid(u)| == 36 && (PrintUuid(u)[i] == '-' || HexValue(PrintUuid(u)[i]).Some?)
  {
    UuidSlices(u);
    var s := PrintUuid(u);
    if i < 8 {
      assert s[i] == s[..8][i];
      HexPlain(u[..4], i);
    } else if 9 <= i < 13 {
      assert s[i] == s[9..13][i - 9];
      HexPlain(u[4..6], i - 9);
    } else if 14 <= i < 18 {
      assert s[i] == s[14..18][i - 14];
      HexPlain(u[6..8], i - 14);
    } else if 19 <= i < 23 {
      assert s[i] == s[19..23][i - 19];
      HexPlain(u[8..10], i - 19);
    } else if i >= 24 {
      assert s[i] == s[24..][i - 24];
      HexPlain(u[10..], i - 24);
    }
  }
}
