/**
 Reading `ENCRYPTION_KEY`: hex, then unpadded base64url, then padded base64, and exactly 32 bytes
 (src/crypto/mod.rs).
 */
module EncryptionKey {
  import opened Wrappers
  import opened Text

  type Key = k: seq<byte> | |k| == 32 witness seq(32, _ => 0)

  datatype Outcome = Parsed(key: Key) | NotEncoded | WrongLength(got: nat)

  function OrElse<T>(a: Option<T>, b: Option<T>): Option<T> {
    if a.Some? then a else b
  }

  function Bytes(t: string): Option<seq<byte>> {
    OrElse(HexDecode(t), OrElse(Decode64(UrlSafe, t, false), Decode64(Standard, t, true)))
  }

  function Parse(raw: string): Outcome {
    match Bytes(Trim(raw))
    case None => NotEncoded
    case Some(b) => if |b| != 32 then WrongLength(|b|) else Parsed(b)
  }

  method ParseEncryptionKey(raw: string) returns (out: Outcome)
    ensures out == Parse(raw)
  {
    var decoded := Bytes(Trim(raw));
    if decoded.None? {
      return NotEncoded;
    }
    if |decoded.value| != 32 {
      return WrongLength(|decoded.value|);
    }
    var key := new byte[32](_ => 0);
    for i := 0 to 32
      invariant key[..i] == decoded.value[..i]
    {
      key[i] := decoded.value[i];
    }
    assert key[..] == decoded.value;
    return Parsed(key[..]);
  }

  /** `noise` stands for what the random generator wrote. */
  method GenerateEncryptionKey(noise: seq<byte>) returns (out: string)
    requires |noise| == 32
    ensures Parse(out) == Parsed(noise) && |out| == 43
  {
    out := Encode64(UrlSafe, noise, false);
    Base64Length(UrlSafe, noise, false);
    SpellingsAreClean(noise, out);
    AcceptedIff(out, noise);
  }

  // -- The three spellings of a key ------------------------------------------------------------

  /** A text in one of the three encodings of some bytes, of any length. */
  predicate Encodes(t: string, b: seq<byte>) {
    Lower(t) == HexPrint(b) || t == Encode64(UrlSafe, b, false) || t == Encode64(Standard, b, true)
  }

  predicate Spells(t: string, k: Key) {
    Encodes(t, k)
  }

  lemma {:induction false} HexDecodesIff(t: string, k: seq<byte>)
    ensures HexDecode(t) == Some(k) <==> Lower(t) == HexPrint(k)
  {
    if |t| <= 1 || k == [] {
      HexRoundTrip(k);
      LowerLength(t);
      HexAccepts(t);
    } else {
      HexDecodesIff(t[2..], k[1..]);
      DigitsIff(t[0], t[1], k[0]);
      var l, h := [LowerCase(t[0]), LowerCase(t[1])], [HexDigit(k[0] / 16), HexDigit(k[0] % 16)];
      assert t[1..][1..] == t[2..];
      assert Lower(t) == l + Lower(t[2..]);
      Cancel(l, Lower(t[2..]), h, HexPrint(k[1..]));
      assert k == [k[0]] + k[1..];
      if HexPair(t[0], t[1]).Some? && HexDecode(t[2..]).Some? {
        Cancel(HexPair(t[0], t[1]).value, HexDecode(t[2..]).value, [k[0]], k[1..]);
      }
    }
  }

  lemma Cancel<T>(a: seq<T>, b: seq<T>, c: seq<T>, d: seq<T>)
    requires |a| == |c|
    ensures a + b == c + d <==> a == c && b == d
  {
    assert (a + b)[..|a|] == a && (a + b)[|a|..] == b;
    assert (c + d)[..|c|] == c && (c + d)[|c|..] == d;
  }

  lemma {:induction false} LowerLength(s: string)
    ensures |Lower(s)| == |s|
  {
    if s != "" {
      LowerLength(s[1..]);
    }
  }

  lemma DigitsIff(p: char, q: char, x: byte)
    ensures HexPair(p, q) == Some([x]) <==> [LowerCase(p), LowerCase(q)] == [HexDigit(x / 16), HexDigit(x % 16)]
  {
    DigitIff(p, x / 16);
    DigitIff(q, x % 16);
    if HexPair(p, q).Some? {
      var u, v := HexValue(p).value, HexValue(q).value;
      assert 0 <= v < 16;
      assert u * 16 + v == x <==> u == x / 16 && v == x % 16;
      assert HexPair(p, q).value == [u * 16 + v];
      assert [u * 16 + v] == [x] <==> u * 16 + v == x;
    }
    var l, h := [LowerCase(p), LowerCase(q)], [HexDigit(x / 16), HexDigit(x % 16)];
    assert l == h <==> l[0] == h[0] && l[1] == h[1];
  }

  lemma DigitIff(p: char, n: int)
    requires 0 <= n < 16
    ensures HexValue(p) == Some(n) <==> LowerCase(p) == HexDigit(n)
  {
  }

  /** An odd length or a '=' rules a spelling out of every decoder before its own. */
  lemma EarlierDecodersRefuse(k: Key)
    ensures HexDecode(Encode64(UrlSafe, k, false)).None?
    ensures HexDecode(Encode64(Standard, k, true)).None?
    ensures Decode64(UrlSafe, Encode64(Standard, k, true), false).None?
  {
    var unpadded, padded := Encode64(UrlSafe, k, false), Encode64(Standard, k, true);
    assert |unpadded| == 43 by {
      Base64Length(UrlSafe, k, false);
    }
    OddRefused(unpadded);
    assert padded != "" && padded[|padded| - 1] == '=' by {
      PaddingShows(Standard, k);
    }
    EqualsSignRefused(padded);
  }

  lemma OddRefused(s: string)
    requires |s| % 2 == 1
    ensures HexDecode(s).None?
  {
    HexAccepts(s);
  }

  lemma EqualsSignRefused(s: string)
    requires s != "" && s[|s| - 1] == '='
    ensures HexDecode(s).None? && Decode64(UrlSafe, s, false).None?
  {
    HexAccepts(s);
    if Decode64(UrlSafe, s, false).Some? {
      Base64Symbols(UrlSafe, s, |s| - 1);
    }
  }

  /** A text is read as k exactly when, trimmed, it is one of the three spellings of k. */
  lemma AcceptedIff(raw: string, k: Key)
    ensures Parse(raw) == Parsed(k) <==> Spells(Trim(raw), k)
  {
    var t := Trim(raw);
    HexDecodesIff(t, k);
    EarlierDecodersRefuse(k);
    Base64RoundTrip(UrlSafe, k, false);
    Base64RoundTrip(Standard, k, true);
    if Decode64(UrlSafe, t, false).Some? {
      Base64Canonical(UrlSafe, t, false);
    }
    if Decode64(Standard, t, true).Some? {
      Base64Canonical(Standard, t, true);
    }
  }

  /** A text is not encoded exactly when it encodes nothing, and a wrong length is that of bytes it encodes. */
  lemma RefusedIff(raw: string)
    ensures Parse(raw).NotEncoded? <==> forall b :: !Encodes(Trim(raw), b)
    ensures Parse(raw).WrongLength? ==> exists b :: Encodes(Trim(raw), b) && |b| == Parse(raw).got != 32
  {
    var t := Trim(raw);
    forall b | Encodes(t, b) ensures Bytes(t).Some? {
      HexDecodesIff(t, b);
      Base64RoundTrip(UrlSafe, b, false);
      Base64RoundTrip(Standard, b, true);
    }
    if Bytes(t).Some? {
      var b := Bytes(t).value;
      HexDecodesIff(t, b);
      if Decode64(UrlSafe, t, false).Some? {
        Base64Canonical(UrlSafe, t, false);
      }
      if Decode64(Standard, t, true).Some? {
        Base64Canonical(Standard, t, true);
      }
      assert Encodes(t, b);
    }
  }

  /** No text spells two keys, and no key has a spelling that reads differently. */
  lemma SpellingsAreUnambiguous(t: string, k: Key, l: Key)
    requires Spells(t, k) && Spells(t, l)
    ensures k == l
  {
    HexDecodesIff(t, k);
    HexDecodesIff(t, l);
    EarlierDecodersRefuse(k);
    EarlierDecodersRefuse(l);
    Base64RoundTrip(UrlSafe, k, false);
    Base64RoundTrip(UrlSafe, l, false);
    Base64RoundTrip(Standard, k, true);
    Base64RoundTrip(Standard, l, true);
  }

  lemma PlainIsNotSpace(t: string, i: nat)
    requires i < |t|
    requires HexDecode(t).Some? || Value(UrlSafe, t[i]).Some? || Value(Standard, t[i]).Some? || t[i] == '='
    ensures !Space(t[i])
  {
    HexAccepts(t);
  }

  lemma {:induction false} PaddedSymbols(a: Alphabet, b: seq<byte>, i: nat)
    requires i < |Encode64(a, b, true)|
    ensures Value(a, Encode64(a, b, true)[i]).Some? || Encode64(a, b, true)[i] == '='
  {
    if |b| >= 3 {
      if i >= 4 {
        PaddedSymbols(a, b[3..], i - 4);
      } else {
        QuadOfGroup(a, b[0], b[1], b[2]);
      }
    } else {
      TailDecodes(a, b);
      assert i < |b| + 1 ==> Encode64(a, b, true)[i] == Encode64(a, b, false)[i];
    }
  }

  lemma NoSpaceInside(t: string, k: Key, i: nat)
    requires Spells(t, k) && i < |t|
    ensures !Space(t[i])
  {
    HexDecodesIff(t, k);
    if t == Encode64(UrlSafe, k, false) {
      Base64RoundTrip(UrlSafe, k, false);
      Base64Symbols(UrlSafe, t, i);
    } else if t == Encode64(Standard, k, true) {
      PaddedSymbols(Standard, k, i);
    }
    PlainIsNotSpace(t, i);
  }

  lemma SpellingsAreClean(k: Key, t: string)
    requires Spells(t, k)
    ensures t != "" && Trim(t) == t
  {
    SpellingLength(t, k);
    NoSpaceInside(t, k, 0);
    NoSpaceInside(t, k, |t| - 1);
  }

  lemma SpellingLength(t: string, k: Key)
    requires Spells(t, k)
    ensures |t| == 64 || |t| == 43 || |t| == 44
  {
    Base64Length(UrlSafe, k, false);
    Base64Length(Standard, k, true);
    HexRoundTrip(k);
    LowerLength(t);
  }

  /** White space around a spelling changes nothing: every key is read back from each of its spellings. */
  lemma RecoveredFromEverySpelling(k: Key, t: string, before: string, after: string)
    requires Spells(t, k)
    requires forall i :: 0 <= i < |before| ==> Space(before[i])
    requires forall i :: 0 <= i < |after| ==> Space(after[i])
    ensures Parse(before + t + after) == Parsed(k)
  {
    SpellingLength(t, k);
    NoSpaceInside(t, k, 0);
    NoSpaceInside(t, k, |t| - 1);
    TrimsAround(t, before, after);
    AcceptedIff(before + t + after, k);
  }

  lemma TrimsAround(t: string, before: string, after: string)
    requires t != "" && !Space(t[0]) && !Space(t[|t| - 1])
    requires forall i :: 0 <= i < |before| ==> Space(before[i])
    requires forall i :: 0 <= i < |after| ==> Space(after[i])
    ensures Trim(before + t + after) == t
  {
    StartTrims(before, t + after);
    EndTrims(t, after);
    assert before + t + after == before + (t + after);
  }

  lemma {:induction false} StartTrims(before: string, rest: string)
    requires rest != "" && !Space(rest[0])
    requires forall i :: 0 <= i < |before| ==> Space(before[i])
    ensures TrimStart(before + rest) == rest
  {
    if before == "" {
      assert before + rest == rest;
    } else {
      StartTrims(before[1..], rest);
      assert (before + rest)[1..] == before[1..] + rest;
    }
  }

  lemma {:induction false} EndTrims(t: string, after: string)
    requires t != "" && !Space(t[|t| - 1])
    requires forall i :: 0 <= i < |after| ==> Space(after[i])
    ensures TrimEnd(t + after) == t
  {
    if after == "" {
      assert t + after == t;
    } else {
      EndTrims(t, after[..|after| - 1]);
      assert (t + after)[..|t + after| - 1] == t + after[..|after| - 1];
    }
  }

  /**
   Why hex comes first: the 64 hex digits of a key are also 48 bytes of base64url, so the other order would
   refuse them.
   */
  lemma {:induction false} HexReadAsBase64(a: Alphabet, t: string)
    requires |t| % 4 == 0 && forall i :: 0 <= i < |t| ==> HexValue(t[i]).Some?
    ensures Decode64(a, t, false).Some? && |Decode64(a, t, false).value| == |t| / 4 * 3
  {
    if t != "" {
      HexReadAsBase64(a, t[4..]);
    }
  }
}
