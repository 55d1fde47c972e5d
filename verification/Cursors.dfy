/**
 The opaque keyset cursor: the last row's sort key, printed as text and wrapped in unpadded base64url
 (src/models/pagination.rs).
 */
module Cursors {
  import opened Wrappers
  import opened Text

  /** The range of chrono's UTC date-times, in microseconds around 1970. */
  const EARLIEST: int := -8_334_601_228_800_000_000
  const LATEST: int := 8_210_266_876_799_999_999

  type Micros = t: int | EARLIEST <= t <= LATEST witness 0

  datatype Cursor = Cursor(createdAt: Micros, id: Uuid)

  type ascii = s: string | forall i :: 0 <= i < |s| ==> s[i] as int < 128

  function Bytes(s: ascii): (b: seq<byte>)
    ensures |b| == |s|
  {
    seq(|s|, i requires 0 <= i < |s| => s[i] as int)
  }

  /**
   The text of some bytes. Text beyond ASCII is never part of a timestamp or a UUID, so it is refused here
   already.
   */
  function AsciiText(b: seq<byte>): Option<string> {
    if forall i :: 0 <= i < |b| ==> b[i] < 128 then Some(seq(|b|, i requires 0 <= i < |b| => b[i] as char)) else None
  }

  function Spelled(c: Cursor): string {
    PrintInt(c.createdAt) + "|" + PrintUuid(c.id)
  }

  function Encode(c: Cursor): string {
    SpelledIsAscii(c);
    Encode64(UrlSafe, Bytes(Spelled(c)), false)
  }

  function ParseSpelled(text: string): Option<Cursor> {
    match SplitOnce(text, '|')
    case None => None
    case Some((left, right)) =>
      match (ParseI64(left), ParseUuid(right))
      case (Some(t), Some(id)) => if EARLIEST <= t <= LATEST then Some(Cursor(t, id)) else None
      case _ => None
  }

  function Decode(raw: string): Option<Cursor> {
    match Decode64(UrlSafe, raw, false)
    case None => None
    case Some(b) =>
      match AsciiText(b)
      case None => None
      case Some(text) => ParseSpelled(text)
  }

  lemma SpelledIsAscii(c: Cursor)
    ensures forall i :: 0 <= i < |Spelled(c)| ==> Spelled(c)[i] as int < 128
  {
    I64RoundTrip(c.createdAt);
    var m := PrintInt(c.createdAt);
    forall i | 0 <= i < |Spelled(c)| ensures Spelled(c)[i] as int < 128 {
      if i > |m| {
        UuidSlices(c.id);
        UuidPlain(c.id, i - |m| - 1);
      }
    }
  }

  lemma BytesRoundTrip(s: ascii)
    ensures AsciiText(Bytes(s)) == Some(s)
  {
    var b := Bytes(s);
    assert forall i :: 0 <= i < |b| ==> b[i] == s[i] as int;
    assert AsciiText(b).Some?;
    assert AsciiText(b).value == s;
  }

  lemma TextRoundTrip(b: seq<byte>)
    requires AsciiText(b).Some?
    ensures Bytes(AsciiText(b).value) == b
  {
  }

  /** Every cursor the server hands out comes back as the key it was made from. */
  lemma RoundTrip(c: Cursor)
    ensures Decode(Encode(c)) == Some(c)
  {
    SpelledIsAscii(c);
    Base64RoundTrip(UrlSafe, Bytes(Spelled(c)), false);
    BytesRoundTrip(Spelled(c));
    I64RoundTrip(c.createdAt);
    UuidRoundTrip(c.id);
    SplitOnceIff(Spelled(c), '|', PrintInt(c.createdAt), PrintUuid(c.id));
  }

  lemma EncodeInjective(c: Cursor, d: Cursor)
    requires Encode(c) == Encode(d)
    ensures c == d
  {
    RoundTrip(c);
    RoundTrip(d);
  }

  /** A cursor goes into a query string as it is: letters, digits, '-' and '_' only. */
  lemma EncodedIsUrlSafe(c: Cursor, i: nat)
    requires i < |Encode(c)|
    ensures var x := Encode(c)[i]; 'A' <= x <= 'Z' || 'a' <= x <= 'z' || '0' <= x <= '9' || x == '-' || x == '_'
  {
    RoundTrip(c);
    Base64Symbols(UrlSafe, Encode(c), i);
    SymbolValue(UrlSafe, 0, Encode(c)[i]);
    SymbolTable(UrlSafe, Value(UrlSafe, Encode(c)[i]).value);
    UrlSafeTable(Value(UrlSafe, Encode(c)[i]).value);
  }

  lemma UrlSafeTable(i: nat)
    requires i < 64
    ensures var x := URL_SAFE_TABLE[i]; 'A' <= x <= 'Z' || 'a' <= x <= 'z' || '0' <= x <= '9' || x == '-' || x == '_'
  {
    SymbolTable(UrlSafe, i);
  }

  /** The text "t|u", wrapped. */
  predicate Wraps(raw: string, t: ascii, u: ascii) {
    raw == Encode64(UrlSafe, Bytes(t) + [124] + Bytes(u), false)
  }

  /** What is written: microseconds in decimal, a bar, the hyphenated UUID, as the bytes of that text. */
  lemma EncodeWraps(c: Cursor)
    ensures forall i :: 0 <= i < |PrintInt(c.createdAt)| ==> PrintInt(c.createdAt)[i] as int < 128
    ensures forall i :: 0 <= i < |PrintUuid(c.id)| ==> PrintUuid(c.id)[i] as int < 128
    ensures Wraps(Encode(c), PrintInt(c.createdAt), PrintUuid(c.id))
  {
    SpelledIsAscii(c);
    JoinedIsAscii(PrintInt(c.createdAt), PrintUuid(c.id), Spelled(c));
    JoinedBytes(PrintInt(c.createdAt), PrintUuid(c.id));
  }

  /**
   Accepted is exactly: the wrapping of a text "t|u" with t a timestamp in range and u a UUID, in any spelling
   of theirs.
   */
  lemma AcceptedIff(raw: string, c: Cursor)
    ensures Decode(raw) == Some(c) <==>
            exists t: ascii, u: ascii ::
              Wraps(raw, t, u) && '|' !in t && ParseI64(t) == Some(c.createdAt) && ParseUuid(u) == Some(c.id)
  {
    if Decode(raw).Some? {
      var r := AcceptedIsWrapped(raw);
    }
    forall t: ascii, u: ascii | Wraps(raw, t, u) && '|' !in t
      ensures Decode(raw) == ParseSpelled(t + "|" + u) && SplitOnce(t + "|" + u, '|') == Some((t, u))
    {
      WrappedIsDecoded(raw, t, u);
    }
  }

  lemma AcceptedIsWrapped(raw: string) returns (r: (ascii, ascii))
    requires Decode(raw).Some?
    ensures Wraps(raw, r.0, r.1) && '|' !in r.0
    ensures ParseI64(r.0) == Some(Decode(raw).value.createdAt) && ParseUuid(r.1) == Some(Decode(raw).value.id)
  {
    Base64Canonical(UrlSafe, raw, false);
    var b := Decode64(UrlSafe, raw, false).value;
    var text := AsciiText(b).value;
    var (t, u) := SplitOnce(text, '|').value;
    SplitOnceIff(text, '|', t, u);
    JoinedIsAscii(t, u, text);
    assert b == Bytes(t) + [124] + Bytes(u) by {
      TextRoundTrip(b);
      JoinedBytes(t, u);
    }
    r := (t, u);
  }

  lemma WrappedIsDecoded(raw: string, t: ascii, u: ascii)
    requires Wraps(raw, t, u) && '|' !in t
    ensures Decode(raw) == ParseSpelled(t + "|" + u) && SplitOnce(t + "|" + u, '|') == Some((t, u))
  {
    var text: ascii := t + "|" + u;
    JoinedBytes(t, u);
    Base64RoundTrip(UrlSafe, Bytes(text), false);
    BytesRoundTrip(text);
    SplitOnceIff(text, '|', t, u);
  }

  lemma JoinedBytes(t: ascii, u: ascii)
    ensures Bytes(t + "|" + u) == Bytes(t) + [124] + Bytes(u)
  {
  }

  lemma JoinedIsAscii(t: string, u: string, text: string)
    requires text == t + "|" + u && forall i :: 0 <= i < |text| ==> text[i] as int < 128
    ensures forall i :: 0 <= i < |t| ==> t[i] as int < 128
    ensures forall i :: 0 <= i < |u| ==> u[i] as int < 128
  {
    forall i | 0 <= i < |t| ensures t[i] as int < 128 {
      assert text[i] == t[i];
    }
    forall i | 0 <= i < |u| ensures u[i] as int < 128 {
      assert text[|t| + 1 + i] == u[i];
    }
  }
}
