/**
 Receiving an upload chunk by chunk, and naming its type from its first bytes (src/services/storage.rs).

 The backend and the database are asked once each and may fail; both answers are parameters. The digest is
 left as the bytes fed to it.
 */
module UploadStream {
  import opened Wrappers
  import opened Text
  import Utf8

  type FileId = nat

  const HEAD := 16

  // -- Content types ---------------------------------------------------------------------------

  const JPEG: seq<byte> := [0xFF, 0xD8, 0xFF]
  const PNG: seq<byte> := [0x89, 0x50, 0x4E, 0x47, 0x0D, 0x0A, 0x1A, 0x0A]
  const GIF87: seq<byte> := [0x47, 0x49, 0x46, 0x38, 0x37, 0x61]
  const GIF89: seq<byte> := [0x47, 0x49, 0x46, 0x38, 0x39, 0x61]
  const PDF: seq<byte> := [0x25, 0x50, 0x44, 0x46, 0x2D]
  const RIFF: seq<byte> := [0x52, 0x49, 0x46, 0x46]
  const WEBP: seq<byte> := [0x57, 0x45, 0x42, 0x50]
  const OCTETS := "application/octet-stream"

  /** The type a magic number gives away. */
  function Magic(b: seq<byte>): Option<string> {
    if JPEG <= b then Some("image/jpeg")
    else if PNG <= b then Some("image/png")
    else if GIF87 <= b || GIF89 <= b then Some("image/gif")
    else if PDF <= b then Some("application/pdf")
    else if |b| >= 12 && RIFF <= b && b[8..12] == WEBP then Some("image/webp")
    else None
  }

  predicate Control(c: char) {
    c as int <= 0x1F || 0x7F <= c as int <= 0x9F
  }

  predicate Printable(s: string) {
    forall i :: 0 <= i < |s| ==> !Control(s[i]) || s[i] in "\n\r\t"
  }

  predicate LooksTextual(b: seq<byte>) {
    b == [] || (var s := Utf8.Decode(Take(b, 512)); s.Some? && Printable(s.value))
  }

  /** Text may hold line breaks and tabs, but no other control character. */
  lemma PrintableIff(s: string)
    ensures Printable(s) <==>
            forall i :: 0 <= i < |s| ==> s[i] as int in {9, 10, 13} || 0x20 <= s[i] as int < 0x7F || 0xA0 <= s[i] as int
  {
    forall i | 0 <= i < |s|
      ensures !Control(s[i]) || s[i] in "\n\r\t" <==>
              s[i] as int in {9, 10, 13} || 0x20 <= s[i] as int < 0x7F || 0xA0 <= s[i] as int
    {
    }
  }

  function LastDot(name: string): (p: int)
    ensures -1 <= p < |name|
    ensures forall i :: p < i < |name| ==> name[i] != '.'
    ensures p >= 0 ==> name[p] == '.'
  {
    if name == "" then -1 else if name[|name| - 1] == '.' then |name| - 1 else LastDot(name[..|name| - 1])
  }

  /** What follows the last dot, unless that dot comes first. */
  function Extension(name: string): string {
    if LastDot(name) <= 0 then "" else name[LastDot(name) + 1..]
  }

  function TextType(name: string): string {
    var ext := Lower(Extension(name));
    if ext == "json" then "application/json"
    else if ext == "txt" || ext == "md" || ext == "csv" || ext == "log" then "text/plain"
    else OCTETS
  }

  function SniffMime(b: seq<byte>, name: string): string {
    match Magic(b)
    case Some(mime) => mime
    case None => if LooksTextual(b) then TextType(name) else OCTETS
  }

  function ExtensionFor(mime: string): string {
    if mime == "image/jpeg" then "jpg"
    else if mime == "image/png" then "png"
    else if mime == "image/gif" then "gif"
    else if mime == "image/webp" then "webp"
    else if mime == "application/pdf" then "pdf"
    else if mime == "application/json" then "json"
    else if mime == "text/plain" then "txt"
    else "bin"
  }

  /** The magic numbers, in bytes; whatever follows them. */
  lemma KnownMagic(rest: seq<byte>, size: seq<byte>)
    requires |size| == 4
    ensures Magic([0xFF, 0xD8, 0xFF] + rest) == Some("image/jpeg")
    ensures Magic([0x89, 0x50, 0x4E, 0x47, 0x0D, 0x0A, 0x1A, 0x0A] + rest) == Some("image/png")
    ensures Magic([0x47, 0x49, 0x46, 0x38, 0x37, 0x61] + rest) == Some("image/gif")
    ensures Magic([0x47, 0x49, 0x46, 0x38, 0x39, 0x61] + rest) == Some("image/gif")
    ensures Magic([0x25, 0x50, 0x44, 0x46, 0x2D] + rest) == Some("application/pdf")
    ensures Magic([0x52, 0x49, 0x46, 0x46] + size + [0x57, 0x45, 0x42, 0x50] + rest) == Some("image/webp")
  {
    assert ([0xFF, 0xD8, 0xFF] + rest)[0] == 0xFF;
    assert ([0x89, 0x50, 0x4E, 0x47, 0x0D, 0x0A, 0x1A, 0x0A] + rest)[0] == 0x89;
    assert ([0x47, 0x49, 0x46, 0x38, 0x37, 0x61] + rest)[0] == 0x47;
    assert ([0x47, 0x49, 0x46, 0x38, 0x39, 0x61] + rest)[0] == 0x47;
    assert ([0x25, 0x50, 0x44, 0x46, 0x2D] + rest)[0] == 0x25;
    var riff := [0x52, 0x49, 0x46, 0x46] + size + [0x57, 0x45, 0x42, 0x50] + rest;
    assert riff[0] == 0x52 && riff[..4] == RIFF && riff[8..12] == WEBP;
  }

  /** And nothing else has one. */
  lemma MagicIff(b: seq<byte>)
    ensures Magic(b).Some? <==>
            || [0xFF, 0xD8, 0xFF] <= b
            || [0x89, 0x50, 0x4E, 0x47, 0x0D, 0x0A, 0x1A, 0x0A] <= b
            || [0x47, 0x49, 0x46, 0x38, 0x37, 0x61] <= b
            || [0x47, 0x49, 0x46, 0x38, 0x39, 0x61] <= b
            || [0x25, 0x50, 0x44, 0x46, 0x2D] <= b
            || (|b| >= 12 && b[..4] == [0x52, 0x49, 0x46, 0x46] && b[8..12] == [0x57, 0x45, 0x42, 0x50])
  {
  }

  /** The extension a stored key gets, type by type. */
  lemma KeyExtensions(mime: string)
    ensures ExtensionFor("image/jpeg") == "jpg" && ExtensionFor("image/png") == "png"
    ensures ExtensionFor("image/gif") == "gif" && ExtensionFor("image/webp") == "webp"
    ensures ExtensionFor("application/pdf") == "pdf" && ExtensionFor("application/json") == "json"
    ensures ExtensionFor("text/plain") == "txt"
    ensures ExtensionFor(mime) != "bin" ==>
              mime in {"image/jpeg", "image/png", "image/gif", "image/webp", "application/pdf", "application/json",
                       "text/plain"}
    ensures ExtensionFor(mime) in {"jpg", "png", "gif", "webp", "pdf", "json", "txt", "bin"}
  {
  }

  /** The type a text gets from its name: by what follows the last dot, unless that is the first character. */
  lemma NamedType(stem: string, ext: string)
    requires stem != "" && '.' !in ext
    ensures Extension(stem + "." + ext) == ext
    ensures Extension("." + ext) == "" && Extension(ext) == ""
    ensures TextType(stem + "." + ext) ==
            if Lower(ext) == "json" then "application/json"
            else if Lower(ext) in {"txt", "md", "csv", "log"} then "text/plain"
            else "application/octet-stream"
  {
    DotIs(stem, ext);
    DotIs("", ext);
    assert "" + "." + ext == "." + ext;
  }

  lemma LastDotIs(name: string, p: nat)
    requires p < |name| && name[p] == '.' && forall i :: p < i < |name| ==> name[i] != '.'
    ensures LastDot(name) == p
  {
    var q := LastDot(name);
  }

  lemma NoDot(name: string)
    requires '.' !in name
    ensures LastDot(name) == -1
  {
    assert forall i :: 0 <= i < |name| ==> name[i] != '.';
  }

  lemma DotIs(stem: string, ext: string)
    requires '.' !in ext
    ensures LastDot(stem + "." + ext) == |stem|
    ensures LastDot(ext) == -1
    ensures (stem + "." + ext)[|stem| + 1..] == ext
  {
    var name := stem + "." + ext;
    NoDot(ext);
    forall i | |stem| < i < |name| ensures name[i] != '.' {
      assert name[i] == ext[i - |stem| - 1];
    }
    LastDotIs(name, |stem|);
  }

  // -- Names and visibility --------------------------------------------------------------------

  function Kept(name: string, room: nat): string {
    if name == "" || room == 0 then ""
    else if Control(name[0]) || name[0] == '/' || name[0] == '\\' then Kept(name[1..], room)
    else [name[0]] + Kept(name[1..], room - 1)
  }

  function SanitizeFilename(name: string): string {
    var trimmed := Trim(Kept(name, 255));
    if trimmed == "" then "unnamed_file" else trimmed
  }

  predicate PlainName(name: string) {
    forall i :: 0 <= i < |name| ==> !Control(name[i]) && name[i] != '/' && name[i] != '\\'
  }

  lemma {:induction false} KeptIsPlain(name: string, room: nat)
    ensures PlainName(Kept(name, room)) && |Kept(name, room)| <= room
  {
    if name != "" && room > 0 {
      KeptIsPlain(name[1..], room);
      KeptIsPlain(name[1..], room - 1);
    }
  }

  lemma {:induction false} TrimShortens(s: string)
    ensures PlainName(s) ==> PlainName(TrimStart(s)) && PlainName(TrimEnd(s))
    ensures |TrimStart(s)| <= |s| && |TrimEnd(s)| <= |s|
    decreases |s|
  {
    if s != "" {
      TrimShortens(s[1..]);
      TrimShortens(s[..|s| - 1]);
    }
  }

  /** A recorded name is one short path component, so `Extension` sees it whole. */
  lemma SanitizedNames(name: string)
    ensures var s := SanitizeFilename(name); 0 < |s| <= 255 && PlainName(s)
  {
    KeptIsPlain(name, 255);
    TrimShortens(Kept(name, 255));
    TrimShortens(TrimStart(Kept(name, 255)));
  }

  function NormalizeVisibility(value: string): Option<string> {
    var v := Lower(Trim(value));
    if v == "" || v == "private" then Some("private")
    else if v == "public" then Some("public")
    else None
  }

  lemma VisibilityIs(value: string)
    ensures NormalizeVisibility(value) == Some("public") <==> Lower(Trim(value)) == "public"
    ensures NormalizeVisibility(value) == Some("private") <==> Lower(Trim(value)) in {"private", ""}
    ensures NormalizeVisibility(value).Some? ==> NormalizeVisibility(value).value in {"public", "private"}
  {
    assert "public"[1] == 'u' && "private"[1] == 'r';
  }

  /** Nothing but control characters and separators is dropped from a name, wherever it stands. */
  lemma {:induction false} KeptDrops(name: string, room: nat)
    ensures PlainName(name) && |name| <= room ==> Kept(name, room) == name
    ensures room > 0 && name != "" && !PlainName([name[0]]) ==> Kept(name, room) == Kept(name[1..], room)
    ensures room > 0 && name != "" && PlainName([name[0]]) ==> Kept(name, room) == [name[0]] + Kept(name[1..], room - 1)
    decreases |name|
  {
    if name != "" && room > 0 {
      KeptDrops(name[1..], room - 1);
      assert name == [name[0]] + name[1..];
      assert PlainName(name) ==> PlainName(name[1..]);
      assert PlainName([name[0]]) <==> !Control(name[0]) && name[0] != '/' && name[0] != '\\';
    }
  }

  /** A short plain name is recorded as it is but for white space around it, and one that is empty gets a name. */
  lemma PlainNamesAreKept(name: string)
    requires PlainName(name) && |name| <= 255
    ensures SanitizeFilename(name) == if Trim(name) == "" then "unnamed_file" else Trim(name)
  {
    KeptDrops(name, 255);
  }

  // -- The upload ------------------------------------------------------------------------------

  datatype Record = Record(id: FileId, name: string, key: (FileId, string), mime: string, size: nat, hashed: seq<byte>,
                           visibility: string)

  datatype Outcome =
    | Saved(record: Record)
    | TooLarge
    | ReadFailed
    | Empty
    | NotAccepted(mime: string)
    | BackendFailed
    | UnknownVisibility
    | DatabaseFailed

  function Flat(chunks: seq<seq<byte>>): seq<byte> {
    if chunks == [] then [] else Flat(chunks[..|chunks| - 1]) + chunks[|chunks| - 1]
  }

  /** What the request brings besides its bytes, and what the two stores will answer. */
  datatype Upload = Upload(id: FileId, fileName: Option<string>, visibility: string, broken: bool, puts: bool,
      inserts: bool)

  datatype Limits = Limits(maxBytes: nat, allowed: set<string>)

  function NameOf(u: Upload): string {
    SanitizeFilename(if u.fileName.Some? then u.fileName.value else "unnamed_file")
  }

  /** The outcome, from the bytes alone. */
  function Judge(content: seq<byte>, u: Upload, l: Limits): Outcome {
    var mime := SniffMime(Take(content, HEAD), NameOf(u));
    if |content| > l.maxBytes then TooLarge
    else if u.broken then ReadFailed
    else if content == [] then Empty
    else if mime !in l.allowed then NotAccepted(mime)
    else if !u.puts then BackendFailed
    else
      match NormalizeVisibility(u.visibility)
      case None => UnknownVisibility
      case Some(v) =>
        if u.inserts then Saved(Record(u.id, NameOf(u), (u.id, ExtensionFor(mime)), mime, |content|, content, v))
        else DatabaseFailed
  }

  /** Everything about the upload is in order but its visibility. */
  predicate LeavesObject(content: seq<byte>, u: Upload, l: Limits) {
    && 0 < |content| <= l.maxBytes && !u.broken && SniffMime(Take(content, HEAD), NameOf(u)) in l.allowed && u.puts
    && NormalizeVisibility(u.visibility).None?
  }

  /** An upload is refused for its visibility exactly then, and what its visibility may be. */
  lemma RefusedLateIff(content: seq<byte>, u: Upload, l: Limits)
    ensures Judge(content, u, l).UnknownVisibility? <==> LeavesObject(content, u, l)
    ensures NormalizeVisibility(u.visibility).None? <==> Lower(Trim(u.visibility)) !in {"", "private", "public"}
  {
  }

  lemma {:induction false} FlatGrows(chunks: seq<seq<byte>>, i: nat)
    requires i <= |chunks|
    ensures |Flat(chunks[..i])| <= |Flat(chunks)|
    decreases |chunks|
  {
    if i < |chunks| {
      FlatGrows(chunks[..|chunks| - 1], i);
      assert chunks[..|chunks| - 1][..i] == chunks[..i];
    } else {
      assert chunks[..i] == chunks;
    }
  }

  lemma {:induction false} FlatConcat(a: seq<seq<byte>>, b: seq<seq<byte>>)
    ensures Flat(a + b) == Flat(a) + Flat(b)
  {
    if b == [] {
      assert a + b == a;
    } else {
      FlatConcat(a, b[..|b| - 1]);
      assert (a + b)[..|a + b| - 1] == a + b[..|b| - 1];
    }
  }

  lemma FlatNext(chunks: seq<seq<byte>>, i: nat)
    requires i < |chunks|
    ensures Flat(chunks[..i + 1]) == Flat(chunks[..i]) + chunks[i]
  {
    assert chunks[..i + 1][..i] == chunks[..i];
  }

  lemma HeadGrows(before: seq<byte>, chunk: seq<byte>)
    ensures var head := Take(before, HEAD);
            Take(before + chunk, HEAD) ==
            if |head| < HEAD then head + chunk[..if |chunk| < HEAD - |head| then |chunk| else HEAD - |head|] else head
  {
  }

  /** Moving a chunk boundary, anywhere, is not visible in the bytes. */
  lemma RechunkingIsInvisible(a: seq<seq<byte>>, x: seq<byte>, y: seq<byte>, b: seq<seq<byte>>)
    ensures Flat(a + [x, y] + b) == Flat(a + [x + y] + b)
  {
    FlatConcat(a + [x, y], b);
    FlatConcat(a + [x + y], b);
    FlatConcat(a, [x, y]);
    FlatConcat(a, [x + y]);
    assert [x, y][..1] == [x] && [x][..0] == [];
    assert Flat([x]) == x && Flat([x, y]) == x + y;
    assert [x + y][..0] == [] && Flat([x + y]) == x + y;
  }

  /** The upload directory and the stored objects. */
  class Store {
    var parts: map<FileId, seq<byte>>
    var objects: map<(FileId, string), seq<byte>>

    constructor ()
      ensures parts == map[] && objects == map[]
    {
      parts, objects := map[], map[];
    }

    /** The loop over the chunks: the part file, the size, the first bytes and the digest input, all at once. */
    method ReceiveChunks(chunks: seq<seq<byte>>, id: FileId, maxBytes: nat)
        returns (tooLarge: bool, total: nat, head: seq<byte>, hashed: seq<byte>)
      requires id in parts && parts[id] == []
      modifies this`parts
      ensures tooLarge <==> |Flat(chunks)| > maxBytes
      ensures !tooLarge ==> parts == old(parts)[id := Flat(chunks)] && total == |Flat(chunks)|
      ensures !tooLarge ==> head == Take(Flat(chunks), HEAD) && hashed == Flat(chunks)
      ensures tooLarge ==> parts - {id} == old(parts) - {id}
    {
      total, head, hashed := 0, [], [];
      for i := 0 to |chunks|
        invariant parts == old(parts)[id := Flat(chunks[..i])]
        invariant total == |Flat(chunks[..i])| <= maxBytes
        invariant head == Take(Flat(chunks[..i]), HEAD)
        invariant hashed == Flat(chunks[..i])
      {
        var chunk := chunks[i];
        ghost var before := Flat(chunks[..i]);
        FlatNext(chunks, i);
        total := total + |chunk|;
        if total > maxBytes {
          FlatGrows(chunks, i + 1);
          tooLarge := true;
          return;
        }
        if |head| < HEAD {
          head := head + chunk[..if |chunk| < HEAD - |head| then |chunk| else HEAD - |head|];
        }
        HeadGrows(before, chunk);
        hashed := hashed + chunk;
        parts := parts[id := parts[id] + chunk];
      }
      assert chunks[..|chunks|] == chunks;
      tooLarge := false;
    }

    /**
     However the body was cut into chunks, the outcome is a function of its bytes; no temporary file is left;
     an object appears when the record does, or when only the visibility was wrong.
     */
    method SaveUploadField(chunks: seq<seq<byte>>, u: Upload, l: Limits) returns (out: Outcome)
      requires forall k <- objects :: k.0 != u.id
      modifies this
      ensures out == Judge(Flat(chunks), u, l)
      ensures parts == old(parts) - {u.id}
      ensures out.Saved? ==> objects == old(objects)[out.record.key := Flat(chunks)]
      ensures out.UnknownVisibility? ==>
                var mime := SniffMime(Take(Flat(chunks), HEAD), NameOf(u));
                objects == old(objects)[(u.id, ExtensionFor(mime)) := Flat(chunks)]
      ensures !out.Saved? && !out.UnknownVisibility? ==> objects == old(objects)
      ensures !out.Saved? && objects != old(objects) <==> LeavesObject(Flat(chunks), u, l)
    {
      var name := NameOf(u);
      parts := parts[u.id := []];
      var tooLarge, total, head, hashed := ReceiveChunks(chunks, u.id, l.maxBytes);
      if tooLarge {
        parts := parts - {u.id};
        return TooLarge;
      }
      var file := parts[u.id];
      parts := parts - {u.id};
      if u.broken {
        return ReadFailed;
      }
      if total == 0 {
        return Empty;
      }
      var mime := SniffMime(head, name);
      if mime !in l.allowed {
        return NotAccepted(mime);
      }
      if !u.puts {
        return BackendFailed;
      }
      var key := (u.id, ExtensionFor(mime));
      objects := objects[key := file];
      var visibility := NormalizeVisibility(u.visibility);
      if visibility.None? {
        return UnknownVisibility;
      }
      if !u.inserts {
        objects := objects - {key};
        return DatabaseFailed;
      }
      return Saved(Record(u.id, name, key, mime, total, hashed, visibility.value));
    }
  }

  // -- Sniffing a part of the content ----------------------------------------------------------

  /** Sixteen bytes hold every magic number. */
  lemma MagicIsInTheHead(b: seq<byte>, n: nat)
    requires n >= 12
    ensures Magic(Take(b, n)) == Magic(b)
  {
    var f := Take(b, n);
    assert |f| >= 12 <==> |b| >= 12;
    assert |b| >= 12 ==> f[8..12] == b[8..12];
  }

  lemma PrintableFront(s: string, t: string)
    requires Printable(t) && s <= t
    ensures Printable(s)
  {
  }

  /**
   A whole text has the type its magic number gives, or else its name. Its first n bytes show that type exactly
   when there is a magic number, the name gives no text type, or the cut does not fall inside a character. So a
   ".txt" with an accented letter across byte 16 is typed as application/octet-stream.
   */
  lemma TextIsRecognisedIff(content: seq<byte>, name: string, n: nat)
    requires 12 <= n <= 512
    requires Utf8.Decode(content).Some? && Printable(Utf8.Decode(content).value)
    ensures SniffMime(Take(content, n), name) == (if Magic(content).Some? then Magic(content).value else TextType(name))
            <==> Magic(content).Some? || TextType(name) == OCTETS || !Utf8.ContinuesAt(content, n)
  {
    var f := Take(content, n);
    MagicIsInTheHead(content, n);
    assert Take(f, 512) == f;
    if |content| > n {
      Utf8.CutIff(content, n);
    }
    if Utf8.Decode(f).Some? {
      PrintableFront(Utf8.Decode(f).value, Utf8.Decode(content).value);
    }
  }

  /** The type taken from the head is the type of the whole content, unless exactly one of the two cuts leaves text. */
  lemma HeadDecidesIff(content: seq<byte>, name: string)
    requires Utf8.Decode(content).Some? && Printable(Utf8.Decode(content).value)
    ensures SniffMime(Take(content, HEAD), name) == SniffMime(content, name)
            <==> Magic(content).Some? || TextType(name) == OCTETS
                 || (Utf8.ContinuesAt(content, HEAD) <==> Utf8.ContinuesAt(content, 512))
  {
    TextIsRecognisedIff(content, name, HEAD);
    TextIsRecognisedIff(content, name, 512);
    MagicIsInTheHead(content, HEAD);
    MagicIsInTheHead(content, 512);
    assert content == [] ==> Take(content, 512) == [];
    assert Take(Take(content, 512), 512) == Take(content, 512);
  }

  // -- What goes wrong, at concrete uploads -----------------------------------------------------

  function Letters(n: nat): string {
    if n == 0 then "" else ['a'] + Letters(n - 1)
  }

  function LetterBytes(n: nat): (b: seq<byte>)
    ensures |b| == n && forall i :: 0 <= i < n ==> b[i] == 0x61
  {
    if n == 0 then [] else [0x61] + LetterBytes(n - 1)
  }

  lemma Joined<T>(a: seq<T>, b: seq<T>, c: seq<T>)
    ensures a + (b + c) == (a + b) + c
  {
  }

  lemma LetterEncoded(s: string)
    ensures Utf8.Encode(['a'] + s) == [0x61] + Utf8.Encode(s)
  {
    Utf8.EncodeCons('a', s);
  }

  lemma {:induction false} LettersEncoded(n: nat, rest: string)
    ensures Utf8.Encode(Letters(n) + rest) == LetterBytes(n) + Utf8.Encode(rest)
  {
    if n > 0 {
      LettersEncoded(n - 1, rest);
      Joined(['a'], Letters(n - 1), rest);
      LetterEncoded(Letters(n - 1) + rest);
      Joined([0x61], LetterBytes(n - 1), Utf8.Encode(rest));
    } else {
      assert Letters(0) + rest == rest;
    }
  }

  lemma {:induction false} LettersPrintable(n: nat, rest: string)
    requires Printable(rest)
    ensures Printable(Letters(n) + rest)
  {
    if n > 0 {
      LettersPrintable(n - 1, rest);
      Joined(['a'], Letters(n - 1), rest);
    } else {
      assert Letters(0) + rest == rest;
    }
  }

  /** Fifteen letters and an accented one: text as a whole, but not by its first 16 bytes. */
  const STRADDLED: seq<byte> := LetterBytes(15) + [0xC3, 0xA9]

  lemma StraddledIsText()
    ensures Utf8.Decode(STRADDLED).Some? && Printable(Utf8.Decode(STRADDLED).value)
  {
    var accented := [0xE9 as char];
    Utf8.RoundTrip(Letters(15) + accented);
    LettersEncoded(15, accented);
    LettersPrintable(15, accented);
    assert Utf8.Encode(accented) == [0xC3, 0xA9] by {
      assert accented[1..] == "";
    }
  }

  lemma PlainTextName()
    ensures TextType("a.txt") == "text/plain"
  {
    assert LastDot("a.txt") == 1 by {
      assert "a.txt"[..4] == "a.tx" && "a.tx"[..3] == "a.t" && "a.t"[..2] == "a.";
    }
    assert Extension("a.txt") == "txt";
    assert "txt"[1..] == "xt" && "xt"[1..] == "t" && "t"[1..] == "";
    assert Lower("txt") == "txt";
  }

  /** Its type is missed: the upload is typed as application/octet-stream, which is refused unless it is allowed. */
  lemma StraddledTextIsMissed()
    ensures SniffMime(Take(STRADDLED, HEAD), "a.txt") == OCTETS
    ensures SniffMime(STRADDLED, "a.txt") == "text/plain"
  {
    StraddledIsText();
    PlainTextName();
    assert STRADDLED[0] == 0x61 && Magic(STRADDLED) == None;
    TextIsRecognisedIff(STRADDLED, "a.txt", HEAD);
    TextIsRecognisedIff(STRADDLED, "a.txt", 512);
    assert Take(STRADDLED, 512) == STRADDLED;
    MagicIsInTheHead(STRADDLED, HEAD);
  }

  /** An accepted document with visibility "team" is refused, and `SaveUploadField` says that it has been stored. */
  lemma UnknownVisibilityIsRefusedLate(id: FileId)
    ensures var u := Upload(id, None, "team", false, true, true);
            Judge(PDF, u, Limits(5, {"application/pdf"})) == UnknownVisibility
  {
    assert Magic(PDF) == Some("application/pdf") by {
      assert PDF[0] == 0x25;
      assert PDF <= PDF;
    }
    assert Take(PDF, HEAD) == PDF;
    assert NormalizeVisibility("team") == None by {
      assert Trim("team") == "team";
      assert "team"[1..] == "eam" && "eam"[1..] == "am" && "am"[1..] == "m" && "m"[1..] == "";
      assert Lower("team") == "team";
    }
  }
}
