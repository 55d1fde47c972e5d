/**
 What an idempotency key is bound to: the digest of caller, method, path, body digest and client key, one a
 line (src/middleware/idempotency.rs). `sha` is SHA-256; that two particular texts do not collide under it
 is a hypothesis wherever it is needed.
 */
module ScopeHash {
  import opened Wrappers
  import opened Text
  import opened Idempotency
  import Utf8

  /** Methods and paths cannot hold a line break. */
  type Line = s: string | '\n' !in s

  datatype Identity = Anonymous | Bearer(user: Uuid, session: Uuid)

  datatype Call = Call(identity: Identity, verb: Line, path: Line, body: seq<byte>, key: string)

  type Digest = d: seq<byte> | |d| == 32 witness seq(32, _ => 0)
  type Sha = string -> Digest

  function Name(i: Identity): string {
    match i
    case Anonymous => "anonymous"
    case Bearer(user, session) => PrintUuid(user) + ":" + PrintUuid(session)
  }

  function Preimage(sha: Sha, c: Call): string {
    Name(c.identity) + "\n" + c.verb + "\n" + c.path + "\n" + HexPrint(sha(Utf8.Lossy(c.body))) + "\n" + c.key
  }

  function ScopeOf(sha: Sha, c: Call): Scope {
    HexPrint(sha(Preimage(sha, c)))
  }

  predicate NoCollision(sha: Sha, a: string, b: string) {
    sha(a) == sha(b) ==> a == b
  }

  /** The two calls, and their bodies, do not collide under the digest. */
  predicate Separated(sha: Sha, c: Call, d: Call) {
    && NoCollision(sha, Utf8.Lossy(c.body), Utf8.Lossy(d.body))
    && NoCollision(sha, Preimage(sha, c), Preimage(sha, d))
  }

  /** The same request as far as the key can tell. */
  predicate SameCall(c: Call, d: Call) {
    c.(body := []) == d.(body := []) && Utf8.Lossy(c.body) == Utf8.Lossy(d.body)
  }

  lemma HexInjective(a: seq<byte>, b: seq<byte>)
    ensures HexPrint(a) == HexPrint(b) <==> a == b
  {
    HexRoundTrip(a);
    HexRoundTrip(b);
  }

  lemma UuidInjective(a: Uuid, b: Uuid)
    ensures PrintUuid(a) == PrintUuid(b) <==> a == b
    ensures |PrintUuid(a)| == |PrintUuid(b)| == 36
  {
    UuidRoundTrip(a);
    UuidRoundTrip(b);
    UuidPlain(a, 0);
    UuidPlain(b, 0);
  }

  lemma NameInjective(i: Identity, j: Identity)
    ensures Name(i) == Name(j) <==> i == j
  {
    if i.Bearer? && j.Bearer? {
      UuidInjective(i.user, j.user);
      UuidInjective(i.session, j.session);
      assert Name(i)[..36] == PrintUuid(i.user) && Name(i)[37..] == PrintUuid(i.session);
      assert Name(j)[..36] == PrintUuid(j.user) && Name(j)[37..] == PrintUuid(j.session);
    } else if i.Bearer? {
      UuidInjective(i.user, i.session);
    } else if j.Bearer? {
      UuidInjective(j.user, j.session);
    }
  }

  lemma NameIsALine(i: Identity)
    ensures '\n' !in Name(i)
  {
    if i.Bearer? {
      forall k: nat | k < |Name(i)| ensures Name(i)[k] != '\n' {
        UuidPlain(i.user, if k < 36 then k else 0);
        UuidPlain(i.session, if 36 < k < 73 then k - 37 else 0);
      }
    }
  }

  lemma HexIsALine(b: seq<byte>)
    ensures '\n' !in HexPrint(b)
  {
    forall k: nat | k < |HexPrint(b)| ensures HexPrint(b)[k] != '\n' {
      HexPlain(b, k);
    }
  }

  /** The first line of a text and the rest of it are determined by the text. */
  lemma FirstLine(a: Line, x: string, b: Line, y: string)
    ensures a + "\n" + x == b + "\n" + y <==> a == b && x == y
  {
    SplitOnceIff(a + "\n" + x, '\n', a, x);
    SplitOnceIff(a + "\n" + x, '\n', b, y);
  }

  function Rest1(sha: Sha, c: Call): string { c.verb + "\n" + Rest2(sha, c) }
  function Rest2(sha: Sha, c: Call): string { c.path + "\n" + Rest3(sha, c) }
  function Rest3(sha: Sha, c: Call): string { HexPrint(sha(Utf8.Lossy(c.body))) + "\n" + c.key }

  lemma PreimageLines(sha: Sha, c: Call)
    ensures Preimage(sha, c) == Name(c.identity) + "\n" + Rest1(sha, c)
  {
  }

  /** The five lines, written out. */
  lemma PreimageIs(sha: Sha, verb: Line, path: Line, body: seq<byte>, key: string, user: Uuid, session: Uuid)
    ensures Preimage(sha, Call(Anonymous, verb, path, body, key)) ==
            "anonymous" + "\n" + verb + "\n" + path + "\n" + HexPrint(sha(Utf8.Lossy(body))) + "\n" + key
    ensures Preimage(sha, Call(Bearer(user, session), verb, path, body, key)) ==
            PrintUuid(user) + ":" + PrintUuid(session) + "\n" + verb + "\n" + path + "\n"
            + HexPrint(sha(Utf8.Lossy(body))) + "\n" + key
  {
    var b := HexPrint(sha(Utf8.Lossy(body)));
    assert "\n" + b + "\n" + key == "\n" + (b + "\n" + key);
  }

  /** Two requests share a scope exactly when they agree in everything but the bytes their bodies lose to U+FFFD. */
  lemma SameScopeIff(sha: Sha, c: Call, d: Call)
    requires Separated(sha, c, d)
    ensures ScopeOf(sha, c) == ScopeOf(sha, d) <==> SameCall(c, d)
  {
    var bc, bd := sha(Utf8.Lossy(c.body)), sha(Utf8.Lossy(d.body));
    HexInjective(sha(Preimage(sha, c)), sha(Preimage(sha, d)));
    HexInjective(bc, bd);
    NameInjective(c.identity, d.identity);
    NameIsALine(c.identity);
    NameIsALine(d.identity);
    HexIsALine(bc);
    HexIsALine(bd);
    PreimageLines(sha, c);
    PreimageLines(sha, d);
    FirstLine(Name(c.identity), Rest1(sha, c), Name(d.identity), Rest1(sha, d));
    FirstLine(c.verb, Rest2(sha, c), d.verb, Rest2(sha, d));
    FirstLine(c.path, Rest3(sha, c), d.path, Rest3(sha, d));
    FirstLine(HexPrint(bc), c.key, HexPrint(bd), d.key);
  }

  /** Hashing a body as text is lossless for exactly the bodies that show no replacement character. */
  lemma BodyIsBoundIff(sha: Sha, c: Call)
    requires forall d: Call :: Separated(sha, c, d)
    ensures (forall d: Call | ScopeOf(sha, d) == ScopeOf(sha, c) :: d == c) <==> Utf8.REPLACEMENT !in Utf8.Lossy(c.body)
  {
    Utf8.LossyDistinguishesIff(c.body);
    forall d: Call ensures ScopeOf(sha, c) == ScopeOf(sha, d) <==> SameCall(c, d) {
      SameScopeIff(sha, c, d);
    }
    if Utf8.REPLACEMENT in Utf8.Lossy(c.body) {
      var b: seq<byte> :| Utf8.Lossy(b) == Utf8.Lossy(c.body) && b != c.body;
      assert SameCall(c, c.(body := b)) && c.(body := b) != c;
    } else {
      forall d: Call | SameCall(c, d) ensures d == c {
        assert Utf8.Lossy(d.body) == Utf8.Lossy(c.body);
        assert d.body == c.body;
        assert d == d.(body := []).(body := d.body) && c == c.(body := []).(body := c.body);
      }
    }
  }

  /** For valid UTF-8 bodies, the scope is the request. */
  lemma ValidBodiesAreBound(sha: Sha, c: Call, d: Call)
    requires Separated(sha, c, d) && Utf8.Decode(c.body).Some? && Utf8.Decode(d.body).Some?
    ensures ScopeOf(sha, c) == ScopeOf(sha, d) <==> c == d
  {
    SameScopeIff(sha, c, d);
    Utf8.Canonical(c.body);
    Utf8.Canonical(d.body);
  }

  /**
   Over any run in which each request claims the scope of its own call: whoever is answered with a stored
   response gets a settled one that an execution of the very same call produced earlier.
   */
  lemma ReplayStaysWithItsCall(sha: Sha, calls: RequestId -> Call, ss: seq<State>, es: seq<Event>, i: nat)
      returns (k: nat)
    requires Run(ss, es) && i < |es| && es[i].Select?
    requires ss[i + 1].requests[es[i].q].pc.Answered? && ss[i + 1].requests[es[i].q].pc.claim.Replay?
    requires forall j, q :: 0 <= j < |ss| && q in ss[j].requests ==> ss[j].requests[q].scope == ScopeOf(sha, calls(q))
    requires forall p: RequestId, q: RequestId :: Separated(sha, calls(p), calls(q))
    ensures k < i && es[k].Finish? && Settled(es[k].response)
    ensures ss[i + 1].requests[es[i].q].pc.claim.response == es[k].response
    ensures SameCall(calls(es[k].q), calls(es[i].q))
  {
    var scope := ss[i].requests[es[i].q].scope;
    k := ReplaysARealAnswer(ss, es, i, scope);
    SameScopeIff(sha, calls(es[k].q), calls(es[i].q));
  }
}
