/**
 * JWS compact serialisation (src/insurance/crypto/eddsa.py). Base64url, JSON reading and Ed25519 are
 * parameters with the laws they are relied on for.
 */
module Jws {
  import opened Wrappers
  import opened JcsNumbers
  import opened Jcs

  /** The outside functions: base64url both ways, JSON reading, and a signature scheme. */
  datatype Primitives = Primitives(
    b64: string -> string,
    unb64: string -> Option<string>,
    readJson: string -> Option<Json>,
    publicOf: string -> string,
    sign: (string, string) -> string,
    check: (string, string, string) -> bool)

  datatype SigningKey = SigningKey(kid: string, secret: string)

  /** Public keys by key id. */
  type KeyDirectory = map<string, string>

  predicate KidChar(c: char) {
    'A' <= c <= 'Z' || 'a' <= c <= 'z' || '0' <= c <= '9' || c == '.' || c == '_' || c == '-'
  }

  predicate KidCore(kid: string) { 1 <= |kid| <= 256 && forall i :: 0 <= i < |kid| ==> KidChar(kid[i]) }

  /** ^[A-Za-z0-9._-]{1,256}$, whose $ also lets one final newline pass. */
  predicate KidMatches(kid: string) {
    KidCore(kid) || (kid != [] && kid[|kid| - 1] == '\n' && KidCore(kid[..|kid| - 1]))
  }

  function HeaderText(kid: string): string { "{\"alg\":\"EdDSA\",\"kid\":\"" + kid + "\"}" }

  /** The laws of the outside functions. */
  ghost predicate Lawful(p: Primitives) {
    && (forall x: string :: p.unb64(p.b64(x)) == Some(x))
    && (forall x: string :: '.' !in p.b64(x))
    && (forall x: string :: x != "" ==> p.b64(x) != "")
    && (forall kid: string :: KidCore(kid) ==>
          p.readJson(HeaderText(kid)) == Some(Dict([Member("alg", Text("EdDSA")), Member("kid", Text(kid))])))
    && (forall key: string, m: string :: p.check(p.publicOf(key), p.sign(key, m), m))
    && (forall key: string, m: string :: p.sign(key, m) != "")
  }

  function JwsSign(p: Primitives, key: SigningKey, payload: string): string {
    var seg1, seg2 := p.b64(HeaderText(key.kid)), p.b64(payload);
    seg1 + "." + seg2 + "." + p.b64(p.sign(key.secret, seg1 + "." + seg2))
  }

  /** jws.split(".") when it has exactly three non-empty parts. */
  function Segments(jws: string): Option<(string, string, string)> {
    var (a, dot1, rest) := Cut(jws, '.');
    var (b, dot2, c) := Cut(rest, '.');
    if !dot1 || !dot2 || '.' in c || a == "" || b == "" || c == "" then None else Some((a, b, c))
  }

  function Lookup(ms: seq<Member>, key: string): Option<Json> {
    if ms == [] then None else if ms[0].key == key then Some(ms[0].value) else Lookup(ms[1..], key)
  }

  /** The key id of a protected header that is exactly {alg, kid}, or the reason it is refused. */
  function HeaderKid(header: Json): Result<string> {
    if !header.Dict? || (set m | m in header.members :: m.key) != {"alg", "kid"} then Err(MalformedJws)
    else if Lookup(header.members, "alg") != Some(Text("EdDSA")) then Err(UnsupportedAlgorithm)
    else match Lookup(header.members, "kid")
      case Some(Text(kid)) => if KidMatches(kid) then Ok(kid) else Err(MalformedJws)
      case _ => Err(MalformedJws)
  }

  /** Fail-closed verification: the payload, or a reason code. */
  function JwsVerify(p: Primitives, jws: string, directory: KeyDirectory, expected: string): Result<string> {
    match Segments(jws)
    case None => Err(MalformedJws)
    case Some((seg1, seg2, seg3)) =>
      match p.unb64(seg1)
      case None => Err(MalformedJws)
      case Some(headerText) =>
        match p.readJson(headerText)
        case None => Err(MalformedJws)
        case Some(header) =>
          match HeaderKid(header)
          case Err(reason) => Err(reason)
          case Ok(kid) =>
            if kid !in directory then Err(UnknownKey)
            else match p.unb64(seg2)
              case None => Err(MalformedJws)
              case Some(payload) =>
                if payload != expected then Err(PayloadMismatch)
                else match p.unb64(seg3)
                  case None => Err(MalformedJws)
                  case Some(signature) =>
                    if p.check(directory[kid], signature, seg1 + "." + seg2) then Ok(payload)
                    else Err(InvalidSignature)
  }

  lemma SegmentsOf(a: string, b: string, c: string)
    requires '.' !in a && '.' !in b && '.' !in c && a != "" && b != "" && c != ""
    ensures Segments(a + "." + b + "." + c) == Some((a, b, c))
  {
    var rest := b + ['.'] + c;
    assert a + "." + b + "." + c == a + ['.'] + rest;
    CutAt(a, '.', rest);
    CutAt(b, '.', c);
  }

  lemma SignedHeaderKid(kid: string)
    requires KidCore(kid)
    ensures HeaderKid(Dict([Member("alg", Text("EdDSA")), Member("kid", Text(kid))])) == Ok(kid)
  {
    var ms := [Member("alg", Text("EdDSA")), Member("kid", Text(kid))];
    assert "alg"[0] == 'a' && "kid"[0] == 'k';
    assert ms[1..][0] == ms[1];
    assert ms[0] in ms && ms[1] in ms;
    assert (set m | m in ms :: m.key) == {"alg", "kid"};
    assert Lookup(ms, "alg") == Some(Text("EdDSA"));
    assert Lookup(ms, "kid") == Lookup(ms[1..], "kid") == Some(Text(kid));
  }

  /** What a listed key signs verifies, against the payload it signed. */
  lemma VerifyAcceptsSigned(p: Primitives, key: SigningKey, directory: KeyDirectory, payload: string)
    requires Lawful(p) && KidCore(key.kid) && payload != ""
    requires key.kid in directory && directory[key.kid] == p.publicOf(key.secret)
    ensures JwsVerify(p, JwsSign(p, key, payload), directory, payload) == Ok(payload)
  {
    var header := HeaderText(key.kid);
    assert header != "";
    var seg1, seg2 := p.b64(header), p.b64(payload);
    var signature := p.sign(key.secret, seg1 + "." + seg2);
    SegmentsOf(seg1, seg2, p.b64(signature));
    SignedHeaderKid(key.kid);
    assert p.readJson(header) == Some(Dict([Member("alg", Text("EdDSA")), Member("kid", Text(key.kid))]));
  }

  lemma SignatureNotEmpty(p: Primitives, key: SigningKey, payload: string)
    ensures JwsSign(p, key, payload) != ""
  {
  }

  // ------------------------------------------------------------------- what acceptance means

  const UPPER := "ABCDEFGHIJKLMNOPQRSTUVWXYZ"
  const LOWER := "abcdefghijklmnopqrstuvwxyz"
  const DIGITS := "0123456789"
  const KID_CHARS := UPPER + LOWER + DIGITS + "._-"

  /** One to 256 characters of the alphabet, and at most one newline after them. */
  ghost predicate LegalKid(kid: string) {
    exists core: string :: (kid == core || kid == core + "\n") && 1 <= |core| <= 256
                           && forall i :: 0 <= i < |core| ==> core[i] in KID_CHARS
  }

  lemma UpperSpelled(i: nat)
    requires i < |UPPER|
    ensures |UPPER| == 26 && UPPER[i] == 'A' + i as char
  {
  }

  lemma LowerSpelled(i: nat)
    requires i < |LOWER|
    ensures |LOWER| == 26 && LOWER[i] == 'a' + i as char
  {
  }

  lemma DigitsSpelled(i: nat)
    requires i < |DIGITS|
    ensures |DIGITS| == 10 && DIGITS[i] == '0' + i as char
  {
  }

  lemma SpelledIsKidChar(c: char)
    requires c in KID_CHARS
    ensures KidChar(c)
  {
    if c in UPPER { var i :| 0 <= i < |UPPER| && UPPER[i] == c; UpperSpelled(i); }
    else if c in LOWER { var i :| 0 <= i < |LOWER| && LOWER[i] == c; LowerSpelled(i); }
    else if c in DIGITS { var i :| 0 <= i < |DIGITS| && DIGITS[i] == c; DigitsSpelled(i); }
    else { assert c in "._-"; }
  }

  lemma KidCharIsSpelled(c: char)
    requires KidChar(c)
    ensures c in KID_CHARS
  {
    assert "._-"[0] == '.' && "._-"[1] == '_' && "._-"[2] == '-';
    assert |UPPER| == 26 && |LOWER| == 26 && |DIGITS| == 10;
    if 'A' <= c <= 'Z' { UpperSpelled((c - 'A') as nat); assert c in UPPER; }
    else if 'a' <= c <= 'z' { LowerSpelled((c - 'a') as nat); assert c in LOWER; }
    else if '0' <= c <= '9' { DigitsSpelled((c - '0') as nat); assert c in DIGITS; }
    else { assert c in "._-"; }
  }

  lemma KidCharSpelled(c: char)
    ensures KidChar(c) <==> c in KID_CHARS
  {
    if KidChar(c) { KidCharIsSpelled(c); }
    if c in KID_CHARS { SpelledIsKidChar(c); }
  }

  lemma KidCoreSpelled(kid: string)
    ensures KidCore(kid) <==> 1 <= |kid| <= 256 && forall i :: 0 <= i < |kid| ==> kid[i] in KID_CHARS
  {
    forall i | 0 <= i < |kid| ensures KidChar(kid[i]) <==> kid[i] in KID_CHARS { KidCharSpelled(kid[i]); }
  }

  lemma MatchesIsLegal(kid: string)
    requires KidMatches(kid)
    ensures LegalKid(kid)
  {
    KidCoreSpelled(kid);
    if !KidCore(kid) {
      var core := kid[..|kid| - 1];
      KidCoreSpelled(core);
      assert kid == core + "\n";
    }
  }

  lemma LegalMatches(kid: string)
    requires LegalKid(kid)
    ensures KidMatches(kid)
  {
    var core: string :| (kid == core || kid == core + "\n") && 1 <= |core| <= 256
                        && forall i :: 0 <= i < |core| ==> core[i] in KID_CHARS;
    KidCoreSpelled(core);
    if kid != core { assert kid[..|kid| - 1] == core; }
  }

  lemma KidMatchesIff(kid: string)
    ensures KidMatches(kid) <==> LegalKid(kid)
  {
    if KidMatches(kid) { MatchesIsLegal(kid); }
    if LegalKid(kid) { LegalMatches(kid); }
  }

  /** A header naming EdDSA and a key id, and nothing else. */
  predicate HeaderFor(header: Json, kid: string) {
    && header.Dict? && (set m | m in header.members :: m.key) == {"alg", "kid"}
    && Lookup(header.members, "alg") == Some(Text("EdDSA")) && Lookup(header.members, "kid") == Some(Text(kid))
  }

  /** The three segments, the listed key and the signature that make a JWS acceptable for a payload. */
  ghost predicate Attests(p: Primitives, jws: string, directory: KeyDirectory, payload: string,
                          seg1: string, seg2: string, seg3: string, kid: string, signature: string)
  {
    && jws == seg1 + "." + seg2 + "." + seg3
    && seg1 != "" && seg2 != "" && seg3 != "" && '.' !in seg1 && '.' !in seg2 && '.' !in seg3
    && p.unb64(seg1).Some? && p.readJson(p.unb64(seg1).value).Some?
    && HeaderFor(p.readJson(p.unb64(seg1).value).value, kid) && LegalKid(kid) && kid in directory
    && p.unb64(seg2) == Some(payload) && p.unb64(seg3) == Some(signature)
    && p.check(directory[kid], signature, seg1 + "." + seg2)
  }

  lemma SegmentsJoin(jws: string)
    ensures Segments(jws).Some? ==>
              var (a, b, c) := Segments(jws).value;
              jws == a + "." + b + "." + c && a != "" && b != "" && c != "" && '.' !in a && '.' !in b && '.' !in c
  {
    CutSplits(jws, '.');
    var (a, dot1, rest) := Cut(jws, '.');
    CutSplits(rest, '.');
  }

  lemma HeaderKidIff(header: Json, kid: string)
    ensures HeaderKid(header) == Ok(kid) <==> HeaderFor(header, kid) && LegalKid(kid)
  {
    KidMatchesIff(kid);
  }

  /** What acceptance takes from a JWS: its segments, key id and signature. */
  lemma AcceptedAttests(p: Primitives, jws: string, directory: KeyDirectory, expected: string)
    returns (seg1: string, seg2: string, seg3: string, kid: string, signature: string)
    requires JwsVerify(p, jws, directory, expected).Ok?
    ensures Attests(p, jws, directory, expected, seg1, seg2, seg3, kid, signature)
  {
    SegmentsJoin(jws);
    var (a, b, c) := Segments(jws).value;
    seg1, seg2, seg3, signature := a, b, c, p.unb64(c).value;
    var header := p.readJson(p.unb64(a).value).value;
    kid := HeaderKid(header).value;
    HeaderKidIff(header, kid);
  }

  lemma AttestedVerifies(p: Primitives, jws: string, directory: KeyDirectory, expected: string,
                         seg1: string, seg2: string, seg3: string, kid: string, signature: string)
    requires Attests(p, jws, directory, expected, seg1, seg2, seg3, kid, signature)
    ensures JwsVerify(p, jws, directory, expected) == Ok(expected)
  {
    SegmentsOf(seg1, seg2, seg3);
    HeaderKidIff(p.readJson(p.unb64(seg1).value).value, kid);
  }

  /**
   * A JWS is accepted, as the expected payload, exactly when it is three segments that carry the header of a listed
   * key, the payload, and a signature of the first two segments that checks under that key.
   */
  lemma JwsVerifyIff(p: Primitives, jws: string, directory: KeyDirectory, expected: string, payload: string)
    ensures JwsVerify(p, jws, directory, expected) == Ok(payload)
            <==> payload == expected
                 && exists seg1, seg2, seg3, kid, signature ::
                      Attests(p, jws, directory, expected, seg1, seg2, seg3, kid, signature)
  {
    if JwsVerify(p, jws, directory, expected) == Ok(payload) {
      var seg1, seg2, seg3, kid, signature := AcceptedAttests(p, jws, directory, expected);
    }
    if seg1, seg2, seg3, kid, signature :| Attests(p, jws, directory, expected, seg1, seg2, seg3, kid, signature) {
      AttestedVerifies(p, jws, directory, expected, seg1, seg2, seg3, kid, signature);
    }
  }

  /** Nothing but signing makes a signature that checks. */
  ghost predicate Unforgeable(p: Primitives) {
    forall key: string, signature: string, m: string ::
      p.check(p.publicOf(key), signature, m) ==> signature == p.sign(key, m)
  }

  /** The directory lists the public keys of these secrets. */
  ghost predicate Lists(p: Primitives, directory: KeyDirectory, secrets: map<string, string>) {
    directory.Keys == secrets.Keys && forall kid :: kid in directory ==> directory[kid] == p.publicOf(secrets[kid])
  }

  /** When signatures cannot be forged, an accepted JWS was signed by the listed key its header names. */
  lemma AcceptedWasSigned(p: Primitives, jws: string, directory: KeyDirectory, secrets: map<string, string>,
                          expected: string)
    returns (seg1: string, seg2: string, kid: string)
    requires Unforgeable(p) && Lists(p, directory, secrets) && JwsVerify(p, jws, directory, expected).Ok?
    ensures kid in secrets && p.unb64(seg2) == Some(expected)
    ensures exists seg3 :: Attests(p, jws, directory, expected, seg1, seg2, seg3, kid,
                                   p.sign(secrets[kid], seg1 + "." + seg2))
  {
    var seg3, signature;
    seg1, seg2, seg3, kid, signature := AcceptedAttests(p, jws, directory, expected);
    assert directory[kid] == p.publicOf(secrets[kid]);
    assert signature == p.sign(secrets[kid], seg1 + "." + seg2);
  }

  /** One JWS verifies against at most one payload, and against at most one of two different ones. */
  lemma VerifiedPayloadUnique(p: Primitives, jws: string, d1: KeyDirectory, e1: string, d2: KeyDirectory, e2: string)
    requires JwsVerify(p, jws, d1, e1).Ok? && JwsVerify(p, jws, d2, e2).Ok?
    ensures e1 == e2
  {
  }
}
