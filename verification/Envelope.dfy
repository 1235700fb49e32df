/** The signed event envelope v1.0 (src/insurance/events/envelope.py). */
module Envelope {
  import opened Wrappers
  import opened JcsNumbers
  import opened Jcs
  import opened JcsReader
  import opened Jws

  // --------------------------------------------------------------------------- dict updates

  /** {**d, key: value}: in place when the key is there, appended when it is not. */
  function Put(ms: seq<Member>, key: string, value: Json): seq<Member> {
    if ms == [] then [Member(key, value)]
    else if ms[0].key == key then [Member(key, value)] + ms[1..]
    else [ms[0]] + Put(ms[1..], key, value)
  }

  /** {k: v for k, v in d.items() if k != key} */
  function Drop(ms: seq<Member>, key: string): seq<Member> {
    if ms == [] then []
    else if ms[0].key == key then Drop(ms[1..], key)
    else [ms[0]] + Drop(ms[1..], key)
  }

  lemma {:induction false} LookupPut(ms: seq<Member>, key: string, value: Json, k: string)
    ensures Lookup(Put(ms, key, value), k) == if k == key then Some(value) else Lookup(ms, k)
    decreases |ms|
  {
    if ms != [] && ms[0].key != key { LookupPut(ms[1..], key, value, k); }
  }

  lemma {:induction false} PutPut(ms: seq<Member>, key: string, v: Json, w: Json)
    ensures Put(Put(ms, key, v), key, w) == Put(ms, key, w)
    decreases |ms|
  {
    if ms != [] && ms[0].key != key { PutPut(ms[1..], key, v, w); }
  }

  lemma {:induction false} DropPut(ms: seq<Member>, key: string, v: Json)
    ensures Drop(Put(ms, key, v), key) == Drop(ms, key)
    decreases |ms|
  {
    if ms != [] {
      if ms[0].key != key { DropPut(ms[1..], key, v); } else { assert Put(ms, key, v)[1..] == ms[1..]; }
    }
  }

  lemma {:induction false} PutMembers(ms: seq<Member>, key: string, v: Json)
    ensures forall m :: m in Put(ms, key, v) ==> m == Member(key, v) || (m in ms && m.key != key) || m in ms
    ensures forall m :: m in Put(ms, key, v) ==> m.key == key || m in ms
    decreases |ms|
  {
    if ms != [] && ms[0].key != key { PutMembers(ms[1..], key, v); }
  }

  lemma {:induction false} PutDistinct(ms: seq<Member>, key: string, v: Json)
    requires DistinctKeys(ms)
    ensures DistinctKeys(Put(ms, key, v))
    decreases |ms|
  {
    if ms != [] && ms[0].key != key {
      PutDistinct(ms[1..], key, v);
      PutMembers(ms[1..], key, v);
      var rest := Put(ms[1..], key, v);
      forall j | 0 <= j < |rest| ensures rest[j].key != ms[0].key {
        assert rest[j] in rest;
        if rest[j].key != key {
          var i :| 0 <= i < |ms[1..]| && ms[1..][i] == rest[j];
          assert ms[i + 1] == rest[j];
        }
      }
    }
  }

  lemma {:induction false} DropDistinct(ms: seq<Member>, key: string)
    requires DistinctKeys(ms)
    ensures DistinctKeys(Drop(ms, key)) && forall m :: m in Drop(ms, key) ==> m in ms
    decreases |ms|
  {
    if ms != [] {
      DropDistinct(ms[1..], key);
      var rest := Drop(ms[1..], key);
      forall j | 0 <= j < |rest| ensures rest[j].key != ms[0].key {
        assert rest[j] in ms[1..];
        var i :| 0 <= i < |ms[1..]| && ms[1..][i] == rest[j];
        assert ms[i + 1] == rest[j];
      }
    }
  }

  // ------------------------------------------------------------------------------- building

  function KnownResource(eventType: string): Option<string> {
    if eventType == "insurance.policy.v1" then Some("InsurancePolicyIssued")
    else if eventType == "insurance.policy-endorsed.v1" then Some("InsurancePolicyEndorsed")
    else if eventType == "insurance.policy-cancelled.v1" then Some("InsurancePolicyCancelled")
    else if eventType == "insurance.policy-suspended.v1" then Some("InsurancePolicySuspended")
    else if eventType == "insurance.policy-reinstated.v1" then Some("InsurancePolicyReinstated")
    else if eventType == "insurance.premium-received.v1" then Some("InsurancePremiumReceived")
    else if eventType == "insurance.claim.v1" then Some("InsuranceClaimSettled")
    else if eventType == "insurance.claim-paid.v1" then Some("InsuranceClaimPaid")
    else None
  }

  /** The fresh identifiers and the clock reading one build draws on. */
  datatype Fresh = Fresh(eventId: string, correlationId: string, occurredAt: string, bundleId: string, fullUrl: string)

  datatype Sender = Sender(producer: string, classification: string, principalId: string, principalRole: string)

  const TYPE_BASE := "type.googleapis.com/blueeconomy.contracts.v1."

  /** resource.setdefault("@type", ...) */
  function Typed(resource: seq<Member>, known: string): seq<Member> {
    if Lookup(resource, "@type").Some? then resource
    else resource + [Member("@type", Text(TYPE_BASE + known))]
  }

  function BuildEnvelope(eventType: string, resource: seq<Member>, sender: Sender, ids: Fresh): Result<seq<Member>> {
    match KnownResource(eventType)
    case None => Err(UnknownEventType)
    case Some(known) => Ok(Members(eventType, sender, ids, Bundle(ids, Typed(resource, known)), Provenance(sender)))
  }

  function Members(eventType: string, sender: Sender, ids: Fresh, fhir: Json, provenance: Json): seq<Member> {
    [Member("envelopeVersion", Text("1.0")),
     Member("eventId", Text(ids.eventId)),
     Member("eventType", Text(eventType)),
     Member("occurredAt", Text(ids.occurredAt)),
     Member("producer", Text(sender.producer)),
     Member("correlationId", Text(ids.correlationId)),
     Member("classification", Text(sender.classification)),
     Member("fhir", fhir),
     Member("provenance", provenance)]
  }

  function Bundle(ids: Fresh, resource: seq<Member>): Json {
    Dict([
      Member("resourceType", Text("Bundle")),
      Member("type", Text("message")),
      Member("bundleId", Text(ids.bundleId)),
      Member("entry", List([Dict([Member("fullUrl", Text(ids.fullUrl)), Member("resource", Dict(resource))])]))])
  }

  function Provenance(sender: Sender): Json {
    Dict([
      Member("principalId", Text(sender.principalId)),
      Member("principalRole", Text(sender.principalRole)),
      Member("ledgerCommitHash", Text("")),
      Member("signature", Text(""))])
  }

  // ------------------------------------------------------------------------------- signing

  /** envelope.get("provenance", {}) when it is an object. */
  function ProvenanceOf(envelope: seq<Member>): Option<seq<Member>> {
    match Lookup(envelope, "provenance")
    case None => Some([])
    case Some(Dict(ms)) => Some(ms)
    case Some(_) => None
  }

  function WithoutSignature(envelope: seq<Member>): seq<Member>
    requires ProvenanceOf(envelope).Some?
  {
    Put(envelope, "provenance", Dict(Drop(ProvenanceOf(envelope).value, "signature")))
  }

  /** An envelope a signer can sign: its provenance is there and its unsigned form has a canonical text. */
  predicate Signable(envelope: seq<Member>) {
    && Lookup(envelope, "provenance").Some? && Lookup(envelope, "provenance").value.Dict?
    && Canonicalizable(Dict(WithoutSignature(envelope)))
  }

  function SignEnvelope(p: Primitives, envelope: seq<Member>, key: SigningKey): seq<Member>
    requires Signable(envelope)
  {
    var jws := JwsSign(p, key, Canon(Dict(WithoutSignature(envelope))));
    Put(envelope, "provenance", Dict(Put(ProvenanceOf(envelope).value, "signature", Text(jws))))
  }

  // ------------------------------------------------------------------------------ verifying

  predicate EndsWith(s: string, t: string) { |t| <= |s| && s[|s| - |t|..] == t }

  /** str(type_url).endswith(...): only a string can end with a dot and a type name. */
  predicate NamesResource(typeUrl: Option<Json>, known: string) {
    match typeUrl
    case Some(Text(s)) => EndsWith(s, "." + known)
    case _ => false
  }

  /** The structural checks, in order: the primary resource or a reason code. */
  function Structure(envelope: seq<Member>, expectedType: Option<string>): Result<seq<Member>> {
    var eventType := Lookup(envelope, "eventType");
    if Lookup(envelope, "envelopeVersion") != Some(Text("1.0")) then Err(MalformedEnvelope)
    else if eventType.None? || !eventType.value.Text? || eventType.value.s == "" then Err(MalformedEnvelope)
    else if expectedType.Some? && eventType.value.s != expectedType.value then Err(EventTypeMismatch)
    else TypedResource(eventType.value.s, PrimaryResource(Lookup(envelope, "fhir")))
  }

  /** A resource of a known event type must name that type. */
  function TypedResource(eventType: string, resource: Option<seq<Member>>): Result<seq<Member>> {
    var known := KnownResource(eventType);
    if resource.None? then Err(MalformedEnvelope)
    else if known.Some? && !NamesResource(Lookup(resource.value, "@type"), known.value) then Err(ResourceTypeMismatch)
    else Ok(resource.value)
  }

  /** The resource of a FHIR message Bundle with exactly one entry. */
  function PrimaryResource(fhir: Option<Json>): Option<seq<Member>> {
    match fhir
    case Some(Dict(bundle)) =>
      if Lookup(bundle, "resourceType") != Some(Text("Bundle")) || Lookup(bundle, "type") != Some(Text("message"))
        then None
      else (match Lookup(bundle, "entry")
        case Some(List(entries)) =>
          if |entries| != 1 || !entries[0].Dict? then None
          else (match Lookup(entries[0].members, "resource")
            case Some(Dict(resource)) => Some(resource)
            case _ => None)
        case _ => None)
    case _ => None
  }

  /** `not signature` */
  predicate Falsy(v: Option<Json>) {
    match v
    case None => true
    case Some(Null) => true
    case Some(Bool(b)) => !b
    case Some(Text(s)) => s == ""
    case Some(Int(n)) => n == 0
    case Some(Double(_, rep)) => ReprShaped(rep) && Denote(rep).value.mantissa == 0
    case Some(List(items)) => items == []
    case Some(Dict(ms)) => ms == []
    case Some(_) => false
  }

  function VerifyEnvelope(p: Primitives, envelope: Json, directory: KeyDirectory,
                          expectedType: Option<string>): Result<seq<Member>>
    requires Proper(envelope)
  {
    if !envelope.Dict? then Err(MalformedEnvelope)
    else
      var ms := envelope.members;
      match Structure(ms, expectedType)
      case Err(reason) => Err(reason)
      case Ok(resource) =>
        if ProvenanceOf(ms).None? then Err(NoProvenance)
        else
          var signature := Lookup(ProvenanceOf(ms).value, "signature");
          ProperWithoutSignature(ms);
          if Falsy(signature) then Err(MalformedJws)
          else if !Representable(Dict(WithoutSignature(ms))) then Err(NotCanonicalizable)
          else if !signature.value.Text? then Err(MalformedJws)
          else match JwsVerify(p, signature.value.s, directory, Canon(Dict(WithoutSignature(ms))))
            case Ok(_) => Ok(resource)
            case Err(reason) => Err(reason)
  }

  lemma {:induction false} LookupIn(ms: seq<Member>, key: string)
    ensures Lookup(ms, key).Some? ==> Member(key, Lookup(ms, key).value) in ms
    ensures Lookup(ms, key).None? ==> forall m :: m in ms ==> m.key != key
    decreases |ms|
  {
    if ms != [] {
      LookupIn(ms[1..], key);
      assert ms == [ms[0]] + ms[1..];
    }
  }

  lemma ProperWithoutSignature(ms: seq<Member>)
    requires Proper(Dict(ms)) && ProvenanceOf(ms).Some?
    ensures Proper(Dict(WithoutSignature(ms)))
  {
    LookupIn(ms, "provenance");
    var prov := ProvenanceOf(ms).value;
    var kept := Drop(prov, "signature");
    if Lookup(ms, "provenance").Some? { assert Proper(Dict(prov)); }
    DropDistinct(prov, "signature");
    assert Proper(Dict(kept));
    PutDistinct(ms, "provenance", Dict(kept));
    PutMembers(ms, "provenance", Dict(kept));
  }

  lemma ProperSigned(p: Primitives, ms: seq<Member>, key: SigningKey)
    requires Proper(Dict(ms)) && Signable(ms)
    ensures Proper(Dict(SignEnvelope(p, ms, key)))
  {
    LookupIn(ms, "provenance");
    var prov := ProvenanceOf(ms).value;
    var jws := JwsSign(p, key, Canon(Dict(WithoutSignature(ms))));
    var signed := Put(prov, "signature", Text(jws));
    assert Proper(Dict(prov));
    PutDistinct(prov, "signature", Text(jws));
    PutMembers(prov, "signature", Text(jws));
    assert Proper(Dict(signed));
    PutDistinct(ms, "provenance", Dict(signed));
    PutMembers(ms, "provenance", Dict(signed));
  }

  /** Signing changes nothing but the signature: removing it gives back the same unsigned envelope. */
  lemma SigningIsReversible(p: Primitives, ms: seq<Member>, key: SigningKey)
    requires Signable(ms)
    ensures var signed := SignEnvelope(p, ms, key);
            && ProvenanceOf(signed).Some? && WithoutSignature(signed) == WithoutSignature(ms) && Signable(signed)
            && Lookup(ProvenanceOf(signed).value, "signature")
               == Some(Text(JwsSign(p, key, Canon(Dict(WithoutSignature(ms))))))
  {
    var prov := ProvenanceOf(ms).value;
    var signature := Text(JwsSign(p, key, Canon(Dict(WithoutSignature(ms)))));
    var signedProv := Dict(Put(prov, "signature", signature));
    LookupPut(ms, "provenance", signedProv, "provenance");
    DropPut(prov, "signature", signature);
    PutPut(ms, "provenance", signedProv, Dict(Drop(prov, "signature")));
    LookupPut(prov, "signature", signature, "signature");
  }

  lemma StructureIgnoresProvenance(ms: seq<Member>, value: Json, expectedType: Option<string>)
    ensures Structure(Put(ms, "provenance", value), expectedType) == Structure(ms, expectedType)
  {
    assert "provenance"[0] == 'p' && "envelopeVersion"[0] == 'e' && "eventType"[0] == 'e' && "fhir"[0] == 'f';
    LookupPut(ms, "provenance", value, "envelopeVersion");
    LookupPut(ms, "provenance", value, "eventType");
    LookupPut(ms, "provenance", value, "fhir");
  }

  lemma CanonNotEmpty(ms: seq<Member>)
    requires Canonicalizable(Dict(ms))
    ensures Canon(Dict(ms)) != ""
  {
    CanonStart(Dict(ms));
  }

  /** Whatever passes the structural checks is accepted once a listed key has signed it. */
  lemma SignedEnvelopeVerifies(p: Primitives, ms: seq<Member>, key: SigningKey, directory: KeyDirectory,
                               expectedType: Option<string>)
    requires Lawful(p) && Proper(Dict(ms)) && Signable(ms) && Structure(ms, expectedType).Ok?
    requires KidCore(key.kid) && key.kid in directory && directory[key.kid] == p.publicOf(key.secret)
    ensures Proper(Dict(SignEnvelope(p, ms, key)))
    ensures VerifyEnvelope(p, Dict(SignEnvelope(p, ms, key)), directory, expectedType) == Structure(ms, expectedType)
  {
    ProperSigned(p, ms, key);
    SigningIsReversible(p, ms, key);
    var payload := Canon(Dict(WithoutSignature(ms)));
    CanonNotEmpty(WithoutSignature(ms));
    VerifyAcceptsSigned(p, key, directory, payload);
    SignatureNotEmpty(p, key, payload);
    StructureIgnoresProvenance(ms, Dict(Put(ProvenanceOf(ms).value, "signature", Text(JwsSign(p, key, payload)))),
                               expectedType);
  }

  /** Re-signing ignores any signature already present. */
  lemma ResigningIgnoresSignature(p: Primitives, ms: seq<Member>, k1: SigningKey, k2: SigningKey)
    requires Signable(ms)
    ensures Signable(SignEnvelope(p, ms, k1))
    ensures SignEnvelope(p, SignEnvelope(p, ms, k1), k2) == SignEnvelope(p, ms, k2)
  {
    SigningIsReversible(p, ms, k1);
    var prov := ProvenanceOf(ms).value;
    var payload := Canon(Dict(WithoutSignature(ms)));
    var s1, s2 := Text(JwsSign(p, k1, payload)), Text(JwsSign(p, k2, payload));
    LookupPut(ms, "provenance", Dict(Put(prov, "signature", s1)), "provenance");
    PutPut(prov, "signature", s1, s2);
    PutPut(ms, "provenance", Dict(Put(prov, "signature", s1)), Dict(Put(prov, "signature", s2)));
  }

  function SignatureOf(envelope: Json): Option<Json> {
    if envelope.Dict? && ProvenanceOf(envelope.members).Some?
    then Lookup(ProvenanceOf(envelope.members).value, "signature") else None
  }

  /** One signature is accepted on at most one unsigned content, whatever directories are consulted. */
  lemma SignaturePinsContent(p: Primitives, e1: Json, e2: Json, d1: KeyDirectory, d2: KeyDirectory,
                             t1: Option<string>, t2: Option<string>)
    requires Proper(e1) && Proper(e2)
    requires VerifyEnvelope(p, e1, d1, t1).Ok? && VerifyEnvelope(p, e2, d2, t2).Ok?
    requires SignatureOf(e1) == SignatureOf(e2)
    ensures var u1, u2 := Dict(WithoutSignature(e1.members)), Dict(WithoutSignature(e2.members));
            Canonicalizable(u1) && Canonicalizable(u2) && Meaning(u1) == Meaning(u2)
  {
    ProperWithoutSignature(e1.members);
    ProperWithoutSignature(e2.members);
    var u1, u2 := Dict(WithoutSignature(e1.members)), Dict(WithoutSignature(e2.members));
    VerifiedPayloadUnique(p, SignatureOf(e1).value.s, d1, Canon(u1), d2, Canon(u2));
    CanonEqualIffSameValue(u1, u2);
  }

  // ------------------------------------------------------------------- what acceptance means

  /** A FHIR message Bundle whose one entry holds the resource. */
  predicate BundleOf(ms: seq<Member>, bundle: seq<Member>, entry: seq<Member>, resource: seq<Member>) {
    && Lookup(ms, "fhir") == Some(Dict(bundle))
    && Lookup(bundle, "resourceType") == Some(Text("Bundle")) && Lookup(bundle, "type") == Some(Text("message"))
    && Lookup(bundle, "entry") == Some(List([Dict(entry)])) && Lookup(entry, "resource") == Some(Dict(resource))
  }

  /** A version 1.0 envelope of an event type, the expected one if there is one. */
  predicate Headed(ms: seq<Member>, eventType: string, expectedType: Option<string>) {
    && Lookup(ms, "envelopeVersion") == Some(Text("1.0"))
    && Lookup(ms, "eventType") == Some(Text(eventType)) && eventType != ""
    && (expectedType.Some? ==> expectedType.value == eventType)
  }

  /** A resource of a known event type names that type behind a dot. */
  ghost predicate Names(resource: seq<Member>, eventType: string) {
    KnownResource(eventType).Some? ==>
      exists base: string :: Lookup(resource, "@type") == Some(Text(base + ("." + KnownResource(eventType).value)))
  }

  ghost predicate Structured(ms: seq<Member>, expectedType: Option<string>, resource: seq<Member>, eventType: string,
                             bundle: seq<Member>, entry: seq<Member>)
  {
    Headed(ms, eventType, expectedType) && BundleOf(ms, bundle, entry, resource) && Names(resource, eventType)
  }

  lemma EndsWithIff(s: string, tail: string)
    ensures EndsWith(s, tail) <==> exists base: string :: s == base + tail
  {
    if EndsWith(s, tail) { assert s == s[..|s| - |tail|] + tail; }
    if base: string :| s == base + tail { assert s[|s| - |tail|..] == tail; }
  }

  lemma NamesIff(resource: seq<Member>, eventType: string)
    ensures Names(resource, eventType)
            <==> (KnownResource(eventType).Some? ==>
                    NamesResource(Lookup(resource, "@type"), KnownResource(eventType).value))
  {
    var typeUrl := Lookup(resource, "@type");
    if KnownResource(eventType).Some? && typeUrl.Some? && typeUrl.value.Text? {
      EndsWithIff(typeUrl.value.s, "." + KnownResource(eventType).value);
    }
  }

  lemma PrimaryResourceParts(ms: seq<Member>, resource: seq<Member>) returns (bundle: seq<Member>, entry: seq<Member>)
    requires PrimaryResource(Lookup(ms, "fhir")) == Some(resource)
    ensures BundleOf(ms, bundle, entry, resource)
  {
    bundle := Lookup(ms, "fhir").value.members;
    var entries := Lookup(bundle, "entry").value.items;
    entry := entries[0].members;
    assert entries == [Dict(entry)];
  }

  lemma StructureParts(ms: seq<Member>, expectedType: Option<string>, resource: seq<Member>)
    returns (eventType: string, bundle: seq<Member>, entry: seq<Member>)
    requires Structure(ms, expectedType) == Ok(resource)
    ensures Structured(ms, expectedType, resource, eventType, bundle, entry)
  {
    eventType := Lookup(ms, "eventType").value.s;
    bundle, entry := PrimaryResourceParts(ms, resource);
    NamesIff(resource, eventType);
  }

  lemma PartsStructure(ms: seq<Member>, expectedType: Option<string>, resource: seq<Member>, eventType: string,
                       bundle: seq<Member>, entry: seq<Member>)
    requires Structured(ms, expectedType, resource, eventType, bundle, entry)
    ensures Structure(ms, expectedType) == Ok(resource)
  {
    NamesIff(resource, eventType);
  }

  /** The provenance holds a JWS that attests the canonical text of the envelope without its signature. */
  ghost predicate Attested(p: Primitives, ms: seq<Member>, directory: KeyDirectory, jws: string, seg1: string,
                           seg2: string, seg3: string, kid: string, signature: string)
    requires Proper(Dict(ms))
  {
    && Lookup(ms, "provenance").Some? && Lookup(ms, "provenance").value.Dict?
    && Lookup(Lookup(ms, "provenance").value.members, "signature") == Some(Text(jws))
    && (ProperWithoutSignature(ms);
        Representable(Dict(WithoutSignature(ms)))
        && Attests(p, jws, directory, Canon(Dict(WithoutSignature(ms))), seg1, seg2, seg3, kid, signature))
  }

  /** What acceptance takes from an envelope: a checked signature of its unsigned form under a listed key. */
  lemma AcceptedIsAttested(p: Primitives, ms: seq<Member>, directory: KeyDirectory, expectedType: Option<string>)
    returns (jws: string, seg1: string, seg2: string, seg3: string, kid: string, signature: string)
    requires Proper(Dict(ms)) && VerifyEnvelope(p, Dict(ms), directory, expectedType).Ok?
    ensures Attested(p, ms, directory, jws, seg1, seg2, seg3, kid, signature)
  {
    ProperWithoutSignature(ms);
    jws := Lookup(ProvenanceOf(ms).value, "signature").value.s;
    seg1, seg2, seg3, kid, signature := AcceptedAttests(p, jws, directory, Canon(Dict(WithoutSignature(ms))));
  }

  lemma AttestedIsAccepted(p: Primitives, ms: seq<Member>, directory: KeyDirectory, expectedType: Option<string>,
                           jws: string, seg1: string, seg2: string, seg3: string, kid: string, signature: string)
    requires Proper(Dict(ms)) && Attested(p, ms, directory, jws, seg1, seg2, seg3, kid, signature)
    ensures VerifyEnvelope(p, Dict(ms), directory, expectedType) == Structure(ms, expectedType)
  {
    ProperWithoutSignature(ms);
    var payload := Canon(Dict(WithoutSignature(ms)));
    AttestedVerifies(p, jws, directory, payload, seg1, seg2, seg3, kid, signature);
    assert jws != "";
    VerifiedIsAccepted(p, ms, directory, expectedType, jws);
  }

  lemma VerifiedIsAccepted(p: Primitives, ms: seq<Member>, directory: KeyDirectory, expectedType: Option<string>,
                           jws: string)
    requires Proper(Dict(ms)) && ProvenanceOf(ms).Some?
             && Lookup(ProvenanceOf(ms).value, "signature") == Some(Text(jws))
    requires Proper(Dict(WithoutSignature(ms))) && Representable(Dict(WithoutSignature(ms))) && jws != ""
    requires JwsVerify(p, jws, directory, Canon(Dict(WithoutSignature(ms)))).Ok?
    ensures VerifyEnvelope(p, Dict(ms), directory, expectedType) == Structure(ms, expectedType)
  {
  }

  /**
   * An envelope is accepted, with a resource, exactly when it is structured around that resource and its signature
   * checks, under a listed key, on the canonical text of everything but the signature.
   */
  lemma VerifyEnvelopeIff(p: Primitives, ms: seq<Member>, directory: KeyDirectory, expectedType: Option<string>,
                          resource: seq<Member>)
    requires Proper(Dict(ms))
    ensures VerifyEnvelope(p, Dict(ms), directory, expectedType) == Ok(resource)
            <==> (exists eventType, bundle, entry :: Structured(ms, expectedType, resource, eventType, bundle, entry))
                 && exists jws, seg1, seg2, seg3, kid, signature ::
                      Attested(p, ms, directory, jws, seg1, seg2, seg3, kid, signature)
  {
    if VerifyEnvelope(p, Dict(ms), directory, expectedType) == Ok(resource) {
      var jws, seg1, seg2, seg3, kid, signature := AcceptedIsAttested(p, ms, directory, expectedType);
      var eventType, bundle, entry := StructureParts(ms, expectedType, resource);
    }
    if eventType, bundle, entry :| Structured(ms, expectedType, resource, eventType, bundle, entry) {
      PartsStructure(ms, expectedType, resource, eventType, bundle, entry);
      if jws, seg1, seg2, seg3, kid, signature :| Attested(p, ms, directory, jws, seg1, seg2, seg3, kid, signature) {
        AttestedIsAccepted(p, ms, directory, expectedType, jws, seg1, seg2, seg3, kid, signature);
      }
    }
  }

  /** When signatures cannot be forged, an accepted envelope was signed by a listed key, over its unsigned form. */
  lemma AcceptedEnvelopeWasSigned(p: Primitives, ms: seq<Member>, directory: KeyDirectory,
                                  secrets: map<string, string>, expectedType: Option<string>)
    returns (seg1: string, seg2: string, kid: string)
    requires Proper(Dict(ms)) && Unforgeable(p) && Lists(p, directory, secrets)
    requires VerifyEnvelope(p, Dict(ms), directory, expectedType).Ok?
    ensures kid in secrets
    ensures exists jws, seg3 :: Attested(p, ms, directory, jws, seg1, seg2, seg3, kid,
                                         p.sign(secrets[kid], seg1 + "." + seg2))
  {
    var jws, seg3, signature;
    jws, seg1, seg2, seg3, kid, signature := AcceptedIsAttested(p, ms, directory, expectedType);
    assert directory[kid] == p.publicOf(secrets[kid]);
    assert signature == p.sign(secrets[kid], seg1 + "." + seg2);
  }

  lemma BundleResource(ids: Fresh, resource: seq<Member>)
    ensures PrimaryResource(Some(Bundle(ids, resource))) == Some(resource)
  {
    var bundle := Bundle(ids, resource).members;
    assert "resourceType" != "type" && "bundleId" != "entry" && "fullUrl" != "resource" by {
      assert "resourceType"[0] == 'r' && "type"[0] == 't' && "bundleId"[0] == 'b' && "entry"[0] == 'e'
             && "fullUrl"[0] == 'f';
    }
    LookupStep(bundle, "type");
    LookupStep(bundle, "entry");
    LookupStep(bundle[1..], "entry");
    LookupStep(bundle[2..], "entry");
    var entry := [Member("fullUrl", Text(ids.fullUrl)), Member("resource", Dict(resource))];
    LookupStep(entry, "resource");
  }

  /** Looking past a first member with another key. */
  lemma LookupStep(ms: seq<Member>, key: string)
    requires |ms| > 1
    ensures ms[0].key != key && ms[1].key == key ==> Lookup(ms, key) == Some(ms[1].value)
    ensures ms[0].key != key ==> Lookup(ms, key) == Lookup(ms[1..], key)
  {
    assert ms[1..][0] == ms[1];
  }

  predicate MatchingType(resource: seq<Member>, known: string) {
    Lookup(resource, "@type").None? || NamesResource(Lookup(resource, "@type"), known)
  }

  /** What build_envelope makes passes the structural checks, and hands the typed resource back. */
  lemma BuiltEnvelopePasses(eventType: string, resource: seq<Member>, sender: Sender, ids: Fresh,
                            expectedType: Option<string>)
    requires KnownResource(eventType).Some? && MatchingType(resource, KnownResource(eventType).value)
    requires expectedType.None? || expectedType.value == eventType
    ensures var built := BuildEnvelope(eventType, resource, sender, ids);
            && built.Ok?
            && Structure(built.value, expectedType) == Ok(Typed(resource, KnownResource(eventType).value))
            && Lookup(built.value, "provenance") == Some(Provenance(sender))
  {
    var known := KnownResource(eventType).value;
    var typed := Typed(resource, known);
    var ms := BuildEnvelope(eventType, resource, sender, ids).value;
    BuiltLookups(eventType, resource, sender, ids);
    BundleResource(ids, typed);
    assert eventType != "";
    TypedNamesResource(resource, known);
  }

  lemma TypedNamesResource(resource: seq<Member>, known: string)
    requires MatchingType(resource, known)
    ensures NamesResource(Lookup(Typed(resource, known), "@type"), known)
  {
    if Lookup(resource, "@type").None? {
      LookupAppended(resource, "@type", Text(TYPE_BASE + known));
      var url := TYPE_BASE + known;
      assert TYPE_BASE[|TYPE_BASE| - 1] == '.';
      assert url[|url| - |known| - 1..] == "." + known;
    }
  }

  lemma {:induction false} LookupAppended(ms: seq<Member>, key: string, v: Json)
    requires Lookup(ms, key).None?
    ensures Lookup(ms + [Member(key, v)], key) == Some(v)
    decreases |ms|
  {
    if ms != [] {
      assert (ms + [Member(key, v)])[1..] == ms[1..] + [Member(key, v)];
      LookupAppended(ms[1..], key, v);
    }
  }

  lemma {:induction false} LookupSkips(ms: seq<Member>, n: nat, key: string)
    requires n < |ms| && ms[n].key == key && forall i :: 0 <= i < n ==> ms[i].key != key
    ensures Lookup(ms, key) == Some(ms[n].value)
    decreases n
  {
    if n > 0 { LookupSkips(ms[1..], n - 1, key); }
  }

  lemma EnvelopeKeys()
    ensures "envelopeVersion" != "eventType" && "eventId" != "eventType"
    ensures forall k :: k in ["envelopeVersion", "eventId", "eventType", "occurredAt", "producer", "correlationId",
                              "classification"]
              ==> k != "fhir" && k != "provenance"
    ensures "fhir" != "provenance"
  {
    assert "envelopeVersion"[1] == 'n' && "eventType"[1] == 'v' && |"eventId"| != |"eventType"|;
    assert "fhir"[0] == 'f' && "provenance"[1] == 'r' && "provenance"[2] == 'o' && "provenance"[3] == 'v'
           && "producer"[3] == 'd';
    assert "envelopeVersion"[0] == 'e' && "eventId"[0] == 'e' && "eventType"[0] == 'e' && "occurredAt"[0] == 'o'
           && "producer"[0] == 'p' && "correlationId"[0] == 'c' && "classification"[0] == 'c';
  }

  lemma MembersLookups(eventType: string, sender: Sender, ids: Fresh, fhir: Json, provenance: Json)
    ensures var ms := Members(eventType, sender, ids, fhir, provenance);
            && Lookup(ms, "envelopeVersion") == Some(Text("1.0"))
            && Lookup(ms, "eventType") == Some(Text(eventType))
            && Lookup(ms, "fhir") == Some(fhir)
            && Lookup(ms, "provenance") == Some(provenance)
  {
    var ms := Members(eventType, sender, ids, fhir, provenance);
    EnvelopeKeys();
    LookupSkips(ms, 2, "eventType");
    LookupSkips(ms, 7, "fhir");
    LookupSkips(ms, 8, "provenance");
  }

  predicate HasText(ms: seq<Member>, key: string, text: string) { Lookup(ms, key) == Some(Text(text)) }

  lemma ProvenanceFields(sender: Sender)
    ensures var ms := Provenance(sender).members;
            HasText(ms, "principalId", sender.principalId) && HasText(ms, "principalRole", sender.principalRole)
            && HasText(ms, "ledgerCommitHash", "") && HasText(ms, "signature", "")
  {
    var ms := Provenance(sender).members;
    assert |"principalId"| == 11 && |"principalRole"| == 13 && |"ledgerCommitHash"| == 16 && |"signature"| == 9;
    LookupSkips(ms, 1, "principalRole");
    LookupSkips(ms, 2, "ledgerCommitHash");
    LookupSkips(ms, 3, "signature");
  }

  /** Every field of a built envelope is under its own key: version, identifiers, type, time, sender and provenance. */
  lemma BuiltEnvelopeFields(eventType: string, resource: seq<Member>, sender: Sender, ids: Fresh)
    requires KnownResource(eventType).Some?
    ensures var ms := BuildEnvelope(eventType, resource, sender, ids).value;
            && HasText(ms, "envelopeVersion", "1.0") && HasText(ms, "eventId", ids.eventId)
            && HasText(ms, "eventType", eventType) && HasText(ms, "occurredAt", ids.occurredAt)
            && HasText(ms, "producer", sender.producer) && HasText(ms, "correlationId", ids.correlationId)
            && HasText(ms, "classification", sender.classification)
            && exists prov :: Lookup(ms, "provenance") == Some(Dict(prov))
                              && HasText(prov, "principalId", sender.principalId)
                              && HasText(prov, "principalRole", sender.principalRole)
                              && HasText(prov, "ledgerCommitHash", "") && HasText(prov, "signature", "")
  {
    var ms := BuildEnvelope(eventType, resource, sender, ids).value;
    BuiltLookups(eventType, resource, sender, ids);
    ProvenanceFields(sender);
    FieldLookups(eventType, sender, ids, ms[7].value, ms[8].value);
    assert Lookup(ms, "provenance") == Some(Dict(Provenance(sender).members));
  }

  lemma FieldLookups(eventType: string, sender: Sender, ids: Fresh, fhir: Json, provenance: Json)
    ensures var ms := Members(eventType, sender, ids, fhir, provenance);
            && HasText(ms, "eventId", ids.eventId) && HasText(ms, "occurredAt", ids.occurredAt)
            && HasText(ms, "producer", sender.producer) && HasText(ms, "correlationId", ids.correlationId)
            && HasText(ms, "classification", sender.classification)
  {
    var ms := Members(eventType, sender, ids, fhir, provenance);
    EnvelopeKeysDistinct(eventType, sender, ids, fhir, provenance);
    LookupSkips(ms, 1, "eventId");
    LookupSkips(ms, 3, "occurredAt");
    LookupSkips(ms, 4, "producer");
    LookupSkips(ms, 5, "correlationId");
    LookupSkips(ms, 6, "classification");
  }

  lemma BuiltLookups(eventType: string, resource: seq<Member>, sender: Sender, ids: Fresh)
    requires KnownResource(eventType).Some?
    ensures var ms := BuildEnvelope(eventType, resource, sender, ids).value;
            && Lookup(ms, "envelopeVersion") == Some(Text("1.0"))
            && Lookup(ms, "eventType") == Some(Text(eventType))
            && Lookup(ms, "fhir") == Some(Bundle(ids, Typed(resource, KnownResource(eventType).value)))
            && Lookup(ms, "provenance") == Some(Provenance(sender))
  {
    MembersLookups(eventType, sender, ids, Bundle(ids, Typed(resource, KnownResource(eventType).value)),
                   Provenance(sender));
  }

  lemma TypedCanonicalizable(resource: seq<Member>, known: string)
    requires Canonicalizable(Dict(resource))
    ensures Canonicalizable(Dict(Typed(resource, known)))
  {
    LookupIn(resource, "@type");
    var typed := Typed(resource, known);
    if Lookup(resource, "@type").None? {
      var extra := Member("@type", Text(TYPE_BASE + known));
      assert typed == resource + [extra];
      assert forall m :: m in typed ==> m in resource || m == extra;
      assert forall i :: 0 <= i < |resource| ==> resource[i] in resource;
      assert DistinctKeys(typed);
    }
  }

  lemma EntryCanonicalizable(ids: Fresh, resource: seq<Member>)
    requires Canonicalizable(Dict(resource))
    ensures Canonicalizable(List([Dict([Member("fullUrl", Text(ids.fullUrl)), Member("resource", Dict(resource))])]))
  {
    var inner := [Member("fullUrl", Text(ids.fullUrl)), Member("resource", Dict(resource))];
    assert |"fullUrl"| != |"resource"|;
    CanonicalizableMembers(inner);
  }

  lemma BundleCanonicalizable(ids: Fresh, resource: seq<Member>)
    requires Canonicalizable(Dict(resource))
    ensures Canonicalizable(Bundle(ids, resource))
  {
    EntryCanonicalizable(ids, resource);
    assert |"resourceType"| == 12 && |"type"| == 4 && |"bundleId"| == 8 && |"entry"| == 5;
    CanonicalizableMembers(Bundle(ids, resource).members);
  }

  lemma ProvenanceCanonicalizable(sender: Sender)
    ensures Canonicalizable(Provenance(sender))
  {
    var ms := Provenance(sender).members;
    assert |"principalId"| == 11 && |"principalRole"| == 13 && |"ledgerCommitHash"| == 16 && |"signature"| == 9;
    assert DistinctKeys(ms);
    assert forall m :: m in ms ==> m.value.Text?;
  }

  lemma BuiltHasText(eventType: string, resource: seq<Member>, sender: Sender, ids: Fresh)
    requires KnownResource(eventType).Some? && Canonicalizable(Dict(resource))
    ensures Canonicalizable(Dict(BuildEnvelope(eventType, resource, sender, ids).value))
  {
    var typed := Typed(resource, KnownResource(eventType).value);
    TypedCanonicalizable(resource, KnownResource(eventType).value);
    BundleCanonicalizable(ids, typed);
    ProvenanceCanonicalizable(sender);
    MembersCanonicalizable(eventType, sender, ids, Bundle(ids, typed), Provenance(sender));
  }

  lemma BuiltIsSignable(eventType: string, resource: seq<Member>, sender: Sender, ids: Fresh)
    requires KnownResource(eventType).Some? && Canonicalizable(Dict(resource))
    ensures var built := BuildEnvelope(eventType, resource, sender, ids).value;
            Proper(Dict(built)) && Signable(built)
  {
    BuiltHasText(eventType, resource, sender, ids);
    BuiltLookups(eventType, resource, sender, ids);
    CanonicalizableIsSignable(BuildEnvelope(eventType, resource, sender, ids).value, sender);
  }

  lemma CanonicalizableIsSignable(ms: seq<Member>, sender: Sender)
    requires Canonicalizable(Dict(ms)) && Lookup(ms, "provenance") == Some(Provenance(sender))
    ensures Signable(ms)
  {
    WithoutSignatureRepresentable(ms);
    ProperWithoutSignature(ms);
  }

  lemma EnvelopeKeysDistinct(eventType: string, sender: Sender, ids: Fresh, fhir: Json, provenance: Json)
    ensures DistinctKeys(Members(eventType, sender, ids, fhir, provenance))
  {
    var ms := Members(eventType, sender, ids, fhir, provenance);
    assert |"envelopeVersion"| == 15 && |"eventId"| == 7 && |"eventType"| == 9 && |"occurredAt"| == 10
           && |"producer"| == 8;
    assert |"correlationId"| == 13 && |"classification"| == 14 && |"fhir"| == 4 && |"provenance"| == 10;
    assert ms[3].key[0] == 'o' && ms[8].key[0] == 'p';
  }

  lemma CanonicalizableMembers(ms: seq<Member>)
    requires DistinctKeys(ms) && forall i :: 0 <= i < |ms| ==> Canonicalizable(ms[i].value)
    ensures Canonicalizable(Dict(ms))
  {
    forall m | m in ms ensures Canonicalizable(m.value) {
      var i :| 0 <= i < |ms| && ms[i] == m;
    }
  }

  lemma MembersCanonicalizable(eventType: string, sender: Sender, ids: Fresh, fhir: Json, provenance: Json)
    requires Canonicalizable(fhir) && Canonicalizable(provenance)
    ensures Canonicalizable(Dict(Members(eventType, sender, ids, fhir, provenance)))
  {
    var ms := Members(eventType, sender, ids, fhir, provenance);
    EnvelopeKeysDistinct(eventType, sender, ids, fhir, provenance);
    forall i | 0 <= i < |ms| ensures Canonicalizable(ms[i].value) {
      assert ms[i].value.Text? || ms[i].value == fhir || ms[i].value == provenance;
    }
    CanonicalizableMembers(ms);
  }

  lemma WithoutSignatureRepresentable(ms: seq<Member>)
    requires Canonicalizable(Dict(ms)) && ProvenanceOf(ms).Some?
    ensures Representable(Dict(WithoutSignature(ms)))
  {
    LookupIn(ms, "provenance");
    var prov := ProvenanceOf(ms).value;
    if Lookup(ms, "provenance").Some? { assert Representable(Dict(prov)) && Proper(Dict(prov)); }
    DropDistinct(prov, "signature");
    var kept := Dict(Drop(prov, "signature"));
    assert Representable(kept);
    PutMembers(ms, "provenance", kept);
  }

  lemma BundleNeedsResource(ids: Fresh, resource: seq<Member>)
    requires Representable(Bundle(ids, resource))
    ensures Representable(Dict(resource))
  {
    var bundle := Bundle(ids, resource).members;
    assert bundle[3] in bundle;
    var entry := bundle[3].value.items;
    assert Representable(List(entry)) && entry[0] in entry;
    var fields := entry[0].members;
    assert Representable(Dict(fields)) && fields[1] in fields;
  }

  lemma TypedNeedsResource(resource: seq<Member>, known: string)
    requires Representable(Dict(Typed(resource, known)))
    ensures Representable(Dict(resource))
  {
    assert forall m :: m in resource ==> m in Typed(resource, known);
  }

  lemma SignedNeedsFhir(ms: seq<Member>, fhir: Json)
    requires Signable(ms) && Lookup(ms, "fhir") == Some(fhir)
    ensures Representable(fhir)
  {
    EnvelopeKeys();
    var kept := Dict(Drop(ProvenanceOf(ms).value, "signature"));
    LookupPut(ms, "provenance", kept, "fhir");
    LookupIn(WithoutSignature(ms), "fhir");
  }

  /** A built envelope of a known type can be signed exactly when its resource has a canonical text. */
  lemma BuiltSignableIff(eventType: string, resource: seq<Member>, sender: Sender, ids: Fresh)
    requires KnownResource(eventType).Some? && Proper(Dict(resource))
    ensures Signable(BuildEnvelope(eventType, resource, sender, ids).value) <==> Representable(Dict(resource))
  {
    var built, known := BuildEnvelope(eventType, resource, sender, ids).value, KnownResource(eventType).value;
    if Representable(Dict(resource)) { BuiltIsSignable(eventType, resource, sender, ids); }
    if Signable(built) {
      BuiltLookups(eventType, resource, sender, ids);
      SignedNeedsFhir(built, Bundle(ids, Typed(resource, known)));
      BundleNeedsResource(ids, Typed(resource, known));
      TypedNeedsResource(resource, known);
    }
  }

  /**
   * verify_envelope accepts every envelope of a known type that build_envelope then sign_envelope
   * make from a resource whose @type is absent or matches, when the signer's key is listed.
   */
  lemma BuiltAndSignedVerifies(p: Primitives, eventType: string, resource: seq<Member>, sender: Sender, ids: Fresh,
                               key: SigningKey, directory: KeyDirectory, expectedType: Option<string>)
    requires Lawful(p) && KnownResource(eventType).Some? && MatchingType(resource, KnownResource(eventType).value)
    requires expectedType.None? || expectedType.value == eventType
    requires KidCore(key.kid) && key.kid in directory && directory[key.kid] == p.publicOf(key.secret)
    requires Canonicalizable(Dict(resource))
    ensures var built := BuildEnvelope(eventType, resource, sender, ids).value;
            && Signable(built)
            && var signed := Dict(SignEnvelope(p, built, key));
            && Proper(signed)
            && VerifyEnvelope(p, signed, directory, expectedType) == Ok(Typed(resource, KnownResource(eventType).value))
  {
    var built := BuildEnvelope(eventType, resource, sender, ids).value;
    BuiltIsSignable(eventType, resource, sender, ids);
    BuiltEnvelopePasses(eventType, resource, sender, ids, expectedType);
    SignedEnvelopeVerifies(p, built, key, directory, expectedType);
  }
}
