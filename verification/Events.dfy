/**
 * The events a call writes in its own transaction: the audit payload (src/insurance/services) and the event of the
 * policy or claim that the route signs (src/insurance/api). The operations guard their amounts; here the guards are
 * shown to be that every event has a canonical text.
 */
module Events {
  import opened Wrappers
  import opened Records
  import opened Journals
  import opened Jcs
  import opened Envelope
  import opened Machine
  import opened Effects
  import opened Invariants
  import Lifecycle
  import Claims
  import Premiums
  import Endorsements = EndorsementInvariants
  import ClaimRows = ClaimInvariants

  datatype Event = Audit(fields: seq<Member>) | Signed(eventType: string, fields: seq<Member>)

  /** What events carry that rows do not: the caller, free text, the clock and fresh identifiers. */
  datatype Context = Context(
    actor: string, product: string, version: nat, id: string, corridor: string, declarationRef: string,
    inceptionAt: string, expiryAt: string, kind: string, status: string, reason: string, sender: Sender, ids: Fresh)

  /** The audit log takes a payload, and the outbox an envelope, that has a canonical text. */
  predicate Writable(e: Event, c: Context) {
    match e
    case Audit(payload) => Representable(Dict(payload))
    case Signed(eventType, resource) =>
      var built := BuildEnvelope(eventType, resource, c.sender, c.ids);
      built.Ok? && Signable(built.value)
  }

  predicate AllWritable(es: seq<Event>, c: Context) { forall i :: 0 <= i < |es| ==> Writable(es[i], c) }

  // ---------------------------------------------------------------------------- audit payloads

  /** create_quote */
  function QuoteCreated(ref: string, premium: int, routeBp: int, c: Context): seq<Member> {
    [Member("quoteRef", Text(ref)), Member("productCode", Text(c.product)), Member("productVersion", Int(c.version)),
     Member("premiumKobo", Int(premium)), Member("routeRiskBp", Int(routeBp)), Member("by", Text(c.actor))]
  }

  /** issue_policy */
  function PolicyIssued(number: string, ref: string, premium: int, c: Context): seq<Member> {
    [Member("policyNumber", Text(number)), Member("quoteRef", Text(ref)), Member("premiumKobo", Int(premium)),
     Member("by", Text(c.actor))]
  }

  /** add_endorsement */
  function PolicyEndorsed(number: string, no: nat, delta: int, c: Context): seq<Member> {
    [Member("policyNumber", Text(number)), Member("endorsementNo", Int(no)), Member("kind", Text(c.kind)),
     Member("premiumDeltaKobo", Int(delta)), Member("status", Text(c.status)), Member("by", Text(c.actor))]
  }

  /** approve_endorsement */
  function EndorsementApproved(number: string, no: nat, delta: int, journal: string, c: Context): seq<Member> {
    [Member("policyNumber", Text(number)), Member("endorsementNo", Int(no)), Member("premiumDeltaKobo", Int(delta)),
     Member("journalReference", Text(journal)), Member("by", Text(c.actor))]
  }

  /** reject_endorsement */
  function EndorsementRejected(number: string, no: nat, c: Context): seq<Member> {
    [Member("policyNumber", Text(number)), Member("endorsementNo", Int(no)), Member("by", Text(c.actor)),
     Member("reason", Text(c.reason))]
  }

  /** record_premium_receipt, when it applies */
  function PremiumReceived(number: string, external: string, amount: int, journal: string, c: Context): seq<Member> {
    [Member("policyNumber", Text(number)), Member("externalReference", Text(external)),
     Member("amountKobo", Int(amount)), Member("journalReference", Text(journal)), Member("by", Text(c.actor))]
  }

  /** file_fnol */
  function ClaimFiled(ref: string, number: string, claimed: int, trigger: string, c: Context): seq<Member> {
    [Member("claimRef", Text(ref)), Member("policyNumber", Text(number)), Member("claimedKobo", Int(claimed)),
     Member("triggerEventId", Text(trigger)), Member("by", Text(c.actor))]
  }

  /** propose_settlement */
  function SettlementProposed(ref: string, settled: int, c: Context): seq<Member> {
    [Member("claimRef", Text(ref)), Member("settledKobo", Int(settled)), Member("by", Text(c.actor))]
  }

  /** approve_settlement */
  function ClaimSettled(ref: string, settled: int, journal: string, c: Context): seq<Member> {
    [Member("claimRef", Text(ref)), Member("settledKobo", Int(settled)), Member("journalReference", Text(journal)),
     Member("by", Text(c.actor))]
  }

  /** record_payout_receipt, when it applies */
  function ClaimPaid(ref: string, external: string, amount: int, c: Context): seq<Member> {
    [Member("claimRef", Text(ref)), Member("externalReference", Text(external)), Member("amountKobo", Int(amount)),
     Member("by", Text(c.actor))]
  }

  // -------------------------------------------------------------------------- signed resources

  function StatusText(status: PolicyStatus): string {
    match status
    case Active => "ACTIVE"
    case Suspended => "SUSPENDED"
    case Lapsed => "LAPSED"
    case Cancelled => "CANCELLED"
  }

  /** policy_event_resource, of the fields it reads. */
  function PolicyFields(number: string, family: Family, status: PolicyStatus, premium: int, insuredValue: int,
                        c: Context): seq<Member> {
    [Member("resourceType", Text("Basic")), Member("policyId", Text(c.id)), Member("policyNumber", Text(number)),
     Member("productKind", Text(Lifecycle.FamilyCode(family))), Member("corridor", Text(c.corridor)),
     Member("declarationRef", Text(c.declarationRef)), Member("status", Text(StatusText(status))),
     Member("inceptionAt", Text(c.inceptionAt)), Member("expiryAt", Text(c.expiryAt)),
     Member("premiumKobo", Int(premium)), Member("insuredValueKobo", Int(insuredValue))]
  }

  function PolicyResource(policy: Policy, c: Context): seq<Member> {
    PolicyFields(policy.number, policy.family, policy.status, policy.premium, policy.insuredValue, c)
  }

  /** The two routes that sign an endorsement add its number and kind. */
  function EndorsementResource(policy: Policy, no: nat, c: Context): seq<Member> {
    PolicyResource(policy, c) + [Member("endorsementNo", Int(no)), Member("endorsementKind", Text(c.kind))]
  }

  /** claim_event_resource; the status is SETTLED or PAID. */
  function ClaimResource(claim: Claim, number: string, status: string, journal: string, c: Context): seq<Member> {
    [Member("resourceType", Text("Basic")), Member("claimId", Text(c.id)), Member("claimRef", Text(claim.ref)),
     Member("policyNumber", Text(number)), Member("status", Text(status)), Member("claimedKobo", Int(claim.claimed)),
     Member("settledKobo", Int(claim.settled)), Member("journalReference", Text(journal)),
     Member("triggerEventId", Text(claim.trigger))]
  }

  // -------------------------------------------------------------------- the events of each call

  function Endorsed(policy: Policy, no: nat, c: Context): Event {
    Signed("insurance.policy-endorsed.v1", EndorsementResource(policy, no, c))
  }

  function IssueEvents(db: Database, q: nat, year: int, c: Context): seq<Event>
    requires q < |db.quotes|
  {
    var quote := db.quotes[q];
    var family := Lifecycle.FamilyOf(quote.kind);
    var number := Lifecycle.PolicyNumber(family, year, Lifecycle.Counter(db.counters, family, year));
    var text := if number.Ok? then number.value else "";
    [Audit(PolicyIssued(text, quote.ref, quote.premium, c)),
     Signed("insurance.policy.v1",
            PolicyFields(text, family, Active, quote.premium, Lifecycle.SumValues(quote.lineValues), c))]
  }

  function EndorseEvents(db: Database, p: nat, delta: int, c: Context): seq<Event>
    requires p < |db.policies|
  {
    var no := Lifecycle.MaxNo(db.endorsements, p) + 1;
    [Audit(PolicyEndorsed(db.policies[p].number, no, delta, c)), Endorsed(db.policies[p], no, c)]
  }

  function ApprovalPair(policy: Policy, e: Endorsement, c: Context): seq<Event> {
    var journal := if e.delta == 0 then e.journal else Lifecycle.EndorsementRef(policy.number, e.no);
    [Audit(EndorsementApproved(policy.number, e.no, e.delta, journal, c)),
     Endorsed(policy.(premium := policy.premium + e.delta), e.no, c)]
  }

  function ApprovalEvents(db: Database, p: nat, no: nat, c: Context): seq<Event>
    requires p < |db.policies|
  {
    match Lifecycle.FindEndorsement(db.endorsements, p, no)
    case None => []
    case Some(k) => ApprovalPair(db.policies[p], db.endorsements[k], c)
  }

  function RejectionEvents(db: Database, p: nat, no: nat, c: Context): seq<Event>
    requires p < |db.policies|
  {
    [Audit(EndorsementRejected(db.policies[p].number, no, c))]
  }

  /** The payloads of status changes hold only text; all but a lapse sign the policy. */
  function StatusEvents(policy: Policy, to: PolicyStatus, eventType: string, c: Context): seq<Event> {
    if to == Lapsed then [] else [Signed(eventType, PolicyResource(policy.(status := to), c))]
  }

  function PremiumEvents(db: Database, external: string, number: string, amount: int, currency: string,
                         c: Context): seq<Event> {
    match Premiums.FindPolicy(db.policies, number)
    case None => []
    case Some(p) =>
      var policy := db.policies[p];
      if policy.premiumPaidAt.Some? || currency != "NGN" || amount != policy.premium then []
      else [Audit(PremiumReceived(number, external, amount,
                                  if amount <= 0 then "" else Premiums.PremiumReceiptRef(number), c)),
            Signed("insurance.premium-received.v1", PolicyResource(policy, c))]
  }

  function SettlementEvents(db: Database, k: nat, c: Context): seq<Event>
    requires k < |db.claims| && db.claims[k].policy < |db.policies|
  {
    var claim := db.claims[k];
    var journal, number := Claims.SettlementRef(claim.ref), db.policies[claim.policy].number;
    [Audit(ClaimSettled(claim.ref, claim.settled, journal, c)),
     Signed("insurance.claim.v1", ClaimResource(claim, number, "SETTLED", journal, c))]
  }

  function PayoutEvents(db: Database, external: string, ref: string, amount: int, currency: string,
                        c: Context): seq<Event> {
    match Claims.FindClaim(db.claims, ref)
    case None => []
    case Some(k) =>
      var claim := db.claims[k];
      if currency != "NGN" || amount != claim.settled || claim.policy >= |db.policies| then []
      else [Audit(ClaimPaid(ref, external, amount, c)),
            Signed("insurance.claim-paid.v1",
                   ClaimResource(claim, db.policies[claim.policy].number, "PAID", claim.journal, c))]
  }

  /** The events a call writes; the events of the other calls hold only text. */
  function EventsOf(db: Database, op: Op, c: Context): seq<Event> {
    match op
    case CreateQuote(ref, _, _, _, _, trace, _, _) => [Audit(QuoteCreated(ref, trace.premium, trace.routeBp, c))]
    case IssuePolicy(q, _, _, year, _) => if q < |db.quotes| then IssueEvents(db, q, year, c) else []
    case AddEndorsement(p, delta, _) => if p < |db.policies| then EndorseEvents(db, p, delta, c) else []
    case ApproveEndorsement(p, no, _) => if p < |db.policies| then ApprovalEvents(db, p, no, c) else []
    case RejectEndorsement(p, no, _) => if p < |db.policies| then RejectionEvents(db, p, no, c) else []
    case CancelOrLapse(p, to) =>
      if p < |db.policies| then StatusEvents(db.policies[p], to, "insurance.policy-cancelled.v1", c) else []
    case SuspendPolicy(p) =>
      if p < |db.policies| then StatusEvents(db.policies[p], Suspended, "insurance.policy-suspended.v1", c) else []
    case ReinstatePolicy(p) =>
      if p < |db.policies| then StatusEvents(db.policies[p], Active, "insurance.policy-reinstated.v1", c) else []
    case RecordPremiumReceipt(external, number, amount, currency, _) =>
      PremiumEvents(db, external, number, amount, currency, c)
    case FileFnol(p, ref, _, claimed, trigger) =>
      if p < |db.policies| then [Audit(ClaimFiled(ref, db.policies[p].number, claimed, trigger, c))] else []
    case ProposeSettlement(k, settled, _) =>
      if k < |db.claims| then [Audit(SettlementProposed(db.claims[k].ref, settled, c))] else []
    case ApproveSettlement(k, _) =>
      if k < |db.claims| && db.claims[k].policy < |db.policies| then SettlementEvents(db, k, c) else []
    case RecordPayoutReceipt(external, ref, amount, currency) => PayoutEvents(db, external, ref, amount, currency, c)
    case _ => []
  }

  // --------------------------------------------------------------------- which events have a text

  predicate Flat(ms: seq<Member>) { forall i :: 0 <= i < |ms| ==> ms[i].value.Text? || ms[i].value.Int? }

  predicate IntegersFit(ms: seq<Member>) { forall i :: 0 <= i < |ms| && ms[i].value.Int? ==> Auditable(ms[i].value.n) }

  /** Texts and integers, and, to be signed, under distinct keys and an event type the envelope knows. */
  predicate Shaped(e: Event) {
    Flat(e.fields) && (e.Signed? ==> DistinctKeys(e.fields) && KnownResource(e.eventType).Some?)
  }

  lemma FlatRepresentable(ms: seq<Member>)
    requires Flat(ms)
    ensures Representable(Dict(ms)) <==> IntegersFit(ms)
  {
    if Representable(Dict(ms)) {
      forall i | 0 <= i < |ms| && ms[i].value.Int? ensures Auditable(ms[i].value.n) {
        assert ms[i] in ms && Representable(ms[i].value);
      }
    }
    if IntegersFit(ms) {
      forall m | m in ms ensures Representable(m.value) {
        var i :| 0 <= i < |ms| && ms[i] == m;
      }
    }
  }

  lemma WritableIffFits(e: Event, c: Context)
    requires Shaped(e)
    ensures Writable(e, c) <==> IntegersFit(e.fields)
  {
    FlatRepresentable(e.fields);
    if e.Signed? {
      forall m | m in e.fields ensures Proper(m.value) {
        var i :| 0 <= i < |e.fields| && e.fields[i] == m;
      }
      BuiltSignableIff(e.eventType, e.fields, c.sender, c.ids);
    }
  }

  /** A well-shaped event that has a text exactly when a condition holds. */
  predicate Carries(e: Event, fit: bool) { Shaped(e) && (IntegersFit(e.fields) <==> fit) }

  /** The same of all events of a call. */
  predicate AllCarry(es: seq<Event>, fit: bool) {
    && (forall i :: 0 <= i < |es| ==> Shaped(es[i]))
    && ((forall i :: 0 <= i < |es| ==> IntegersFit(es[i].fields)) <==> fit)
  }

  lemma One(a: Event, x: bool)
    requires Carries(a, x)
    ensures AllCarry([a], x)
  {
    assert [a][0] == a;
  }

  lemma Pair(a: Event, b: Event, x: bool, y: bool)
    requires Carries(a, x) && Carries(b, y)
    ensures AllCarry([a, b], x && y)
  {
    assert [a, b][0] == a && [a, b][1] == b;
  }

  lemma AllWritableIffFit(es: seq<Event>, fit: bool, c: Context)
    requires AllCarry(es, fit)
    ensures AllWritable(es, c) <==> fit
  {
    forall i | 0 <= i < |es| ensures Writable(es[i], c) <==> IntegersFit(es[i].fields) { WritableIffFits(es[i], c); }
  }

  lemma PolicyKeysDistinct(policy: Policy, no: nat, c: Context)
    ensures DistinctKeys(PolicyResource(policy, c)) && DistinctKeys(EndorsementResource(policy, no, c))
  {
    var ms := EndorsementResource(policy, no, c);
    assert |"resourceType"| == 12 && |"policyId"| == 8 && |"policyNumber"| == 12 && |"productKind"| == 11;
    assert |"corridor"| == 8 && |"declarationRef"| == 14 && |"status"| == 6 && |"inceptionAt"| == 11;
    assert |"expiryAt"| == 8 && |"premiumKobo"| == 11 && |"insuredValueKobo"| == 16 && |"endorsementNo"| == 13;
    assert |"endorsementKind"| == 15 && ms[0].key[0] == 'r' && ms[1].key[0] == 'p' && ms[2].key[0] == 'p';
    assert ms[3].key[2] == 'o' && ms[4].key[0] == 'c' && ms[7].key[2] == 'c' && ms[8].key[0] == 'e';
    assert ms[9].key[2] == 'e';
    assert DistinctKeys(ms);
    assert forall i :: 0 <= i < 11 ==> PolicyResource(policy, c)[i] == ms[i];
  }

  lemma ClaimKeysDistinct(claim: Claim, number: string, status: string, journal: string, c: Context)
    ensures DistinctKeys(ClaimResource(claim, number, status, journal, c))
  {
    var ms := ClaimResource(claim, number, status, journal, c);
    assert |"resourceType"| == 12 && |"claimId"| == 7 && |"claimRef"| == 8 && |"policyNumber"| == 12;
    assert |"status"| == 6 && |"claimedKobo"| == 11 && |"settledKobo"| == 11 && |"journalReference"| == 16;
    assert |"triggerEventId"| == 14 && ms[0].key[0] == 'r' && ms[3].key[0] == 'p';
    assert ms[5].key[0] == 'c' && ms[6].key[0] == 's';
  }

  lemma PolicyCarries(eventType: string, policy: Policy, c: Context)
    requires KnownResource(eventType).Some?
    ensures Carries(Signed(eventType, PolicyResource(policy, c)), Publishable(policy))
  {
    var ms := PolicyResource(policy, c);
    PolicyKeysDistinct(policy, 0, c);
    assert ms[9].value == Int(policy.premium) && ms[10].value == Int(policy.insuredValue);
  }

  lemma EndorsedCarries(policy: Policy, no: nat, c: Context)
    requires FitsInteger(no)
    ensures Carries(Endorsed(policy, no, c), Publishable(policy))
  {
    var ms := EndorsementResource(policy, no, c);
    PolicyKeysDistinct(policy, no, c);
    assert ms[9].value == Int(policy.premium) && ms[10].value == Int(policy.insuredValue) && ms[11].value == Int(no);
  }

  lemma ClaimCarries(eventType: string, claim: Claim, number: string, status: string, journal: string, c: Context)
    requires KnownResource(eventType).Some?
    ensures Carries(Signed(eventType, ClaimResource(claim, number, status, journal, c)),
                    Auditable(claim.claimed) && Auditable(claim.settled))
  {
    var ms := ClaimResource(claim, number, status, journal, c);
    ClaimKeysDistinct(claim, number, status, journal, c);
    assert ms[5].value == Int(claim.claimed) && ms[6].value == Int(claim.settled);
  }

  // ----------------------------------------------------------- the guards are that events have a text

  /** A call that passes every other check commits exactly when a condition holds. */
  predicate Guarded(outcome: Result<Database>, condition: bool) {
    outcome.Ok? || outcome == Err(NotCanonicalizable) ==> (outcome.Ok? <==> condition)
  }

  /** A call that passes every other check commits exactly when its events have a text. */
  predicate Decided(outcome: Result<Database>, es: seq<Event>) {
    outcome.Ok? || outcome == Err(NotCanonicalizable) ==> AllCarry(es, outcome.Ok?)
  }

  lemma PostingReason(journals: seq<Journal>, reference: string, legs: seq<Leg>)
    ensures Posted(journals, reference, legs) != Err(NotCanonicalizable)
  {
  }

  lemma QuoteDecided(db: Database, op: Op, c: Context)
    requires op.CreateQuote? && FitsInteger(c.version)
    ensures Decided(Apply(db, op), EventsOf(db, op, c))
  {
    var payload := QuoteCreated(op.ref, op.trace.premium, op.trace.routeBp, c);
    assert payload[2].value == Int(c.version) && payload[3].value == Int(op.trace.premium);
    assert payload[4].value == Int(op.trace.routeBp);
    One(Audit(payload), Auditable(op.trace.premium) && Auditable(op.trace.routeBp));
  }

  lemma IssuedCarries(number: string, ref: string, premium: int, c: Context)
    ensures Carries(Audit(PolicyIssued(number, ref, premium, c)), Auditable(premium))
  {
    assert PolicyIssued(number, ref, premium, c)[2].value == Int(premium);
  }

  lemma IssueEventsCarry(db: Database, q: nat, year: int, c: Context)
    requires q < |db.quotes|
    ensures AllCarry(IssueEvents(db, q, year, c),
                     Auditable(db.quotes[q].premium) && Auditable(Lifecycle.SumValues(db.quotes[q].lineValues)))
  {
    var es, quote := IssueEvents(db, q, year, c), db.quotes[q];
    var number := es[0].fields[0].value.s;
    var policy := Policy(number, q, Lifecycle.FamilyOf(quote.kind), year, 0, Active, quote.premium,
                         Lifecycle.SumValues(quote.lineValues), 0, 0, 0, None);
    IssuedCarries(number, quote.ref, quote.premium, c);
    PolicyCarries("insurance.policy.v1", policy, c);
    Pair(es[0], es[1], Auditable(quote.premium), Publishable(policy));
  }

  lemma IssueGuarded(db: Database, q: nat, inceptionAt: int, expiryAt: int, year: int, now: int)
    requires q < |db.quotes|
    ensures Guarded(Lifecycle.IssuePolicy(db, q, inceptionAt, expiryAt, year, now),
                    Auditable(db.quotes[q].premium) && Auditable(Lifecycle.SumValues(db.quotes[q].lineValues)))
  {
  }

  lemma IssueDecided(db: Database, q: nat, inceptionAt: int, expiryAt: int, year: int, now: int, c: Context)
    requires q < |db.quotes|
    ensures Decided(Lifecycle.IssuePolicy(db, q, inceptionAt, expiryAt, year, now), IssueEvents(db, q, year, c))
  {
    IssueGuarded(db, q, inceptionAt, expiryAt, year, now);
    IssueEventsCarry(db, q, year, c);
  }

  /** An endorsement call's payload with the event its route signs. */
  lemma PairCarries(es: seq<Event>, policy: Policy, no: nat, delta: int, c: Context)
    requires FitsInteger(no) && |es| == 2 && Carries(es[0], Auditable(delta)) && es[1] == Endorsed(policy, no, c)
    ensures AllCarry(es, Auditable(delta) && Publishable(policy))
  {
    EndorsedCarries(policy, no, c);
    Pair(es[0], es[1], Auditable(delta), Publishable(policy));
    assert es == [es[0], es[1]];
  }

  lemma AddedCarries(number: string, no: nat, delta: int, c: Context)
    requires FitsInteger(no)
    ensures Carries(Audit(PolicyEndorsed(number, no, delta, c)), Auditable(delta))
  {
    var payload := PolicyEndorsed(number, no, delta, c);
    assert payload[1].value == Int(no) && payload[3].value == Int(delta);
  }

  lemma EndorsementDecided(db: Database, p: nat, delta: int, principal: string, c: Context)
    requires p < |db.policies|
    ensures Decided(Lifecycle.AddEndorsement(db, p, delta, principal), EndorseEvents(db, p, delta, c))
  {
    var no, policy := Lifecycle.MaxNo(db.endorsements, p) + 1, db.policies[p];
    if FitsInteger(no) {
      AddedCarries(policy.number, no, delta, c);
      PairCarries(EndorseEvents(db, p, delta, c), policy, no, delta, c);
    }
  }

  lemma ApprovedCarries(number: string, no: nat, delta: int, journal: string, c: Context)
    requires FitsInteger(no)
    ensures Carries(Audit(EndorsementApproved(number, no, delta, journal, c)), Auditable(delta))
  {
    var payload := EndorsementApproved(number, no, delta, journal, c);
    assert payload[1].value == Int(no) && payload[2].value == Int(delta);
  }

  predicate PremiumAfterFits(policy: Policy, e: Endorsement) {
    Auditable(e.delta) && Publishable(policy.(premium := policy.premium + e.delta))
  }

  lemma ApprovalPairCarries(policy: Policy, e: Endorsement, c: Context)
    requires FitsInteger(e.no)
    ensures AllCarry(ApprovalPair(policy, e, c), PremiumAfterFits(policy, e))
  {
    var journal := if e.delta == 0 then e.journal else Lifecycle.EndorsementRef(policy.number, e.no);
    var after := policy.(premium := policy.premium + e.delta);
    ApprovedCarries(policy.number, e.no, e.delta, journal, c);
    PairCarries(ApprovalPair(policy, e, c), after, e.no, e.delta, c);
  }

  lemma ApprovalGuarded(db: Database, p: nat, no: nat, principal: string)
    requires p < |db.policies| && Lifecycle.FindEndorsement(db.endorsements, p, no).Some?
    ensures var e := db.endorsements[Lifecycle.FindEndorsement(db.endorsements, p, no).value];
            Guarded(Lifecycle.ApproveEndorsement(db, p, no, principal), PremiumAfterFits(db.policies[p], e))
  {
    var e := db.endorsements[Lifecycle.FindEndorsement(db.endorsements, p, no).value];
    PostingReason(db.journals, Lifecycle.EndorsementRef(db.policies[p].number, e.no), Lifecycle.DeltaLegs(e.delta));
  }

  lemma ApprovalDecided(db: Database, p: nat, no: nat, principal: string, c: Context)
    requires p < |db.policies| && FitsInteger(no) && Lifecycle.FindEndorsement(db.endorsements, p, no).Some?
    ensures Decided(Lifecycle.ApproveEndorsement(db, p, no, principal), ApprovalEvents(db, p, no, c))
  {
    ApprovalGuarded(db, p, no, principal);
    ApprovalPairCarries(db.policies[p], db.endorsements[Lifecycle.FindEndorsement(db.endorsements, p, no).value], c);
  }

  lemma RejectionDecided(db: Database, p: nat, no: nat, principal: string, c: Context)
    requires p < |db.policies| && FitsInteger(no)
    ensures Decided(Lifecycle.RejectEndorsement(db, p, no, principal), RejectionEvents(db, p, no, c))
  {
    var payload := EndorsementRejected(db.policies[p].number, no, c);
    assert payload[1].value == Int(no);
    One(Audit(payload), true);
  }

  /** An endorsement that is not there has no number to fit. */
  lemma DecisionDecided(db: Database, op: Op, c: Context)
    requires (op.ApproveEndorsement? || op.RejectEndorsement?) && RowsNumbered(db)
    ensures Decided(Apply(db, op), EventsOf(db, op, c))
  {
    if op.p < |db.policies| && Lifecycle.FindEndorsement(db.endorsements, op.p, op.no).Some? {
      if op.ApproveEndorsement? {
        ApprovalDecided(db, op.p, op.no, op.principal, c);
      } else { RejectionDecided(db, op.p, op.no, op.principal, c); }
    }
  }

  lemma MoveDecided(db: Database, p: nat, from: PolicyStatus, to: PolicyStatus, purpose: Purpose, bit: bool,
                    eventType: string, c: Context)
    requires p < |db.policies| && KnownResource(eventType).Some?
    ensures Decided(Lifecycle.MoveStatus(db, p, from, to, purpose, bit),
                    StatusEvents(db.policies[p], to, eventType, c))
  {
    var policy := db.policies[p].(status := to);
    PolicyCarries(eventType, policy, c);
    One(Signed(eventType, PolicyResource(policy, c)), Publishable(policy));
  }

  lemma StatusDecided(db: Database, op: Op, c: Context)
    requires op.CancelOrLapse? || op.SuspendPolicy? || op.ReinstatePolicy?
    ensures Decided(Apply(db, op), EventsOf(db, op, c))
  {
    if op.p < |db.policies| {
      if op.CancelOrLapse? {
        MoveDecided(db, op.p, Active, op.newStatus, Revocation, true, "insurance.policy-cancelled.v1", c);
      } else if op.SuspendPolicy? {
        MoveDecided(db, op.p, Active, Suspended, Suspension, true, "insurance.policy-suspended.v1", c);
      } else {
        MoveDecided(db, op.p, Suspended, Active, Suspension, false, "insurance.policy-reinstated.v1", c);
      }
    }
  }

  lemma {:induction false} SweepWritesText(db: Database, picked: seq<nat>)
    requires Lifecycle.InRange(picked, |db.policies|)
    ensures Lifecycle.LapseSweep(db, picked) != Err(NotCanonicalizable)
    decreases |picked|
  {
    if picked != [] { SweepWritesText(db, picked[..|picked| - 1]); }
  }

  lemma ReceivedCarries(number: string, external: string, amount: int, journal: string, c: Context)
    ensures Carries(Audit(PremiumReceived(number, external, amount, journal, c)), Auditable(amount))
  {
    assert PremiumReceived(number, external, amount, journal, c)[2].value == Int(amount);
  }

  lemma PremiumEventsCarry(db: Database, external: string, number: string, amount: int, currency: string, c: Context)
    requires PremiumEvents(db, external, number, amount, currency, c) != []
    ensures AllCarry(PremiumEvents(db, external, number, amount, currency, c),
                     Auditable(amount) && Publishable(db.policies[Premiums.FindPolicy(db.policies, number).value]))
  {
    var policy := db.policies[Premiums.FindPolicy(db.policies, number).value];
    var journal := if amount <= 0 then "" else Premiums.PremiumReceiptRef(number);
    ReceivedCarries(number, external, amount, journal, c);
    PolicyCarries("insurance.premium-received.v1", policy, c);
    Pair(Audit(PremiumReceived(number, external, amount, journal, c)),
         Signed("insurance.premium-received.v1", PolicyResource(policy, c)), Auditable(amount), Publishable(policy));
  }

  lemma PremiumGuarded(db: Database, external: string, number: string, amount: int, currency: string, now: int)
    ensures var found := Premiums.FindPolicy(db.policies, number);
            Guarded(Premiums.RecordPremiumReceipt(db, external, number, amount, currency, now),
                    found.Some? && PremiumApplies(db.policies[found.value], amount, currency)
                    ==> Auditable(amount) && Publishable(db.policies[found.value]))
  {
    var legs := Transfer(InsurerClearing, PremiumReceivable, amount);
    PostingReason(db.journals, Premiums.PremiumReceiptRef(number), legs);
  }

  lemma PremiumDecided(db: Database, external: string, number: string, amount: int, currency: string, now: int,
                       c: Context)
    ensures Decided(Premiums.RecordPremiumReceipt(db, external, number, amount, currency, now),
                    PremiumEvents(db, external, number, amount, currency, c))
  {
    PremiumGuarded(db, external, number, amount, currency, now);
    if PremiumEvents(db, external, number, amount, currency, c) != [] {
      PremiumEventsCarry(db, external, number, amount, currency, c);
    }
  }

  lemma FilingDecided(db: Database, op: Op, c: Context)
    requires op.FileFnol?
    ensures Decided(Apply(db, op), EventsOf(db, op, c))
  {
    if op.p < |db.policies| {
      var payload := ClaimFiled(op.ref, db.policies[op.p].number, op.claimed, op.trigger, c);
      assert payload[2].value == Int(op.claimed);
      One(Audit(payload), Auditable(op.claimed));
    }
  }

  lemma ProposalDecided(db: Database, op: Op, c: Context)
    requires op.ProposeSettlement?
    ensures Decided(Apply(db, op), EventsOf(db, op, c))
  {
    if op.c < |db.claims| {
      var payload := SettlementProposed(db.claims[op.c].ref, op.settled, c);
      assert payload[1].value == Int(op.settled);
      One(Audit(payload), Auditable(op.settled));
    }
  }

  lemma SettledCarries(ref: string, settled: int, journal: string, c: Context)
    ensures Carries(Audit(ClaimSettled(ref, settled, journal, c)), Auditable(settled))
  {
    assert ClaimSettled(ref, settled, journal, c)[1].value == Int(settled);
  }

  lemma SettlementEventsCarry(db: Database, k: nat, c: Context)
    requires k < |db.claims| && db.claims[k].policy < |db.policies|
    ensures AllCarry(SettlementEvents(db, k, c), Auditable(db.claims[k].settled) && Auditable(db.claims[k].claimed))
  {
    var claim := db.claims[k];
    var journal, number := Claims.SettlementRef(claim.ref), db.policies[claim.policy].number;
    SettledCarries(claim.ref, claim.settled, journal, c);
    ClaimCarries("insurance.claim.v1", claim, number, "SETTLED", journal, c);
    Pair(Audit(ClaimSettled(claim.ref, claim.settled, journal, c)),
         Signed("insurance.claim.v1", ClaimResource(claim, number, "SETTLED", journal, c)),
         Auditable(claim.settled), Auditable(claim.claimed) && Auditable(claim.settled));
  }

  lemma SettlementDecided(db: Database, k: nat, principal: string, c: Context)
    requires k < |db.claims| && db.claims[k].policy < |db.policies|
    ensures Decided(Claims.ApproveSettlement(db, k, principal), SettlementEvents(db, k, c))
  {
    var claim := db.claims[k];
    var legs := Transfer(ClaimsPayable, InsurerClearing, claim.settled);
    PostingReason(db.journals, Claims.SettlementRef(claim.ref), legs);
    SettlementEventsCarry(db, k, c);
  }

  lemma PaidCarries(ref: string, external: string, amount: int, c: Context)
    ensures Carries(Audit(ClaimPaid(ref, external, amount, c)), Auditable(amount))
  {
    assert ClaimPaid(ref, external, amount, c)[2].value == Int(amount);
  }

  lemma PayoutEventsCarry(db: Database, external: string, ref: string, amount: int, currency: string, c: Context)
    requires PayoutEvents(db, external, ref, amount, currency, c) != []
    ensures AllCarry(PayoutEvents(db, external, ref, amount, currency, c),
                     Auditable(amount) && Auditable(db.claims[Claims.FindClaim(db.claims, ref).value].claimed))
  {
    var claim := db.claims[Claims.FindClaim(db.claims, ref).value];
    var number := db.policies[claim.policy].number;
    PaidCarries(ref, external, amount, c);
    ClaimCarries("insurance.claim-paid.v1", claim, number, "PAID", claim.journal, c);
    Pair(Audit(ClaimPaid(ref, external, amount, c)),
         Signed("insurance.claim-paid.v1", ClaimResource(claim, number, "PAID", claim.journal, c)),
         Auditable(amount), Auditable(claim.claimed) && Auditable(claim.settled));
  }

  lemma PayoutGuarded(db: Database, external: string, ref: string, amount: int, currency: string)
    ensures var found := Claims.FindClaim(db.claims, ref);
            Guarded(Claims.RecordPayoutReceipt(db, external, ref, amount, currency),
                    found.Some? && PayoutApplies(db.claims[found.value], amount, currency)
                    ==> Auditable(amount) && Auditable(db.claims[found.value].claimed))
  {
  }

  lemma PayoutDecided(db: Database, external: string, ref: string, amount: int, currency: string, c: Context)
    requires RowsNumbered(db)
    ensures Decided(Claims.RecordPayoutReceipt(db, external, ref, amount, currency),
                    PayoutEvents(db, external, ref, amount, currency, c))
  {
    PayoutGuarded(db, external, ref, amount, currency);
    if PayoutEvents(db, external, ref, amount, currency, c) != [] {
      PayoutEventsCarry(db, external, ref, amount, currency, c);
    }
  }

  /** What the events need of the rows: endorsement numbers fit their column and claims have a policy. */
  predicate RowsNumbered(db: Database) {
    && (forall k :: 0 <= k < |db.endorsements| ==> FitsInteger(db.endorsements[k].no))
    && (forall k :: 0 <= k < |db.claims| ==> db.claims[k].policy < |db.policies|)
  }

  lemma RowsAreNumbered(db: Database)
    requires Endorsements.Holds(db) && ClaimRows.Holds(db)
    ensures RowsNumbered(db)
  {
    forall k | 0 <= k < |db.endorsements| ensures FitsInteger(db.endorsements[k].no) {
      assert Endorsements.EndorsementOk(db.policies, db.endorsements[k]);
    }
    forall k | 0 <= k < |db.claims| ensures db.claims[k].policy < |db.policies| {
      assert ClaimRows.ClaimOk(db.policies, db.claims[k]);
    }
  }

  predicate PolicyCall(op: Op) { op.CreateQuote? || op.IssuePolicy? || EndorsementOp(op) || StatusOp(op) }

  predicate MoneyCall(op: Op) { ReceiptOp(op) || op.FileFnol? || op.ProposeSettlement? || op.ApproveSettlement? }

  lemma PolicyCallDecided(db: Database, op: Op, c: Context)
    requires PolicyCall(op) && RowsNumbered(db) && FitsInteger(c.version)
    ensures Decided(Apply(db, op), EventsOf(db, op, c))
  {
    if op.CreateQuote? { QuoteDecided(db, op, c); }
    else if op.IssuePolicy? {
      if op.q < |db.quotes| { IssueDecided(db, op.q, op.inceptionAt, op.expiryAt, op.year, op.now, c); }
    } else if op.AddEndorsement? {
      if op.p < |db.policies| { EndorsementDecided(db, op.p, op.delta, op.principal, c); }
    } else if EndorsementOp(op) { DecisionDecided(db, op, c); }
    else if op.LapseSweep? {
      if Lifecycle.IsSweepSelection(db.policies, op.now, op.batch, op.picked) { SweepWritesText(db, op.picked); }
    } else { StatusDecided(db, op, c); }
  }

  lemma MoneyCallDecided(db: Database, op: Op, c: Context)
    requires MoneyCall(op) && RowsNumbered(db)
    ensures Decided(Apply(db, op), EventsOf(db, op, c))
  {
    if op.RecordPremiumReceipt? {
      PremiumDecided(db, op.external, op.number, op.amount, op.currency, op.now, c);
    } else if op.RecordPayoutReceipt? {
      PayoutDecided(db, op.external, op.claimRef, op.amount, op.currency, c);
    } else if op.ApproveSettlement? {
      if op.c < |db.claims| { SettlementDecided(db, op.c, op.principal, c); }
    } else if op.FileFnol? { FilingDecided(db, op, c); } else { ProposalDecided(db, op, c); }
  }

  lemma TextCallDecided(db: Database, op: Op, c: Context)
    requires !PolicyCall(op) && !MoneyCall(op)
    ensures Decided(Apply(db, op), EventsOf(db, op, c))
  {
  }

  lemma CallDecided(db: Database, op: Op, c: Context)
    requires RowsNumbered(db) && FitsInteger(c.version)
    ensures Decided(Apply(db, op), EventsOf(db, op, c))
  {
    if PolicyCall(op) { PolicyCallDecided(db, op, c); }
    else if MoneyCall(op) { MoneyCallDecided(db, op, c); }
    else { TextCallDecided(db, op, c); }
  }

  lemma WrittenIffCommitted(outcome: Result<Database>, es: seq<Event>, c: Context)
    requires Decided(outcome, es)
    ensures Guarded(outcome, AllWritable(es, c))
  {
    if outcome.Ok? || outcome == Err(NotCanonicalizable) { AllWritableIffFit(es, outcome.Ok?, c); }
  }

  /**
   * After any run, a call that passes every other check commits exactly when each of its events has a canonical text,
   * and is undone otherwise, whatever texts, clock readings and identifiers the events carry.
   */
  lemma EventsDecide(ops: seq<Op>, op: Op, c: Context)
    requires FitsInteger(c.version)
    ensures var outcome := Apply(Run(ops), op);
            outcome.Ok? || outcome == Err(NotCanonicalizable)
            ==> (outcome.Ok? <==> AllWritable(EventsOf(Run(ops), op, c), c))
  {
    RunHolds(ops);
    RowsAreNumbered(Run(ops));
    CallDecided(Run(ops), op, c);
    WrittenIffCommitted(Apply(Run(ops), op), EventsOf(Run(ops), op, c), c);
  }
}
