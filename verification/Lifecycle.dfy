/** What each quote and policy operation does to the database (src/insurance/services/lifecycle.py). */
module Lifecycle {
  import opened Wrappers
  import opened Sequences
  import opened Records
  import opened Journals
  import opened StatusLists
  import Rating
  import Serials
  import opened Decimals

  // --------------------------------------------------------------------------------- quotes

  predicate QuoteRefTaken(quotes: seq<Quote>, ref: string) {
    exists i :: 0 <= i < |quotes| && quotes[i].ref == ref
  }

  function ValuesOf(lines: seq<Rating.TraceLine>): (vs: seq<int>)
    ensures |vs| == |lines| && forall i :: 0 <= i < |vs| ==> vs[i] == lines[i].value
  {
    seq(|lines|, i requires 0 <= i < |lines| => lines[i].value)
  }

  /** create_quote, from the rating of its lines. */
  function CreateQuote(db: Database, ref: string, kind: ProductKind, rated: Result<Rating.Trace>, now: int,
                       validity: int): Result<Database> {
    match rated
    case Err(reason) => Err(reason)
    case Ok(trace) =>
      if QuoteRefTaken(db.quotes, ref) then Err(QuoteRefExists)
      else if trace.premium < 0 then Err(QuotePremiumCheck)
      else if !FitsBigint(trace.premium) then Err(BigintOutOfRange)
      else if validity <= 0 then Err(QuoteExpiryCheck)
      else if !Auditable(trace.premium) || !Auditable(trace.routeBp) then Err(NotCanonicalizable)
      else Ok(db.(quotes := db.quotes + [Quote(ref, kind, Quoted, trace.premium, ValuesOf(trace.lines), now + validity,
                                               "", "", "")]))
  }

  /** request_bind: the maker. An expired quote is refused; the EXPIRED write is rolled back with it. */
  function RequestBind(db: Database, q: nat, principal: string, now: int): Result<Database>
    requires q < |db.quotes|
  {
    var quote := db.quotes[q];
    if quote.status == Expired || now > quote.expiresAt then Err(QuoteExpired)
    else if quote.status != Quoted then Err(BadState)
    else Ok(db.(quotes := db.quotes[q := quote.(status := BindPending, bindRequestedBy := principal)]))
  }

  function PremiumBindRef(quoteRef: string): string { "premium-bind:" + quoteRef }

  predicate DecisionTaken(decisions: seq<BindDecision>, q: nat) {
    exists i :: 0 <= i < |decisions| && decisions[i].quote == q
  }

  /** decide_bind: the checker. A bind with a premium recognises it in the ledger. */
  function DecideBind(db: Database, q: nat, decision: Decision, principal: string): Result<Database>
    requires q < |db.quotes|
  {
    var quote := db.quotes[q];
    if quote.status != BindPending then Err(BadState)
    else if principal == quote.bindRequestedBy then Err(DualControlViolation)
    else if DecisionTaken(db.decisions, q) then Err(DecisionExists)
    else
      var decided := db.(decisions := db.decisions + [BindDecision(q, decision, principal)]);
      if decision == Decline then Ok(decided.(quotes := db.quotes[q := quote.(status := Declined)]))
      else
        var bound := quote.(status := Bound, boundBy := principal);
        if quote.premium <= 0 then Ok(decided.(quotes := db.quotes[q := bound]))
        else
          var reference := PremiumBindRef(quote.ref);
          match Posted(db.journals, reference, Transfer(PremiumReceivable, PremiumIncome, quote.premium))
          case Err(reason) => Err(reason)
          case Ok(journals) =>
            Ok(decided.(journals := journals, quotes := db.quotes[q := bound.(journal := reference)]))
  }

  // -------------------------------------------------------------------------------- issuance

  /** KIND_TO_FAMILY */
  function FamilyOf(kind: ProductKind): Family {
    match kind
    case MarineCargoSingle => CRG
    case MarineCargoOpen => CRG
    case FerryParametric => FRY
    case ProtectionIndemnity => PRT
    case Hull => HUL
  }

  function FamilyCode(family: Family): string {
    match family
    case CRG => "CRG"
    case FRY => "FRY"
    case PRT => "PRT"
    case HUL => "HUL"
  }

  /** The number of a policy from its series and sequence. */
  function PolicyNumber(family: Family, year: int, sequence: int): Result<string> {
    Serials.BuildPolicyNumber(FamilyCode(family), year, sequence)
  }

  function Counter(counters: map<(Family, int), nat>, family: Family, year: int): nat {
    if (family, year) in counters then counters[(family, year)] else 0
  }

  function SumValues(values: seq<int>): int { Sum(values, (v: int) => v) }

  const FIVE_MINUTES := 300_000_000

  predicate PolicyKeysFree(policies: seq<Policy>, number: string, quote: nat, statusIndex: nat) {
    forall i :: 0 <= i < |policies| ==>
      policies[i].number != number && policies[i].quote != quote && policies[i].statusIndex != statusIndex
  }

  /** issue_policy; year is the year of the inception timestamp. */
  function IssuePolicy(db: Database, q: nat, inceptionAt: int, expiryAt: int, year: int, now: int): Result<Database>
    requires q < |db.quotes|
  {
    var quote := db.quotes[q];
    if quote.status != Bound then Err(BadState)
    else if expiryAt <= inceptionAt then Err(BadWindow)
    else if inceptionAt < now - FIVE_MINUTES then Err(BackdatedInception)
    else
      var family := FamilyOf(quote.kind);
      var sequence := Counter(db.counters, family, year);
      var number := PolicyNumber(family, year, sequence);
      var index := AllocatedIndex(db.policies);
      var insuredValue := SumValues(quote.lineValues);
      if number.Err? then Err(number.reason)
      else if index.Err? then Err(index.reason)
      else if !PolicyKeysFree(db.policies, number.value, q, index.value) then Err(PolicyKeyExists)
      else if insuredValue <= 0 then Err(PolicyValueCheck)
      else if !FitsBigint(insuredValue) then Err(BigintOutOfRange)
      else if !Auditable(quote.premium) || !Auditable(insuredValue) then Err(NotCanonicalizable)
      else
        var policy := Policy(number.value, q, family, year, sequence, Active, quote.premium, insuredValue,
                             index.value, inceptionAt, expiryAt, None);
        Ok(db.(counters := db.counters[(family, year) := sequence + 1],
               policies := db.policies + [policy],
               quotes := db.quotes[q := quote.(status := Issued)]))
  }

  // ------------------------------------------------------------------------------ endorsements

  function MaxNo(endorsements: seq<Endorsement>, p: nat): nat {
    if endorsements == [] then 0
    else
      var rest := MaxNo(endorsements[..|endorsements| - 1], p);
      var last := endorsements[|endorsements| - 1];
      if last.policy == p && last.no > rest then last.no else rest
  }

  /** add_endorsement: a premium change is only proposed; anything else takes effect at once. */
  function AddEndorsement(db: Database, p: nat, delta: int, principal: string): Result<Database>
    requires p < |db.policies|
  {
    if db.policies[p].status != Active then Err(BadState)
    else if !FitsBigint(delta) then Err(BigintOutOfRange)
    else
      var no := MaxNo(db.endorsements, p) + 1;
      var status := if delta != 0 then Proposed else Approved;
      if !FitsInteger(no) then Err(IntegerOutOfRange)
      else if !Auditable(delta) || !Publishable(db.policies[p]) then Err(NotCanonicalizable)
      else Ok(db.(endorsements := db.endorsements + [Endorsement(p, no, delta, status, "", principal, "")]))
  }

  function FindEndorsement(endorsements: seq<Endorsement>, p: nat, no: nat): (r: Option<nat>)
    ensures r.Some? ==> r.value < |endorsements| && endorsements[r.value].policy == p && endorsements[r.value].no == no
    ensures r.None? ==> forall k :: 0 <= k < |endorsements| ==> endorsements[k].policy != p || endorsements[k].no != no
  {
    if endorsements == [] then None
    else
      var k := |endorsements| - 1;
      if endorsements[k].policy == p && endorsements[k].no == no then Some(k)
      else FindEndorsement(endorsements[..k], p, no)
  }

  function EndorsementRef(number: string, no: nat): string { "endorsement:" + number + ":" + NatText(no) }

  function Magnitude(x: int): nat { if x < 0 then -x else x }

  /** Additional premium debits the receivable; return premium reverses it. */
  function DeltaLegs(delta: int): seq<Leg> {
    if delta > 0 then Transfer(PremiumReceivable, PremiumIncome, delta)
    else Transfer(PremiumIncome, PremiumReceivable, Magnitude(delta))
  }

  /** approve_endorsement: posts the premium change and takes effect, by someone else. */
  function ApproveEndorsement(db: Database, p: nat, no: nat, principal: string): Result<Database>
    requires p < |db.policies|
  {
    var found := FindEndorsement(db.endorsements, p, no);
    if found.None? then Err(UnknownEndorsement)
    else
      var e := db.endorsements[found.value];
      var policy := db.policies[p];
      if e.status != Proposed then Err(BadState)
      else if principal == e.createdBy then Err(DualControlViolation)
      else if e.delta != 0 && policy.premium + e.delta < 0 then Err(AmountOutOfRange)
      else if e.delta == 0 then
        if !Publishable(policy) then Err(NotCanonicalizable)
        else Ok(db.(endorsements := db.endorsements[found.value := e.(status := Approved, approvedBy := principal)]))
      else
        var reference := EndorsementRef(policy.number, e.no);
        match Posted(db.journals, reference, DeltaLegs(e.delta))
        case Err(reason) => Err(reason)
        case Ok(journals) =>
          if !FitsBigint(policy.premium + e.delta) then Err(BigintOutOfRange)
          else if !Auditable(e.delta) || !Publishable(policy.(premium := policy.premium + e.delta))
          then Err(NotCanonicalizable)
          else Ok(db.(journals := journals,
                      policies := db.policies[p := policy.(premium := policy.premium + e.delta)],
                      endorsements := db.endorsements[found.value :=
                        e.(status := Approved, approvedBy := principal, journal := reference)]))
  }

  function RejectEndorsement(db: Database, p: nat, no: nat, principal: string): Result<Database>
    requires p < |db.policies|
  {
    var found := FindEndorsement(db.endorsements, p, no);
    if found.None? then Err(UnknownEndorsement)
    else
      var e := db.endorsements[found.value];
      if e.status != Proposed then Err(BadState)
      else if principal == e.createdBy then Err(DualControlViolation)
      else Ok(db.(endorsements := db.endorsements[found.value := e.(status := Rejected, approvedBy := principal)]))
  }

  // ------------------------------------------------------------------------------- cover status

  /**
   * A policy moves between two statuses and its bit in one status list follows; every change but a lapse signs an
   * event.
   */
  function MoveStatus(db: Database, p: nat, from: PolicyStatus, to: PolicyStatus, purpose: Purpose,
                      bit: bool): Result<Database>
    requires p < |db.policies|
  {
    var policy := db.policies[p];
    if policy.status != from then Err(BadState)
    else match Flagged(db.snapshots, purpose, policy.statusIndex, bit)
      case Err(reason) => Err(reason)
      case Ok(snapshots) =>
        if to != Lapsed && !Publishable(policy) then Err(NotCanonicalizable)
        else Ok(db.(policies := db.policies[p := policy.(status := to)], snapshots := snapshots))
  }

  function CancelOrLapse(db: Database, p: nat, newStatus: PolicyStatus): Result<Database>
    requires p < |db.policies|
  {
    if newStatus != Cancelled && newStatus != Lapsed then Err(BadStatus)
    else MoveStatus(db, p, Active, newStatus, Revocation, true)
  }

  function SuspendPolicy(db: Database, p: nat): Result<Database>
    requires p < |db.policies|
  {
    MoveStatus(db, p, Active, Suspended, Suspension, true)
  }

  function ReinstatePolicy(db: Database, p: nat): Result<Database>
    requires p < |db.policies|
  {
    MoveStatus(db, p, Suspended, Active, Suspension, false)
  }

  // -------------------------------------------------------------------------------- lapse sweep

  predicate Lapsable(policy: Policy, now: int) { policy.status == Active && policy.expiryAt <= now }

  function EligibleCount(policies: seq<Policy>, now: int): nat {
    if policies == [] then 0
    else EligibleCount(policies[..|policies| - 1], now)
         + (if Lapsable(policies[|policies| - 1], now) then 1 else 0)
  }

  /** The answer of the sweep's query: the earliest-expiring lapsable policies, at most a batch of them. */
  ghost predicate IsSweepSelection(policies: seq<Policy>, now: int, batch: nat, picked: seq<nat>) {
    && |picked| == (if batch < EligibleCount(policies, now) then batch else EligibleCount(policies, now))
    && (forall i :: 0 <= i < |picked| ==> picked[i] < |policies| && Lapsable(policies[picked[i]], now))
    && (forall i, j :: 0 <= i < j < |picked| ==> picked[i] != picked[j])
    && (forall i, j :: 0 <= i < j < |picked| ==> policies[picked[i]].expiryAt <= policies[picked[j]].expiryAt)
    && (forall i, p: nat :: 0 <= i < |picked| && p < |policies| && Lapsable(policies[p], now) && p !in picked
          ==> policies[picked[i]].expiryAt <= policies[p].expiryAt)
  }

  predicate InRange(picked: seq<nat>, n: nat) { forall i :: 0 <= i < |picked| ==> picked[i] < n }

  /** lapse_sweep over the selected rows, one after another. */
  function LapseSweep(db: Database, picked: seq<nat>): (r: Result<Database>)
    requires InRange(picked, |db.policies|)
    ensures r.Ok? ==> |r.value.policies| == |db.policies|
  {
    if picked == [] then Ok(db)
    else
      match LapseSweep(db, picked[..|picked| - 1])
      case Err(reason) => Err(reason)
      case Ok(before) => CancelOrLapse(before, picked[|picked| - 1], Lapsed)
  }
}
