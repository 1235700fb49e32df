/**
 * The service as it runs: one transaction a call, tables updated step by step, everything undone on an error.
 * Each method is proved to commit exactly what Lifecycle, Claims and Premiums say, or to leave no trace.
 */
module Session {
  import opened Wrappers
  import opened Sequences
  import opened Records
  import opened Journals
  import opened StatusLists
  import Lifecycle
  import Claims
  import Premiums
  import Rating
  import Machine
  import Invariants

  /** A call either commits the expected database or reports the expected reason and changes nothing. */
  predicate Outcome(r: Result<()>, expected: Result<Database>, before: Database, after: Database) {
    match expected
    case Ok(db) => r == Ok(()) && after == db
    case Err(reason) => r == Err(reason) && after == before
  }

  /** A committed call joins the history. */
  ghost function Logged<T>(history: seq<Machine.Op>, r: Result<T>, op: Machine.Op): seq<Machine.Op> {
    if r.Ok? then history + [op] else history
  }

  class Service {
    var quotes: seq<Quote>
    var decisions: seq<BindDecision>
    var counters: map<(Family, int), nat>
    var policies: seq<Policy>
    var endorsements: seq<Endorsement>
    var claims: seq<Claim>
    var documents: seq<Document>
    var premiumReceipts: seq<Receipt>
    var payoutReceipts: seq<Receipt>
    var journals: seq<Journal>
    var snapshots: seq<Snapshot>

    /** The calls that have committed. */
    ghost var history: seq<Machine.Op>

    function Db(): Database
      reads this
    {
      Database(quotes, decisions, counters, policies, endorsements, claims, documents,
               premiumReceipts, payoutReceipts, journals, snapshots)
    }

    /** The tables are those of a run of the service. */
    ghost predicate Valid()
      reads this
    {
      Db() == Machine.Run(history)
    }

    constructor ()
      ensures Valid() && Db() == EmptyDatabase() && history == []
    {
      history := [];
      quotes, decisions, counters, policies, endorsements, claims := [], [], map[], [], [], [];
      documents, premiumReceipts, payoutReceipts, journals, snapshots := [], [], [], [], [];
    }

    /** Every law of the reachable databases holds of a service between calls. */
    lemma Lawful()
      requires Valid()
      ensures Invariants.Inv(Db())
    {
      Invariants.RunHolds(history);
    }

    /** session.commit() */
    ghost method Log(op: Machine.Op)
      requires Machine.Apply(Machine.Run(history), op).Ok? && Machine.Apply(Machine.Run(history), op).value == Db()
      modifies this`history
      ensures Valid() && history == old(history) + [op]
    {
      assert (history + [op])[..|history|] == history;
      history := history + [op];
    }

    /** session.rollback() */
    method Rollback(saved: Database)
      modifies this
      ensures Db() == saved && history == old(history)
    {
      quotes, decisions, counters, policies := saved.quotes, saved.decisions, saved.counters, saved.policies;
      endorsements, claims, documents := saved.endorsements, saved.claims, saved.documents;
      premiumReceipts, payoutReceipts := saved.premiumReceipts, saved.payoutReceipts;
      journals, snapshots := saved.journals, saved.snapshots;
    }

    // ---------------------------------------------------------------------------- quotes

    /** create_quote: sums the corridor's evidence, rates, and stores the trace's premium and values. */
    method CreateQuote(ref: string, kind: ProductKind, evidence: seq<Rating.Evidence>, corridor: string,
                       table: Rating.RateTable, lines: seq<Rating.Line>, now: int, validity: int)
      returns (r: Result<Rating.Trace>)
      requires Valid()
      modifies this
      ensures r.Ok? ==> Rating.IsRating(table, lines, Rating.CorridorRisk(evidence, corridor), r.value)
                        && Lifecycle.CreateQuote(old(Db()), ref, kind, r, now, validity) == Ok(Db())
      ensures r.Err? ==> Db() == old(Db())
      ensures r.Err? ==> forall trace :: Rating.IsRating(table, lines, Rating.CorridorRisk(evidence, corridor), trace)
                           ==> Lifecycle.CreateQuote(old(Db()), ref, kind, Ok(trace), now, validity) == Err(r.reason)
      ensures Valid()
      ensures r.Ok? ==> history == old(history)
                        + [Machine.CreateQuote(ref, kind, table, lines, Rating.CorridorRisk(evidence, corridor),
                                               r.value, now, validity)]
      ensures r.Err? ==> history == old(history)
    {
      var saved := Db();
      var routeBp := Rating.CorridorRouteRisk(evidence, corridor);
      r := Rating.RateQuote(table, lines, routeBp);
      if r.Err? { return; }
      var trace := r.value;
      Rating.RatingIsUnique(table, lines, routeBp, trace);
      if Lifecycle.QuoteRefTaken(quotes, ref) { return Err(QuoteRefExists); }
      if trace.premium < 0 { return Err(QuotePremiumCheck); }
      if !FitsBigint(trace.premium) { return Err(BigintOutOfRange); }
      if validity <= 0 { return Err(QuoteExpiryCheck); }
      quotes := quotes + [Quote(ref, kind, Quoted, trace.premium, Lifecycle.ValuesOf(trace.lines), now + validity, "",
                                "", "")];
      if !Auditable(trace.premium) || !Auditable(trace.routeBp) { Rollback(saved); return Err(NotCanonicalizable); }
      Log(Machine.CreateQuote(ref, kind, table, lines, routeBp, trace, now, validity));
    }

    method RequestBind(q: nat, principal: string, now: int) returns (r: Result<()>)
      requires Valid() && q < |quotes|
      modifies this
      ensures Outcome(r, Lifecycle.RequestBind(old(Db()), q, principal, now), old(Db()), Db())
      ensures Valid() && history == Logged(old(history), r, Machine.RequestBind(q, principal, now))
    {
      var saved := Db();
      if quotes[q].status == Expired || now > quotes[q].expiresAt {
        if quotes[q].status != Expired { quotes := quotes[q := quotes[q].(status := Expired)]; }
        Rollback(saved);
        return Err(QuoteExpired);
      }
      if quotes[q].status != Quoted { return Err(BadState); }
      quotes := quotes[q := quotes[q].(status := BindPending, bindRequestedBy := principal)];
      Log(Machine.RequestBind(q, principal, now));
      return Ok(());
    }

    /** The rows of a decision, before the commit. */
    method DecisionRows(q: nat, decision: Decision, principal: string) returns (r: Result<()>)
      requires q < |quotes|
      modifies this
      ensures Outcome(r, Lifecycle.DecideBind(old(Db()), q, decision, principal), old(Db()), Db())
      ensures history == old(history)
    {
      var saved := Db();
      if quotes[q].status != BindPending { return Err(BadState); }
      if principal == quotes[q].bindRequestedBy { return Err(DualControlViolation); }
      if exists i :: 0 <= i < |decisions| && decisions[i].quote == q { return Err(DecisionExists); }
      decisions := decisions + [BindDecision(q, decision, principal)];
      if decision == Decline {
        quotes := quotes[q := quotes[q].(status := Declined)];
        return Ok(());
      }
      quotes := quotes[q := quotes[q].(status := Bound, boundBy := principal)];
      if quotes[q].premium > 0 {
        var reference := Lifecycle.PremiumBindRef(quotes[q].ref);
        var posted := PostJournal(journals, reference, Transfer(PremiumReceivable, PremiumIncome, quotes[q].premium));
        if posted.Err? {
          Rollback(saved);
          return Err(posted.reason);
        }
        journals := posted.value;
        quotes := quotes[q := quotes[q].(journal := reference)];
      }
      return Ok(());
    }

    method DecideBind(q: nat, decision: Decision, principal: string) returns (r: Result<()>)
      requires Valid() && q < |quotes|
      modifies this
      ensures Outcome(r, Lifecycle.DecideBind(old(Db()), q, decision, principal), old(Db()), Db())
      ensures Valid() && history == Logged(old(history), r, Machine.DecideBind(q, decision, principal))
    {
      r := DecisionRows(q, decision, principal);
      if r.Ok? { Log(Machine.DecideBind(q, decision, principal)); }
    }

    /** _claim_sequence: the counter is taken before anything else can fail. */
    method ClaimSequence(family: Family, year: int) returns (sequence: nat)
      modifies this
      ensures sequence == Lifecycle.Counter(old(counters), family, year)
      ensures Db() == old(Db()).(counters := old(counters)[(family, year) := sequence + 1]) && history == old(history)
    {
      sequence := if (family, year) in counters then counters[(family, year)] else 0;
      counters := counters[(family, year) := sequence + 1];
    }

    method InsuredValue(values: seq<int>) returns (total: int)
      ensures total == Lifecycle.SumValues(values)
    {
      total := 0;
      for i := 0 to |values|
        invariant total == Lifecycle.SumValues(values[..i])
      {
        SumSnoc(values[..i], values[i], (v: int) => v);
        assert values[..i + 1] == values[..i] + [values[i]];
        total := total + values[i];
      }
      assert values[..|values|] == values;
    }

    /** The rows of an issued policy, before the commit. */
    method IssueRows(q: nat, inceptionAt: int, expiryAt: int, year: int, now: int) returns (r: Result<()>)
      requires q < |quotes|
      modifies this
      ensures Outcome(r, Lifecycle.IssuePolicy(old(Db()), q, inceptionAt, expiryAt, year, now), old(Db()), Db())
      ensures history == old(history)
    {
      var saved := Db();
      var quote := quotes[q];
      if quote.status != Bound { return Err(BadState); }
      if expiryAt <= inceptionAt { return Err(BadWindow); }
      if inceptionAt < now - Lifecycle.FIVE_MINUTES { return Err(BackdatedInception); }
      var family := Lifecycle.FamilyOf(quote.kind);
      var sequence := ClaimSequence(family, year);
      var number := Lifecycle.PolicyNumber(family, year, sequence);
      if number.Err? { Rollback(saved); return Err(number.reason); }
      var index := AllocatedIndex(policies);
      if index.Err? { Rollback(saved); return Err(index.reason); }
      var insuredValue := InsuredValue(quote.lineValues);
      if !Lifecycle.PolicyKeysFree(policies, number.value, q, index.value) {
        Rollback(saved); return Err(PolicyKeyExists);
      }
      if insuredValue <= 0 { Rollback(saved); return Err(PolicyValueCheck); }
      if !FitsBigint(insuredValue) { Rollback(saved); return Err(BigintOutOfRange); }
      policies := policies + [Policy(number.value, q, family, year, sequence, Active, quote.premium, insuredValue,
                                     index.value, inceptionAt, expiryAt, None)];
      quotes := quotes[q := quotes[q].(status := Issued)];
      if !Publishable(policies[|policies| - 1]) { Rollback(saved); return Err(NotCanonicalizable); }
      return Ok(());
    }

    method IssuePolicy(q: nat, inceptionAt: int, expiryAt: int, year: int, now: int) returns (r: Result<()>)
      requires Valid() && q < |quotes|
      modifies this
      ensures Outcome(r, Lifecycle.IssuePolicy(old(Db()), q, inceptionAt, expiryAt, year, now), old(Db()), Db())
      ensures Valid() && history == Logged(old(history), r, Machine.IssuePolicy(q, inceptionAt, expiryAt, year, now))
    {
      r := IssueRows(q, inceptionAt, expiryAt, year, now);
      if r.Ok? { Log(Machine.IssuePolicy(q, inceptionAt, expiryAt, year, now)); }
    }

    // ----------------------------------------------------------------------- endorsements

    method AddEndorsement(p: nat, delta: int, principal: string) returns (r: Result<()>)
      requires Valid() && p < |policies|
      modifies this
      ensures Outcome(r, Lifecycle.AddEndorsement(old(Db()), p, delta, principal), old(Db()), Db())
      ensures Valid() && history == Logged(old(history), r, Machine.AddEndorsement(p, delta, principal))
    {
      var saved := Db();
      if policies[p].status != Active { return Err(BadState); }
      if !FitsBigint(delta) { return Err(BigintOutOfRange); }
      var last := Lifecycle.MaxNo(endorsements, p);
      var status := if delta != 0 then Proposed else Approved;
      if !FitsInteger(last + 1) { return Err(IntegerOutOfRange); }
      endorsements := endorsements + [Endorsement(p, last + 1, delta, status, "", principal, "")];
      if !Auditable(delta) || !Publishable(policies[p]) { Rollback(saved); return Err(NotCanonicalizable); }
      Log(Machine.AddEndorsement(p, delta, principal));
      return Ok(());
    }

    /** The rows of an approval, before the commit. */
    method ApprovalRows(p: nat, no: nat, principal: string) returns (r: Result<()>)
      requires p < |policies|
      modifies this
      ensures Outcome(r, Lifecycle.ApproveEndorsement(old(Db()), p, no, principal), old(Db()), Db())
      ensures history == old(history)
    {
      var saved := Db();
      var found := Lifecycle.FindEndorsement(endorsements, p, no);
      if found.None? { return Err(UnknownEndorsement); }
      var k := found.value;
      if endorsements[k].status != Proposed { return Err(BadState); }
      if principal == endorsements[k].createdBy { return Err(DualControlViolation); }
      var delta := endorsements[k].delta;
      if delta != 0 && policies[p].premium + delta < 0 { return Err(AmountOutOfRange); }
      if delta != 0 {
        var reference := Lifecycle.EndorsementRef(policies[p].number, endorsements[k].no);
        var posted := PostJournal(journals, reference, Lifecycle.DeltaLegs(delta));
        if posted.Err? { return Err(posted.reason); }
        journals := posted.value;
        endorsements := endorsements[k := endorsements[k].(journal := reference)];
        if !FitsBigint(policies[p].premium + delta) { Rollback(saved); return Err(BigintOutOfRange); }
        policies := policies[p := policies[p].(premium := policies[p].premium + delta)];
      }
      endorsements := endorsements[k := endorsements[k].(status := Approved, approvedBy := principal)];
      if (delta != 0 && !Auditable(delta)) || !Publishable(policies[p]) {
        Rollback(saved);
        return Err(NotCanonicalizable);
      }
      return Ok(());
    }

    method ApproveEndorsement(p: nat, no: nat, principal: string) returns (r: Result<()>)
      requires Valid() && p < |policies|
      modifies this
      ensures Outcome(r, Lifecycle.ApproveEndorsement(old(Db()), p, no, principal), old(Db()), Db())
      ensures Valid() && history == Logged(old(history), r, Machine.ApproveEndorsement(p, no, principal))
    {
      r := ApprovalRows(p, no, principal);
      if r.Ok? { Log(Machine.ApproveEndorsement(p, no, principal)); }
    }

    method RejectEndorsement(p: nat, no: nat, principal: string) returns (r: Result<()>)
      requires Valid() && p < |policies|
      modifies this
      ensures Outcome(r, Lifecycle.RejectEndorsement(old(Db()), p, no, principal), old(Db()), Db())
      ensures Valid() && history == Logged(old(history), r, Machine.RejectEndorsement(p, no, principal))
    {
      var found := Lifecycle.FindEndorsement(endorsements, p, no);
      if found.None? { return Err(UnknownEndorsement); }
      var k := found.value;
      if endorsements[k].status != Proposed { return Err(BadState); }
      if principal == endorsements[k].createdBy { return Err(DualControlViolation); }
      endorsements := endorsements[k := endorsements[k].(status := Rejected, approvedBy := principal)];
      Log(Machine.RejectEndorsement(p, no, principal));
      return Ok(());
    }

    // ----------------------------------------------------------------------- cover status

    /** set_flag or clear_flag, after the status has been assigned. */
    method MoveStatus(p: nat, from: PolicyStatus, to: PolicyStatus, purpose: Purpose, bit: bool) returns (r: Result<()>)
      requires p < |policies|
      modifies this
      ensures Outcome(r, Lifecycle.MoveStatus(old(Db()), p, from, to, purpose, bit), old(Db()), Db())
      ensures history == old(history)
    {
      var saved := Db();
      if policies[p].status != from { return Err(BadState); }
      policies := policies[p := policies[p].(status := to)];
      var written := WriteFlag(snapshots, purpose, policies[p].statusIndex, bit);
      if written.Err? { Rollback(saved); return Err(written.reason); }
      snapshots := written.value;
      if to != Lapsed && !Publishable(policies[p]) { Rollback(saved); return Err(NotCanonicalizable); }
      return Ok(());
    }

    method CancelOrLapse(p: nat, newStatus: PolicyStatus) returns (r: Result<()>)
      requires Valid() && p < |policies|
      modifies this
      ensures Outcome(r, Lifecycle.CancelOrLapse(old(Db()), p, newStatus), old(Db()), Db())
      ensures Valid() && history == Logged(old(history), r, Machine.CancelOrLapse(p, newStatus))
    {
      if newStatus != Cancelled && newStatus != Lapsed { return Err(BadStatus); }
      r := MoveStatus(p, Active, newStatus, Revocation, true);
      if r.Ok? { Log(Machine.CancelOrLapse(p, newStatus)); }
    }

    method SuspendPolicy(p: nat) returns (r: Result<()>)
      requires Valid() && p < |policies|
      modifies this
      ensures Outcome(r, Lifecycle.SuspendPolicy(old(Db()), p), old(Db()), Db())
      ensures Valid() && history == Logged(old(history), r, Machine.SuspendPolicy(p))
    {
      r := MoveStatus(p, Active, Suspended, Suspension, true);
      if r.Ok? { Log(Machine.SuspendPolicy(p)); }
    }

    method ReinstatePolicy(p: nat) returns (r: Result<()>)
      requires Valid() && p < |policies|
      modifies this
      ensures Outcome(r, Lifecycle.ReinstatePolicy(old(Db()), p), old(Db()), Db())
      ensures Valid() && history == Logged(old(history), r, Machine.ReinstatePolicy(p))
    {
      r := MoveStatus(p, Suspended, Active, Suspension, false);
      if r.Ok? { Log(Machine.ReinstatePolicy(p)); }
    }

    /** cancel_or_lapse inside the sweep's transaction. */
    method LapseRow(p: nat) returns (r: Result<()>)
      requires p < |policies|
      modifies this
      ensures Outcome(r, Lifecycle.CancelOrLapse(old(Db()), p, Lapsed), old(Db()), Db())
      ensures history == old(history)
    {
      r := MoveStatus(p, Active, Lapsed, Revocation, true);
    }

    /** The loop of the sweep; the first row that cannot be lapsed undoes the whole batch. */
    method SweepRows(picked: seq<nat>) returns (r: Result<nat>)
      requires Lifecycle.InRange(picked, |policies|)
      modifies this
      ensures r.Ok? <==> Lifecycle.LapseSweep(old(Db()), picked).Ok?
      ensures r.Ok? ==> Db() == Lifecycle.LapseSweep(old(Db()), picked).value && r.value == |picked|
      ensures r.Err? ==> Db() == old(Db())
      ensures history == old(history)
    {
      var saved := Db();
      for i := 0 to |picked|
        invariant Lifecycle.LapseSweep(saved, picked[..i]) == Ok(Db()) && history == old(history)
      {
        assert picked[..i + 1][..i] == picked[..i];
        var lapsed := LapseRow(picked[i]);
        if lapsed.Err? {
          SweepStopsHere(saved, picked, i);
          Rollback(saved);
          return Err(lapsed.reason);
        }
      }
      assert picked[..|picked|] == picked;
      return Ok(|picked|);
    }

    /** lapse_sweep over the answer of its query; returns how many lapsed. */
    method LapseSweep(now: int, batch: nat, picked: seq<nat>) returns (r: Result<nat>)
      requires Valid() && Lifecycle.IsSweepSelection(policies, now, batch, picked)
      modifies this
      ensures r.Ok? <==> Lifecycle.LapseSweep(old(Db()), picked).Ok?
      ensures r.Ok? ==> Db() == Lifecycle.LapseSweep(old(Db()), picked).value && r.value == |picked|
      ensures r.Err? ==> Db() == old(Db())
      ensures Valid() && history == Logged(old(history), r, Machine.LapseSweep(now, batch, picked))
    {
      r := SweepRows(picked);
      if r.Ok? { Log(Machine.LapseSweep(now, batch, picked)); }
    }

    // ----------------------------------------------------------------------------- claims

    method ClaimedOnPolicy(p: nat) returns (aggregate: int)
      ensures aggregate == Sum(claims, Claims.ClaimedOn(p))
    {
      aggregate := 0;
      for i := 0 to |claims|
        invariant aggregate == Sum(claims[..i], Claims.ClaimedOn(p))
      {
        SumSnoc(claims[..i], claims[i], Claims.ClaimedOn(p));
        assert claims[..i + 1] == claims[..i] + [claims[i]];
        if claims[i].policy == p && claims[i].status != Refused { aggregate := aggregate + claims[i].claimed; }
      }
      assert claims[..|claims|] == claims;
    }

    method FileFnol(p: nat, ref: string, lossAt: int, claimed: int, trigger: string) returns (r: Result<()>)
      requires Valid() && p < |policies|
      modifies this
      ensures Outcome(r, Claims.FileFnol(old(Db()), p, ref, lossAt, claimed, trigger), old(Db()), Db())
      ensures Valid() && history == Logged(old(history), r, Machine.FileFnol(p, ref, lossAt, claimed, trigger))
    {
      var saved, policy := Db(), policies[p];
      if policy.status != Active { return Err(PolicyNotActive); }
      if !(policy.inceptionAt <= lossAt <= policy.expiryAt) { return Err(LossOutsideCover); }
      if claimed <= 0 || claimed > policy.insuredValue { return Err(AmountOutOfRange); }
      var aggregate := ClaimedOnPolicy(p);
      if aggregate + claimed > policy.insuredValue { return Err(AggregateCapExceeded); }
      if policy.family == FRY && trigger == "" { return Err(TriggerRequired); }
      if Claims.ClaimRefTaken(claims, ref) { return Err(ClaimRefExists); }
      claims := claims + [Claims.NewClaim(p, ref, lossAt, claimed, trigger)];
      if !Auditable(claimed) { Rollback(saved); return Err(NotCanonicalizable); }
      Log(Machine.FileFnol(p, ref, lossAt, claimed, trigger));
      return Ok(());
    }

    method AttachDocument(c: nat, vaultRef: string, sha256: string) returns (r: Result<()>)
      requires Valid() && c < |claims|
      modifies this
      ensures Outcome(r, Claims.AttachDocument(old(Db()), c, vaultRef, sha256), old(Db()), Db())
      ensures Valid() && history == Logged(old(history), r, Machine.AttachDocument(c, vaultRef, sha256))
    {
      if claims[c].status != Fnol && claims[c].status != UnderReview { return Err(BadState); }
      if !Claims.IsDigest(sha256) { return Err(MalformedDigest); }
      if Claims.DocumentTaken(documents, c, vaultRef) { return Err(DocumentExists); }
      documents := documents + [Document(c, vaultRef, sha256)];
      if claims[c].status == Fnol { claims := claims[c := claims[c].(status := UnderReview)]; }
      Log(Machine.AttachDocument(c, vaultRef, sha256));
      return Ok(());
    }

    method ProposeAdjuster(c: nat, adjuster: string, principal: string) returns (r: Result<()>)
      requires Valid() && c < |claims|
      modifies this
      ensures Outcome(r, Claims.ProposeAdjuster(old(Db()), c, adjuster, principal), old(Db()), Db())
      ensures Valid() && history == Logged(old(history), r, Machine.ProposeAdjuster(c, adjuster, principal))
    {
      if claims[c].status != UnderReview { return Err(BadState); }
      claims := claims[c := claims[c].(status := AdjusterPending)];
      claims := claims[c := claims[c].(adjuster := adjuster, assignmentProposedBy := principal)];
      Log(Machine.ProposeAdjuster(c, adjuster, principal));
      return Ok(());
    }

    method ConfirmAdjuster(c: nat, principal: string) returns (r: Result<()>)
      requires Valid() && c < |claims|
      modifies this
      ensures Outcome(r, Claims.ConfirmAdjuster(old(Db()), c, principal), old(Db()), Db())
      ensures Valid() && history == Logged(old(history), r, Machine.ConfirmAdjuster(c, principal))
    {
      if claims[c].status != AdjusterPending { return Err(BadState); }
      if principal == claims[c].assignmentProposedBy { return Err(DualControlViolation); }
      claims := claims[c := claims[c].(status := AdjusterAssigned, assignmentConfirmedBy := principal)];
      Log(Machine.ConfirmAdjuster(c, principal));
      return Ok(());
    }

    method ProposeSettlement(c: nat, settled: int, principal: string) returns (r: Result<()>)
      requires Valid() && c < |claims|
      modifies this
      ensures Outcome(r, Claims.ProposeSettlement(old(Db()), c, settled, principal), old(Db()), Db())
      ensures Valid() && history == Logged(old(history), r, Machine.ProposeSettlement(c, settled, principal))
    {
      var saved := Db();
      if claims[c].status != AdjusterAssigned { return Err(BadState); }
      if principal != claims[c].adjuster { return Err(NotAssignedAdjuster); }
      if settled <= 0 || settled > claims[c].claimed { return Err(AmountOutOfRange); }
      claims := claims[c := claims[c].(status := SettlementPending)];
      claims := claims[c := claims[c].(settled := settled, settlementProposedBy := principal)];
      if !Auditable(settled) { Rollback(saved); return Err(NotCanonicalizable); }
      Log(Machine.ProposeSettlement(c, settled, principal));
      return Ok(());
    }

    method ApproveSettlement(c: nat, principal: string) returns (r: Result<()>)
      requires Valid() && c < |claims| && claims[c].policy < |policies|
      modifies this
      ensures Outcome(r, Claims.ApproveSettlement(old(Db()), c, principal), old(Db()), Db())
      ensures Valid() && history == Logged(old(history), r, Machine.ApproveSettlement(c, principal))
    {
      var saved := Db();
      if claims[c].status != SettlementPending { return Err(BadState); }
      if principal == claims[c].settlementProposedBy { return Err(DualControlViolation); }
      if policies[claims[c].policy].premiumPaidAt.None? { return Err(PremiumUnpaid); }
      var reference := Claims.SettlementRef(claims[c].ref);
      var posted := PostJournal(journals, reference, Transfer(ClaimsPayable, InsurerClearing, claims[c].settled));
      if posted.Err? { return Err(posted.reason); }
      journals := posted.value;
      claims := claims[c := claims[c].(status := Settled, settlementApprovedBy := principal)];
      claims := claims[c := claims[c].(journal := reference)];
      if !Auditable(claims[c].settled) || !Auditable(claims[c].claimed) {
        Rollback(saved);
        return Err(NotCanonicalizable);
      }
      Log(Machine.ApproveSettlement(c, principal));
      return Ok(());
    }

    method RejectClaim(c: nat) returns (r: Result<()>)
      requires Valid() && c < |claims|
      modifies this
      ensures Outcome(r, Claims.RejectClaim(old(Db()), c), old(Db()), Db())
      ensures Valid() && history == Logged(old(history), r, Machine.RejectClaim(c))
    {
      if claims[c].status == Settled || claims[c].status == Paid || claims[c].status == Refused {
        return Err(BadState);
      }
      claims := claims[c := claims[c].(status := Refused)];
      Log(Machine.RejectClaim(c));
      return Ok(());
    }

    // ---------------------------------------------------------------------------- receipts

    method StorePayout(row: Receipt) returns (r: Result<()>)
      modifies this
      ensures Outcome(r, Claims.StorePayout(old(Db()), row), old(Db()), Db())
      ensures history == old(history)
    {
      var stored := Claims.Stored(payoutReceipts, row);
      if stored.Err? { return Err(stored.reason); }
      payoutReceipts := stored.value;
      return Ok(());
    }

    /** The rows of a payout receipt, before the commit. */
    method PayoutReceiptRows(external: string, claimRef: string, amount: int, currency: string) returns (r: Result<()>)
      modifies this
      ensures Outcome(r, Claims.RecordPayoutReceipt(old(Db()), external, claimRef, amount, currency), old(Db()), Db())
      ensures history == old(history)
    {
      var saved := Db();
      var found := Claims.FindClaim(claims, claimRef);
      if found.None? {
        r := StorePayout(Receipt(None, external, amount, currency, Quarantined, ""));
        return;
      }
      var c := found.value;
      if claims[c].status != Settled { return Err(BadState); }
      if currency != "NGN" || amount != claims[c].settled {
        r := StorePayout(Receipt(Some(c), external, amount, currency, Quarantined, ""));
        return;
      }
      claims := claims[c := claims[c].(status := Paid)];
      r := StorePayout(Receipt(Some(c), external, amount, currency, Applied, ""));
      if r.Ok? && (!Auditable(amount) || !Auditable(claims[c].claimed)) { r := Err(NotCanonicalizable); }
      if r.Err? { Rollback(saved); }
    }

    method RecordPayoutReceipt(external: string, claimRef: string, amount: int, currency: string)
      returns (r: Result<()>)
      requires Valid()
      modifies this
      ensures Outcome(r, Claims.RecordPayoutReceipt(old(Db()), external, claimRef, amount, currency), old(Db()), Db())
      ensures Valid() && history == Logged(old(history), r,
                                           Machine.RecordPayoutReceipt(external, claimRef, amount, currency))
    {
      r := PayoutReceiptRows(external, claimRef, amount, currency);
      if r.Ok? { Log(Machine.RecordPayoutReceipt(external, claimRef, amount, currency)); }
    }

    method StorePremium(row: Receipt) returns (r: Result<()>)
      modifies this
      ensures Outcome(r, Premiums.StorePremium(old(Db()), row), old(Db()), Db())
      ensures history == old(history)
    {
      var stored := Claims.Stored(premiumReceipts, row);
      if stored.Err? { return Err(stored.reason); }
      premiumReceipts := stored.value;
      return Ok(());
    }

    /** The rows of a premium receipt, before the commit. */
    method PremiumReceiptRows(external: string, number: string, amount: int, currency: string, now: int)
      returns (r: Result<()>)
      modifies this
      ensures Outcome(r, Premiums.RecordPremiumReceipt(old(Db()), external, number, amount, currency, now), old(Db()),
                      Db())
      ensures history == old(history)
    {
      var saved := Db();
      var found := Premiums.FindPolicy(policies, number);
      if found.None? {
        r := StorePremium(Receipt(None, external, amount, currency, Quarantined, ""));
        return;
      }
      var p := found.value;
      if policies[p].status != Active && policies[p].status != Suspended { return Err(BadState); }
      if policies[p].premiumPaidAt.Some? || currency != "NGN" || amount != policies[p].premium {
        r := StorePremium(Receipt(Some(p), external, amount, currency, Quarantined, ""));
        return;
      }
      var reference := "";
      if amount > 0 {
        reference := Premiums.PremiumReceiptRef(number);
        var posted := PostJournal(journals, reference, Transfer(InsurerClearing, PremiumReceivable, amount));
        if posted.Err? { return Err(posted.reason); }
        journals := posted.value;
      }
      policies := policies[p := policies[p].(premiumPaidAt := Some(now))];
      r := StorePremium(Receipt(Some(p), external, amount, currency, Applied, reference));
      if r.Ok? && (!Auditable(amount) || !Publishable(policies[p])) { r := Err(NotCanonicalizable); }
      if r.Err? { Rollback(saved); }
    }

    method RecordPremiumReceipt(external: string, number: string, amount: int, currency: string, now: int)
      returns (r: Result<()>)
      requires Valid()
      modifies this
      ensures Outcome(r, Premiums.RecordPremiumReceipt(old(Db()), external, number, amount, currency, now), old(Db()),
                      Db())
      ensures Valid() && history == Logged(old(history), r,
                                           Machine.RecordPremiumReceipt(external, number, amount, currency, now))
    {
      r := PremiumReceiptRows(external, number, amount, currency, now);
      if r.Ok? { Log(Machine.RecordPremiumReceipt(external, number, amount, currency, now)); }
    }
  }

  /** A row that cannot be lapsed fails the sweep of any selection it is part of. */
  lemma {:induction false} SweepStopsHere(db: Database, picked: seq<nat>, i: nat)
    requires Lifecycle.InRange(picked, |db.policies|) && i < |picked|
    requires Lifecycle.LapseSweep(db, picked[..i]).Ok?
             && Lifecycle.CancelOrLapse(Lifecycle.LapseSweep(db, picked[..i]).value, picked[i], Lapsed).Err?
    ensures Lifecycle.LapseSweep(db, picked).Err?
    decreases |picked|
  {
    if i == |picked| - 1 {
      assert picked[..|picked| - 1] == picked[..i];
    } else {
      assert picked[..|picked| - 1][..i] == picked[..i];
      SweepStopsHere(db, picked[..|picked| - 1], i);
    }
  }
}
