/**
 * What each policy's premium is made of, which premiums can be received, and what is owed after the receipt
 * (src/insurance/services/premiums.py:32-113).
 */
module PremiumAccounts {
  import opened Wrappers
  import opened Sequences
  import opened Records
  import Lifecycle
  import Claims
  import Premiums
  import opened Machine
  import opened Effects
  import opened Frames
  import opened Invariants
  import opened SampleRun
  import History
  import Policies = PolicyInvariants
  import Receipts = ReceiptInvariants
  import Gates

  /** The premium changes approved on a policy. */
  function ApprovedOn(p: nat): Endorsement -> int {
    (e: Endorsement) => if e.policy == p && e.status == EndorsementStatus.Approved then e.delta else 0
  }

  /** The premium received for a policy. */
  function AppliedOn(p: nat): Receipt -> int {
    (r: Receipt) => if r.status == Applied && r.owner == Some(p) then r.amount else 0
  }

  function Changes(db: Database, p: nat): int { Sum(db.endorsements, ApprovedOn(p)) }

  function Received(db: Database, p: nat): int { Sum(db.premiumReceipts, AppliedOn(p)) }

  /** A policy's premium is its quote's plus the changes approved on it. */
  predicate AccountOk(db: Database, p: nat)
    requires p < |db.policies|
  {
    var policy := db.policies[p];
    policy.quote < |db.quotes| && policy.premium == db.quotes[policy.quote].premium + Changes(db, p)
  }

  predicate Holds(db: Database) {
    && (forall p :: 0 <= p < |db.policies| ==> AccountOk(db, p))
    && (forall k :: 0 <= k < |db.endorsements| ==> db.endorsements[k].policy < |db.policies|)
  }

  // ------------------------------------------------------------------------------ every call

  lemma AccountKept(a: Database, b: Database, p: nat)
    requires p < |a.policies| && AccountOk(a, p) && History.Evolves(a, b)
    requires b.policies[p].premium - Changes(b, p) == a.policies[p].premium - Changes(a, p)
    ensures AccountOk(b, p)
  {
    assert History.PolicyEvolves(a.policies[p], b.policies[p]);
    assert History.QuoteEvolves(a.quotes[a.policies[p].quote], b.quotes[a.policies[p].quote]);
  }

  lemma OtherOpKeepsPremium(db: Database, op: Op, p: nat)
    requires p < |db.policies| && !op.ApproveEndorsement?
    ensures p < |Step(db, op).policies| && Step(db, op).policies[p].premium == db.policies[p].premium
  {
    TablesUntouched(db, op);
    if op.RecordPremiumReceipt? && Apply(db, op).Ok? {
      PremiumReceiptEffect(db, op.external, op.number, op.amount, op.currency, op.now);
    } else if op.IssuePolicy? && Apply(db, op).Ok? {
      Policies.IssuePolicyEffect(db, op);
    } else if !op.RecordPremiumReceipt? && !op.IssuePolicy? {
      assert SameTerms(db.policies[p], Step(db, op).policies[p]);
    }
  }

  lemma ProposalKeepsChanges(db: Database, op: Op, p: nat)
    requires op.AddEndorsement? || op.RejectEndorsement?
    ensures Changes(Step(db, op), p) == Changes(db, p)
  {
    if Apply(db, op).Ok? {
      if op.AddEndorsement? { SumSnoc(db.endorsements, Step(db, op).endorsements[|db.endorsements|], ApprovedOn(p)); }
      else {
        var k := Lifecycle.FindEndorsement(db.endorsements, op.p, op.no).value;
        SumUpdate(db.endorsements, k, Step(db, op).endorsements[k], ApprovedOn(p));
      }
    }
  }

  lemma ApprovalAddsChange(db: Database, q: nat, no: nat, principal: string, after: Database, p: nat)
    requires q < |db.policies| && Lifecycle.ApproveEndorsement(db, q, no, principal) == Ok(after) && p < |db.policies|
    ensures p < |after.policies|
    ensures after.policies[p].premium - Changes(after, p) == db.policies[p].premium - Changes(db, p)
  {
    ApproveEndorsementEffect(db, q, no, principal);
    var k := Lifecycle.FindEndorsement(db.endorsements, q, no).value;
    SumUpdate(db.endorsements, k, after.endorsements[k], ApprovedOn(p));
  }

  lemma DifferenceKept(db: Database, op: Op, p: nat)
    requires p < |db.policies|
    ensures p < |Step(db, op).policies|
    ensures Step(db, op).policies[p].premium - Changes(Step(db, op), p) == db.policies[p].premium - Changes(db, p)
  {
    if op.ApproveEndorsement? {
      if Apply(db, op).Ok? { ApprovalAddsChange(db, op.p, op.no, op.principal, Step(db, op), p); }
    } else {
      OtherOpKeepsPremium(db, op, p);
      if op.AddEndorsement? || op.RejectEndorsement? { ProposalKeepsChanges(db, op, p); }
      else { TablesUntouched(db, op); }
    }
  }

  lemma {:induction false} NoChangesYet(endorsements: seq<Endorsement>, p: nat)
    requires forall k :: 0 <= k < |endorsements| ==> endorsements[k].policy != p
    ensures Sum(endorsements, ApprovedOn(p)) == 0
    decreases |endorsements|
  {
    if endorsements != [] { NoChangesYet(endorsements[..|endorsements| - 1], p); }
  }

  predicate NewAccounted(a: Database, b: Database) {
    |b.policies| == |a.policies| + 1 && AccountOk(b, |a.policies|)
  }

  lemma NewPolicyAccounted(db: Database, op: Op)
    requires Holds(db) && |Step(db, op).policies| > |db.policies|
    ensures NewAccounted(db, Step(db, op))
  {
    OnlyIssueAdds(db, op);
    Policies.IssuePolicyEffect(db, op);
    NoChangesYet(db.endorsements, |db.policies|);
  }

  lemma EndorsementsStayPlaced(db: Database, op: Op)
    requires Holds(db)
    ensures forall k :: 0 <= k < |Step(db, op).endorsements| ==> Step(db, op).endorsements[k].policy < |db.policies|
  {
    if op.ApproveEndorsement? && Apply(db, op).Ok? { ApproveEndorsementEffect(db, op.p, op.no, op.principal); }
    if !EndorsementOp(op) { TablesUntouched(db, op); }
  }

  lemma OnlyIssueAdds(db: Database, op: Op)
    ensures !op.IssuePolicy? || Apply(db, op).Err? ==> |Step(db, op).policies| == |db.policies|
  {
    if !op.IssuePolicy? { Policies.OtherOpFrame(db, op); }
  }

  lemma OldPoliciesAccounted(db: Database, op: Op, p: nat)
    requires p < |db.policies| && AccountOk(db, p)
    ensures p < |Step(db, op).policies| && AccountOk(Step(db, op), p)
  {
    History.StepEvolves(db, op);
    DifferenceKept(db, op, p);
    AccountKept(db, Step(db, op), p);
  }

  /** The policies of one database are accounted for in a later one. */
  predicate OldAccounted(a: Database, b: Database) {
    |a.policies| <= |b.policies| && forall p :: 0 <= p < |a.policies| ==> AccountOk(b, p)
  }

  lemma AllOldAccounted(db: Database, op: Op)
    requires Holds(db)
    ensures OldAccounted(db, Step(db, op))
  {
    var after := Step(db, op);
    PoliciesOnlyAdded(db, op);
    forall p | 0 <= p < |db.policies| ensures AccountOk(after, p) { OldPoliciesAccounted(db, op, p); }
  }

  lemma AllAccounted(a: Database, b: Database)
    requires OldAccounted(a, b) && (|b.policies| > |a.policies| ==> NewAccounted(a, b))
    requires forall k :: 0 <= k < |b.endorsements| ==> b.endorsements[k].policy < |a.policies|
    ensures Holds(b)
  {
  }

  lemma StepKeeps(db: Database, op: Op)
    requires Holds(db)
    ensures Holds(Step(db, op))
  {
    EndorsementsStayPlaced(db, op);
    AllOldAccounted(db, op);
    if |Step(db, op).policies| > |db.policies| { NewPolicyAccounted(db, op); }
    AllAccounted(db, Step(db, op));
  }

  lemma PoliciesOnlyAdded(db: Database, op: Op)
    ensures |db.policies| <= |Step(db, op).policies|
  {
    History.StepEvolves(db, op);
  }

  lemma {:induction false} RunAccounted(ops: seq<Op>)
    ensures Holds(Run(ops))
    decreases |ops|
  {
    if ops != [] {
      RunAccounted(ops[..|ops| - 1]);
      StepKeeps(Run(ops[..|ops| - 1]), ops[|ops| - 1]);
    }
  }

  // ----------------------------------------------------------------- which premiums can be received

  /** This call received the premium of a policy. */
  ghost predicate Receives(db: Database, op: Op, p: nat) {
    && p < |db.policies| && p < |Step(db, op).policies|
    && db.policies[p].premiumPaidAt.None? && Step(db, op).policies[p].premiumPaidAt.Some?
  }

  /** Only a receipt of exactly the premium, in NGN, receives it. */
  lemma ReceivesExactly(db: Database, op: Op, p: nat)
    requires Receives(db, op, p)
    ensures op.RecordPremiumReceipt? && op.number == db.policies[p].number && op.currency == "NGN"
    ensures op.amount == db.policies[p].premium
    ensures Step(db, op).premiumReceipts == db.premiumReceipts + [Step(db, op).premiumReceipts[|db.premiumReceipts|]]
    ensures var row := Step(db, op).premiumReceipts[|db.premiumReceipts|];
            row.status == Applied && row.owner == Some(p) && row.amount == db.policies[p].premium
  {
    if !op.RecordPremiumReceipt? {
      Receipts.OtherOpKeepsPayments(db, op);
    } else if Apply(db, op).Ok? {
      PremiumReceiptEffect(db, op.external, op.number, op.amount, op.currency, op.now);
    }
  }

  predicate InForce(policy: Policy) { policy.status == Active || policy.status == Suspended }

  /** After any run, a receipt under a fresh reference for exactly the premium of an unpaid policy in force pays it. */
  lemma PremiumAlwaysReceivable(ops: seq<Op>, p: nat, external: string, now: int)
    requires p < |Run(ops).policies| && InForce(Run(ops).policies[p]) && Run(ops).policies[p].premiumPaidAt.None?
    requires Gates.NewExternal(Run(ops).premiumReceipts, external)
    ensures var policy := Run(ops).policies[p];
            Receives(Run(ops), RecordPremiumReceipt(external, policy.number, policy.premium, "NGN", now), p)
  {
    var policy := Run(ops).policies[p];
    RunNumberFinds(ops, p);
    NumbersOwn(ops, p);
    Gates.PremiumReceiptSucceedsIff(ops, external, policy.number, policy.premium, "NGN", now);
    PaysWhenStored(Run(ops), p, external, now);
  }

  lemma NumbersOwn(ops: seq<Op>, p: nat)
    requires p < |Run(ops).policies|
    ensures var policies := Run(ops).policies;
            forall i :: 0 <= i < |policies| && policies[i].number == policies[p].number ==> i == p
  {
    RunHolds(ops);
    var policies := Run(ops).policies;
    forall i | 0 <= i < |policies| && policies[i].number == policies[p].number ensures i == p {
      Gates.NumberIsOwn(Run(ops), i, p);
    }
  }

  lemma RunNumberFinds(ops: seq<Op>, p: nat)
    requires p < |Run(ops).policies|
    ensures var policy := Run(ops).policies[p];
            Premiums.FindPolicy(Run(ops).policies, policy.number) == Some(p)
            && policy.premium >= 0 && Auditable(policy.premium)
  {
    RunHolds(ops);
    Gates.OnePolicyANumber(Run(ops), p, Run(ops).policies[p].number);
  }

  lemma PaysWhenStored(db: Database, p: nat, external: string, now: int)
    requires p < |db.policies| && db.policies[p].premiumPaidAt.None?
    requires Premiums.FindPolicy(db.policies, db.policies[p].number) == Some(p)
    ensures var policy := db.policies[p];
            Receives(db, RecordPremiumReceipt(external, policy.number, policy.premium, "NGN", now), p)
            <==> Premiums.RecordPremiumReceipt(db, external, policy.number, policy.premium, "NGN", now).Ok?
  {
    var policy := db.policies[p];
    if Premiums.RecordPremiumReceipt(db, external, policy.number, policy.premium, "NGN", now).Ok? {
      PremiumReceiptEffect(db, external, policy.number, policy.premium, "NGN", now);
    }
  }

  // ------------------------------------------------------------------- what is owed after the receipt

  lemma {:induction false} NothingReceived(receipts: seq<Receipt>, p: nat)
    requires !Receipts.HasApplied(receipts, p)
    ensures Sum(receipts, AppliedOn(p)) == 0
    decreases |receipts|
  {
    if receipts != [] {
      var init := receipts[..|receipts| - 1];
      assert !Receipts.AppliedTo(receipts[|receipts| - 1], p);
      forall i | 0 <= i < |init| ensures !Receipts.AppliedTo(init[i], p) { assert receipts[i] == init[i]; }
      NothingReceived(init, p);
    }
  }

  lemma UnpaidReceivedNothing(policies: seq<Policy>, receipts: seq<Receipt>, p: nat)
    requires Receipts.PremiumsOk(policies, receipts) && p < |policies| && policies[p].premiumPaidAt.None?
    ensures Sum(receipts, AppliedOn(p)) == 0
  {
    forall i | 0 <= i < |receipts| ensures !Receipts.AppliedTo(receipts[i], p) {
      assert Receipts.PremiumRowOk(policies, receipts[i]);
    }
    NothingReceived(receipts, p);
  }

  /** A paid policy receives nothing more. */
  lemma PaidReceivesNoMore(db: Database, op: Op, p: nat)
    requires p < |db.policies| && db.policies[p].premiumPaidAt.Some?
    ensures Received(Step(db, op), p) == Received(db, p)
  {
    TablesUntouched(db, op);
    if op.RecordPremiumReceipt? && Apply(db, op).Ok? {
      PremiumReceiptEffect(db, op.external, op.number, op.amount, op.currency, op.now);
      SumSnoc(db.premiumReceipts, Step(db, op).premiumReceipts[|db.premiumReceipts|], AppliedOn(p));
    }
  }

  /** Premium less what was received for it. */
  function Owed(db: Database, p: nat): int
    requires p < |db.policies|
  {
    db.policies[p].premium - Received(db, p)
  }

  /** Receiving a premium settles the policy. */
  lemma ReceivingSettles(db: Database, op: Op, p: nat)
    requires Receipts.PremiumsOk(db.policies, db.premiumReceipts) && Receives(db, op, p)
    ensures Owed(Step(db, op), p) == 0 && Changes(Step(db, op), p) == Changes(db, p)
  {
    ReceivesExactly(db, op, p);
    UnpaidReceivedNothing(db.policies, db.premiumReceipts, p);
    SumSnoc(db.premiumReceipts, Step(db, op).premiumReceipts[|db.premiumReceipts|], AppliedOn(p));
    OtherOpKeepsPremium(db, op, p);
    TablesUntouched(db, op);
  }

  lemma OwedFollowsChanges(db: Database, op: Op, p: nat)
    requires p < |db.policies| && db.policies[p].premiumPaidAt.Some?
    ensures p < |Step(db, op).policies| && Step(db, op).policies[p].premiumPaidAt.Some?
    ensures Owed(Step(db, op), p) - Changes(Step(db, op), p) == Owed(db, p) - Changes(db, p)
  {
    DifferenceKept(db, op, p);
    PaidReceivesNoMore(db, op, p);
    History.StepEvolves(db, op);
    assert History.PolicyEvolves(db.policies[p], Step(db, op).policies[p]);
  }

  /**
   * What a policy owes after its premium was received by call n is the sum of the changes approved since, so it is
   * nothing exactly when they net to nothing: no later receipt is ever applied.
   */
  lemma {:induction false} OwedSinceReceipt(ops: seq<Op>, n: nat, p: nat)
    requires n < |ops| && Receives(Run(ops[..n]), ops[n], p)
    ensures p < |Run(ops).policies| && Run(ops).policies[p].premiumPaidAt.Some?
    ensures Owed(Run(ops), p) == Changes(Run(ops), p) - Changes(Run(ops[..n]), p)
    decreases |ops|
  {
    var init := ops[..|ops| - 1];
    if n == |ops| - 1 {
      RunHolds(init);
      ReceivingSettles(Run(init), ops[n], p);
    } else {
      assert init[..n] == ops[..n];
      OwedSinceReceipt(init, n, p);
      OwedFollowsChanges(Run(init), ops[|ops| - 1], p);
    }
  }

  /** Paid after the last call and not before it: the last call received it. */
  lemma LastReceives(ops: seq<Op>, p: nat)
    requires ops != [] && p < |Run(ops).policies| && Run(ops).policies[p].premiumPaidAt.Some?
    ensures var init := ops[..|ops| - 1];
            && p < |Run(init).policies|
            && (Run(init).policies[p].premiumPaidAt.None? ==> Receives(Run(init), ops[|ops| - 1], p))
  {
    NewOnesUnpaid(Run(ops[..|ops| - 1]), ops[|ops| - 1], p);
  }

  /** Every paid policy was paid by some call of the run. */
  lemma {:induction false} PaidByACall(ops: seq<Op>, p: nat) returns (n: nat)
    requires p < |Run(ops).policies| && Run(ops).policies[p].premiumPaidAt.Some?
    ensures n < |ops| && Receives(Run(ops[..n]), ops[n], p)
    decreases |ops|
  {
    LastReceives(ops, p);
    var init := ops[..|ops| - 1];
    n := |ops| - 1;
    if Run(init).policies[p].premiumPaidAt.Some? {
      n := PaidByACall(init, p);
      assert init[..n] == ops[..n];
    }
  }

  lemma NewOnesUnpaid(db: Database, op: Op, p: nat)
    requires p < |Step(db, op).policies| && Step(db, op).policies[p].premiumPaidAt.Some?
    ensures p < |db.policies|
  {
    OnlyIssueAdds(db, op);
    if op.IssuePolicy? && Apply(db, op).Ok? { Policies.IssuePolicyEffect(db, op); }
  }

  // ------------------------------------------------------------------------ a premium change that stays owed

  lemma Paid(ops: seq<Op>, policy: Policy) returns (paid: seq<Op>)
    requires OnePolicy(Run(ops), policy)
    ensures paid == ops + [RecordPremiumReceipt("x", policy.number, 0, "NGN", 0)]
    ensures Receives(Run(ops), paid[|ops|], 0) && Run(paid).endorsements == []
    ensures Run(paid).policies == [policy.(premiumPaidAt := Some(0))]
  {
    var number := policy.number;
    assert Premiums.FindPolicy([policy], number) == Some(0);
    Gates.PremiumReceiptSucceedsIff(ops, "x", number, 0, "NGN", 0);
    PremiumReceiptEffect(Run(ops), "x", number, 0, "NGN", 0);
    paid := ops + [RecordPremiumReceipt("x", number, 0, "NGN", 0)];
    Next(ops, paid[|ops|], Premiums.RecordPremiumReceipt(Run(ops), "x", number, 0, "NGN", 0).value);
  }

  function ToRaise(): Endorsement { Endorsement(0, 1, 1, EndorsementStatus.Proposed, "", "a", "") }

  lemma AskAccepted(db: Database)
    requires |db.policies| == 1 && db.policies[0].status == Active && Publishable(db.policies[0])
    requires db.endorsements == []
    ensures Lifecycle.AddEndorsement(db, 0, 1, "a") == Ok(db.(endorsements := [ToRaise()]))
  {
    assert db.endorsements + [ToRaise()] == [ToRaise()];
  }

  lemma RaiseAccepted(db: Database, after: Database)
    requires |db.policies| == 1 && db.endorsements == [ToRaise()]
    requires Lifecycle.ApproveEndorsement(db, 0, 1, "b") == Ok(after)
    ensures after.policies == [db.policies[0].(premium := db.policies[0].premium + 1)] && Changes(after, 0) == 1
  {
    ApproveEndorsementEffect(db, 0, 1, "b");
    assert after.endorsements == [ApprovedEndorsement(db.policies[0], ToRaise(), "b")];
    SumSnoc([], after.endorsements[0], ApprovedOn(0));
    assert [] + [after.endorsements[0]] == after.endorsements;
  }

  /** Someone asks for one kobo more on the one policy, and someone else approves it. */
  lemma Raised(ops: seq<Op>, policy: Policy)
    requires Run(ops).policies == [policy] && Run(ops).endorsements == []
    requires policy.status == Active && Publishable(policy) && 0 <= policy.premium < 1000
    ensures var after := Run(ops + [AddEndorsement(0, 1, "a")] + [ApproveEndorsement(0, 1, "b")]);
            after.policies == [policy.(premium := policy.premium + 1)] && Changes(after, 0) == 1
  {
    AskAccepted(Run(ops));
    var asked := ops + [AddEndorsement(0, 1, "a")];
    Next(ops, AddEndorsement(0, 1, "a"), Run(ops).(endorsements := [ToRaise()]));
    assert Run(asked).endorsements[0] == ToRaise();
    Gates.ApproveEndorsementSucceedsIff(asked, 0, 1, "b");
    var after := Lifecycle.ApproveEndorsement(Run(asked), 0, 1, "b").value;
    RaiseAccepted(Run(asked), after);
    Next(asked, ApproveEndorsement(0, 1, "b"), after);
  }

  /** A run in which a premium change approved after the receipt leaves a paid policy owing it. */
  lemma ChangeAfterReceiptStaysOwed() returns (ops: seq<Op>, n: nat)
    ensures n < |ops| && Receives(Run(ops[..n]), ops[n], 0)
    ensures |Run(ops).policies| == 1 && Run(ops).policies[0].premiumPaidAt.Some? && Owed(Run(ops), 0) == 1
    ensures forall op :: !Receives(Run(ops), op, 0)
  {
    var start, policy := IssuedRun();
    var paid := Paid(start, policy);
    Raised(paid, policy.(premiumPaidAt := Some(0)));
    ops, n := paid + [AddEndorsement(0, 1, "a")] + [ApproveEndorsement(0, 1, "b")], |start|;
    assert ops[..n] == start && ops[n] == paid[n];
    OwedSinceReceipt(ops, n, 0);
    assert Changes(Run(start), 0) == 0;
  }
}
