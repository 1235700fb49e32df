/**
 * The regulator's settledTotalKobo (src/insurance/api/routes_integrations.py: portfolio_aggregates) sums
 * settled_kobo over every claim. It agrees with the ledger exactly when no unsettled claim carries an amount.
 */
module Aggregates {
  import opened Wrappers
  import opened Sequences
  import opened Records
  import Journals
  import opened Machine
  import opened Invariants
  import ClaimRows = ClaimInvariants
  import Ledger
  import opened SampleRun
  import Reachable

  function SettledField(): Claim -> int { (c: Claim) => c.settled }

  function SettledTotalKobo(claims: seq<Claim>): int { Sum(claims, SettledField()) }

  /** What the aggregate counts and the ledger does not. */
  function Unsettled(): Claim -> int { (c: Claim) => if ClaimRows.IsSettled(c) then 0 else c.settled }

  predicate NoUnsettledAmount(claims: seq<Claim>) {
    forall c :: 0 <= c < |claims| && !ClaimRows.IsSettled(claims[c]) ==> claims[c].settled == 0
  }

  lemma {:induction false} AggregateSplits(claims: seq<Claim>)
    ensures SettledTotalKobo(claims) == Sum(claims, Ledger.SettledAmount()) + Sum(claims, Unsettled())
    decreases |claims|
  {
    if claims != [] { AggregateSplits(claims[..|claims| - 1]); }
  }

  lemma {:induction false} ZeroSumIff(claims: seq<Claim>)
    requires forall c :: 0 <= c < |claims| ==> claims[c].settled >= 0
    ensures Sum(claims, Unsettled()) >= 0
    ensures Sum(claims, Unsettled()) == 0 <==> NoUnsettledAmount(claims)
    decreases |claims|
  {
    if claims != [] {
      var init := claims[..|claims| - 1];
      ZeroSumIff(init);
      assert NoUnsettledAmount(claims) <==> NoUnsettledAmount(init) && Unsettled()(claims[|claims| - 1]) == 0;
    }
  }

  /**
   * After any run, the aggregate is at least what the ledger says, and the same exactly when nothing unsettled carries
   * an amount.
   */
  lemma AggregateMatchesLedgerIff(ops: seq<Op>)
    ensures var db := Run(ops);
            && SettledTotalKobo(db.claims) >= Journals.Balance(db.journals, ClaimsPayable)
            && (SettledTotalKobo(db.claims) == Journals.Balance(db.journals, ClaimsPayable)
                <==> NoUnsettledAmount(db.claims))
  {
    var db := Run(ops);
    RunHolds(ops);
    Reachable.BooksBalance(db);
    AmountsNonNegative(db);
    AggregateSplits(db.claims);
    ZeroSumIff(db.claims);
  }

  lemma AmountsNonNegative(db: Database)
    requires ClaimRows.Holds(db)
    ensures forall c :: 0 <= c < |db.claims| ==> db.claims[c].settled >= 0
  {
    forall c | 0 <= c < |db.claims| ensures db.claims[c].settled >= 0 {
      assert ClaimRows.ClaimOk(db.policies, db.claims[c]);
    }
  }

  // ------------------------------------------------------------- a run on which they disagree

  function TheClaim(status: ClaimStatus, settled: int, adjuster: string, proposedBy: string, confirmedBy: string,
                    settledBy: string): Claim {
    Claim("C", 0, status, 0, "", 5, settled, adjuster, proposedBy, confirmedBy, settledBy, "", "")
  }

  predicate OneClaim(db: Database, claim: Claim) { db.claims == [claim] && db.documents == [] && |db.policies| == 1 }

  lemma Filed(db: Database, policy: Policy) returns (after: Database)
    requires OnePolicy(db, policy)
    ensures Apply(db, FileFnol(0, "C", 0, 5, "")) == Ok(after) && OneClaim(after, TheClaim(Fnol, 0, "", "", "", ""))
  {
    assert [] + [TheClaim(Fnol, 0, "", "", "", "")] == [TheClaim(Fnol, 0, "", "", "", "")];
    after := db.(claims := [TheClaim(Fnol, 0, "", "", "", "")]);
  }

  function Digest(): string { seq(64, i => '0') }

  lemma Attached(db: Database) returns (after: Database)
    requires OneClaim(db, TheClaim(Fnol, 0, "", "", "", ""))
    ensures Apply(db, AttachDocument(0, "v", Digest())) == Ok(after)
            && after.claims == [TheClaim(UnderReview, 0, "", "", "", "")]
  {
    assert db.claims[0 := TheClaim(UnderReview, 0, "", "", "", "")] == [TheClaim(UnderReview, 0, "", "", "", "")];
    after := db.(claims := [TheClaim(UnderReview, 0, "", "", "", "")], documents := [] + [Document(0, "v", Digest())]);
  }

  lemma Proposed(db: Database) returns (after: Database)
    requires db.claims == [TheClaim(UnderReview, 0, "", "", "", "")]
    ensures Apply(db, ProposeAdjuster(0, "x", "a")) == Ok(after)
            && after.claims == [TheClaim(AdjusterPending, 0, "x", "a", "", "")]
  {
    assert db.claims[0 := TheClaim(AdjusterPending, 0, "x", "a", "", "")]
           == [TheClaim(AdjusterPending, 0, "x", "a", "", "")];
    after := db.(claims := [TheClaim(AdjusterPending, 0, "x", "a", "", "")]);
  }

  lemma Confirmed(db: Database) returns (after: Database)
    requires db.claims == [TheClaim(AdjusterPending, 0, "x", "a", "", "")]
    ensures Apply(db, ConfirmAdjuster(0, "b")) == Ok(after)
            && after.claims == [TheClaim(AdjusterAssigned, 0, "x", "a", "b", "")]
  {
    assert db.claims[0 := TheClaim(AdjusterAssigned, 0, "x", "a", "b", "")]
           == [TheClaim(AdjusterAssigned, 0, "x", "a", "b", "")];
    after := db.(claims := [TheClaim(AdjusterAssigned, 0, "x", "a", "b", "")]);
  }

  lemma Settling(db: Database) returns (after: Database)
    requires db.claims == [TheClaim(AdjusterAssigned, 0, "x", "a", "b", "")]
    ensures Apply(db, ProposeSettlement(0, 5, "x")) == Ok(after)
            && after.claims == [TheClaim(SettlementPending, 5, "x", "a", "b", "x")]
  {
    assert db.claims[0 := TheClaim(SettlementPending, 5, "x", "a", "b", "x")]
           == [TheClaim(SettlementPending, 5, "x", "a", "b", "x")];
    after := db.(claims := [TheClaim(SettlementPending, 5, "x", "a", "b", "x")]);
  }

  lemma SecondHalf(start: seq<Op>, policy: Policy) returns (ops: seq<Op>)
    requires OnePolicy(Run(start), policy)
    ensures Run(ops).claims == [TheClaim(SettlementPending, 5, "x", "a", "b", "x")]
  {
    var db := Filed(Run(start), policy);
    Next(start, FileFnol(0, "C", 0, 5, ""), db);
    ops := start + [FileFnol(0, "C", 0, 5, "")];
    db := Attached(db);
    Next(ops, AttachDocument(0, "v", Digest()), db);
    ops := ops + [AttachDocument(0, "v", Digest())];
    db := Proposed(db);
    Next(ops, ProposeAdjuster(0, "x", "a"), db);
    ops := ops + [ProposeAdjuster(0, "x", "a")];
    db := Confirmed(db);
    Next(ops, ConfirmAdjuster(0, "b"), db);
    ops := ops + [ConfirmAdjuster(0, "b")];
    db := Settling(db);
    Next(ops, ProposeSettlement(0, 5, "x"), db);
    ops := ops + [ProposeSettlement(0, 5, "x")];
  }

  /** A run after which a proposed, unapproved settlement is in the aggregate and not in the ledger. */
  lemma AggregateCanDisagree() returns (ops: seq<Op>)
    ensures SettledTotalKobo(Run(ops).claims) > Journals.Balance(Run(ops).journals, ClaimsPayable)
  {
    var start, policy := IssuedRun();
    ops := SecondHalf(start, policy);
    assert !ClaimRows.IsSettled(Run(ops).claims[0]) && Run(ops).claims[0].settled == 5;
    AggregateMatchesLedgerIff(ops);
  }
}
