/** Everything that holds of the database after every run of the service. */
module Invariants {
  import opened Records
  import opened Machine
  import Quotes = QuoteInvariants
  import Policies = PolicyInvariants
  import Endorsements = EndorsementInvariants
  import ClaimRows = ClaimInvariants
  import Receipts = ReceiptInvariants
  import Cover = CoverInvariants
  import Ledger
  import Owners = JournalOwners
  import StatusIndex
  import Totals = ClaimTotals

  ghost predicate RowsOk(db: Database) {
    Quotes.Holds(db) && Policies.Holds(db) && Endorsements.Holds(db) && ClaimRows.Holds(db) && Receipts.Holds(db)
      && Cover.Holds(db)
  }

  ghost predicate MoneyOk(db: Database) {
    Ledger.Holds(db) && Owners.Holds(db) && Owners.OwnersExist(db) && Totals.Holds(db)
      && Totals.PayoutsExact(db.claims, db.payoutReceipts)
  }

  ghost predicate Inv(db: Database) { RowsOk(db) && MoneyOk(db) && StatusIndex.Holds(db.snapshots, db.policies) }

  lemma RowsKept(db: Database, op: Op)
    requires RowsOk(db)
    ensures RowsOk(Step(db, op))
  {
    Quotes.StepKeeps(db, op);
    Policies.StepKeeps(db, op);
    Endorsements.StepKeeps(db, op);
    ClaimRows.StepKeeps(db, op);
    Receipts.StepKeeps(db, op);
    Cover.StepKeeps(db, op);
  }

  lemma MoneyKept(db: Database, op: Op)
    requires RowsOk(db) && MoneyOk(db)
    ensures MoneyOk(Step(db, op))
  {
    Ledger.StepKeeps(db, op);
    Owners.StepKeeps(db, op);
    Owners.OwnersStayExisting(db, op);
    Totals.StepKeeps(db, op);
    Totals.StepKeepsExact(db, op);
  }

  lemma PoliciesPlaced(db: Database)
    requires Policies.Holds(db)
    ensures StatusIndex.Placed(db.policies)
  {
    forall i | 0 <= i < |db.policies| ensures db.policies[i].statusIndex == i {
      assert Policies.PolicyFits(db.quotes, db.policies[i], i);
    }
  }

  lemma StepKeeps(db: Database, op: Op)
    requires Inv(db)
    ensures Inv(Step(db, op))
  {
    RowsKept(db, op);
    MoneyKept(db, op);
    PoliciesPlaced(db);
    StatusIndex.StepKeeps(db, op);
  }

  lemma EmptyHolds()
    ensures Inv(EmptyDatabase())
  {
    StatusIndex.NoBitsAtFirst();
  }

  lemma {:induction false} RunHolds(ops: seq<Op>)
    ensures Inv(Run(ops))
    decreases |ops|
  {
    if ops == [] { EmptyHolds(); }
    else {
      RunHolds(ops[..|ops| - 1]);
      StepKeeps(Run(ops[..|ops| - 1]), ops[|ops| - 1]);
    }
  }
}
