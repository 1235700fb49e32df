/**
 * The journals of every reachable database are exactly those of its bound quotes, approved endorsements,
 * applied premium receipts and settled claims, one each; so a reference is never posted twice.
 */
module JournalOwners {
  import opened Wrappers
  import opened Sequences
  import opened Records
  import opened Journals
  import Lifecycle
  import Claims
  import Premiums
  import opened Machine
  import opened Effects
  import opened Frames
  import Quotes = QuoteInvariants
  import Policies = PolicyInvariants
  import Endorsements = EndorsementInvariants
  import ClaimRows = ClaimInvariants

  function OfQuote(): Quote -> multiset<Journal> {
    (q: Quote) => if q.journal == "" then multiset{} else multiset{BindJournal(q)}
  }

  function OfEndorsement(policies: seq<Policy>): Endorsement -> multiset<Journal> {
    (e: Endorsement) => if e.journal == "" || e.policy >= |policies| then multiset{}
                        else multiset{EndorsementJournal(policies[e.policy], e)}
  }

  function OfReceipt(policies: seq<Policy>): Receipt -> multiset<Journal> {
    (r: Receipt) => if r.journal == "" || r.owner.None? || r.owner.value >= |policies| then multiset{}
                    else multiset{ReceiptJournal(policies[r.owner.value].number, r.amount)}
  }

  function OfClaim(): Claim -> multiset<Journal> {
    (c: Claim) => if c.journal == "" then multiset{} else multiset{SettlementJournal(c)}
  }

  function QuoteJournals(db: Database): multiset<Journal> { Gather(db.quotes, OfQuote()) }

  function EndorsementJournals(db: Database): multiset<Journal> { Gather(db.endorsements, OfEndorsement(db.policies)) }

  function ReceiptJournals(db: Database): multiset<Journal> { Gather(db.premiumReceipts, OfReceipt(db.policies)) }

  function ClaimJournals(db: Database): multiset<Journal> { Gather(db.claims, OfClaim()) }

  function Parts(db: Database): (multiset<Journal>, multiset<Journal>, multiset<Journal>, multiset<Journal>) {
    (QuoteJournals(db), EndorsementJournals(db), ReceiptJournals(db), ClaimJournals(db))
  }

  function Owned(db: Database): multiset<Journal> {
    Parts(db).0 + Parts(db).1 + Parts(db).2 + Parts(db).3
  }

  predicate ReferencesDistinct(journals: seq<Journal>) {
    forall i, j :: 0 <= i < j < |journals| ==> journals[i].reference != journals[j].reference
  }

  predicate Holds(db: Database) {
    multiset(db.journals) == Owned(db) && ReferencesDistinct(db.journals)
  }

  // -------------------------------------------------------------------- tables that post nothing

  /** Endorsements and receipts refer to policies that exist. */
  predicate OwnersExist(db: Database) {
    && (forall i :: 0 <= i < |db.endorsements| ==> db.endorsements[i].policy < |db.policies|)
    && (forall i :: 0 <= i < |db.premiumReceipts| && db.premiumReceipts[i].owner.Some? ==>
          db.premiumReceipts[i].owner.value < |db.policies|)
  }

  /** The policies of a are still there in b, by number. */
  predicate NumbersKept(a: seq<Policy>, b: seq<Policy>) {
    |a| <= |b| && forall p :: 0 <= p < |a| ==> a[p].number == b[p].number
  }

  lemma IdentitiesKeepNumbers(a: seq<Policy>, b: seq<Policy>)
    requires |a| <= |b| && Policies.IdentitiesKept(a, b[..|a|])
    ensures NumbersKept(a, b)
  {
    forall p | 0 <= p < |a| ensures a[p].number == b[p].number { assert Policies.SameIdentity(a[p], b[..|a|][p]); }
  }

  lemma EndorsementsRenamed(endorsements: seq<Endorsement>, a: seq<Policy>, b: seq<Policy>)
    requires NumbersKept(a, b) && forall i :: 0 <= i < |endorsements| ==> endorsements[i].policy < |a|
    ensures Gather(endorsements, OfEndorsement(a)) == Gather(endorsements, OfEndorsement(b))
  {
    GatherAgree(endorsements, endorsements, OfEndorsement(a), OfEndorsement(b));
  }

  lemma ReceiptRenamed(r: Receipt, a: seq<Policy>, b: seq<Policy>)
    requires NumbersKept(a, b) && (r.owner.Some? ==> r.owner.value < |a|)
    ensures OfReceipt(a)(r) == OfReceipt(b)(r)
  {
  }

  lemma ReceiptsRenamed(receipts: seq<Receipt>, a: seq<Policy>, b: seq<Policy>)
    requires NumbersKept(a, b)
    requires forall i :: 0 <= i < |receipts| && receipts[i].owner.Some? ==> receipts[i].owner.value < |a|
    ensures Gather(receipts, OfReceipt(a)) == Gather(receipts, OfReceipt(b))
  {
    forall i | 0 <= i < |receipts| ensures OfReceipt(a)(receipts[i]) == OfReceipt(b)(receipts[i]) {
      ReceiptRenamed(receipts[i], a, b);
    }
    GatherAgree(receipts, receipts, OfReceipt(a), OfReceipt(b));
  }

  lemma PoliciesRenamed(a: Database, b: Database)
    requires |a.policies| <= |b.policies| && Policies.IdentitiesKept(a.policies, b.policies[..|a.policies|])
    requires OwnersExist(a)
    ensures Gather(a.endorsements, OfEndorsement(b.policies)) == EndorsementJournals(a)
    ensures Gather(a.premiumReceipts, OfReceipt(b.policies)) == ReceiptJournals(a)
  {
    IdentitiesKeepNumbers(a.policies, b.policies);
    EndorsementsRenamed(a.endorsements, a.policies, b.policies);
    ReceiptsRenamed(a.premiumReceipts, a.policies, b.policies);
  }

  predicate SameQuoteJournal(a: Quote, b: Quote) { a.journal == b.journal && a.ref == b.ref && a.premium == b.premium }

  lemma QuoteReplaced(quotes: seq<Quote>, q: nat, quote: Quote)
    requires q < |quotes| && SameQuoteJournal(quotes[q], quote)
    ensures Gather(quotes[q := quote], OfQuote()) == Gather(quotes, OfQuote())
  {
    GatherReplaceSame(quotes, q, quote, OfQuote());
  }

  lemma QuoteAdded(quotes: seq<Quote>, quote: Quote)
    requires quote.journal == ""
    ensures Gather(quotes + [quote], OfQuote()) == Gather(quotes, OfQuote())
  {
    GatherSnocNothing(quotes, quote, OfQuote());
  }

  lemma QuietCreation(db: Database, op: Op)
    requires op.CreateQuote?
    ensures QuoteJournals(Step(db, op)) == QuoteJournals(db)
  {
    if Apply(db, op).Ok? { QuoteAdded(db.quotes, Step(db, op).quotes[|db.quotes|]); }
  }

  lemma QuietQuoteOp(db: Database, op: Op)
    requires op.CreateQuote? || op.RequestBind? || op.IssuePolicy?
    ensures QuoteJournals(Step(db, op)) == QuoteJournals(db)
  {
    if op.CreateQuote? { QuietCreation(db, op); }
    else if Apply(db, op).Ok? { QuoteReplaced(db.quotes, op.q, Step(db, op).quotes[op.q]); }
  }

  lemma EndorsementReplaced(policies: seq<Policy>, endorsements: seq<Endorsement>, k: nat, e: Endorsement)
    requires k < |endorsements| && endorsements[k].journal == "" == e.journal
    ensures Gather(endorsements[k := e], OfEndorsement(policies)) == Gather(endorsements, OfEndorsement(policies))
  {
    GatherReplaceSame(endorsements, k, e, OfEndorsement(policies));
  }

  lemma EndorsementAdded(policies: seq<Policy>, endorsements: seq<Endorsement>, e: Endorsement)
    requires e.journal == ""
    ensures Gather(endorsements + [e], OfEndorsement(policies)) == Gather(endorsements, OfEndorsement(policies))
  {
    GatherSnocNothing(endorsements, e, OfEndorsement(policies));
  }

  lemma QuietEndorsementOp(db: Database, op: Op)
    requires Endorsements.Holds(db) && (op.AddEndorsement? || op.RejectEndorsement?)
    ensures Gather(Step(db, op).endorsements, OfEndorsement(db.policies)) == EndorsementJournals(db)
  {
    if Apply(db, op).Ok? {
      if op.AddEndorsement? {
        EndorsementAdded(db.policies, db.endorsements, Step(db, op).endorsements[|db.endorsements|]);
      }
      else {
        var k := Lifecycle.FindEndorsement(db.endorsements, op.p, op.no).value;
        assert Endorsements.EndorsementOk(db.policies, db.endorsements[k]);
        EndorsementReplaced(db.policies, db.endorsements, k, Step(db, op).endorsements[k]);
      }
    }
  }

  predicate SameClaimJournal(a: Claim, b: Claim) {
    a.journal == b.journal && (a.journal != "" ==> a.ref == b.ref && a.settled == b.settled)
  }

  lemma ClaimReplaced(claims: seq<Claim>, c: nat, claim: Claim)
    requires c < |claims| && SameClaimJournal(claims[c], claim)
    ensures Gather(claims[c := claim], OfClaim()) == Gather(claims, OfClaim())
  {
    GatherReplaceSame(claims, c, claim, OfClaim());
  }

  lemma ClaimAdded(claims: seq<Claim>, claim: Claim)
    requires claim.journal == ""
    ensures Gather(claims + [claim], OfClaim()) == Gather(claims, OfClaim())
  {
    GatherSnocNothing(claims, claim, OfClaim());
  }

  lemma QuietFiling(db: Database, op: Op)
    requires op.FileFnol?
    ensures ClaimJournals(Step(db, op)) == ClaimJournals(db)
  {
    if Apply(db, op).Ok? { ClaimAdded(db.claims, Step(db, op).claims[|db.claims|]); }
  }

  lemma QuietAssignment(db: Database, op: Op)
    requires ClaimRows.Holds(db) && (op.AttachDocument? || op.ProposeAdjuster? || op.ConfirmAdjuster?)
    ensures ClaimJournals(Step(db, op)) == ClaimJournals(db)
  {
    if Apply(db, op).Ok? {
      assert ClaimRows.ClaimOk(db.policies, db.claims[op.c]);
      ClaimReplaced(db.claims, op.c, Step(db, op).claims[op.c]);
    }
  }

  lemma QuietDecision(db: Database, op: Op)
    requires ClaimRows.Holds(db) && (op.ProposeSettlement? || op.RejectClaim?)
    ensures ClaimJournals(Step(db, op)) == ClaimJournals(db)
  {
    if Apply(db, op).Ok? {
      assert ClaimRows.ClaimOk(db.policies, db.claims[op.c]);
      ClaimReplaced(db.claims, op.c, Step(db, op).claims[op.c]);
    }
  }

  lemma QuietClaimOp(db: Database, op: Op)
    requires ClaimRows.Holds(db) && ClaimOp(op) && !op.ApproveSettlement?
    ensures ClaimJournals(Step(db, op)) == ClaimJournals(db)
  {
    if op.FileFnol? { QuietFiling(db, op); }
    else if op.ProposeSettlement? || op.RejectClaim? { QuietDecision(db, op); }
    else { QuietAssignment(db, op); }
  }

  lemma QuietPayout(db: Database, external: string, claimRef: string, amount: int, currency: string, after: Database)
    requires Claims.RecordPayoutReceipt(db, external, claimRef, amount, currency) == Ok(after)
    ensures ClaimJournals(after) == ClaimJournals(db)
  {
    PayoutReceiptEffect(db, external, claimRef, amount, currency);
    var row := PayoutRow(db.claims, external, claimRef, amount, currency);
    if row.status == Applied { ClaimReplaced(db.claims, row.owner.value, after.claims[row.owner.value]); }
  }

  lemma ReceiptOwnerExists(db: Database, external: string, number: string, amount: int, currency: string, now: int,
                           after: Database)
    requires OwnersExist(db) && Premiums.RecordPremiumReceipt(db, external, number, amount, currency, now) == Ok(after)
    ensures OwnersExist(after)
  {
    PremiumReceiptEffect(db, external, number, amount, currency, now);
  }

  lemma EndorsementOwnersExist(db: Database, op: Op)
    requires OwnersExist(db) && EndorsementOp(op)
    ensures OwnersExist(Step(db, op))
  {
    if op.ApproveEndorsement? && Apply(db, op).Ok? { ApproveEndorsementEffect(db, op.p, op.no, op.principal); }
  }

  lemma OwnersStayExisting(db: Database, op: Op)
    requires OwnersExist(db)
    ensures OwnersExist(Step(db, op))
  {
    if op.RecordPremiumReceipt? {
      if Apply(db, op).Ok? {
        ReceiptOwnerExists(db, op.external, op.number, op.amount, op.currency, op.now, Step(db, op));
      }
    } else if EndorsementOp(op) {
      EndorsementOwnersExist(db, op);
    } else {
      TablesUntouched(db, op);
      Endorsements.IdentitiesStay(db, op);
    }
  }

  /** A call that posts nothing leaves every table's journals as they were. */
  lemma QuietParts(db: Database, op: Op)
    requires OwnersExist(db) && Endorsements.Holds(db) && ClaimRows.Holds(db) && !Posts(op)
    ensures QuoteJournals(Step(db, op)) == QuoteJournals(db) && ClaimJournals(Step(db, op)) == ClaimJournals(db)
  {
    TablesUntouched(db, op);
    if QuoteOp(op) { QuietQuoteOp(db, op); }
    else if ClaimOp(op) { QuietClaimOp(db, op); }
    else if op.RecordPayoutReceipt? && Apply(db, op).Ok? {
      QuietPayout(db, op.external, op.claimRef, op.amount, op.currency, Step(db, op));
    }
  }

  lemma QuietOthers(db: Database, op: Op)
    requires OwnersExist(db) && Endorsements.Holds(db) && !Posts(op)
    ensures EndorsementJournals(Step(db, op)) == EndorsementJournals(db)
            && ReceiptJournals(Step(db, op)) == ReceiptJournals(db)
  {
    TablesUntouched(db, op);
    Endorsements.IdentitiesStay(db, op);
    PoliciesRenamed(db, Step(db, op));
    if EndorsementOp(op) {
      QuietEndorsementOp(db, op);
      EndorsementFrame(db, op);
    }
  }

  lemma QuietOpKeeps(db: Database, op: Op)
    requires Holds(db) && OwnersExist(db) && Endorsements.Holds(db) && ClaimRows.Holds(db) && !Posts(op)
    ensures Holds(Step(db, op))
  {
    TablesUntouched(db, op);
    QuietParts(db, op);
    QuietOthers(db, op);
  }

  // -------------------------------------------------------------------------- posting operations

  /** The contents of a and b differ by one x, in one of four places. */
  lemma OneMore<T>(a: (multiset<T>, multiset<T>, multiset<T>, multiset<T>),
                   b: (multiset<T>, multiset<T>, multiset<T>, multiset<T>), x: T)
    requires || b == (a.0 + multiset{x}, a.1, a.2, a.3) || b == (a.0, a.1 + multiset{x}, a.2, a.3)
             || b == (a.0, a.1, a.2 + multiset{x}, a.3) || b == (a.0, a.1, a.2, a.3 + multiset{x})
    ensures b.0 + b.1 + b.2 + b.3 == a.0 + a.1 + a.2 + a.3 + multiset{x}
  {
  }

  /** Posting a journal that exactly one row of one table now owns. */
  lemma OnePosted(db: Database, after: Database, j: Journal)
    requires Holds(db) && after.journals == db.journals + [j]
    requires || Parts(after) == (Parts(db).0 + multiset{j}, Parts(db).1, Parts(db).2, Parts(db).3)
             || Parts(after) == (Parts(db).0, Parts(db).1 + multiset{j}, Parts(db).2, Parts(db).3)
             || Parts(after) == (Parts(db).0, Parts(db).1, Parts(db).2 + multiset{j}, Parts(db).3)
             || Parts(after) == (Parts(db).0, Parts(db).1, Parts(db).2, Parts(db).3 + multiset{j})
    requires !ReferenceTaken(db.journals, j.reference)
    ensures Holds(after)
  {
    OneMore(Parts(db), Parts(after), j);
  }

  lemma QuotePosts(quotes: seq<Quote>, q: nat, principal: string)
    requires q < |quotes| && quotes[q].journal == "" && quotes[q].premium > 0
    ensures Gather(quotes[q := BoundQuote(quotes[q], principal)], OfQuote())
            == Gather(quotes, OfQuote()) + multiset{BindJournal(quotes[q])}
  {
    GatherReplaceNew(quotes, q, BoundQuote(quotes[q], principal), OfQuote(), BindJournal(quotes[q]));
  }

  lemma DecideBindKeeps(db: Database, q: nat, decision: Decision, principal: string, after: Database)
    requires Holds(db) && Quotes.Holds(db) && q < |db.quotes|
             && Lifecycle.DecideBind(db, q, decision, principal) == Ok(after)
    ensures Holds(after)
  {
    DecideBindEffect(db, q, decision, principal);
    var quote := db.quotes[q];
    assert Quotes.QuoteOk(quote);
    if decision == Bind && quote.premium > 0 {
      QuotePosts(db.quotes, q, principal);
      OnePosted(db, after, BindJournal(quote));
    } else {
      QuoteReplaced(db.quotes, q, after.quotes[q]);
    }
  }

  lemma EndorsementPosts(policies: seq<Policy>, endorsements: seq<Endorsement>, k: nat, policy: Policy,
                         principal: string)
    requires k < |endorsements| && endorsements[k].journal == "" && endorsements[k].delta != 0
    requires endorsements[k].policy < |policies| && policies[endorsements[k].policy].number == policy.number
    ensures var e := endorsements[k];
            Gather(endorsements[k := ApprovedEndorsement(policy, e, principal)], OfEndorsement(policies))
            == Gather(endorsements, OfEndorsement(policies)) + multiset{EndorsementJournal(policy, e)}
  {
    var e := endorsements[k];
    GatherReplaceNew(endorsements, k, ApprovedEndorsement(policy, e, principal), OfEndorsement(policies),
                     EndorsementJournal(policy, e));
  }

  lemma KeptAfterApproval(db: Database, p: nat, premium: int, j: Journal, after: Database)
    requires Holds(db) && p < |db.policies| && OwnersExist(db)
    requires after == db.(endorsements := after.endorsements, journals := db.journals + [j],
                          policies := db.policies[p := db.policies[p].(premium := premium)])
    requires !ReferenceTaken(db.journals, j.reference)
    requires Gather(after.endorsements, OfEndorsement(after.policies))
             == Gather(db.endorsements, OfEndorsement(after.policies)) + multiset{j}
    ensures Holds(after)
  {
    forall i | 0 <= i < |db.policies| ensures Policies.SameIdentity(db.policies[i],
                                                                    after.policies[..|db.policies|][i]) {
    }
    PoliciesRenamed(db, after);
    OnePosted(db, after, j);
  }

  /** An approval in a reachable database changes the premium and posts. */
  lemma ApprovalOutcome(db: Database, p: nat, no: nat, principal: string, after: Database) returns (k: nat)
    requires Endorsements.Holds(db) && p < |db.policies|
             && Lifecycle.ApproveEndorsement(db, p, no, principal) == Ok(after)
    ensures k < |db.endorsements|
    ensures Approves(db, p, k, principal, after)
  {
    ApproveEndorsementEffect(db, p, no, principal);
    k := Lifecycle.FindEndorsement(db.endorsements, p, no).value;
    assert Endorsements.EndorsementOk(db.policies, db.endorsements[k]);
  }

  predicate Approves(db: Database, p: nat, k: nat, principal: string, after: Database)
    requires p < |db.policies| && k < |db.endorsements|
  {
    var e, policy := db.endorsements[k], db.policies[p];
    && e.policy == p && e.journal == "" && e.delta != 0
    && after == db.(endorsements := db.endorsements[k := ApprovedEndorsement(policy, e, principal)],
                    policies := db.policies[p := policy.(premium := policy.premium + e.delta)],
                    journals := db.journals + [EndorsementJournal(policy, e)])
    && !ReferenceTaken(db.journals, EndorsementJournal(policy, e).reference)
  }

  lemma ApprovalGathers(db: Database, p: nat, k: nat, principal: string, after: Database)
    requires p < |db.policies| && k < |db.endorsements| && Approves(db, p, k, principal, after)
    ensures Gather(after.endorsements, OfEndorsement(after.policies))
            == Gather(db.endorsements, OfEndorsement(after.policies))
              + multiset{EndorsementJournal(db.policies[p], db.endorsements[k])}
  {
    EndorsementPosts(after.policies, db.endorsements, k, db.policies[p], principal);
  }

  lemma ApprovalKeeps(db: Database, p: nat, k: nat, principal: string, after: Database)
    requires Holds(db) && OwnersExist(db)
    requires p < |db.policies| && k < |db.endorsements| && Approves(db, p, k, principal, after)
    ensures Holds(after)
  {
    ApprovalGathers(db, p, k, principal, after);
    KeptAfterApproval(db, p, db.policies[p].premium + db.endorsements[k].delta,
                      EndorsementJournal(db.policies[p], db.endorsements[k]), after);
  }

  lemma ApproveEndorsementKeeps(db: Database, p: nat, no: nat, principal: string, after: Database)
    requires Holds(db) && OwnersExist(db) && Endorsements.Holds(db)
    requires p < |db.policies| && Lifecycle.ApproveEndorsement(db, p, no, principal) == Ok(after)
    ensures Holds(after)
  {
    var k := ApprovalOutcome(db, p, no, principal, after);
    ApprovalKeeps(db, p, k, principal, after);
  }

  lemma ReceiptPosts(policies: seq<Policy>, receipts: seq<Receipt>, r: Receipt, number: string)
    requires r.journal != "" && r.owner.Some? && r.owner.value < |policies| && policies[r.owner.value].number == number
    ensures Gather(receipts + [r], OfReceipt(policies))
            == Gather(receipts, OfReceipt(policies)) + multiset{ReceiptJournal(number, r.amount)}
  {
    GatherSnoc(receipts, r, OfReceipt(policies), ReceiptJournal(number, r.amount));
  }

  lemma ReceiptAdded(policies: seq<Policy>, receipts: seq<Receipt>, r: Receipt)
    requires r.journal == ""
    ensures Gather(receipts + [r], OfReceipt(policies)) == Gather(receipts, OfReceipt(policies))
  {
    GatherSnocNothing(receipts, r, OfReceipt(policies));
  }

  lemma OthersAfterReceipt(db: Database, after: Database)
    requires OwnersExist(db) && after.endorsements == db.endorsements && NumbersKept(db.policies, after.policies)
    ensures EndorsementJournals(after) == EndorsementJournals(db)
    ensures Gather(db.premiumReceipts, OfReceipt(after.policies)) == ReceiptJournals(db)
  {
    EndorsementsRenamed(db.endorsements, db.policies, after.policies);
    ReceiptsRenamed(db.premiumReceipts, db.policies, after.policies);
  }

  lemma ReceiptRowKeeps(db: Database, row: Receipt, number: string, after: Database)
    requires Holds(db) && OwnersExist(db) && NumbersKept(db.policies, after.policies)
    requires after == db.(premiumReceipts := db.premiumReceipts + [row], policies := after.policies,
                          journals := after.journals)
    requires row.journal == "" ==> after.journals == db.journals
    requires row.journal != "" ==>
               && row.owner.Some? && row.owner.value < |after.policies|
               && after.policies[row.owner.value].number == number
               && after.journals == db.journals + [ReceiptJournal(number, row.amount)]
               && !ReferenceTaken(db.journals, ReceiptJournal(number, row.amount).reference)
    ensures Holds(after)
  {
    OthersAfterReceipt(db, after);
    if row.journal != "" {
      ReceiptPosts(after.policies, db.premiumReceipts, row, number);
      OnePosted(db, after, ReceiptJournal(number, row.amount));
    } else {
      ReceiptAdded(after.policies, db.premiumReceipts, row);
    }
  }

  lemma PremiumReceiptKeeps(db: Database, external: string, number: string, amount: int, currency: string, now: int,
                            after: Database)
    requires Holds(db) && OwnersExist(db)
    requires Premiums.RecordPremiumReceipt(db, external, number, amount, currency, now) == Ok(after)
    ensures Holds(after)
  {
    PremiumReceiptEffect(db, external, number, amount, currency, now);
    ReceiptRowKeeps(db, PremiumReceiptRow(db.policies, external, number, amount, currency), number, after);
  }

  lemma ClaimPosts(claims: seq<Claim>, c: nat, principal: string)
    requires c < |claims| && claims[c].journal == ""
    ensures Gather(claims[c := SettledClaim(claims[c], principal)], OfClaim())
            == Gather(claims, OfClaim()) + multiset{SettlementJournal(claims[c])}
  {
    GatherReplaceNew(claims, c, SettledClaim(claims[c], principal), OfClaim(), SettlementJournal(claims[c]));
  }

  lemma ApproveSettlementKeeps(db: Database, c: nat, principal: string, after: Database)
    requires Holds(db) && ClaimRows.Holds(db) && c < |db.claims| && db.claims[c].policy < |db.policies|
    requires Claims.ApproveSettlement(db, c, principal) == Ok(after)
    ensures Holds(after)
  {
    ApproveSettlementEffect(db, c, principal);
    assert ClaimRows.ClaimOk(db.policies, db.claims[c]);
    ClaimPosts(db.claims, c, principal);
    OnePosted(db, after, SettlementJournal(db.claims[c]));
  }

  lemma DecideBindStep(db: Database, op: Op)
    requires Holds(db) && Quotes.Holds(db) && op.DecideBind? && Apply(db, op).Ok?
    ensures Holds(Step(db, op))
  {
    DecideBindKeeps(db, op.q, op.decision, op.principal, Step(db, op));
  }

  lemma ApproveEndorsementStep(db: Database, op: Op)
    requires Holds(db) && OwnersExist(db) && Endorsements.Holds(db) && op.ApproveEndorsement? && Apply(db, op).Ok?
    ensures Holds(Step(db, op))
  {
    ApproveEndorsementKeeps(db, op.p, op.no, op.principal, Step(db, op));
  }

  lemma PremiumReceiptStep(db: Database, op: Op)
    requires Holds(db) && OwnersExist(db) && op.RecordPremiumReceipt? && Apply(db, op).Ok?
    ensures Holds(Step(db, op))
  {
    PremiumReceiptKeeps(db, op.external, op.number, op.amount, op.currency, op.now, Step(db, op));
  }

  lemma ApproveSettlementStep(db: Database, op: Op)
    requires Holds(db) && ClaimRows.Holds(db) && op.ApproveSettlement? && Apply(db, op).Ok?
    ensures Holds(Step(db, op))
  {
    ApproveSettlementKeeps(db, op.c, op.principal, Step(db, op));
  }

  lemma StepKeeps(db: Database, op: Op)
    requires Holds(db) && OwnersExist(db) && Quotes.Holds(db) && Endorsements.Holds(db) && ClaimRows.Holds(db)
    ensures Holds(Step(db, op))
  {
    if !Posts(op) { QuietOpKeeps(db, op); }
    else if Apply(db, op).Ok? {
      if op.DecideBind? { DecideBindStep(db, op); }
      else if op.ApproveEndorsement? { ApproveEndorsementStep(db, op); }
      else if op.RecordPremiumReceipt? { PremiumReceiptStep(db, op); }
      else { ApproveSettlementStep(db, op); }
    }
  }
}
