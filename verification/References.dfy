/** Journal references never collide: each names one row of one table. */
module References {
  import opened Sequences
  import opened Decimals
  import opened Records
  import opened Journals
  import Lifecycle
  import Claims
  import Premiums
  import Serials
  import Quotes = QuoteInvariants
  import Policies = PolicyInvariants
  import Endorsements = EndorsementInvariants
  import ClaimRows = ClaimInvariants
  import Receipts = ReceiptInvariants
  import Owners = JournalOwners

  // --------------------------------------------------------------------------- the four shapes

  lemma BindShape(ref: string)
    ensures var t := Lifecycle.PremiumBindRef(ref); |t| == 13 + |ref| && t[0] == 'p' && t[8] == 'b' && t[13..] == ref
  {
  }

  lemma ReceiptShape(number: string)
    ensures var t := Premiums.PremiumReceiptRef(number);
            |t| == 16 + |number| && t[0] == 'p' && t[8] == 'r' && t[16..] == number
  {
  }

  lemma SettlementShape(ref: string)
    ensures var t := Claims.SettlementRef(ref); |t| == 11 + |ref| && t[0] == 's' && t[11..] == ref
  {
  }

  lemma EndorsementShape(number: string, no: nat)
    ensures var t := Lifecycle.EndorsementRef(number, no);
            |t| == 13 + |number| + |NatText(no)| && t[0] == 'e' && t[12..12 + |number|] == number
              && t[13 + |number|..] == NatText(no)
  {
    var t := Lifecycle.EndorsementRef(number, no);
    assert t == "endorsement:" + (number + (":" + NatText(no)));
    assert t[12..] == number + (":" + NatText(no));
    assert t[12..12 + |number|] == t[12..][..|number|];
    assert t[13 + |number|..] == t[12..][|number| + 1..];
  }

  /** Numbers of the same length make the endorsement reference one-to-one. */
  lemma EndorsementRefInjective(n1: string, no1: nat, n2: string, no2: nat)
    requires |n1| == |n2| && Lifecycle.EndorsementRef(n1, no1) == Lifecycle.EndorsementRef(n2, no2)
    ensures n1 == n2 && no1 == no2
  {
    EndorsementShape(n1, no1);
    EndorsementShape(n2, no2);
    NatTextRoundTrip(no1);
    NatTextRoundTrip(no2);
  }

  // ---------------------------------------------------------------------- who owns a reference

  predicate QuoteOwns(quotes: seq<Quote>, reference: string, i: nat) {
    i < |quotes| && quotes[i].journal != "" && Lifecycle.PremiumBindRef(quotes[i].ref) == reference
  }

  predicate EndorsementOwns(db: Database, reference: string, i: nat) {
    && i < |db.endorsements| && db.endorsements[i].journal != "" && db.endorsements[i].policy < |db.policies|
    && Lifecycle.EndorsementRef(db.policies[db.endorsements[i].policy].number, db.endorsements[i].no) == reference
  }

  predicate ReceiptOwns(db: Database, reference: string, i: nat) {
    && i < |db.premiumReceipts| && db.premiumReceipts[i].journal != ""
    && db.premiumReceipts[i].owner.Some? && db.premiumReceipts[i].owner.value < |db.policies|
    && Premiums.PremiumReceiptRef(db.policies[db.premiumReceipts[i].owner.value].number) == reference
  }

  predicate ClaimOwns(claims: seq<Claim>, reference: string, i: nat) {
    i < |claims| && claims[i].journal != "" && Claims.SettlementRef(claims[i].ref) == reference
  }

  datatype Owner = OfQuote(i: nat) | OfEndorsement(i: nat) | OfReceipt(i: nat) | OfClaim(i: nat)

  predicate Owns(db: Database, reference: string, o: Owner) {
    match o
    case OfQuote(i) => QuoteOwns(db.quotes, reference, i)
    case OfEndorsement(i) => EndorsementOwns(db, reference, i)
    case OfReceipt(i) => ReceiptOwns(db, reference, i)
    case OfClaim(i) => ClaimOwns(db.claims, reference, i)
  }

  /** A posted reference belongs to the row whose journal it is. */
  lemma TakenIsOwned(db: Database, reference: string) returns (o: Owner)
    requires Owners.Holds(db) && ReferenceTaken(db.journals, reference)
    ensures Owns(db, reference, o)
  {
    var k :| 0 <= k < |db.journals| && db.journals[k].reference == reference;
    var j := db.journals[k];
    assert j in multiset(db.journals);
    if j in Owners.QuoteJournals(db) {
      var i := GatherMember(db.quotes, Owners.OfQuote(), j);
      o := OfQuote(i);
    } else if j in Owners.EndorsementJournals(db) {
      var i := GatherMember(db.endorsements, Owners.OfEndorsement(db.policies), j);
      o := OfEndorsement(i);
    } else if j in Owners.ReceiptJournals(db) {
      var i := GatherMember(db.premiumReceipts, Owners.OfReceipt(db.policies), j);
      o := OfReceipt(i);
    } else {
      var i := GatherMember(db.claims, Owners.OfClaim(), j);
      o := OfClaim(i);
    }
  }

  /** The kind of row a reference of a known shape can belong to. */
  lemma OwnerHasShape(db: Database, reference: string, o: Owner)
    requires Owns(db, reference, o)
    ensures |reference| > 0
    ensures o.OfQuote? ==> |reference| > 8 && reference[0] == 'p' && reference[8] == 'b'
    ensures o.OfReceipt? ==> |reference| > 8 && reference[0] == 'p' && reference[8] == 'r'
    ensures o.OfEndorsement? ==> reference[0] == 'e'
    ensures o.OfClaim? ==> reference[0] == 's'
  {
    match o
    case OfQuote(i) => BindShape(db.quotes[i].ref);
    case OfEndorsement(i) => EndorsementShape(db.policies[db.endorsements[i].policy].number, db.endorsements[i].no);
    case OfReceipt(i) => ReceiptShape(db.policies[db.premiumReceipts[i].owner.value].number);
    case OfClaim(i) => SettlementShape(db.claims[i].ref);
  }

  // -------------------------------------------------------------------------- freshness

  /** A bind reference can only belong to the quote it names. */
  lemma BindOwner(db: Database, ref: string, o: Owner)
    requires Owns(db, Lifecycle.PremiumBindRef(ref), o)
    ensures o.OfQuote? && o.i < |db.quotes| && db.quotes[o.i].ref == ref && db.quotes[o.i].journal != ""
  {
    OwnerHasShape(db, Lifecycle.PremiumBindRef(ref), o);
    BindShape(ref);
    assert o.OfQuote?;
    BindShape(db.quotes[o.i].ref);
  }

  lemma OneQuoteOfRef(quotes: seq<Quote>, q: nat, i: nat)
    requires Quotes.RefsDistinct(quotes) && q < |quotes| && i < |quotes| && quotes[i].ref == quotes[q].ref
    ensures i == q
  {
  }

  /** A quote that has no journal yet has its reference free. */
  lemma BindRefFree(db: Database, q: nat)
    requires Quotes.RefsDistinct(db.quotes) && Owners.Holds(db) && q < |db.quotes| && db.quotes[q].journal == ""
    ensures !ReferenceTaken(db.journals, Lifecycle.PremiumBindRef(db.quotes[q].ref))
  {
    if ReferenceTaken(db.journals, Lifecycle.PremiumBindRef(db.quotes[q].ref)) {
      var o := TakenIsOwned(db, Lifecycle.PremiumBindRef(db.quotes[q].ref));
      BindOwner(db, db.quotes[q].ref, o);
      OneQuoteOfRef(db.quotes, q, o.i);
    }
  }

  lemma SettlementRefFree(db: Database, c: nat)
    requires ClaimRows.Holds(db) && Owners.Holds(db) && c < |db.claims| && db.claims[c].journal == ""
    ensures !ReferenceTaken(db.journals, Claims.SettlementRef(db.claims[c].ref))
  {
    var reference := Claims.SettlementRef(db.claims[c].ref);
    if ReferenceTaken(db.journals, reference) {
      var o := TakenIsOwned(db, reference);
      OwnerHasShape(db, reference, o);
      SettlementShape(db.claims[c].ref);
      assert o.OfClaim?;
      SettlementShape(db.claims[o.i].ref);
    }
  }

  /** Distinct policies have distinct numbers, all of one length. */
  lemma SameNumberSamePolicy(db: Database, p: nat, k: nat)
    requires Policies.Holds(db) && p < |db.policies| && k < |db.policies|
    ensures |db.policies[p].number| == |db.policies[k].number|
    ensures db.policies[p].number == db.policies[k].number ==> p == k
  {
    NumberLength(db, p);
    NumberLength(db, k);
    if p < k { Policies.NumbersDistinct(db, p, k); }
    if k < p { Policies.NumbersDistinct(db, k, p); }
  }

  lemma NumberLength(db: Database, p: nat)
    requires Policies.Holds(db) && p < |db.policies|
    ensures |db.policies[p].number| == 24
  {
    var policy := db.policies[p];
    assert Policies.PolicyFits(db.quotes, policy, p);
    Serials.BuiltNumber(Lifecycle.FamilyCode(policy.family), policy.year, policy.sequence);
  }

  /** A policy whose premium is unpaid has its receipt reference free. */
  lemma ReceiptRefFree(db: Database, p: nat)
    requires Policies.Holds(db) && Receipts.Holds(db) && Owners.Holds(db) && p < |db.policies|
             && db.policies[p].premiumPaidAt.None?
    ensures !ReferenceTaken(db.journals, Premiums.PremiumReceiptRef(db.policies[p].number))
  {
    var reference := Premiums.PremiumReceiptRef(db.policies[p].number);
    if ReferenceTaken(db.journals, reference) {
      var o := TakenIsOwned(db, reference);
      OwnerHasShape(db, reference, o);
      ReceiptShape(db.policies[p].number);
      assert o.OfReceipt?;
      assert Receipts.PremiumRowOk(db.policies, db.premiumReceipts[o.i]);
      var k := db.premiumReceipts[o.i].owner.value;
      ReceiptShape(db.policies[k].number);
      SameNumberSamePolicy(db, p, k);
    }
  }

  lemma DifferentKeys(endorsements: seq<Endorsement>, i: nat, k: nat)
    requires Endorsements.KeysDistinct(endorsements) && i < |endorsements| && k < |endorsements| && i != k
    ensures !Endorsements.SameKey(endorsements[i], endorsements[k])
  {
    var low, high := if i < k then i else k, if i < k then k else i;
    assert !Endorsements.SameKey(endorsements[low], endorsements[high]);
  }

  /** An endorsement that has no journal yet has its reference free. */
  lemma EndorsementRefFree(db: Database, k: nat)
    requires Policies.Holds(db) && Endorsements.Holds(db) && Owners.Holds(db) && k < |db.endorsements|
             && db.endorsements[k].journal == ""
    requires db.endorsements[k].policy < |db.policies|
    ensures !ReferenceTaken(db.journals, Lifecycle.EndorsementRef(db.policies[db.endorsements[k].policy].number,
                                                                  db.endorsements[k].no))
  {
    var e := db.endorsements[k];
    var number := db.policies[e.policy].number;
    var reference := Lifecycle.EndorsementRef(number, e.no);
    if ReferenceTaken(db.journals, reference) {
      var o := TakenIsOwned(db, reference);
      OwnerHasShape(db, reference, o);
      EndorsementShape(number, e.no);
      assert o.OfEndorsement?;
      var other := db.endorsements[o.i];
      SameNumberSamePolicy(db, e.policy, other.policy);
      EndorsementRefInjective(number, e.no, db.policies[other.policy].number, other.no);
      if k != o.i { DifferentKeys(db.endorsements, k, o.i); }
    }
  }
}
