/** Double-entry posting (src/insurance/services/journal.py) and account balances. */
module Journals {
  import opened Wrappers
  import opened Records
  import opened Sequences

  function Debit(): Leg -> int { (l: Leg) => l.debit }

  function Credit(): Leg -> int { (l: Leg) => l.credit }

  predicate LegalLeg(l: Leg) { l.debit >= 0 && l.credit >= 0 && !(l.debit != 0 && l.credit != 0) }

  predicate LegalLegs(legs: seq<Leg>) { forall i :: 0 <= i < |legs| ==> LegalLeg(legs[i]) }

  predicate ReferenceTaken(journals: seq<Journal>, reference: string) {
    exists i :: 0 <= i < |journals| && journals[i].reference == reference
  }

  /** post_journal: at least two legs, balanced, not zero, every leg one-sided, the reference new. */
  function Posted(journals: seq<Journal>, reference: string, legs: seq<Leg>): Result<seq<Journal>> {
    if |legs| < 2 then Err(TooFewLegs)
    else if Sum(legs, Debit()) != Sum(legs, Credit()) then Err(UnbalancedJournal)
    else if Sum(legs, Debit()) == 0 then Err(ZeroAmountJournal)
    else if !LegalLegs(legs) then Err(IllegalLeg)
    else if ReferenceTaken(journals, reference) then Err(JournalReferenceExists)
    else Ok(journals + [Journal(reference, legs)])
  }

  method PostJournal(journals: seq<Journal>, reference: string, legs: seq<Leg>) returns (r: Result<seq<Journal>>)
    ensures r == Posted(journals, reference, legs)
  {
    if |legs| < 2 { return Err(TooFewLegs); }
    var debits, credits := 0, 0;
    for i := 0 to |legs|
      invariant debits == Sum(legs[..i], Debit()) && credits == Sum(legs[..i], Credit())
    {
      SumSnoc(legs[..i], legs[i], Debit());
      SumSnoc(legs[..i], legs[i], Credit());
      assert legs[..i + 1] == legs[..i] + [legs[i]];
      debits, credits := debits + legs[i].debit, credits + legs[i].credit;
    }
    assert legs[..|legs|] == legs;
    if debits != credits { return Err(UnbalancedJournal); }
    if debits == 0 { return Err(ZeroAmountJournal); }
    var entries: seq<Leg> := [];
    for i := 0 to |legs|
      invariant entries == legs[..i] && LegalLegs(entries)
    {
      if legs[i].debit < 0 || legs[i].credit < 0 || (legs[i].debit != 0 && legs[i].credit != 0) {
        assert !LegalLeg(legs[i]);
        return Err(IllegalLeg);
      }
      entries := entries + [legs[i]];
    }
    assert entries == legs;
    if exists i :: 0 <= i < |journals| && journals[i].reference == reference {
      return Err(JournalReferenceExists);
    }
    return Ok(journals + [Journal(reference, entries)]);
  }

  /** The two legs of every journal this service posts. */
  function Transfer(debited: Account, credited: Account, amount: int): seq<Leg> {
    [Leg(debited, amount, 0), Leg(credited, 0, amount)]
  }

  lemma SumOfTwo(a: Leg, b: Leg, f: Leg -> int)
    ensures Sum([a, b], f) == f(a) + f(b)
  {
    assert [a, b][..1] == [a];
    assert [a][..0] == [];
    assert Sum([a], f) == f(a);
  }

  /** A positive transfer under a new reference always posts. */
  lemma TransferPosts(journals: seq<Journal>, reference: string, debited: Account, credited: Account, amount: int)
    requires amount > 0 && !ReferenceTaken(journals, reference)
    ensures Posted(journals, reference, Transfer(debited, credited, amount))
            == Ok(journals + [Journal(reference, Transfer(debited, credited, amount))])
  {
    SumOfTwo(Leg(debited, amount, 0), Leg(credited, 0, amount), Debit());
    SumOfTwo(Leg(debited, amount, 0), Leg(credited, 0, amount), Credit());
  }

  // ------------------------------------------------------------------------------- balances

  function NetLeg(account: Account): Leg -> int {
    (l: Leg) => if l.account == account then l.debit - l.credit else 0
  }

  function NetJournal(account: Account): Journal -> int { (j: Journal) => Sum(j.legs, NetLeg(account)) }

  /** The net debit of an account. */
  function Balance(journals: seq<Journal>, account: Account): int { Sum(journals, NetJournal(account)) }

  lemma BalanceAfterTransfer(journals: seq<Journal>, reference: string, debited: Account, credited: Account,
                             amount: int, account: Account)
    requires debited != credited
    ensures Balance(journals + [Journal(reference, Transfer(debited, credited, amount))], account)
            == Balance(journals, account)
               + (if account == debited then amount else if account == credited then -amount else 0)
  {
    var j := Journal(reference, Transfer(debited, credited, amount));
    SumSnoc(journals, j, NetJournal(account));
    SumOfTwo(Leg(debited, amount, 0), Leg(credited, 0, amount), NetLeg(account));
  }

  predicate Balanced(j: Journal) { Sum(j.legs, Debit()) == Sum(j.legs, Credit()) }

  /** Whatever is posted balances, so the deferred balance trigger never fires. */
  lemma PostedIsBalanced(journals: seq<Journal>, reference: string, legs: seq<Leg>)
    requires Posted(journals, reference, legs).Ok? && forall i :: 0 <= i < |journals| ==> Balanced(journals[i])
    ensures var after := Posted(journals, reference, legs).value;
            forall i :: 0 <= i < |after| ==> Balanced(after[i])
  {
  }
}
