/** Premium receipts (src/insurance/services/premiums.py). */
module Premiums {
  import opened Wrappers
  import opened Records
  import opened Journals
  import opened Claims

  function FindPolicy(policies: seq<Policy>, number: string): (r: Option<nat>)
    ensures r.Some? ==> r.value < |policies| && policies[r.value].number == number
    ensures r.None? ==> forall k :: 0 <= k < |policies| ==> policies[k].number != number
  {
    if policies == [] then None
    else if policies[|policies| - 1].number == number then Some(|policies| - 1)
    else FindPolicy(policies[..|policies| - 1], number)
  }

  function PremiumReceiptRef(number: string): string { "premium-receipt:" + number }

  /** record_premium_receipt: exact amount and currency or quarantine; applied once per policy. */
  function RecordPremiumReceipt(db: Database, external: string, number: string, amount: int, currency: string,
                                now: int): Result<Database> {
    match FindPolicy(db.policies, number)
    case None => StorePremium(db, Receipt(None, external, amount, currency, Quarantined, ""))
    case Some(p) =>
      var policy := db.policies[p];
      if policy.status != Active && policy.status != Suspended then Err(BadState)
      else if policy.premiumPaidAt.Some? || currency != "NGN" || amount != policy.premium then
        StorePremium(db, Receipt(Some(p), external, amount, currency, Quarantined, ""))
      else
        var writable := Auditable(amount) && Publishable(policy);
        var paid := db.(policies := db.policies[p := policy.(premiumPaidAt := Some(now))]);
        if amount <= 0 then
          Audited(writable, StorePremium(paid, Receipt(Some(p), external, amount, currency, Applied, "")))
        else
          var reference := PremiumReceiptRef(number);
          match Posted(db.journals, reference, Transfer(InsurerClearing, PremiumReceivable, amount))
          case Err(reason) => Err(reason)
          case Ok(journals) =>
            Audited(writable,
                    StorePremium(paid.(journals := journals),
                                 Receipt(Some(p), external, amount, currency, Applied, reference)))
  }

  function StorePremium(db: Database, r: Receipt): Result<Database> {
    match Stored(db.premiumReceipts, r)
    case Err(reason) => Err(reason)
    case Ok(receipts) => Ok(db.(premiumReceipts := receipts))
  }
}
