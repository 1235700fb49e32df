# A Dafny model of the marine insurance engine

The engine quotes, binds, issues, endorses, collects premium, settles claims and keeps a double-entry ledger, signed
status lists, a hash-chained audit log and signed event envelopes. This project models those parts as the Python
service computes them and proves the laws that span its operations: what every reachable database keeps, what
concurrent transactions cannot do, and which transformations lose nothing.

`dafny verify dfyconfig.toml` checks everything.

## The state machine

- `Records.dfy` has the rows, and the committed database as a value. `Lifecycle.dfy`, `Claims.dfy`, `Premiums.dfy`,
  `Journals.dfy` and `StatusLists.dfy` say what each operation makes of a database, the CHECK, UNIQUE and column-range
  constraints of the migrations included, or for which reason it refuses.
- `Session.dfy` is the service as it runs: tables in fields, updated step by step, rolled back on an error. Every method
  commits exactly what the operation says or leaves no trace, and keeps the tables those of a run of the machine below,
  so every law of reachable databases holds between calls.
- `Machine.dfy` runs any sequence of the twenty calls from the empty database. A refused call leaves the database as it
  was, as the routes' rollback does.
- `Effects.dfy` and `Frames.dfy` say what each call touches. `History.dfy`, the six files named for rows and `Invariants`,
  `Ledger.dfy`, `JournalOwners.dfy`, `References.dfy`, `StatusIndex.dfy`, `ClaimTotals.dfy` and `PremiumAccounts.dfy`
  each keep one family of facts; `Invariants.dfy` puts them together. `Reachable.dfy`, `Gates.dfy`, `Sweep.dfy` and
  `Aggregates.dfy` state what a caller may rely on. `Events.dfy` has the events a call writes and shows that the amounts
  an operation refuses as not canonicalizable are those its events cannot carry. `SampleRun.dfy` is a concrete run for
  the results that need an input.
- `BindConcurrency.dfy`, `BindSchedules.dfy` and `BindOutcomes.dfy`, and `FnolConcurrency.dfy`, `FnolSerial.dfy` and
  `FnolOrder.dfy`, split the calls that lock rows into read, lock, refresh, check, write and commit, and run them under
  any schedule.

## The algorithms

- `Serials.dfy`: policy numbers and the Luhn mod 34 check. `Positional.dfy`, `Base58.dfy`: base58btc.
- `JcsNumbers.dfy`, `JcsStrings.dfy`, `Jcs.dfy`, `JcsWriter.dfy`: the RFC 8785 canonicaliser. Its independent partners
  are a reader (`JcsReader.dfy`), rules of a numeral's text that each number meets in one way (`JcsNumerals.dfy`), and
  the shortest text of a string.
- `HashChain.dfy`, `AuditChain.dfy`: the audit log. `Jws.dfy`, `Envelope.dfy`: signed envelopes.
- `Rating.dfy`, `RateTables.dfy`: rating and effective-dated tables. `Bitstrings.dfy`: the status-list byte array.
- `Wrappers.dfy`, `Sequences.dfy`, `Decimals.dfy`: options, results and reasons, sums, decimal text.

## What the code does that its words do not say

- `request_bind` writes EXPIRED and then refuses, and the route rolls both back, so no quote is ever EXPIRED
  (`Reachable.NothingEverExpires`).
- The regulator's `settledTotalKobo` adds `settled_kobo` over all claims. It equals the ledger's claims payable exactly
  when no claim outside SETTLED and PAID carries an amount (`Aggregates.AggregateMatchesLedgerIff`,
  `Aggregates.AggregateCanDisagree`).
- Every call ends by recording an audit event, many also sign an event of the policy or claim in the same transaction,
  and the canonicaliser refuses integers beyond 2^53 - 1, so a call with a larger amount in an event is undone
  (`Events.EventsDecide`). No column or check says so, yet no policy ever has a premium or insured value beyond that
  bound, so no later status change or receipt is refused for its event (`Reachable.PolicyAmountsBounded`,
  `Gates.StatusChangeSucceedsIff`, `PremiumAccounts.PremiumAlwaysReceivable`).
- A premium change approved after the premium was received is never received: later receipts are quarantined as already
  settled, so the receivable keeps the sum of those changes (`PremiumAccounts.OwedSinceReceipt`,
  `PremiumAccounts.ChangeAfterReceiptStaysOwed`).
- `add_rate_table` treats an end date as inclusive and `effective_rate_table` as exclusive. Lookups stay unique; the
  price is that a table that only abuts existing ones is refused, and that is the only needless refusal
  (`RateTables.RefusedNeedlesslyIff`, `RateTables.AdjacentWindowsRefused`).
- `file_fnol` checks ACTIVE before it locks the policy and not again. A filing can commit after a cancellation it did
  not see (`FnolOrder.FilingAfterCancellation`), and exactly then the commit order is not a serial order
  (`FnolOrder.CommitOrderIsSerialIff`); the result is still that of a serial run with the filing first
  (`FnolSerial.ConcurrentRunsAreRuns`).
- The Luhn check misses the swap of adjacent `0` and `Z`, and only that one (`Serials.CheckDetectsSwap`). No built
  number is affected: digits, family codes and the prefix never put the two side by side except last digit and check
  character, where the swap is caught too (`Serials.ParseRejectsSwap`).

## Model

| member | source | states |
|---|---|---|
| `Reachable.BalancesAreEntitySums` | src/insurance/services/lifecycle.py:317-332 | After every run of calls the net debits of the four accounts equal sums over entity states: income is minus the sum of the premiums of BOUND quotes plus all policy premiums; receivable is that less applied premium receipts; claims payable is the settled amounts of SETTLED and PAID claims; clearing is receipts less settlements |
| `Reachable.TrialBalance` | src/insurance/services/journal.py:32-48 | When every journal balances, the four account balances add up to zero |
| `Reachable.JournalsBelongToRows` | src/insurance/services/journal.py:32-48 | The journal table of every reachable database is, as a multiset, exactly one journal for each row with a journal reference, which are exactly the bound or issued quotes with a premium, approved premium changes, applied receipts of money and settled or paid claims; no two journals share a reference |
| `Reachable.BoundQuoteHistory` | src/insurance/services/lifecycle.py:304-332 | Every BOUND or ISSUED quote has exactly one decision, a BIND, by the recorded principal, who is not the requester |
| `Reachable.SettledClaimHistory` | src/insurance/services/claims.py:160-230 | Every SETTLED or PAID claim was confirmed by someone other than its proposer, settled on the proposal of its adjuster, approved by someone else, for an amount within the claim, on a policy whose premium was received, with its own journal posted |
| `Reachable.ApprovedEndorsementHistory` | src/insurance/services/lifecycle.py:504-546 | Every approved premium change was approved by someone other than its author and its own journal is posted |
| `Reachable.FinalRowsStay` | src/insurance/services/lifecycle.py:565-583 | Between any two points of a run ISSUED and DECLINED quotes, REJECTED and PAID claims and decided endorsements are unchanged, whatever is called in between |
| `History.StepEvolves` | src/insurance/services/lifecycle.py:270-338 | No call, accepted or refused, removes a row, rewrites an append-only table, changes an identity field, or takes a final row out of its state |
| `History.RunEvolves` | src/insurance/services/lifecycle.py:270-338 | The same between any two points of any run |
| `Reachable.NothingEverExpires` | src/insurance/api/routes_quotes.py:181-183 | No reachable quote is EXPIRED: the write request_bind makes before refusing is rolled back with the refusal |
| `Reachable.PolicyNumbersIdentify` | src/insurance/services/lifecycle.py:391-396 | In every reachable database policy numbers are distinct and parse back to their own row's family, year and sequence |
| `Reachable.PolicyHasItsQuotesTerms` | src/insurance/services/lifecycle.py:47-53 | Every policy belongs to an ISSUED quote, insures the sum of that quote's lines, and its number names the family of the quote's kind: CRG for both cargo kinds, FRY, PRT and HUL for the others |
| `Reachable.SequencesAreExact` | src/insurance/services/lifecycle.py:341-357 | For each family and year the sequences in use are exactly those below the counter, in increasing order: refused and rolled-back calls leave neither gap nor repeat |
| `Reachable.StatusListsIndexPolicies` | src/insurance/services/statuslists.py:50-115 | In every reachable database bit i of the newest revocation list is set exactly when policy i is CANCELLED or LAPSED, bit i of the newest suspension list exactly when it is SUSPENDED, and every bit of no policy is clear |
| `Reachable.IndexesAreExact` | src/insurance/services/statuslists.py:33-42 | Allocated indexes are exactly 0 to n-1 and fit the list |
| `Reachable.ClaimTotalsBounded` | src/insurance/services/claims.py:72-87 | For every policy of every reachable database: paid within settled within claimed (non-rejected) within insured, and applied payout receipts add up to exactly the settled amounts of PAID claims |
| `Reachable.ClaimsAreCovered` | src/insurance/services/claims.py:65-140 | In every reachable database a claim's loss lies in its policy's cover window and its amount within the insured value, a ferry claim names its trigger, and a claim past first notice, unless rejected, has a document with a well-formed digest |
| `Reachable.PaidExactlyOnce` | src/insurance/services/claims.py:278-298 | A claim has exactly one applied payout receipt, of exactly its settled amount, when it is PAID, and none otherwise |
| `Reachable.PremiumPaidExactlyOnce` | src/insurance/services/premiums.py:63-109 | premium_paid_at is set exactly when one receipt was applied to the policy, and never more than one is |
| `Gates.CreateQuoteSucceedsIff` | src/insurance/services/lifecycle.py:208-267 | After any run create_quote succeeds exactly when the lines rate, the reference is new, the validity positive and the event can carry premium and route risk; it appends one QUOTED row with the declared values and, as premium, the sum of the rated lines and the policy fee |
| `Gates.DecideBindSucceedsIff` | src/insurance/services/lifecycle.py:293-338 | After any run decide_bind succeeds exactly when the quote is pending and the checker is not the maker: no decision or journal reference ever collides |
| `Gates.IssuePolicySucceedsIff` | src/insurance/services/lifecycle.py:360-445 | After any run issue_policy succeeds exactly when the quote is BOUND, the window is right, the year is a legal one, the list has room and the insured value is at most 2^53 - 1, which the signed event must carry: number, quote link and index never collide |
| `Gates.AddEndorsementSucceedsIff` | src/insurance/services/lifecycle.py:448-484 | After any run add_endorsement succeeds exactly when the policy is ACTIVE and change and number fit; the row it appends is numbered one more than the policy has endorsements, PROPOSED exactly when it changes the premium |
| `Gates.ApproveEndorsementSucceedsIff` | src/insurance/services/lifecycle.py:504-546 | After any run, wherever in the table the endorsement of that number stands, approve_endorsement succeeds exactly when it is PROPOSED by someone else and leaves a premium from 0 to 2^53 - 1, which the signed event must carry; a number the policy does not have is refused as unknown |
| `Gates.RejectEndorsementSucceedsIff` | src/insurance/services/lifecycle.py:556-589 | The same of reject_endorsement: PROPOSED and someone else, or unknown |
| `Gates.ApproveSettlementSucceedsIff` | src/insurance/services/claims.py:197-236 | After any run approve_settlement succeeds exactly when the settlement is pending, the approver is not the proposer and the premium is received: its journal reference never collides |
| `Gates.PremiumReceiptSucceedsIff` | src/insurance/services/premiums.py:32-113 | After any run a premium receipt is stored, applied or quarantined, exactly when its policy, if known, is in force, its reference is new and its amount legal: neither its journal reference nor its events are ever in the way |
| `Gates.PayoutReceiptSucceedsIff` | src/insurance/services/claims.py:251-304 | After any run a payout receipt is stored, applied or quarantined, exactly when its claim, if known, is SETTLED, its reference is new and its amount legal |
| `Gates.FileFnolSucceedsIff` | src/insurance/services/claims.py:52-113 | After any run file_fnol succeeds exactly when the policy is ACTIVE, the loss within cover, the amount positive and, with the policy's claims not rejected, within the insured value, a ferry claim names its trigger and the reference is new: its event is never in the way |
| `Gates.AttachDocumentSucceedsIff` | src/insurance/services/claims.py:117-142 | attach_document succeeds exactly on a claim not yet assigned, with 64 hexadecimal digits in lower case, and a vault reference the claim does not have |
| `PremiumAccounts.PremiumAlwaysReceivable` | src/insurance/services/premiums.py:91-113 | After any run, a receipt under a fresh reference for exactly the premium of an unpaid policy in force pays it |
| `PremiumAccounts.ReceivesExactly` | src/insurance/services/premiums.py:63-113 | No call but such a receipt, in NGN and for exactly the premium, ever receives a policy's premium |
| `PremiumAccounts.StepKeeps` | src/insurance/services/lifecycle.py:504-546 | Every call keeps each policy's premium equal to its quote's premium plus the changes approved on it |
| `PremiumAccounts.OwedSinceReceipt` | src/insurance/services/premiums.py:63-79 | After its premium was received, what a policy owes, premium less receipts applied, is the sum of the changes approved since, whatever is received later |
| `PremiumAccounts.ChangeAfterReceiptStaysOwed` | src/insurance/services/premiums.py:63-79 | A concrete run, receipt then an approved change of one kobo, ends with the premium paid, one kobo owed, and no call that could receive it |
| `PremiumAccounts.PaidByACall` | src/insurance/services/premiums.py:91-113 | Every paid policy was paid by some call of the run, so the law above applies to every paid policy |
| `Events.EventsDecide` | src/insurance/services/outbox.py:44-76 | After any run, a call that passes every other check commits exactly when each event it writes, audit payload or signed envelope of the policy or claim, has a canonical text, and is undone otherwise |
| `Envelope.BuiltSignableIff` | src/insurance/events/envelope.py:51-102 | A built envelope of a known type can be signed exactly when its resource has a canonical text |
| `Reachable.PolicyAmountsBounded` | src/insurance/services/lifecycle.py:721-736 | After any run every policy's premium is from 0 to 2^53 - 1 and its insured value from 1 to 2^53 - 1, so no event of it is ever refused for what it already holds |
| `Gates.StatusChangeSucceedsIff` | src/insurance/services/lifecycle.py:592-684 | After any run cancelling, lapsing, suspending and reinstating succeed exactly on the status they require: neither publishing the list nor the event the route signs ever stands in the way |
| `References.TakenIsOwned` | src/insurance/services/journal.py:32-48 | A reference in the journal table is the reference of a row that has posted: a quote, endorsement, premium receipt or claim |
| `References.EndorsementRefInjective` | src/insurance/services/lifecycle.py:520-530 | Endorsement references with policy numbers of one length determine number and endorsement number |
| `Ledger.StepKeeps` | src/insurance/services/journal.py:25-48 | Every call keeps the four balances equal to the entity sums and every journal balanced |
| `JournalOwners.StepKeeps` | src/insurance/services/journal.py:32-48 | Every call keeps the journal table equal to the journals its rows own, references distinct |
| `QuoteInvariants.StepKeeps` | src/insurance/services/lifecycle.py:270-338 | Every call keeps quote references distinct, each decision in line with its quote and by another principal, and every decided quote with its one decision |
| `PolicyInvariants.StepKeeps` | src/insurance/services/lifecycle.py:360-445 | Every call keeps each policy on its own issued quote with that quote's family and insured value, its number built from its serial, sequences counting earlier policies of the series, and counters equal to series sizes |
| `EndorsementInvariants.StepKeeps` | src/insurance/services/lifecycle.py:448-583 | Every call keeps (policy, number) keys distinct and every endorsement's dual-control history and journal reference in line with its status |
| `ClaimInvariants.StepKeeps` | src/insurance/services/claims.py:143-248 | Every call keeps claim references distinct and every claim's dual-control history, amounts and journal reference in line with its status |
| `ReceiptInvariants.StepKeeps` | src/insurance/services/premiums.py:32-113 | Every call keeps receipt references distinct, one applied receipt for each paid premium and each PAID claim, and none for any other |
| `CoverInvariants.StepKeeps` | src/insurance/services/claims.py:52-140 | Every call keeps each claim within its policy's cover, every document's digest well formed and its vault reference unique on its claim, and every claim past first notice, unless rejected, with a document |
| `StatusIndex.StepKeeps` | src/insurance/services/statuslists.py:65-115 | Every call keeps both newest lists in step with the policies' statuses |
| `ClaimTotals.StepKeeps` | src/insurance/services/claims.py:72-87 | Every call keeps each policy's non-rejected claims within its insured value |
| `ClaimTotals.StepKeepsExact` | src/insurance/services/claims.py:278-298 | Every call keeps each policy's applied payouts equal to the settled amounts of its PAID claims |
| `Invariants.RunHolds` | src/insurance/services/lifecycle.py:208-718 | All these invariants hold together after every run from the empty database |
| `Aggregates.AggregateMatchesLedgerIff` | src/insurance/api/routes_integrations.py:103-105 | The regulator's settledTotalKobo is never less than the ledger's claims payable, and equal exactly when no claim outside SETTLED and PAID carries a settled amount |
| `Aggregates.AggregateCanDisagree` | src/insurance/api/routes_integrations.py:103-105 | A concrete run after which the two differ: a proposed settlement is in the aggregate and not in the ledger |
| `Sweep.SweepOutcome` | src/insurance/services/lifecycle.py:687-718 | After any run a sweep succeeds: every policy it changes was ACTIVE with its cover ended and is LAPSED, there are exactly min(batch, k) of the k such policies, none expiring later than one left, and exactly their revocation bits are set; every other row, bit and list is as it was |
| `Sweep.SelectionExists` | src/insurance/services/lifecycle.py:704-710 | The sweep's query always has an answer: distinct lapsable rows, earliest expiry first, none left out expiring before one picked |
| `Sweep.SweepsLeave` | src/insurance/services/lifecycle.py:687-718 | From any reachable database n consecutive sweeps at one time leave max(k - n * batch, 0) of the k ACTIVE policies whose cover has ended |
| `Sweep.SweepsDrain` | src/insurance/services/lifecycle.py:687-718 | From any reachable database, as many sweeps of a positive batch as there are such policies leave none |
| `Session.Service.CreateQuote` | src/insurance/services/lifecycle.py:208-267 | Commits a quote with the premium and values of the one rating of its lines at the corridor's evidence, or reports the reason, an amount no audit payload can carry included, and changes nothing; a commit extends the run the service's tables come from |
| `Session.Service.Lawful` | src/insurance/services/lifecycle.py:208-718 | Between calls a service's tables are those of the run of its committed calls, which every method keeps, so every law of reachable databases holds of it |
| `Session.Service.RequestBind` | src/insurance/services/lifecycle.py:270-290 | The maker's step; an expired quote is refused and the EXPIRED write undone |
| `Session.Service.DecideBind` | src/insurance/services/lifecycle.py:293-338 | The checker's step: decision, status and premium journal together, or nothing |
| `Session.Service.IssuePolicy` | src/insurance/services/lifecycle.py:360-445 | Takes the serial first and stores the policy, or gives the serial back on any later failure, that of the signed event included |
| `Session.Service.AddEndorsement` | src/insurance/services/lifecycle.py:448-484 | Stores the next numbered endorsement, PROPOSED when it changes the premium; a change no event can carry is undone |
| `Session.Service.ApproveEndorsement` | src/insurance/services/lifecycle.py:487-553 | Posts the change, adds it to the premium and approves, together or not at all, and undoes a premium no signed event can carry |
| `Session.Service.RejectEndorsement` | src/insurance/services/lifecycle.py:556-589 | Rejects a PROPOSED endorsement by someone other than its author |
| `Session.Service.CancelOrLapse` | src/insurance/services/lifecycle.py:592-623 | Status and revocation bit together, or nothing |
| `Session.Service.SuspendPolicy` | src/insurance/services/lifecycle.py:626-654 | Status and suspension bit together, or nothing |
| `Session.Service.ReinstatePolicy` | src/insurance/services/lifecycle.py:657-684 | Status and cleared suspension bit together, or nothing |
| `Session.Service.LapseSweep` | src/insurance/services/lifecycle.py:711-718 | Over any answer of its query, the loop is the fold of the single lapse; a failing row undoes the batch |
| `Session.Service.FileFnol` | src/insurance/services/claims.py:52-113 | Cover, amount, aggregate cap, trigger and reference, in that order, then one FNOL row, undone when its event cannot carry the amount |
| `Session.Service.AttachDocument` | src/insurance/services/claims.py:116-140 | Stores the document and opens the review, or nothing |
| `Session.Service.ProposeAdjuster` | src/insurance/services/claims.py:143-157 | Records adjuster and proposer on a claim under review |
| `Session.Service.ConfirmAdjuster` | src/insurance/services/claims.py:160-173 | Confirms by someone other than the proposer |
| `Session.Service.ProposeSettlement` | src/insurance/services/claims.py:176-194 | Only the assigned adjuster, within the claimed amount |
| `Session.Service.ApproveSettlement` | src/insurance/services/claims.py:197-236 | Journal and SETTLED together, or nothing |
| `Session.Service.RejectClaim` | src/insurance/services/claims.py:239-248 | Rejects any claim that is not settled, paid or rejected |
| `Session.Service.RecordPayoutReceipt` | src/insurance/services/claims.py:251-304 | Pays the claim on an exact match, quarantines otherwise, refuses off-state |
| `Session.Service.RecordPremiumReceipt` | src/insurance/services/premiums.py:32-113 | Applies once on an exact match with its journal, quarantines otherwise, refuses off-state, and undoes an application whose events cannot carry its amounts |
| `Journals.PostJournal` | src/insurance/services/journal.py:25-48 | Accepts exactly two or more legs that are one-sided, balance and are not zero, under a new reference, and appends exactly that journal |
| `Journals.BalanceAfterTransfer` | src/insurance/services/journal.py:25-48 | A posted transfer moves the debited account up, the credited account down, and no other |
| `Journals.PostedIsBalanced` | src/insurance/services/journal.py:25-31 | Whatever is posted balances, so the deferred balance trigger of the schema never fires |
| `StatusLists.CurrentIsNewest` | src/insurance/services/statuslists.py:50-62 | The current list is the last one published for its purpose, and all zeros before the first |
| `StatusLists.WriteFlag` | src/insurance/services/statuslists.py:65-115 | Publishes the newest list of the purpose with exactly the one bit changed, through the byte array |
| `Bitstrings.SetBitSetsOneBit` | src/insurance/crypto/statuslist.py:65-70 | Setting a bit of the byte array is updating that one bit of the bit sequence, MSB first (section 3 of W3C Bitstring Status List v1.0) |
| `Bitstrings.StatusList.Create` | src/insurance/crypto/statuslist.py:46-55 | A list is made exactly for a positive multiple of eight bits with data of that size; without data every byte is zero |
| `Bitstrings.StatusList.Get` | src/insurance/crypto/statuslist.py:61-63 | Reads the bit of the bit sequence, refusing an index out of range |
| `Bitstrings.StatusList.Set` | src/insurance/crypto/statuslist.py:65-70 | Changes one bit of the bit sequence in place, refusing an index out of range |
| `BindConcurrency.PiecesAreAtomic` | src/insurance/services/lifecycle.py:282-289 | Under the row lock the separate checks, refresh and writes of request_bind, decide_bind and issue_policy decide exactly what the indivisible call decides |
| `BindConcurrency.PreparedUndisturbed` | src/insurance/services/lifecycle.py:302-338 | What a transaction has prepared stays right while transactions on other quotes commit |
| `BindSchedules.EveryScheduleIsSerial` | src/insurance/services/lifecycle.py:270-338 | Every interleaving, at read, row lock, refresh, check, serial claim, index claim, write, audit record and commit, of any number of these transactions on any quotes leaves the database of the serial run in finishing order, and each ends as it does there, refusals before the lock included |
| `BindSchedules.NoDeadlock` | src/insurance/services/lifecycle.py:377-445 | While a transaction is unfinished some transaction can move: quote row, serial counter row, index lock and audit lock never deadlock |
| `BindOutcomes.ConcurrentRunsAreRuns` | src/insurance/services/lifecycle.py:270-445 | Started in a reachable database any schedule ends in a reachable database, so every law above survives concurrency |
| `BindOutcomes.AtMostOneWinner` | src/insurance/services/lifecycle.py:282-289 | On one quote at most one bind request, one decision and one issue commits, whatever the schedule |
| `BindOutcomes.RecordedAtMostOnce` | src/insurance/services/lifecycle.py:438-440 | After any schedule a quote has at most one BIND premium journal, one decision and one policy |
| `FnolConcurrency.CapHoldsAlways` | src/insurance/services/claims.py:67-87 | No schedule of filings, rejections and cancellations commits claims beyond a policy's insured value |
| `FnolConcurrency.StaleAggregateOvercounts` | src/insurance/services/claims.py:74-80 | A filing's aggregate, however stale, is never less than the committed non-rejected claims |
| `FnolSerial.CancelsCanGoLast` | src/insurance/services/claims.py:64-69 | A serial run ends in the same database as its filings and rejections followed by its cancellations |
| `FnolSerial.ConcurrentRunsAreRuns` | src/insurance/services/claims.py:52-113 | Every such schedule ends in a reachable database: that of the service's own calls, cancellations last |
| `FnolOrder.FilingAfterCancellation` | src/insurance/services/claims.py:62-69 | The stale status check has a witness everywhere: in any database where filing and cancelling would each succeed, some schedule commits the cancellation first and then the filing, leaving a new claim on a CANCELLED policy |
| `FnolOrder.CommitOrderIsSerialIff` | src/insurance/services/claims.py:62-69 | For every schedule, replaying the service's own calls in commit order gives the schedule's database exactly when no filing committed after a cancellation of its own policy |
| `Serials.LuhnCheck` | src/insurance/domain/serials.py:56-72 | The loop computes the check character of the weighted sum, or refuses a body with a foreign character |
| `Serials.ValidIffTotalZero` | src/insurance/domain/serials.py:75-83 | A check is accepted exactly when the weighted total of body and check is a multiple of 34 |
| `Serials.AddendIsWeight` | src/insurance/domain/serials.py:56-72 | The code's addend, tens plus units in base 34, is the weight the total is made of |
| `Serials.SymbolsSpellAlphabet` | src/insurance/domain/serials.py:37-38 | The symbols are those of the alphabet, in order |
| `Serials.CheckDetectsSubstitution` | src/insurance/domain/serials.py:56-72 | Replacing one character of a body of any length always changes the check character |
| `Serials.CheckDetectsSwap` | src/insurance/domain/serials.py:56-72 | Swapping two adjacent unequal characters of a body of any length leaves the check character the same exactly when they are 0 and Z |
| `Serials.ParseAcceptsIff` | src/insurance/domain/serials.py:117-133 | A dashed number is accepted exactly when its separator-free form has the right shape and a total that is a multiple of 34 |
| `Serials.ParseIgnoresCaseAndSpace` | src/insurance/domain/serials.py:117-127 | Lower-case letters and white space around a number change nothing about how it parses |
| `Serials.ParseInvertsBuild` | src/insurance/domain/serials.py:86-133 | parse_policy_number gives back the family, year and sequence build_policy_number was given |
| `Serials.BuildInjective` | src/insurance/domain/serials.py:86-100 | A number determines family, year and sequence |
| `Serials.ParseRejectsSubstitution` | src/insurance/domain/serials.py:117-133 | A built number with any one body or check character replaced by another of the alphabet is rejected |
| `Serials.ParseRejectsSwap` | src/insurance/domain/serials.py:117-133 | A built number with any two adjacent unequal characters of its separator-free form swapped, last digit with check included, is rejected |
| `Base58.Base58btcEncode` | src/insurance/crypto/vc.py:51-64 | The two loops produce the base-58 digits of the number after one 1 for each leading zero byte |
| `Base58.Base58btcDecode` | src/insurance/crypto/vc.py:67-75 | The loops produce the bytes of the number after one zero byte for each leading 1, and refuse exactly a text with a foreign character |
| `Base58.DecodeInvertsEncode` | src/insurance/crypto/vc.py:51-75 | Decoding an encoded byte string gives it back, empty and leading-zero cases included |
| `Base58.EncodeInvertsDecode` | src/insurance/crypto/vc.py:51-75 | Encoding a decoded text gives it back, for every text over the alphabet |
| `Base58.AcceptsExactlyEncodings` | src/insurance/crypto/vc.py:51-75 | Decoding accepts exactly the texts that some byte string encodes to |
| `Base58.ByteCountFromBits` | src/insurance/crypto/vc.py:74-75 | The byte count the code takes from the bit length is the number of base-256 digits |
| `Positional.FromToDigits` | src/insurance/crypto/vc.py:51-75 | Reading the digits of a number in any base gives the number back |
| `Positional.ToFromDigits` | src/insurance/crypto/vc.py:51-75 | The digits of the number a digit string names are that string without its leading zeros |
| `JcsStrings.EscapeString` | src/insurance/crypto/jcs.py:45-56 | The loop produces the quoted text with the escapes of section 3.2.2.2 of RFC 8785, which the next rows fix |
| `JcsStrings.EscapedIsCanonical` | src/insurance/crypto/jcs.py:34-56 | Among all bodies a JSON reader reads as a string its escaped text is a shortest, and the only one of that length with every \u escape as \u00 and two lower-case digits |
| `JcsStrings.SolidusIsNotEscaped` | src/insurance/crypto/jcs.py:34-56 | A backslash stands before a solidus in the escaped text exactly when one does in the string itself |
| `JcsStrings.ReadInvertsEscape` | src/insurance/crypto/jcs.py:45-56 | A JSON string reader recovers every string, and what follows, from its escaped text |
| `JcsStrings.ByteOrderIsUnitOrder` | src/insurance/crypto/jcs.py:59-61 | Big-endian byte order is code-unit order, for unit sequences of any length |
| `JcsStrings.KeyOrderIsUnitOrder` | src/insurance/crypto/jcs.py:59-61 | The sort key orders strings by UTF-16 code units (section 3.2.3 of RFC 8785) |
| `JcsStrings.Utf16Injective` | src/insurance/crypto/jcs.py:59-61 | Strings with the same code units are the same, so distinct keys never tie |
| `JcsNumbers.ShortestDigitsExact` | src/insurance/crypto/jcs.py:99-118 | For every repr of a nonzero value the digits have no leading or trailing zeros and digits times ten to exp10 is the magnitude |
| `JcsNumbers.LayoutDenotes` | src/insurance/crypto/jcs.py:64-96 | Each of the four notations denotes exactly the signed number it was laid out from |
| `JcsNumbers.NumberToStringExact` | src/insurance/crypto/jcs.py:64-118 | The emitted text of a nonzero double denotes exactly its signed decimal value |
| `JcsNumbers.NumberToStringOfValue` | src/insurance/crypto/jcs.py:64-118 | Two reprs of one value are emitted as one text |
| `JcsNumbers.NotationThresholds` | src/insurance/crypto/jcs.py:83-96 | The notation changes at n = 21 and n = -6 exactly (section 3.2.2.3 of RFC 8785) |
| `JcsNumerals.CanonicalIsUnique` | src/insurance/crypto/jcs.py:64-96 | The rules of a numeral's text, no spare zeros, plain from 10^-6 up to 10^21, else one digit before the point and a signed exponent, leave one numeral for each value |
| `JcsNumerals.NumberTextIsCanonical` | src/insurance/crypto/jcs.py:64-170 | The text of every number, integer or float, is its sign and that one numeral of its magnitude; zero is 0 |
| `JcsReader.ReadInvertsCanon` | src/insurance/crypto/jcs.py:121-172 | A reader recovers the value and the rest from canonical text followed by anything that cannot extend a number |
| `JcsReader.CanonEqualIffSameValue` | src/insurance/crypto/jcs.py:121-172 | Two values have one canonical text exactly when they are equal as JSON values, whatever the insertion order |
| `JcsReader.CanonUniquelyDecodable` | src/insurance/crypto/jcs.py:121-172 | A canonical text followed by a rest splits in one way only |
| `JcsReader.KeysInCodeUnitOrder` | src/insurance/crypto/jcs.py:148-157 | The keys of every object come out in strictly increasing UTF-16 code-unit order |
| `JcsWriter.Writer.Encode` | src/insurance/crypto/jcs.py:121-161 | The appending encoder writes exactly the canonical text, and refuses exactly the values that have none |
| `JcsWriter.Canonicalize` | src/insurance/crypto/jcs.py:168-172 | Joins what the encoder appended: the canonical text, or a refusal |
| `HashChain.VerifyLinks` | src/insurance/services/audit.py:82-98 | The loop accepts exactly the unbroken chains and names the first broken link and how it is broken |
| `HashChain.LastHashPinsLinks` | src/insurance/services/audit.py:36-38 | Under an injective hash the last hash and the length pin every link |
| `HashChain.LastHashPinsLength` | src/insurance/services/audit.py:36-38 | When no text hashes to the genesis value the last hash pins the length too |
| `AuditChain.AuditLog.Record` | src/insurance/services/audit.py:41-71 | Appends exactly one chained event, or refuses and changes nothing |
| `AuditChain.AuditLog.VerifyChain` | src/insurance/services/audit.py:82-98 | Accepts exactly the unbroken chains, else names the first bad row, or raises at a payload with no canonical text that it meets before any break |
| `AuditChain.RecordedHistoryVerifies` | src/insurance/services/audit.py:41-98 | Every history of record calls is accepted, however the JSONB column reorders payload members |
| `AuditChain.LastHashPinsHistory` | src/insurance/services/audit.py:82-98 | Two accepted chains of one length with one last hash are the same event by event, so no earlier change that keeps the last hash is accepted |
| `AuditChain.LastHashPinsWholeHistory` | src/insurance/services/audit.py:82-98 | With no text hashing to the genesis value truncation and extension are caught as well |
| `AuditChain.EventTextPins` | src/insurance/services/audit.py:36-38 | The hashed text determines type, payload value and time, and the reverse |
| `AuditChain.RecordNeverCollides` | src/insurance/services/audit.py:41-71 | Under the same assumptions the unique hash constraint never refuses an event |
| `Jws.JwsVerifyIff` | src/insurance/crypto/eddsa.py:173-207 | jws_verify returns a payload exactly when it is the expected one and the text is three segments: the header of a listed legal key and of EdDSA alone, the payload, and a signature of the first two segments that checks under that key |
| `Jws.AcceptedWasSigned` | src/insurance/crypto/eddsa.py:173-207 | When signatures cannot be forged, what is accepted carries the signature the named listed key makes of its first two segments |
| `Jws.KidMatchesIff` | src/insurance/crypto/eddsa.py:50 | A key id is legal exactly when it is 1 to 256 of the letters, digits, dot, underscore and hyphen, one newline after them allowed |
| `Jws.VerifyAcceptsSigned` | src/insurance/crypto/eddsa.py:166-207 | What a listed key signs verifies against the payload it signed |
| `Jws.VerifiedPayloadUnique` | src/insurance/crypto/eddsa.py:198-207 | One signature text verifies against at most one payload, under any directories |
| `Envelope.BuiltAndSignedVerifies` | src/insurance/events/envelope.py:50-154 | Every known-type envelope that build_envelope then sign_envelope produce, with a matching type and a listed key, is accepted by verify_envelope |
| `Envelope.VerifyEnvelopeIff` | src/insurance/events/envelope.py:110-154 | verify_envelope returns a resource exactly when the envelope is version 1.0 of the expected type, a FHIR message Bundle of one entry holding that resource, which names its known type, and its signature checks, under a listed key, on the canonical text of everything but the signature |
| `Envelope.AcceptedEnvelopeWasSigned` | src/insurance/events/envelope.py:145-154 | When signatures cannot be forged, an accepted envelope carries a listed key's own signature of that text |
| `Envelope.SignedEnvelopeVerifies` | src/insurance/events/envelope.py:97-154 | Every signed envelope that passes the structural checks is accepted under its key |
| `Envelope.SigningIsReversible` | src/insurance/events/envelope.py:97-107 | Stripping the signature of a signed envelope gives the unsigned form of the original |
| `Envelope.ResigningIgnoresSignature` | src/insurance/events/envelope.py:97-107 | Re-signing ignores whatever signature is there |
| `Envelope.SignaturePinsContent` | src/insurance/events/envelope.py:145-154 | One signature text is accepted on at most one unsigned content, up to JSON equality |
| `Envelope.BuiltEnvelopePasses` | src/insurance/events/envelope.py:50-94 | A built envelope of a known type whose resource has no or a matching @type passes the structural checks and gives back the typed resource |
| `Envelope.BuiltEnvelopeFields` | src/insurance/events/envelope.py:73-94 | Version, identifiers, event type, time, producer, classification, and in the provenance principal, role, an empty hash and an empty signature, each stand under their own key in a built envelope |
| `Rating.RateQuote` | src/insurance/domain/rating.py:44-145 | The pass over the lines succeeds exactly when the table is well formed and every line can be rated, and then yields the one rating; otherwise it reports the first failing check or line |
| `Rating.RatingFollowsTable` | src/insurance/domain/rating.py:74-145 | A trace is the rating of its lines exactly when each figure is what the table's fields make it: the class's own base rate or the default, the class's own loading or 0, the evidence capped by the table or 10000, the half-up premium of the three added, the table's fee or 0 |
| `Rating.RateQuoteSucceedsIff` | src/insurance/domain/rating.py:74-145 | A quote can be rated exactly when some trace follows from the table in that sense |
| `Rating.RatingIsUnique` | src/insurance/domain/rating.py:44-145 | A table, lines and route risk have at most one rating |
| `Rating.BpMulRounds` | src/insurance/domain/rating.py:28-35 | bp_mul is within half a unit of the exact product, ties up |
| `Rating.RatedLineBounds` | src/insurance/domain/rating.py:89-127 | Every rated line has a total rate of 0 to 10000 basis points and a premium of 0 to its value |
| `Rating.SubtotalRounding` | src/insurance/domain/rating.py:89-145 | 10000 times the subtotal differs from the exact sum of value times rate by at most 5000 a line |
| `Rating.PremiumIgnoresLineOrder` | src/insurance/domain/rating.py:89-145 | Permuting the lines leaves the premium unchanged |
| `Rating.CorridorRouteRisk` | src/insurance/services/lifecycle.py:190-205 | Adds up the evidence of the corridor, 0 for none |
| `Rating.MoreEvidenceNeverCheaper` | src/insurance/services/lifecycle.py:190-205 | Ingesting more corridor evidence never lowers the premium while rating still succeeds |
| `RateTables.RateBook.AddRateTable` | src/insurance/services/lifecycle.py:113-156 | Inserts the window, or refuses a malformed, overlapping or empty one and changes nothing |
| `RateTables.EffectiveRateTable` | src/insurance/services/lifecycle.py:159-170 | Finds a table covering the date, in separated windows always the one that started last, and fails exactly when none covers it |
| `RateTables.BookDisjoint` | src/insurance/services/lifecycle.py:132-150 | Every sequence of accepted inserts keeps one product's windows pairwise disjoint |
| `RateTables.CoveringTableUnique` | src/insurance/services/lifecycle.py:159-170 | So at most one table covers a date, despite inclusive ends at insert and exclusive ends at lookup |
| `RateTables.LookUpInBook` | src/insurance/services/lifecycle.py:113-170 | After any inserts a lookup returns the unique covering table, or fails exactly when there is none |
| `RateTables.OverlapIff` | src/insurance/services/lifecycle.py:132-150 | The insertion test meets two legal windows exactly when they share a date or one begins on the day the other ends, and never both |
| `RateTables.RefusedNeedlesslyIff` | src/insurance/services/lifecycle.py:132-150 | After any calls a legal window is refused for overlap although no date would be covered twice exactly when it only abuts existing tables |
| `RateTables.AdjacentWindowsRefused` | src/insurance/services/lifecycle.py:132-150 | A concrete such input: a window that begins on the day the only other one ends |

## Left out

- Rows refer to one another by position, which is their insertion order, instead of by UUID; object identity in the ORM session is not modelled.
- Clock readings, generated references and event ids are parameters; the year of an inception timestamp is a parameter beside it.
- Columns nothing depends on: narrations, descriptions, assured names, corridors and other free text, and who reported, issued or uploaded.
- Snapshots are kept as their raw bytes; gzip, base64 and the signed credential around them are inverse pairs the model leaves out. The newest snapshot is the last one: equal snapshot timestamps are excluded.
- Idempotency keys and their unique indexes, products and their activation, credential documents, ISR ingestion and the rows and publishing of the event outbox: existence checks and straight-line code.
- The partner gateway, Kafka, OIDC, PBAC, settings, telemetry, request schemas and HTTP mapping.
- The audit rows that calls write are a log of their own, not part of the database of the state machine: a call is refused when its event has no canonical text, and with an injective hash that never meets the genesis value the log's unique constraint refuses nothing (`AuditChain.RecordNeverCollides`).
- AuditChain.RecordedHistoryVerifies: the JSON column is assumed to give payloads back as the same JSON values, members perhaps in another order; it can turn a float of 2^53 or more into an integer, on which `verify_chain` raises, as `AuditChain.AuditLog.VerifyChain` says.
- The `unknown-family` and `bad-decision` refusals: product kinds are a closed type here, as `ck_product_kind` makes them, and so are the two decisions.
- Currencies other than the literal comparison with `NGN`, and column widths of text, are not constrained.
- Hashing, base64url, JSON reading and Ed25519 are parameters with the laws they are relied on for.
- Text stands for its UTF-8 bytes, which determine it; lone surrogates are excluded, and so is non-ASCII case folding in `.upper()`.
- Doubles start from the text of `repr`; which decimal is the shortest that round-trips is Python's business.
- A policy number with non-ASCII digits passes the regular expression's `\d` in Python and then fails the check-digit alphabet; here it fails the pattern. Both refuse it.
- Alphabets are arithmetic on characters; `Serials.SymbolsSpellAlphabet` and `Base58.SymbolsSpellAlphabet` prove that they spell the literal ones.
- Sweep.SweepOutcome: one sweep at a time; SKIP LOCKED between concurrent sweeps is not modelled.
- BindSchedules.EveryScheduleIsSerial: transactions of the three calls on any quotes; endorsements, receipts and claims do not run beside them, and the write of EXPIRED by a refused request, which waits on the row and is rolled back, is one step with its refusal.
- FnolConcurrency.CapHoldsAlways: filings, rejections and cancellations on any policies; a cancellation publishes its status-list bit in its commit step, and the audit log's lock, which every call takes last and which only delays, is left out here.
- `attach_document`, `record_payout_receipt` and the flag writers read and write without a row lock; they are whole-transaction steps throughout.
