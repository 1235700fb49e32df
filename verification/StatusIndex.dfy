/**
 * In every reachable database the newest status lists are an index of the policies' statuses
 * (section 3 of W3C Bitstring Status List v1.0).
 */
module StatusIndex {
  import opened Wrappers
  import opened Records
  import opened Bitstrings
  import opened StatusLists
  import Lifecycle
  import opened Machine
  import opened Effects
  import opened Frames
  import Policies = PolicyInvariants

  predicate Revoked(status: PolicyStatus) { status == Cancelled || status == Lapsed }

  /** Whether a status sets the bit of a list. */
  predicate Flags(purpose: Purpose, status: PolicyStatus) {
    match purpose
    case Revocation => Revoked(status)
    case Suspension => status == Suspended
  }

  /** The bit of the policy at each index, and of no policy at the others. */
  predicate IndexedBits(bytes: seq<bv8>, purpose: Purpose, policies: seq<Policy>) {
    && |bytes| == DEFAULT_SIZE_BITS / 8
    && forall i :: 0 <= i < 8 * |bytes| ==> GetBit(bytes, i) == (i < |policies| && Flags(purpose, policies[i].status))
  }

  predicate Holds(snapshots: seq<Snapshot>, policies: seq<Policy>) {
    && IndexedBits(CurrentList(snapshots, Revocation), Revocation, policies)
    && IndexedBits(CurrentList(snapshots, Suspension), Suspension, policies)
  }

  predicate Placed(policies: seq<Policy>) {
    |policies| <= DEFAULT_SIZE_BITS && forall i :: 0 <= i < |policies| ==> policies[i].statusIndex == i
  }

  lemma CurrentAfter(snapshots: seq<Snapshot>, s: Snapshot, purpose: Purpose)
    ensures CurrentList(snapshots + [s], purpose) == if s.purpose == purpose then s.bytes
            else CurrentList(snapshots, purpose)
  {
    assert (snapshots + [s])[..|snapshots|] == snapshots;
  }

  lemma BitsFollow(bytes: seq<bv8>, purpose: Purpose, policies: seq<Policy>, p: nat, to: PolicyStatus, bit: bool)
    requires IndexedBits(bytes, purpose, policies) && p < |policies| <= DEFAULT_SIZE_BITS && Flags(purpose, to) == bit
    ensures IndexedBits(SetBit(bytes, p, bit), purpose, policies[p := policies[p].(status := to)])
  {
    SetBitSetsOneBit(bytes, p, bit);
    var after := SetBit(bytes, p, bit);
    forall i | 0 <= i < 8 * |after| ensures GetBit(after, i) == if i == p then bit else GetBit(bytes, i) {
      assert Bits(after)[i] == Bits(bytes)[p := bit][i];
    }
  }

  lemma BitsStay(bytes: seq<bv8>, purpose: Purpose, policies: seq<Policy>, p: nat, to: PolicyStatus)
    requires IndexedBits(bytes, purpose, policies) && p < |policies|
             && Flags(purpose, to) == Flags(purpose, policies[p].status)
    ensures IndexedBits(bytes, purpose, policies[p := policies[p].(status := to)])
  {
  }

  /** Publishing the list of one purpose with one bit changed, and nothing of the other. */
  lemma BothFollow(snapshots: seq<Snapshot>, policies: seq<Policy>, p: nat, to: PolicyStatus, purpose: Purpose,
                   bit: bool)
    requires Holds(snapshots, policies) && p < |policies| <= DEFAULT_SIZE_BITS && Flags(purpose, to) == bit
    requires forall other :: other != purpose ==> Flags(other, policies[p].status) == Flags(other, to)
    ensures Holds(snapshots + [Snapshot(purpose, SetBit(CurrentList(snapshots, purpose), p, bit))],
                  policies[p := policies[p].(status := to)])
  {
    var s := Snapshot(purpose, SetBit(CurrentList(snapshots, purpose), p, bit));
    CurrentAfter(snapshots, s, Revocation);
    CurrentAfter(snapshots, s, Suspension);
    BitsFollow(CurrentList(snapshots, purpose), purpose, policies, p, to, bit);
    var other := if purpose == Revocation then Suspension else Revocation;
    BitsStay(CurrentList(snapshots, other), other, policies, p, to);
  }

  /** A status change that flips the flag of one list only keeps both lists in step. */
  lemma MoveKeeps(db: Database, p: nat, from: PolicyStatus, to: PolicyStatus, purpose: Purpose, bit: bool,
                  after: Database)
    requires Holds(db.snapshots, db.policies) && Placed(db.policies)
    requires p < |db.policies| && Lifecycle.MoveStatus(db, p, from, to, purpose, bit) == Ok(after)
    requires Flags(purpose, to) == bit
    requires forall other :: other != purpose ==> Flags(other, from) == Flags(other, to)
    ensures Holds(after.snapshots, after.policies) && Placed(after.policies)
  {
    BothFollow(db.snapshots, db.policies, p, to, purpose, bit);
  }

  lemma {:induction false} SweepKeeps(db: Database, picked: seq<nat>, after: Database)
    requires Holds(db.snapshots, db.policies) && Placed(db.policies)
    requires Lifecycle.InRange(picked, |db.policies|) && Lifecycle.LapseSweep(db, picked) == Ok(after)
    ensures Holds(after.snapshots, after.policies) && Placed(after.policies)
    decreases |picked|
  {
    if picked != [] {
      var before := Lifecycle.LapseSweep(db, picked[..|picked| - 1]).value;
      SweepKeeps(db, picked[..|picked| - 1], before);
      MoveKeeps(before, picked[|picked| - 1], Active, Lapsed, Revocation, true, after);
    }
  }

  lemma StatusOpKeeps(db: Database, op: Op)
    requires Holds(db.snapshots, db.policies) && Placed(db.policies) && StatusOp(op) && Apply(db, op).Ok?
    ensures Holds(Step(db, op).snapshots, Step(db, op).policies)
  {
    match op
    case CancelOrLapse(p, newStatus) => MoveKeeps(db, p, Active, newStatus, Revocation, true, Step(db, op));
    case SuspendPolicy(p) => MoveKeeps(db, p, Active, Suspended, Suspension, true, Step(db, op));
    case ReinstatePolicy(p) => MoveKeeps(db, p, Suspended, Active, Suspension, false, Step(db, op));
    case LapseSweep(_, _, picked) => SweepKeeps(db, picked, Step(db, op));
    case _ =>
  }

  // ------------------------------------------------------------------------- other operations

  predicate StatusesKept(a: seq<Policy>, b: seq<Policy>) {
    |a| == |b| && forall i :: 0 <= i < |a| ==> a[i].status == b[i].status
  }

  lemma OtherOpKeepsStatuses(db: Database, op: Op)
    requires !StatusOp(op) && !op.IssuePolicy?
    ensures StatusesKept(db.policies, Step(db, op).policies)
  {
    if Apply(db, op).Ok? {
      if op.ApproveEndorsement? { ApproveEndorsementEffect(db, op.p, op.no, op.principal); }
      else if op.RecordPremiumReceipt? {
        PremiumReceiptEffect(db, op.external, op.number, op.amount, op.currency, op.now);
      }
      else if op.AddEndorsement? || op.RejectEndorsement? { EndorsementFrame(db, op); }
      else if QuoteOp(op) { QuoteFrame(db, op); }
      else if ClaimOp(op) { ClaimFrame(db, op); }
      else { ReceiptFrame(db, op); }
    }
  }

  lemma SameStatusesSameBits(bytes: seq<bv8>, purpose: Purpose, a: seq<Policy>, b: seq<Policy>)
    requires IndexedBits(bytes, purpose, a) && StatusesKept(a, b)
    ensures IndexedBits(bytes, purpose, b)
  {
  }

  lemma NewPolicyHasNoFlag(bytes: seq<bv8>, purpose: Purpose, policies: seq<Policy>, policy: Policy)
    requires IndexedBits(bytes, purpose, policies) && policy.status == Active
    ensures IndexedBits(bytes, purpose, policies + [policy])
  {
  }

  lemma IssueKeeps(db: Database, op: Op)
    requires Holds(db.snapshots, db.policies) && op.IssuePolicy? && Apply(db, op).Ok?
    ensures Holds(Step(db, op).snapshots, Step(db, op).policies)
  {
    Policies.IssuePolicyEffect(db, op);
    var policy := Step(db, op).policies[|db.policies|];
    NewPolicyHasNoFlag(CurrentList(db.snapshots, Revocation), Revocation, db.policies, policy);
    NewPolicyHasNoFlag(CurrentList(db.snapshots, Suspension), Suspension, db.policies, policy);
  }

  lemma StepKeeps(db: Database, op: Op)
    requires Holds(db.snapshots, db.policies) && Placed(db.policies)
    ensures Holds(Step(db, op).snapshots, Step(db, op).policies)
  {
    if Apply(db, op).Ok? {
      if StatusOp(op) { StatusOpKeeps(db, op); }
      else if op.IssuePolicy? { IssueKeeps(db, op); }
      else {
        TablesUntouched(db, op);
        OtherOpKeepsStatuses(db, op);
        SameStatusesSameBits(CurrentList(db.snapshots, Revocation), Revocation, db.policies, Step(db, op).policies);
        SameStatusesSameBits(CurrentList(db.snapshots, Suspension), Suspension, db.policies, Step(db, op).policies);
      }
    }
  }

  lemma NoBitsAtFirst()
    ensures Holds([], [])
  {
    forall i: nat | i < DEFAULT_SIZE_BITS ensures !GetBit(ZeroBytes(DEFAULT_SIZE_BITS / 8), i) {
      ZeroBits(DEFAULT_SIZE_BITS / 8, i);
    }
  }
}
