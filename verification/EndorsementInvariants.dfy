/** Endorsements in every reachable database: their numbering and dual-control history. */
module EndorsementInvariants {
  import opened Records
  import Lifecycle
  import opened Machine
  import opened Effects
  import opened Frames
  import Policies = PolicyInvariants

  /** A decided premium change was decided by someone else, and an approved one has its own journal. */
  predicate HistoryOk(e: Endorsement, number: string) {
    && Auditable(e.delta) && FitsInteger(e.no) && (e.status == Proposed || e.status == Rejected ==> e.delta != 0)
    && (e.status != Proposed && e.delta != 0 ==> e.approvedBy != e.createdBy)
    && e.journal == if e.status == Approved && e.delta != 0 then Lifecycle.EndorsementRef(number, e.no) else ""
  }

  predicate EndorsementOk(policies: seq<Policy>, e: Endorsement) {
    e.policy < |policies| && HistoryOk(e, policies[e.policy].number)
  }

  predicate EndorsementsOk(policies: seq<Policy>, endorsements: seq<Endorsement>) {
    forall i :: 0 <= i < |endorsements| ==> EndorsementOk(policies, endorsements[i])
  }

  predicate SameKey(a: Endorsement, b: Endorsement) { a.policy == b.policy && a.no == b.no }

  predicate KeysDistinct(endorsements: seq<Endorsement>) {
    forall i, j :: 0 <= i < j < |endorsements| ==> !SameKey(endorsements[i], endorsements[j])
  }

  /** How many endorsements a policy has. */
  function CountOn(endorsements: seq<Endorsement>, p: nat): nat {
    if endorsements == [] then 0
    else
      var last := if endorsements[|endorsements| - 1].policy == p then 1 else 0;
      CountOn(endorsements[..|endorsements| - 1], p) + last
  }

  predicate NumberFits(endorsements: seq<Endorsement>, k: nat)
    requires k < |endorsements|
  {
    endorsements[k].no == CountOn(endorsements[..k], endorsements[k].policy) + 1
  }

  /** Each policy's endorsements are numbered 1, 2, 3, ... in the order they were added. */
  predicate Numbered(endorsements: seq<Endorsement>) {
    forall k :: 0 <= k < |endorsements| ==> NumberFits(endorsements, k)
  }

  predicate Holds(db: Database) {
    EndorsementsOk(db.policies, db.endorsements) && KeysDistinct(db.endorsements) && Numbered(db.endorsements)
  }

  lemma NumberedPrefix(endorsements: seq<Endorsement>, n: nat)
    requires Numbered(endorsements) && n <= |endorsements|
    ensures Numbered(endorsements[..n])
  {
    forall k | 0 <= k < n ensures NumberFits(endorsements[..n], k) {
      assert NumberFits(endorsements, k) && endorsements[..n][..k] == endorsements[..k];
    }
  }

  lemma {:induction false} MaxNoIsCount(endorsements: seq<Endorsement>, p: nat)
    requires Numbered(endorsements)
    ensures Lifecycle.MaxNo(endorsements, p) == CountOn(endorsements, p)
    decreases |endorsements|
  {
    if endorsements != [] {
      NumberedPrefix(endorsements, |endorsements| - 1);
      MaxNoIsCount(endorsements[..|endorsements| - 1], p);
      assert NumberFits(endorsements, |endorsements| - 1);
    }
  }

  lemma NumberAdded(endorsements: seq<Endorsement>, e: Endorsement)
    requires Numbered(endorsements) && e.no == Lifecycle.MaxNo(endorsements, e.policy) + 1
    ensures Numbered(endorsements + [e])
  {
    MaxNoIsCount(endorsements, e.policy);
    var after := endorsements + [e];
    forall k | 0 <= k < |after| ensures NumberFits(after, k) {
      assert after[..k] == endorsements[..k];
      assert k < |endorsements| ==> NumberFits(endorsements, k);
      assert k == |endorsements| ==> after[..k] == endorsements;
    }
  }

  lemma {:induction false} CountUnmoved(endorsements: seq<Endorsement>, k: nat, e: Endorsement, p: nat)
    requires k < |endorsements| && e.policy == endorsements[k].policy
    ensures CountOn(endorsements[k := e], p) == CountOn(endorsements, p)
    decreases |endorsements|
  {
    var init := endorsements[..|endorsements| - 1];
    if k < |init| {
      assert endorsements[k := e][..|endorsements| - 1] == init[k := e];
      CountUnmoved(init, k, e, p);
    } else {
      assert endorsements[k := e][..|endorsements| - 1] == init;
    }
  }

  lemma NumberKept(endorsements: seq<Endorsement>, k: nat, e: Endorsement)
    requires Numbered(endorsements) && k < |endorsements| && SameKey(endorsements[k], e)
    ensures Numbered(endorsements[k := e])
  {
    var after := endorsements[k := e];
    forall i | 0 <= i < |after| ensures NumberFits(after, i) {
      assert NumberFits(endorsements, i);
      if k < i {
        assert after[..i] == endorsements[..i][k := e];
        CountUnmoved(endorsements[..i], k, e, after[i].policy);
      } else {
        assert after[..i] == endorsements[..i];
      }
    }
  }

  lemma {:induction false} MaxNoBounds(endorsements: seq<Endorsement>, p: nat, i: nat)
    requires i < |endorsements| && endorsements[i].policy == p
    ensures endorsements[i].no <= Lifecycle.MaxNo(endorsements, p)
    decreases |endorsements|
  {
    if i < |endorsements| - 1 { MaxNoBounds(endorsements[..|endorsements| - 1], p, i); }
  }

  lemma KeyAdded(endorsements: seq<Endorsement>, e: Endorsement)
    requires KeysDistinct(endorsements) && e.no == Lifecycle.MaxNo(endorsements, e.policy) + 1
    ensures KeysDistinct(endorsements + [e])
  {
    forall i | 0 <= i < |endorsements| ensures !SameKey(endorsements[i], e) {
      if endorsements[i].policy == e.policy { MaxNoBounds(endorsements, e.policy, i); }
    }
  }

  lemma KeyKept(endorsements: seq<Endorsement>, k: nat, e: Endorsement)
    requires KeysDistinct(endorsements) && k < |endorsements| && SameKey(endorsements[k], e)
    ensures KeysDistinct(endorsements[k := e])
  {
    var after := endorsements[k := e];
    forall i, j | 0 <= i < j < |after| ensures !SameKey(after[i], after[j]) {
      assert !SameKey(endorsements[i], endorsements[j]);
    }
  }

  lemma EndorsementsStay(a: seq<Policy>, b: seq<Policy>, endorsements: seq<Endorsement>)
    requires EndorsementsOk(a, endorsements) && |a| <= |b| && Policies.IdentitiesKept(a, b[..|a|])
    ensures EndorsementsOk(b, endorsements)
  {
    forall i | 0 <= i < |endorsements| ensures EndorsementOk(b, endorsements[i]) {
      assert EndorsementOk(a, endorsements[i]);
      assert Policies.SameIdentity(a[endorsements[i].policy], b[..|a|][endorsements[i].policy]);
    }
  }

  /** Policies keep their identity under every operation; issuing only adds one. */
  lemma IdentitiesStay(db: Database, op: Op)
    ensures |db.policies| <= |Step(db, op).policies|
    ensures Policies.IdentitiesKept(db.policies, Step(db, op).policies[..|db.policies|])
  {
    var after := Step(db, op).policies;
    if !op.IssuePolicy? {
      Policies.OtherOpFrame(db, op);
      assert after[..|db.policies|] == after;
    } else if Apply(db, op).Ok? {
      Policies.IssuePolicyEffect(db, op);
      assert after[..|db.policies|] == db.policies;
    } else {
      assert after[..|db.policies|] == after;
    }
  }

  lemma AddKeeps(db: Database, op: Op)
    requires Holds(db) && op.AddEndorsement? && Apply(db, op).Ok?
    ensures Holds(Step(db, op))
  {
    KeyAdded(db.endorsements, Step(db, op).endorsements[|db.endorsements|]);
    NumberAdded(db.endorsements, Step(db, op).endorsements[|db.endorsements|]);
  }

  lemma ReplacedStaysOk(policies: seq<Policy>, endorsements: seq<Endorsement>, k: nat, e: Endorsement)
    requires EndorsementsOk(policies, endorsements) && k < |endorsements| && EndorsementOk(policies, e)
    requires KeysDistinct(endorsements) && Numbered(endorsements) && SameKey(endorsements[k], e)
    ensures EndorsementsOk(policies, endorsements[k := e]) && KeysDistinct(endorsements[k := e])
    ensures Numbered(endorsements[k := e])
  {
    KeyKept(endorsements, k, e);
    NumberKept(endorsements, k, e);
  }

  lemma ApproveKeeps(db: Database, op: Op)
    requires Holds(db) && op.ApproveEndorsement? && Apply(db, op).Ok?
    ensures Holds(Step(db, op))
  {
    ApproveEndorsementEffect(db, op.p, op.no, op.principal);
    var k := Lifecycle.FindEndorsement(db.endorsements, op.p, op.no).value;
    var e := ApprovedEndorsement(db.policies[op.p], db.endorsements[k], op.principal);
    assert EndorsementOk(db.policies, db.endorsements[k]);
    ReplacedStaysOk(db.policies, db.endorsements, k, e);
    IdentitiesStay(db, op);
    EndorsementsStay(db.policies, Step(db, op).policies, db.endorsements[k := e]);
  }

  lemma RejectKeeps(db: Database, op: Op)
    requires Holds(db) && op.RejectEndorsement? && Apply(db, op).Ok?
    ensures Holds(Step(db, op))
  {
    var k := Lifecycle.FindEndorsement(db.endorsements, op.p, op.no).value;
    assert EndorsementOk(db.policies, db.endorsements[k]);
    ReplacedStaysOk(db.policies, db.endorsements, k,
                    db.endorsements[k].(status := Rejected, approvedBy := op.principal));
  }

  lemma StepKeeps(db: Database, op: Op)
    requires Holds(db)
    ensures Holds(Step(db, op))
  {
    if !EndorsementOp(op) {
      TablesUntouched(db, op);
      IdentitiesStay(db, op);
      EndorsementsStay(db.policies, Step(db, op).policies, db.endorsements);
    } else if Apply(db, op).Ok? {
      if op.AddEndorsement? { AddKeeps(db, op); }
      else if op.ApproveEndorsement? { ApproveKeeps(db, op); }
      else { RejectKeeps(db, op); }
    }
  }
}
