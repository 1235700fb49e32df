/** Status-list snapshots and index allocation (src/insurance/services/statuslists.py). */
module StatusLists {
  import opened Wrappers
  import opened Records
  import opened Bitstrings

  /** The newest list of a purpose; an empty list before the first snapshot. */
  function CurrentList(snapshots: seq<Snapshot>, purpose: Purpose): seq<bv8> {
    if snapshots == [] then ZeroBytes(DEFAULT_SIZE_BITS / 8)
    else if snapshots[|snapshots| - 1].purpose == purpose then snapshots[|snapshots| - 1].bytes
    else CurrentList(snapshots[..|snapshots| - 1], purpose)
  }

  /** The current list is the last one published for its purpose; before that no bit is set. */
  lemma {:induction false} CurrentIsNewest(snapshots: seq<Snapshot>, purpose: Purpose)
    ensures forall k :: 0 <= k < |snapshots| && snapshots[k].purpose == purpose
                        && (forall j :: k < j < |snapshots| ==> snapshots[j].purpose != purpose)
              ==> CurrentList(snapshots, purpose) == snapshots[k].bytes
    ensures (forall k :: 0 <= k < |snapshots| ==> snapshots[k].purpose != purpose)
              ==> CurrentList(snapshots, purpose) == ZeroBytes(DEFAULT_SIZE_BITS / 8)
    decreases |snapshots|
  {
    if snapshots != [] { CurrentIsNewest(snapshots[..|snapshots| - 1], purpose); }
  }

  /** set_flag and clear_flag: publishes the newest list with one bit changed. */
  function Flagged(snapshots: seq<Snapshot>, purpose: Purpose, index: nat, value: bool): Result<seq<Snapshot>> {
    var bytes := CurrentList(snapshots, purpose);
    if |bytes| != DEFAULT_SIZE_BITS / 8 then Err(InvalidSize)
    else if index >= DEFAULT_SIZE_BITS then Err(IndexOutOfRange)
    else Ok(snapshots + [Snapshot(purpose, SetBit(bytes, index, value))])
  }

  method WriteFlag(snapshots: seq<Snapshot>, purpose: Purpose, index: nat, value: bool)
    returns (r: Result<seq<Snapshot>>)
    ensures r == Flagged(snapshots, purpose, index, value)
  {
    var created := StatusList.Create(DEFAULT_SIZE_BITS, Some(CurrentList(snapshots, purpose)));
    if created.Err? { return Err(InvalidSize); }
    var statusList := created.value;
    var done := statusList.Set(index, value);
    if done.Err? { return Err(IndexOutOfRange); }
    var bytes := statusList.RawBytes();
    return Ok(snapshots + [Snapshot(purpose, bytes)]);
  }

  function MaxIndex(policies: seq<Policy>): int {
    if policies == [] then -1
    else
      var rest := MaxIndex(policies[..|policies| - 1]);
      var last := policies[|policies| - 1].statusIndex;
      if last > rest then last else rest
  }

  /** allocate_index: one more than the largest index in use. */
  function AllocatedIndex(policies: seq<Policy>): Result<nat> {
    if MaxIndex(policies) + 1 >= DEFAULT_SIZE_BITS then Err(StatusListExhausted)
    else if MaxIndex(policies) < 0 then Ok(0)
    else Ok(MaxIndex(policies) + 1)
  }
}
