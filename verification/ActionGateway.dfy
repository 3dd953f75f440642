/** The action gateway's durable record: one hash-linked list of receipts per action id. */
module ActionGateway {
  import opened Options
  import opened ApprovalInbox

  datatype Receipt = Receipt(
    receiptId: Id, actionId: Id, actionHash: Digest, status: ReceiptStatus, timestamp: int,
    proof: Option<string>, failure: Option<Failure>, previous: Digest, hash: Digest)

  /** `proof` above stands for provider request id and result, which always come together. */
  datatype Record = Record(env: Envelope, approval: Artifact, receipts: seq<Receipt>)

  const MAX_RECEIPTS := 20

  function PreviousHash(rec: Record): Digest {
    if rec.receipts == [] then ReceiptGenesis(ActionDigest(rec.env)) else rec.receipts[|rec.receipts| - 1].hash
  }

  function CreateReceipt(rec: Record, status: ReceiptStatus, now: int, receiptId: Id,
                         proof: Option<string>, failure: Option<Failure>): Receipt {
    var previous := PreviousHash(rec);
    Receipt(receiptId, rec.env.actionId, ActionDigest(rec.env), status, now, proof, failure, previous,
            ReceiptDigest(receiptId, ActionDigest(rec.env), status, now, proof, failure, previous))
  }

  /** `createReceipt` followed by `appendReceipt`; the latter refuses a full record. */
  function Appended(rec: Record, status: ReceiptStatus, now: int, receiptId: Id,
                    proof: Option<string>, failure: Option<Failure>): Option<Record> {
    if |rec.receipts| >= MAX_RECEIPTS then None
    else Some(rec.(receipts := rec.receipts + [CreateReceipt(rec, status, now, receiptId, proof, failure)]))
  }

  /** `findLatestReceipt` */
  function Latest(rs: seq<Receipt>, status: ReceiptStatus): (r: Option<Receipt>)
    ensures r.Some? ==> r.value in rs && r.value.status == status
    ensures r.None? ==> forall k :: 0 <= k < |rs| ==> rs[k].status != status
  {
    if rs == [] then None
    else if rs[|rs| - 1].status == status then Some(rs[|rs| - 1])
    else Latest(rs[..|rs| - 1], status)
  }

  method FindLatestReceipt(rs: seq<Receipt>, status: ReceiptStatus) returns (found: Option<Receipt>)
    ensures found == Latest(rs, status)
  {
    assert rs[..|rs|] == rs;
    var index := |rs| - 1;
    while index >= 0
      invariant -1 <= index < |rs|
      invariant Latest(rs, status) == Latest(rs[..index + 1], status)
    {
      assert rs[..index + 1][..index] == rs[..index];
      if rs[index].status == status { return Some(rs[index]); }
      index := index - 1;
    }
    return None;
  }

  /** `verifyApproval` */
  predicate ApprovalFits(env: Envelope, a: Artifact, now: int, enforceExpiry: bool) {
    && a.actionHash == ActionDigest(env)
    && a.approvedBy != env.actorId && a.approvedBy != env.workloadId
    && (enforceExpiry ==> a.approvedAt <= now < a.expiresAt)
  }

  /** `validateStoredAction`: linkage and classification of every receipt. */
  predicate ReceiptOk(rec: Record, k: nat)
    requires k < |rec.receipts|
  {
    var r := rec.receipts[k];
    && r.actionId == rec.env.actionId && r.actionHash == ActionDigest(rec.env)
    && r.previous == (if k == 0 then ReceiptGenesis(ActionDigest(rec.env)) else rec.receipts[k - 1].hash)
    && r.hash == ReceiptDigest(r.receiptId, r.actionHash, r.status, r.timestamp, r.proof, r.failure, r.previous)
    && (r.status == Committed || r.status == Verified ==> r.proof.Some?)
    && (r.status == Failed ==> r.failure.Some?)
  }

  predicate RecordOk(rec: Record) {
    && ApprovalFits(rec.env, rec.approval, 0, false)
    && 1 <= |rec.receipts| <= MAX_RECEIPTS
    && rec.receipts[0].status == Requested
    && forall k :: 0 <= k < |rec.receipts| ==> ReceiptOk(rec, k)
  }

  function Statuses(rec: Record): (s: seq<ReceiptStatus>)
    ensures |s| == |rec.receipts|
  {
    seq(|rec.receipts|, k requires 0 <= k < |rec.receipts| => rec.receipts[k].status)
  }

  /** The eight receipt histories the gateway can leave behind. */
  predicate Shaped(rec: Record) {
    var s := Statuses(rec);
    || s == [Requested]
    || s == [Requested, Attempted]
    || s == [Requested, Attempted, Failed]
    || s == [Requested, Attempted, Committed]
    || s == [Requested, Attempted, Committed, Verified]
    || s == [Requested, Attempted, Committed, Failed]
    || s == [Requested, Attempted, Committed, Failed, Verified]
    || s == [Requested, Attempted, Failed, Committed, Verified]
  }

  /** Ends in a verified receipt: the record is closed. */
  predicate Closed(rec: Record) {
    rec.receipts != [] && rec.receipts[|rec.receipts| - 1].status == Verified
  }

  function Last(rec: Record): Receipt
    requires rec.receipts != []
  {
    rec.receipts[|rec.receipts| - 1]
  }

  lemma AppendedOk(rec: Record, status: ReceiptStatus, now: int, receiptId: Id, proof: Option<string>, failure: Option<Failure>)
    requires RecordOk(rec) && |rec.receipts| < MAX_RECEIPTS
    requires status == Committed || status == Verified ==> proof.Some?
    requires status == Failed ==> failure.Some?
    ensures var rec' := Appended(rec, status, now, receiptId, proof, failure);
      rec'.Some? && RecordOk(rec'.value) && Statuses(rec'.value) == Statuses(rec) + [status]
  {
    var rec' := Appended(rec, status, now, receiptId, proof, failure).value;
    forall k | 0 <= k < |rec'.receipts| ensures ReceiptOk(rec', k) {
      if k < |rec.receipts| { assert ReceiptOk(rec, k); }
    }
  }

  /** What the receipts say, read off the shape. */
  lemma ShapeTells(rec: Record)
    requires Shaped(rec)
    ensures 1 <= |rec.receipts| <= 5
    ensures Latest(rec.receipts, Verified).Some? <==> Closed(rec)
    ensures Closed(rec) ==> Latest(rec.receipts, Verified) == Some(Last(rec))
    ensures Latest(rec.receipts, Attempted).Some? <==> |rec.receipts| >= 2
    ensures Latest(rec.receipts, Attempted).None? ==> Statuses(rec) == [Requested]
    ensures Latest(rec.receipts, Committed).Some? && !Closed(rec)
      <==> Statuses(rec) == [Requested, Attempted, Committed] || Statuses(rec) == [Requested, Attempted, Committed, Failed]
    ensures Latest(rec.receipts, Committed).None? && Latest(rec.receipts, Attempted).Some?
      <==> Statuses(rec) == [Requested, Attempted] || Statuses(rec) == [Requested, Attempted, Failed]
  {
    var s := Statuses(rec);
    assert forall k :: 0 <= k < |rec.receipts| ==> rec.receipts[k].status == s[k];
    assert forall st :: Latest(rec.receipts, st).Some? <==> st in s by {
      forall st ensures Latest(rec.receipts, st).Some? <==> st in s {
        if Latest(rec.receipts, st).Some? {
          var k :| 0 <= k < |rec.receipts| && rec.receipts[k] == Latest(rec.receipts, st).value;
          assert s[k] == st;
        } else {
          assert forall k :: 0 <= k < |s| ==> s[k] != st;
        }
      }
    }
    hide Latest;
    assert Verified in s <==> s[|s| - 1] == Verified;
    assert Closed(rec) ==> Latest(rec.receipts, Verified) == Some(Last(rec)) by { LatestLast(rec); }
  }

  lemma LatestLast(rec: Record)
    ensures Closed(rec) ==> Latest(rec.receipts, Verified) == Some(Last(rec))
  {
  }
}
