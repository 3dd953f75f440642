/** A stored action as the gateway keeps it: its receipts grow in place, each naming the hash
    of the one before. */
module GatewayStore {
  import opened Options
  import opened ApprovalInbox
  import opened ActionGateway

  /** The hash that the receipt after the first n must name. */
  function HashBefore(rec: Record, n: nat): Digest
    requires n <= |rec.receipts|
  {
    if n == 0 then ReceiptGenesis(ActionDigest(rec.env)) else rec.receipts[n - 1].hash
  }

  lemma {:induction false} HashCommits(a: Record, b: Record, m: nat, n: nat)
    requires m <= |a.receipts| && n <= |b.receipts|
    requires (forall k :: 0 <= k < m ==> ReceiptOk(a, k)) && (forall k :: 0 <= k < n ==> ReceiptOk(b, k))
    requires HashBefore(a, m) == HashBefore(b, n)
    ensures m == n && a.receipts[..m] == b.receipts[..n] && a.env == b.env
    decreases m
  {
    assert m > 0 ==> ReceiptOk(a, m - 1);
    assert n > 0 ==> ReceiptOk(b, n - 1);
    if m > 0 {
      HashCommits(a, b, m - 1, n - 1);
      assert a.receipts[..m] == a.receipts[..m - 1] + [a.receipts[m - 1]];
      assert b.receipts[..n] == b.receipts[..n - 1] + [b.receipts[n - 1]];
    }
  }

  /** The hash of the last receipt, which an executed inbox request stores, determines the
      action and its whole receipt history. */
  lemma LastHashCommits(a: Record, b: Record)
    requires RecordOk(a) && RecordOk(b) && Last(a).hash == Last(b).hash
    ensures a.env == b.env && a.receipts == b.receipts
  {
    HashCommits(a, b, |a.receipts|, |b.receipts|);
    assert a.receipts[..|a.receipts|] == a.receipts && b.receipts[..|b.receipts|] == b.receipts;
  }

  /** `validateStoredAction`, receipt by receipt. */
  method ValidateStoredAction(rec: Record) returns (ok: bool)
    ensures ok == RecordOk(rec)
  {
    if !ApprovalFits(rec.env, rec.approval, 0, false) || |rec.receipts| < 1 || |rec.receipts| > MAX_RECEIPTS { return false; }
    var previous := ReceiptGenesis(ActionDigest(rec.env));
    for k := 0 to |rec.receipts|
      invariant previous == HashBefore(rec, k)
      invariant forall j :: 0 <= j < k ==> ReceiptOk(rec, j)
    {
      var r := rec.receipts[k];
      if r.actionId != rec.env.actionId || r.actionHash != ActionDigest(rec.env) || r.previous != previous
        || r.hash != ReceiptDigest(r.receiptId, r.actionHash, r.status, r.timestamp, r.proof, r.failure, r.previous)
        || ((r.status == Committed || r.status == Verified) && r.proof.None?) || (r.status == Failed && r.failure.None?) {
        assert !ReceiptOk(rec, k);
        return false;
      }
      previous := r.hash;
    }
    ok := rec.receipts[0].status == Requested;
  }

  class StoredAction {
    const env: Envelope
    const approval: Artifact
    var receipts: seq<Receipt>

    function Value(): Record
      reads this
    {
      Record(env, approval, receipts)
    }

    /** A newly submitted action. */
    constructor (env: Envelope, approval: Artifact, now: int, receiptId: Id)
      requires ApprovalFits(env, approval, now, true)
      ensures RecordOk(Value()) && Statuses(Value()) == [Requested]
      ensures Some(Value()) == Appended(Record(env, approval, []), Requested, now, receiptId, None, None)
    {
      this.env, this.approval := env, approval;
      var first := CreateReceipt(Record(env, approval, []), Requested, now, receiptId, None, None);
      receipts := [first];
      assert [first] == [] + [first];
    }

    method AppendReceipt(status: ReceiptStatus, now: int, receiptId: Id, proof: Option<string>, failure: Option<Failure>) returns (ok: bool)
      requires RecordOk(Value())
      requires status == Committed || status == Verified ==> proof.Some?
      requires status == Failed ==> failure.Some?
      modifies this
      ensures RecordOk(Value()) && ok == (|old(receipts)| < MAX_RECEIPTS)
      ensures if ok then Some(Value()) == Appended(old(Value()), status, now, receiptId, proof, failure) else Value() == old(Value())
      ensures ok ==> Statuses(Value()) == old(Statuses(Value())) + [status]
    {
      if |receipts| >= MAX_RECEIPTS { return false; }
      AppendedOk(Value(), status, now, receiptId, proof, failure);
      receipts := receipts + [CreateReceipt(Value(), status, now, receiptId, proof, failure)];
      ok := true;
    }
  }
}
