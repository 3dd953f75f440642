/** What the gateway does with an approved action at each of its steps, exactly, in every state
    in which an execution is under way. */
module GatewayAnswers {
  import opened Options
  import opened ApprovalInbox
  import opened InboxLifecycle
  import opened ActionGateway
  import opened ApprovedExecution
  import opened ExecutionSafety

  /** The approval of the request under execution. */
  ghost predicate Holds(s: Sys, env: Envelope, a: Artifact) {
    Working(s, env) && s.proc.mem.requests[s.proc.i].artifact == Some(a)
  }

  /** The approval says what it is for, and an outsider gave it. */
  predicate Stands(env: Envelope, a: Artifact) {
    a.actionHash == ActionDigest(env) && env.actorId != a.approvedBy && env.workloadId != a.approvedBy
  }

  predicate InTime(env: Envelope, a: Artifact, now: int) { now < env.expiresAt && a.approvedAt <= now && now < a.expiresAt }

  /** The durable inbox always vouches for a request under execution. */
  lemma InboxVouches(s: Sys, env: Envelope, a: Artifact)
    requires Holds(s, env, a)
    ensures ProvenanceActive(s.inbox, env, a) && a.actionHash == ActionDigest(env) && a.approvedBy == "approval-inbox"
    ensures s.inbox.requests[s.proc.i].env == env && s.inbox.requests[s.proc.i].artifact == Some(a)
  {
    hide StoreInv, ExecutedInv, StartedInv, ReturnedInv, PhaseInv, TrailTells, ChainOk, AllLater, NeverPendingToExpired, IndependentApprovals;
    var i := s.proc.i;
    var r := s.inbox.requests[i];
    assert r == s.proc.mem.requests[i] && Good(r);
    var j := FindRequest(s.inbox.requests, r.id);
    assert j == i;
  }

  /** In every run the inbox vouches for an approval exactly when it holds the request that
      issued it, for this very action, and that is executing or executed. */
  lemma VouchesExactly(es: seq<Event>, env: Envelope, a: Artifact)
    ensures ProvenanceActive(After(es).inbox, env, a) <==>
      exists i :: 0 <= i < |After(es).inbox.requests| && Issued(After(es).inbox.requests[i], env, a)
  {
    hide Run, StoreInv, ExecutedInv, StartedInv, ReturnedInv, ProcInv, TrailTells, ChainOk, Good;
    RunInv(es);
    var b := After(es).inbox;
    assert CoreInv(b);
    hide After;
    var j := FindRequest(b.requests, a.approvalId);
    forall i | 0 <= i < |b.requests| && b.requests[i].id == a.approvalId ensures i == j {}
    if j < |b.requests| { IssuedIs(b, j, env, a); }
  }

  ghost predicate Issued(r: Request, env: Envelope, a: Artifact) {
    r.id == a.approvalId && r.env == env && r.artifact == Some(a) && (r.status == Executing || r.status == Executed)
  }

  lemma IssuedIs(b: Inbox, j: nat, env: Envelope, a: Artifact)
    requires CoreInv(b) && j < |b.requests| && FindRequest(b.requests, a.approvalId) == j
    ensures ProvenanceActive(b, env, a) <==> Issued(b.requests[j], env, a)
  {
    hide TrailTells, ChainOk, Unique, FindRequest, IndependentApprovals, StatusFits;
    assert Good(b.requests[j]);
  }

  /** A record of this very action carries this very approval. */
  lemma SameApproval(s: Sys, env: Envelope, a: Artifact)
    requires Holds(s, env, a) && env.actionId in s.store && s.store[env.actionId].env == env
    ensures s.store[env.actionId].approval == a
  {
    InboxVouches(s, env, a);
    hide ExecutedInv, StartedInv, ReturnedInv, ProcInv, Shaped, RecordOk, CoreInv, ProvenanceActive;
    var rec := s.store[env.actionId];
    assert Backed(s.inbox, rec);
    var j :| 0 <= j < |s.inbox.requests| && s.inbox.requests[j].env == rec.env && s.inbox.requests[j].artifact == Some(rec.approval);
    assert j == s.proc.i;
  }

  /** Handing the action over succeeds exactly when its own record is there already, or there is
      none under its id, the approval stands and nothing has run out; then a record with one
      requested receipt is made. Otherwise nothing changes. */
  lemma SubmitDecides(s: Sys, env: Envelope, a: Artifact, now: int, receiptId: Id)
    requires Holds(s, env, a) && s.proc.phase == AtSubmit
    ensures var s' := SubmitStep(s, now, receiptId);
      if env.actionId in s.store then s' == (if s.store[env.actionId].env == env then s.(proc := s.proc.(phase := AtExecute)) else s)
      else if Stands(env, a) && InTime(env, a, now) then NewlyRecorded(s, s', env, a, now, receiptId)
      else s' == s
  {
    hide Inv;
    InboxVouches(s, env, a);
    if env.actionId in s.store && s.store[env.actionId].env == env { SameApproval(s, env, a); }
    SubmitFrom(s, env, a, now, receiptId);
  }

  lemma SubmitFrom(s: Sys, env: Envelope, a: Artifact, now: int, receiptId: Id)
    requires s.proc.Running? && s.proc.i < |s.proc.mem.requests|
    requires s.proc.mem.requests[s.proc.i].env == env && s.proc.mem.requests[s.proc.i].artifact == Some(a)
    requires ProvenanceActive(s.inbox, env, a) && a.actionHash == ActionDigest(env)
    requires env.actionId in s.store && s.store[env.actionId].env == env ==> s.store[env.actionId].approval == a
    ensures var s' := SubmitStep(s, now, receiptId);
      if env.actionId in s.store then s' == (if s.store[env.actionId].env == env then s.(proc := s.proc.(phase := AtExecute)) else s)
      else if Stands(env, a) && InTime(env, a, now) then NewlyRecorded(s, s', env, a, now, receiptId)
      else s' == s
  {
    hide ProvenanceActive, RecordOk, Appended, Opening;
    if ApprovalFits(env, a, now, true) { FirstReceipt(env, a, now, receiptId); }
  }

  lemma FirstReceipt(env: Envelope, a: Artifact, now: int, receiptId: Id)
    requires ApprovalFits(env, a, now, true)
    ensures var rec := Appended(Record(env, a, []), Requested, now, receiptId, None, None);
      rec.Some? && RecordOk(rec.value) && Opening(rec.value, env, a, now, receiptId)
  {
  }

  ghost predicate Opening(rec: Record, env: Envelope, a: Artifact, now: int, receiptId: Id) {
    && rec.env == env && rec.approval == a && |rec.receipts| == 1
    && rec.receipts[0].status == Requested && rec.receipts[0].timestamp == now && rec.receipts[0].receiptId == receiptId
    && rec.receipts[0].proof == None && rec.receipts[0].failure == None
  }

  ghost predicate NewlyRecorded(s: Sys, s': Sys, env: Envelope, a: Artifact, now: int, receiptId: Id)
    requires s.proc.Running?
  {
    && env.actionId in s'.store && Opening(s'.store[env.actionId], env, a, now, receiptId)
    && s' == s.(store := s.store[env.actionId := s'.store[env.actionId]], proc := s.proc.(phase := AtExecute))
  }

  /** With its record in place an execution is always let in. */
  lemma LetIn(s: Sys, env: Envelope, a: Artifact)
    requires Holds(s, env, a) && s.proc.phase == AtExecute
    ensures Recorded(s.store, env) && s.store[env.actionId].approval == a && MayExecute(s, s.proc.mem.requests[s.proc.i])
    ensures Stands(env, a)
  {
    assert Recorded(s.store, env) by { hide InboxInv, StoreInv, ExecutedInv, StartedInv, ReturnedInv, CoreInv, AllLater; }
    SameApproval(s, env, a);
    InboxVouches(s, env, a);
    WorkingRecord(s, env);
    OperationKnown(s, env);
    hide Inv, ProvenanceActive, Shaped, ReceiptOk;
  }

  lemma OperationKnown(s: Sys, env: Envelope)
    requires Working(s, env)
    ensures env.operation == SYNTHETIC_OPERATION
  {
    hide StoreInv, ExecutedInv, StartedInv, ReturnedInv, PhaseInv, TrailTells, ChainOk, AllLater, NeverPendingToExpired, Good, Unique;
    assert RequestOk(s.inbox.requests[s.proc.i]);
  }

  /** An attempt is made exactly when none was made before and nothing has run out. */
  lemma AttemptDecides(s: Sys, env: Envelope, a: Artifact, now: int, receiptId: Id)
    requires Holds(s, env, a) && s.proc.phase == AtExecute
    ensures var s' := AttemptStep(s, now, receiptId);
      && env.actionId in s.store
      && if |s.store[env.actionId].receipts| == 1 && InTime(env, a, now)
         then s'.proc == s.proc.(phase := AtAdapter) && Adds(s, s', env, [Attempted], None) else s' == s
  {
    hide Inv, MayExecute, Shaped, RecordOk, ReceiptOk;
    LetIn(s, env, a);
    WorkingRecord(s, env);
    AttemptFrom(s, env, a, now, receiptId);
  }

  lemma AttemptFrom(s: Sys, env: Envelope, a: Artifact, now: int, receiptId: Id)
    requires s.proc.Running? && s.proc.i < |s.proc.mem.requests| && s.proc.mem.requests[s.proc.i].env == env
    requires Recorded(s.store, env) && s.store[env.actionId].approval == a && MayExecute(s, s.proc.mem.requests[s.proc.i]) && Stands(env, a)
    requires Shaped(s.store[env.actionId]) && RecordOk(s.store[env.actionId])
    ensures var s' := AttemptStep(s, now, receiptId);
      if |s.store[env.actionId].receipts| == 1 && InTime(env, a, now)
      then s'.proc == s.proc.(phase := AtAdapter) && Adds(s, s', env, [Attempted], None) else s' == s
  {
    var rec := s.store[env.actionId];
    ShapeTells(rec);
    AppendedOk(rec, Attempted, now, receiptId, None, None);
    NewReceipt(rec, Attempted, now, receiptId, None, None);
    assert Latest(rec.receipts, Verified).Some? || Latest(rec.receipts, Committed).Some? ==> |rec.receipts| > 1;
    hide MayExecute, Shaped, RecordOk, Latest, Statuses, Appended;
  }

  lemma NewReceipt(rec: Record, status: ReceiptStatus, now: int, receiptId: Id, proof: Option<string>, failure: Option<Failure>)
    requires |rec.receipts| < MAX_RECEIPTS
    ensures var rec' := Appended(rec, status, now, receiptId, proof, failure);
      && rec'.Some? && rec'.value.env == rec.env && rec'.value.approval == rec.approval && rec.receipts <= rec'.value.receipts
      && rec'.value.receipts != [] && Last(rec'.value) == CreateReceipt(rec, status, now, receiptId, proof, failure)
      && Last(rec'.value).proof == proof && Last(rec'.value).failure == failure && |rec'.value.receipts| == |rec.receipts| + 1
  {
  }

  /** The record grew by receipts of these statuses, the last one with this proof, and nothing
      else in the store changed. */
  ghost predicate Adds(s: Sys, s': Sys, env: Envelope, statuses: seq<ReceiptStatus>, proof: Option<string>) {
    && env.actionId in s.store && env.actionId in s'.store && s'.store == s.store[env.actionId := s'.store[env.actionId]]
    && var rec, rec' := s.store[env.actionId], s'.store[env.actionId];
    && rec'.env == rec.env && rec'.approval == rec.approval && rec.receipts <= rec'.receipts
    && Statuses(rec') == Statuses(rec) + statuses
    && rec'.receipts != [] && Last(rec').proof == proof && Last(rec').failure == None
  }

  /** An execution that left a trace is settled and never repeated: a verified record answers
      with its receipt; an attempted one is verified, and first committed if it was not, exactly
      when the adapter can prove what happened; without a trace nothing happens here. */
  lemma ResumeDecides(s: Sys, env: Envelope, a: Artifact, now: int, id1: Id, id2: Id, proof: Option<string>)
    requires Holds(s, env, a) && s.proc.phase == AtExecute
    ensures var s' := ResumeStep(s, now, id1, id2, proof);
      && env.actionId in s.store && s.store[env.actionId].receipts != []
      && var rec := s.store[env.actionId];
      if Last(rec).status == Verified then s' == s.(proc := s.proc.(phase := Done(Last(rec))))
      else if proof == None || |rec.receipts| == 1 then s' == s
      else
        && Adds(s, s', env, if Committed in Statuses(rec) then [Verified] else [Committed, Verified], proof)
        && s'.proc == s.proc.(phase := Done(Last(s'.store[env.actionId])))
  {
    LetIn(s, env, a);
    WorkingRecord(s, env);
    var rec := s.store[env.actionId];
    ShapeTells(rec);
    if !Closed(rec) && proof.Some? && |rec.receipts| > 1 { SettleAdds(s, env, rec, now, id1, id2, proof); }
    hide Inv, MayExecute, Shaped, RecordOk, Latest, Statuses, Adds, Appended;
  }

  lemma SettleAdds(s: Sys, env: Envelope, rec: Record, now: int, id1: Id, id2: Id, proof: Option<string>)
    requires s.proc.Running? && s.proc.i < |s.proc.mem.requests| && s.proc.mem.requests[s.proc.i].env == env
    requires env.actionId in s.store && s.store[env.actionId] == rec && RecordOk(rec) && Shaped(rec) && !Closed(rec)
    requires proof.Some? && |rec.receipts| > 1 && MayExecute(s, s.proc.mem.requests[s.proc.i])
    ensures var s' := ResumeStep(s, now, id1, id2, proof);
      && Adds(s, s', env, if Committed in Statuses(rec) then [Verified] else [Committed, Verified], proof)
      && s'.proc == s.proc.(phase := Done(Last(s'.store[env.actionId])))
  {
    ShapeTells(rec);
    hide MayExecute, Shaped, RecordOk, ReceiptOk, Appended, CreateReceipt, Latest;
    assert Committed in Statuses(rec) <==> Latest(rec.receipts, Committed).Some?;
    hide Statuses;
    if Latest(rec.receipts, Committed).Some? {
      AppendedOk(rec, Verified, now, id1, proof, None);
      NewReceipt(rec, Verified, now, id1, proof, None);
    } else {
      AppendedOk(rec, Committed, now, id1, proof, None);
      NewReceipt(rec, Committed, now, id1, proof, None);
      var mid := Appended(rec, Committed, now, id1, proof, None).value;
      AppendedOk(mid, Verified, now, id2, proof, None);
      NewReceipt(mid, Verified, now, id2, proof, None);
    }
  }

  /** Replaying an executed request always hands its receipt back. */
  lemma ReplayReturns(s: Sys, env: Envelope, now: int, writeOk: bool)
    requires Working(s, env) && s.proc.phase.Done? && s.proc.replay
    ensures FinishStep(s, now, writeOk) == s.(proc := Idle, returned := s.returned + [s.proc.phase.receipt])
  {
    hide InboxInv, StoreInv, StartedInv, ReturnedInv, CoreInv, AllLater;
  }

  /** Every stored record is a linked chain of receipts for one action, approved by an outsider;
      commits and verifications carry their proof, failures their reason. */
  lemma RecordsAreChained(es: seq<Event>, id: Id, k: nat)
    requires id in After(es).store && k < |After(es).store[id].receipts|
    ensures var rec := After(es).store[id];
      var r := rec.receipts[k];
      && rec.env.actionId == id && Stands(rec.env, rec.approval)
      && r.actionId == id && r.actionHash == ActionDigest(rec.env)
      && r.previous == (if k == 0 then ReceiptGenesis(ActionDigest(rec.env)) else rec.receipts[k - 1].hash)
      && r.hash == ReceiptDigest(r.receiptId, ActionDigest(rec.env), r.status, r.timestamp, r.proof, r.failure, r.previous)
      && (r.status in {Committed, Verified} ==> r.proof.Some?) && (r.status == ReceiptStatus.Failed ==> r.failure.Some?)
      && (k == 0 <==> r.status == Requested) && (k == 1 <==> r.status == Attempted)
  {
    hide Run, InboxInv, ExecutedInv, StartedInv, ReturnedInv, ProcInv, Backed;
    RunInv(es);
    var rec := After(es).store[id];
    assert rec.env.actionId == id && RecordOk(rec) && Shaped(rec);
    hide After;
    assert ReceiptOk(rec, k) && Statuses(rec)[k] == rec.receipts[k].status;
  }
}
