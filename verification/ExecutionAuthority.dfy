/** Who may start an action and when, and what each operation answers, said of requests,
    callers and times themselves. */
module ExecutionAuthority {
  import opened Options
  import opened ApprovalInbox
  import opened InboxLifecycle
  import opened ActionGateway
  import opened ApprovedExecution
  import opened RequestTerms
  import opened ExecutionSafety

  // ---------------------------------------------------------------- who called

  /** The event that began the execution now under way. */
  ghost function BeganBy(es: seq<Event>): Option<Event> {
    if es == [] || !After(es).proc.Running? then None
    else
      var n := |es| - 1;
      if After(es[..n]).proc.Running? then BeganBy(es[..n]) else Some(es[n])
  }

  /** The caller is the request's actor and workload, under the policy it was approved by, and
      that policy still allows it. */
  ghost predicate CalledBy(e: Event, r: Request) {
    e.Begin? && e.id == r.id && e.actorId == r.env.actorId && e.workloadId == r.env.workloadId && e.policy == r.policy
  }

  lemma BeginCalls(s: Sys, e: Event)
    requires s.proc.Idle? && Apply(s, e).proc.Running?
    ensures var s' := Apply(s, e); s'.proc.i < |s'.proc.mem.requests| && CalledBy(e, s'.proc.mem.requests[s'.proc.i])
  {
    hide Refresh, Allowed, RequiredApprovals, ValidPolicy, ValidInbox, Audited, InboxEvent;
  }

  lemma CallerStays(s: Sys, e: Event, b: Event)
    requires s.proc.Running? && s.proc.i < |s.proc.mem.requests| && CalledBy(b, s.proc.mem.requests[s.proc.i]) && Apply(s, e).proc.Running?
    ensures var s' := Apply(s, e); s'.proc.i < |s'.proc.mem.requests| && CalledBy(b, s'.proc.mem.requests[s'.proc.i])
  {
    hide SubmitStep, ResumeStep, AttemptStep, AdapterDoneStep, VerifyStep, Audited, ValidInbox, Latest;
    if !e.Finish? && !e.CatchWrite? && !e.Crash? { SameMem(s, e); }
  }

  lemma {:induction false} RunningWasCalled(es: seq<Event>)
    requires After(es).proc.Running?
    ensures var s := After(es); BeganBy(es).Some? && s.proc.i < |s.proc.mem.requests| && CalledBy(BeganBy(es).value, s.proc.mem.requests[s.proc.i])
  {
    hide Apply, CalledBy;
    assert es != [];
    var n := |es| - 1;
    if After(es[..n]).proc.Running? {
      RunningWasCalled(es[..n]);
      CallerStays(After(es[..n]), es[n], BeganBy(es[..n]).value);
    } else {
      BeginCalls(After(es[..n]), es[n]);
    }
  }

  /** Whenever the adapter is started, the execution was begun by the action's own actor and
      workload, under the policy of the approved request. */
  lemma StartedByItsActor(es: seq<Event>, e: Event)
    requires |After(es + [e]).started| > |After(es).started|
    ensures var started := After(es + [e]).started;
      var env := started[|started| - 1];
      && e.AdapterStart? && BeganBy(es).Some? && BeganBy(es).value.Begin?
      && BeganBy(es).value.actorId == env.actorId && BeganBy(es).value.workloadId == env.workloadId
      && exists i :: 0 <= i < |After(es).inbox.requests| && After(es).inbox.requests[i].env == env
                     && After(es).inbox.requests[i].id == BeganBy(es).value.id && After(es).inbox.requests[i].policy == BeganBy(es).value.policy
  {
    hide Run, Inv, Apply, BeganBy;
    OneMore(es, e);
    var s := After(es);
    OnlyAdapterStartStarts(s, e);
    RunningWasCalled(es);
    RunInv(es);
    WorkingCopy(s);
    hide After;
    assert s.inbox.requests[s.proc.i].env == s.proc.mem.requests[s.proc.i].env;
  }

  lemma OneMore(es: seq<Event>, e: Event)
    ensures After(es + [e]) == Apply(After(es), e)
  {
    hide Apply;
    assert (es + [e])[..|es|] == es;
  }

  lemma WorkingCopy(s: Sys)
    requires Inv(s) && s.proc.Running? && !s.proc.phase.Caught?
    ensures s.proc.i < |s.inbox.requests| && s.proc.i < |s.proc.mem.requests| && s.inbox.requests[s.proc.i] == s.proc.mem.requests[s.proc.i]
  {
    hide InboxInv, StoreInv, ExecutedInv, StartedInv, ReturnedInv, CoreInv, AllLater, PhaseInv;
  }

  lemma OnlyAdapterStartStarts(s: Sys, e: Event)
    requires |Apply(s, e).started| > |s.started|
    ensures e.AdapterStart? && s.proc.Running? && s.proc.phase.AtAdapter? && s.proc.i < |s.proc.mem.requests|
    ensures Apply(s, e).started == s.started + [s.proc.mem.requests[s.proc.i].env]
  {
    hide ProvenanceActive, ApprovalFits, RecordOk, Latest, Appended, CreateReceipt, Refresh, Allowed, RequiredApprovals, ValidPolicy, ValidInbox,
         Audited, InboxEvent, FindRequest;
  }

  // ---------------------------------------------------------------- when it was attempted

  /** Attempts were made after the approval and before it or the action expired. */
  ghost predicate Timely(rec: Record) {
    forall k :: 0 <= k < |rec.receipts| && rec.receipts[k].status == Attempted ==>
      rec.approval.approvedAt <= rec.receipts[k].timestamp < rec.approval.expiresAt && rec.receipts[k].timestamp < rec.env.expiresAt
  }

  ghost predicate AllTimely(store: map<Id, Record>) { forall id <- store :: Timely(store[id]) }

  lemma AppendTimely(rec: Record, status: ReceiptStatus, now: int, receiptId: Id, proof: Option<string>, failure: Option<Failure>)
    requires Timely(rec) && Appended(rec, status, now, receiptId, proof, failure).Some?
    requires status == Attempted ==> rec.approval.approvedAt <= now < rec.approval.expiresAt && now < rec.env.expiresAt
    ensures Timely(Appended(rec, status, now, receiptId, proof, failure).value)
  {
  }

  lemma SubmitTimely(s: Sys, now: int, id: Id)
    requires AllTimely(s.store) && s.proc.Running? && s.proc.i < |s.proc.mem.requests|
    ensures AllTimely(SubmitStep(s, now, id).store)
  {
    hide ProvenanceActive, ApprovalFits, RecordOk;
  }

  lemma ResumeTimely(s: Sys, now: int, id1: Id, id2: Id, proof: Option<string>)
    requires AllTimely(s.store) && s.proc.Running? && s.proc.i < |s.proc.mem.requests|
    ensures AllTimely(ResumeStep(s, now, id1, id2, proof).store)
  {
    hide ProvenanceActive, ApprovalFits, RecordOk, Latest, Appended, Timely;
    var r := s.proc.mem.requests[s.proc.i];
    if r.env.actionId in s.store {
      var rec := s.store[r.env.actionId];
      if Appended(rec, Verified, now, id1, proof, None).Some? { AppendTimely(rec, Verified, now, id1, proof, None); }
      var mid := Appended(rec, Committed, now, id1, proof, None);
      if mid.Some? {
        AppendTimely(rec, Committed, now, id1, proof, None);
        if Appended(mid.value, Verified, now, id2, proof, None).Some? { AppendTimely(mid.value, Verified, now, id2, proof, None); }
      }
    }
  }

  lemma AttemptTimely(s: Sys, now: int, id: Id)
    requires AllTimely(s.store) && s.proc.Running? && s.proc.i < |s.proc.mem.requests|
    ensures AllTimely(AttemptStep(s, now, id).store)
  {
    hide ProvenanceActive, RecordOk, Latest, Appended, Timely;
    var r := s.proc.mem.requests[s.proc.i];
    if r.env.actionId in s.store {
      var rec := s.store[r.env.actionId];
      if ApprovalFits(rec.env, rec.approval, now, true) && now < rec.env.expiresAt && Appended(rec, Attempted, now, id, None, None).Some? {
        AppendTimely(rec, Attempted, now, id, None, None);
      }
    }
  }

  lemma WorkTimely(s: Sys, e: Event)
    requires AllTimely(s.store) && s.proc.Running? && s.proc.i < |s.proc.mem.requests|
    ensures e.AdapterDone? ==> AllTimely(AdapterDoneStep(s, e.outcome, e.now, e.receiptId).store)
    ensures e.GatewayVerify? ==> AllTimely(VerifyStep(s, e.proof, e.now, e.receiptId).store)
  {
    hide RecordOk, Appended, Timely, CreateReceipt;
    var id := s.proc.mem.requests[s.proc.i].env.actionId;
    if id in s.store {
      var rec := s.store[id];
      forall status: ReceiptStatus, now, rid, proof, failure | status != Attempted && Appended(rec, status, now, rid, proof, failure).Some?
        ensures Timely(Appended(rec, status, now, rid, proof, failure).value)
      {
        AppendTimely(rec, status, now, rid, proof, failure);
      }
    }
  }

  lemma StepTimely(s: Sys, e: Event)
    requires AllTimely(s.store)
    ensures AllTimely(Apply(s, e).store)
  {
    hide AllTimely, Refresh, Allowed, RequiredApprovals, ValidPolicy, ValidInbox, Audited, InboxEvent, FindRequest,
         SubmitStep, ResumeStep, AttemptStep, AdapterDoneStep, VerifyStep, Latest;
    if s.proc.Running? && s.proc.i < |s.proc.mem.requests| {
      WorkTimely(s, e);
      match e
      case GatewaySubmit(now, id) => SubmitTimely(s, now, id);
      case GatewayResume(now, id1, id2, proof) => ResumeTimely(s, now, id1, id2, proof);
      case GatewayAttempt(now, id) => AttemptTimely(s, now, id);
      case _ =>
    }
  }

  lemma {:induction false} RunTimely(es: seq<Event>)
    ensures AllTimely(After(es).store)
  {
    hide Apply;
    if es != [] { RunTimely(es[..|es| - 1]); StepTimely(After(es[..|es| - 1]), es[|es| - 1]); }
  }

  /** Every start was preceded by a durable attempt, made within the life of the approval that
      an inbox request issued for this action, and before the action itself expired. */
  lemma StartedInTime(es: seq<Event>, k: nat)
    requires k < |After(es).started|
    ensures var s := After(es);
      var env := s.started[k];
      && env.actionId in s.store && s.store[env.actionId].env == env
      && var rec := s.store[env.actionId];
      && |rec.receipts| >= 2 && rec.receipts[1].status == Attempted
      && rec.approval.approvedAt <= rec.receipts[1].timestamp < rec.approval.expiresAt && rec.receipts[1].timestamp < env.expiresAt
      && exists i :: 0 <= i < |s.inbox.requests| && s.inbox.requests[i].env == env && s.inbox.requests[i].artifact == Some(rec.approval)
                     && rec.approval.expiresAt == s.inbox.requests[i].expiresAt
  {
    hide Run, ValidInbox, RecordOk, Good, ExecutedInv, ReturnedInv, ProcInv, CoreInv;
    RunInv(es);
    RunTimely(es);
    var s := After(es);
    var rec := s.store[s.started[k].actionId];
    assert Timely(rec) && Shaped(rec) && Statuses(rec)[1] == rec.receipts[1].status;
    assert Backed(s.inbox, rec);
    var i :| 0 <= i < |s.inbox.requests| && s.inbox.requests[i].env == rec.env && Consumed(s.inbox.requests[i].status) && s.inbox.requests[i].artifact == Some(rec.approval);
    CoreGood(s.inbox, i);
    ConsumedArtifact(s.inbox.requests[i]);
  }

  lemma ConsumedArtifact(r: Request)
    requires Good(r) && Consumed(r.status)
    ensures r.artifact.Some? && r.artifact.value.expiresAt == r.expiresAt
  {
    hide IndependentApprovals, AllApprove;
  }

  // ---------------------------------------------------------------- what the adapter said

  /** The receipt written after the adapter answered says what it answered. */
  lemma AnswerIsRecorded(s: Sys, env: Envelope, outcome: AdapterOutcome, now: int, receiptId: Id)
    requires Working(s, env) && s.proc.phase == InAdapter
    ensures var s' := AdapterDoneStep(s, outcome, now, receiptId);
      && env.actionId in s'.store && s'.store[env.actionId].receipts != []
      && var last := Last(s'.store[env.actionId]);
      match outcome
      case Success(proof) => last.status == Committed && last.proof == Some(proof) && last.failure == None
      case Unknown => last.status == ReceiptStatus.Failed && last.failure == Some(UnknownOutcome) && last.proof == None
      case Threw => last.status == ReceiptStatus.Failed && last.failure == Some(ExecutionError) && last.proof == None
  {
    hide InboxInv, StoreInv, ExecutedInv, StartedInv, ReturnedInv, CoreInv, AllLater, RecordOk, ReceiptOk;
    WorkingRecord(s, env);
    var rec := s.store[env.actionId];
    match outcome
    case Success(proof) => AppendedOk(rec, Committed, now, receiptId, Some(proof), None);
    case Unknown => AppendedOk(rec, ReceiptStatus.Failed, now, receiptId, None, Some(UnknownOutcome));
    case Threw => AppendedOk(rec, ReceiptStatus.Failed, now, receiptId, None, Some(ExecutionError));
  }

  /** So does the receipt written after the verification, which keeps the committed proof. */
  lemma VerificationIsRecorded(s: Sys, env: Envelope, proof: Option<string>, now: int, receiptId: Id)
    requires Working(s, env) && s.proc.phase == AtVerify
    ensures var s' := VerifyStep(s, proof, now, receiptId);
      && env.actionId in s.store && s.store[env.actionId].receipts != [] && env.actionId in s'.store && s'.store[env.actionId].receipts != []
      && var last := Last(s'.store[env.actionId]);
      if proof.Some? then last.status == Verified && last.proof == proof && last.failure == None
      else last.status == ReceiptStatus.Failed && last.failure == Some(VerificationFailed) && last.proof == Last(s.store[env.actionId]).proof
  {
    hide InboxInv, StoreInv, ExecutedInv, StartedInv, ReturnedInv, CoreInv, AllLater, RecordOk, ReceiptOk;
    WorkingRecord(s, env);
    var rec := s.store[env.actionId];
    if proof.Some? { AppendedOk(rec, Verified, now, receiptId, proof, None); }
    else { AppendedOk(rec, ReceiptStatus.Failed, now, receiptId, Last(rec).proof, Some(VerificationFailed)); }
  }
}
