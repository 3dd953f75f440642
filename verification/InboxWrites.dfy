/** What the checks before a write let through: the audit chain link by link, and the exact
    conditions under which what an operation decided is stored. */
module InboxWrites {
  import opened Options
  import opened ApprovalInbox
  import opened InboxLifecycle
  import opened ActionGateway
  import opened ApprovedExecution
  import opened ExecutionSafety
  import opened RequestTerms
  import opened InboxAnswers

  // ---------------------------------------------------------------- the audit chain

  /** Record i is numbered i + 1, names the hash of the record before it and carries its own. */
  ghost predicate LinkedAt(audit: seq<AuditRecord>, i: nat)
    requires i < |audit|
  {
    && audit[i].sequence == i + 1
    && audit[i].previous == (if i == 0 then AuditAnchor else audit[i - 1].recordHash)
    && audit[i].recordHash == AuditDigest(i + 1, audit[i].event, audit[i].requestId, audit[i].actionHash, audit[i].receiptHash,
                                          audit[i].actorId, audit[i].timestamp, audit[i].previous)
  }

  lemma {:induction false} ChainExactly(audit: seq<AuditRecord>)
    ensures ChainOk(audit) <==> forall i :: 0 <= i < |audit| ==> LinkedAt(audit, i)
  {
    if audit != [] {
      var n := |audit| - 1;
      var init := audit[..n];
      ChainExactly(init);
      forall i | 0 <= i < n ensures LinkedAt(init, i) <==> LinkedAt(audit, i) {}
      assert LinkedAt(audit, n) <==>
        && audit[n].sequence == |audit| && audit[n].previous == LastHash(init)
        && audit[n].recordHash == AuditDigest(audit[n].sequence, audit[n].event, audit[n].requestId, audit[n].actionHash,
                                              audit[n].receiptHash, audit[n].actorId, audit[n].timestamp, audit[n].previous);
    }
  }

  // ---------------------------------------------------------------- changed requests

  lemma ChangedOk(r: Request, r': Request)
    requires RequestOk(r) && Later(r, r') && Good(r')
    ensures RequestOk(r')
  {
  }

  lemma ChangeFits(b: Inbox, b': Inbox)
    requires InboxInv(b) && CoreInv(b') && AllLater(b.requests, b'.requests) && |b'.requests| == |b.requests|
    ensures ValidInbox(b') <==> |b'.audit| <= 10_000
  {
    hide RequestOk, Later, Good, Unique, ChainOk, TrailTells;
    forall i | 0 <= i < |b'.requests| ensures RequestOk(b'.requests[i]) { ChangedOk(b.requests[i], b'.requests[i]); }
  }

  ghost predicate Changes(e: Event) { e.ApproveBy? || e.RejectBy? || e.RevokeBy? || e.Supersede? || e.Link? || e.Look? }

  lemma ChangeKeeps(b: Inbox, e: Event)
    requires CoreInv(b) && Changes(e) && InboxEvent(b, e).Some?
    ensures Keeps(b, InboxEvent(b, e).value)
  {
    hide CoreInv, AllLater, ApproveOp, DecideOp, SupersedeOp, LinkOp;
    match e
    case ApproveBy(id, a, now) => ApproveKeeps(b, id, a, now);
    case RejectBy(id, a, now) => DecideKeeps(b, id, a, Reject, now);
    case RevokeBy(id, a, now) => DecideKeeps(b, id, a, Revoke, now);
    case Supersede(id, a, now) => SupersedeKeeps(b, id, a, now);
    case Link(next, superseded) => LinkKeeps(b, next, superseded);
    case Look(now) => RefreshKeeps(b, now);
  }

  lemma SameRequests(b: Inbox, e: Event)
    requires Changes(e) && InboxEvent(b, e).Some?
    ensures |InboxEvent(b, e).value.requests| == |b.requests|
  {
    hide Refresh, FindRequest, Audited, Independent, Distinct, Approvals;
  }

  /** An approval, verdict, edit or refresh that the inbox decided on is stored unless the
      audit trail is full; then nothing is. */
  lemma ChangesAreStored(es: seq<Event>, e: Event)
    requires Changes(e) && After(es).proc.Idle? && InboxEvent(After(es).inbox, e).Some?
    ensures var next := InboxEvent(After(es).inbox, e).value;
      After(es + [e]) == After(es).(inbox := if |next.audit| <= 10_000 then next else After(es).inbox)
  {
    hide Run, CoreInv, AllFair, ValidInbox, InboxEvent;
    Reachable(es);
    var b := After(es).inbox;
    ChangeKeeps(b, e);
    SameRequests(b, e);
    ChangeFits(b, InboxEvent(b, e).value);
    AfterOne(es, e);
  }

  lemma AfterOne(es: seq<Event>, e: Event)
    ensures After(es + [e]) == Apply(After(es), e)
  {
    assert (es + [e])[..|es|] == es;
  }

  /** So is the consumption of an approval, the write that an execution begins with. */
  lemma ConsumptionIsStored(es: seq<Event>, i: nat, now: int)
    requires i < |After(es).inbox.requests| && After(es).inbox.requests[i].status == Approved && now < After(es).inbox.requests[i].expiresAt
    ensures ValidInbox(Consuming(After(es).inbox, i, now)) <==> |Refresh(After(es).inbox, now).audit| < 10_000
  {
    hide Run, AllFair, ValidInbox, CoreInv;
    Reachable(es);
    hide After;
    var b := After(es).inbox;
    RefreshKeeps(b, now);
    ConsumptionFits(b, i, now);
  }

  lemma ConsumptionFits(b: Inbox, i: nat, now: int)
    requires InboxInv(b) && CoreInv(Refresh(b, now)) && AllLater(b.requests, Refresh(b, now).requests) && i < |b.requests|
    requires b.requests[i].status == Approved && Refresh(b, now).requests[i] == b.requests[i]
    ensures ValidInbox(Consuming(b, i, now)) <==> |Refresh(b, now).audit| < 10_000
  {
    hide Refresh, ValidInbox, TrailTells, ChainOk, Unique, IndependentApprovals;
    var mem, b' := Refresh(b, now), Consuming(b, i, now);
    var r := mem.requests[i].(consumedAt := Some(now), status := Executing);
    assert Good(mem.requests[i]);
    SameApprovals(mem.requests[i], r);
    assert Good(r);
    MovedCore(mem, i, r, ArtifactConsumed, r.env.actorId, now, None);
    assert Later(b.requests[i], r);
    hide Good, Later;
    forall j | 0 <= j < |b.requests| ensures Later(b.requests[j], b'.requests[j]) { assert j != i ==> b'.requests[j] == mem.requests[j]; }
    ChangeFits(b, b');
    assert |b'.audit| == |mem.audit| + 1;
  }

  /** The stored request i now has this status and receipt, and no other request came to life. */
  ghost predicate EndsAs(s: Sys, s': Sys, status: Status, receipt: Option<Digest>) {
    && s.proc.Running? && |s'.inbox.requests| == |s.inbox.requests| && s.proc.i < |s.inbox.requests|
    && s'.inbox.requests[s.proc.i].status == status && s'.inbox.requests[s.proc.i].receiptHash == receipt
    && forall j :: 0 <= j < |s.inbox.requests| && j != s.proc.i ==> s'.inbox.requests[j] == s.inbox.requests[j] || Dead(s'.inbox.requests[j].status)
  }

  /** A verified execution ends with the request executed under the receipt's hash and the
      receipt handed back, unless the write fails or the audit trail is full; then the catch
      block takes over with the inbox as it was. */
  lemma FinishStores(s: Sys, env: Envelope, now: int, writeOk: bool)
    requires Working(s, env) && s.proc.phase.Done? && !s.proc.replay
    ensures var rc, s' := s.proc.phase.receipt, FinishStep(s, now, writeOk);
      if writeOk && |s.proc.mem.audit| < 10_000
      then EndsAs(s, s', Executed, Some(rc.hash)) && s'.proc == Idle && s'.returned == s.returned + [rc]
      else s'.inbox == s.inbox && s'.proc.Running? && s'.proc.phase == Caught && s'.returned == s.returned
  {
    hide ValidInbox, CoreInv, Audited, InboxInv, StoreInv, ExecutedInv, StartedInv, ReturnedInv, AllLater, NeverPendingToExpired;
    var rc, r := s.proc.phase.receipt, s.proc.mem.requests[s.proc.i];
    var r' := r.(status := Executed, receiptHash := Some(rc.hash));
    WriteBack(s, r', ExecutionVerified, r.env.actorId, now, Some(rc.hash));
    WriteBackFits(s, Moved(s.proc.mem, s.proc.i, r', ExecutionVerified, r.env.actorId, now, Some(rc.hash)));
    OneMore(s.proc.mem.audit, ExecutionVerified, r', r.env.actorId, now, Some(rc.hash));
  }

  lemma WriteBackFits(s: Sys, mem: Inbox)
    requires Inv(s) && s.proc.Running? && MemInv(s.inbox, mem, s.proc.i, true)
    ensures ValidInbox(mem) <==> |mem.audit| <= 10_000
  {
    hide ValidInbox, CoreInv, StoreInv, ExecutedInv, StartedInv, ReturnedInv, ProcInv, AllLater;
    ChangeFits(s.inbox, mem);
  }

  lemma OneMore(audit: seq<AuditRecord>, event: AuditEvent, r: Request, actor: Id, now: int, receipt: Option<Digest>)
    ensures |Audited(audit, event, r, actor, now, receipt)| == |audit| + 1
  {
  }

  /** The catch block closes the request exactly when the gateway has a failed receipt for its
      action, unless the audit trail is full; otherwise it stays executing. */
  lemma CatchStores(s: Sys, now: int)
    requires Inv(s) && s.proc.Running? && s.proc.phase.Caught?
    ensures var r, s' := s.proc.mem.requests[s.proc.i], CatchStep(s, now);
      && s'.proc == Idle && s'.returned == s.returned
      && if HasFailed(s, r.env.actionId) && |s.proc.mem.audit| < 10_000
         then EndsAs(s, s', ExecutionFailed, r.receiptHash) else s'.inbox == s.inbox
  {
    hide ValidInbox, CoreInv, Audited, InboxInv, StoreInv, ExecutedInv, StartedInv, ReturnedInv, AllLater, NeverPendingToExpired;
    var r := s.proc.mem.requests[s.proc.i];
    if r.env.actionId in s.store && Latest(s.store[r.env.actionId].receipts, ReceiptStatus.Failed).Some? {
      var hash := Latest(s.store[r.env.actionId].receipts, ReceiptStatus.Failed).value.hash;
      hide Latest;
      var r' := r.(status := ExecutionFailed);
      WriteBack(s, r', ExecutionFailedEvent, r.env.actorId, now, Some(hash));
      WriteBackFits(s, Moved(s.proc.mem, s.proc.i, r', ExecutionFailedEvent, r.env.actorId, now, Some(hash)));
      OneMore(s.proc.mem.audit, ExecutionFailedEvent, r', r.env.actorId, now, Some(hash));
    }
  }

  ghost predicate HasFailed(s: Sys, id: Id) {
    id in s.store && exists k :: 0 <= k < |s.store[id].receipts| && s.store[id].receipts[k].status == ReceiptStatus.Failed
  }

  // ---------------------------------------------------------------- new requests

  /** A new request that was decided on is stored exactly when its escalation is not after the
      action's expiry, inbox and audit trail have room, and neither its id nor its action was
      requested before, not even by a superseded request. */
  lemma NewRequestIsStored(es: seq<Event>, e: Event)
    requires e.Submit? && After(es).proc.Idle? && InboxEvent(After(es).inbox, e).Some?
    requires forall i :: 0 <= i < |After(es).inbox.requests| && After(es).inbox.requests[i].env == e.env ==> After(es).inbox.requests[i].status == Superseded
    ensures var b, next := After(es).inbox, InboxEvent(After(es).inbox, e).value;
      var fits := e.now + e.policy.escalationTimeoutMs <= e.env.expiresAt && |b.requests| < 1_000
        && |Refresh(b, e.now).audit| < 10_000 && Unused(b.requests, e.id, e.env);
      After(es + [e]) == After(es).(inbox := if fits then next else b)
  {
    hide Run, AllFair, CoreInv, ValidInbox, RequestOp;
    Reachable(es);
    var b := After(es).inbox;
    InboxAnswers.Unknown(b, e.env, e.now);
    NewRequestFits(b, e.env, e.policy, e.context, e.id, e.now);
    AfterOne(es, e);
  }

  ghost predicate Unused(rs: seq<Request>, id: Id, env: Envelope) { forall i :: 0 <= i < |rs| ==> rs[i].id != id && rs[i].env != env }

  lemma NewRequestFits(b: Inbox, env: Envelope, p: Policy, c: Context, id: Id, now: int)
    requires InboxInv(b) && !Known(Refresh(b, now).requests, env) && RequestOp(b, env, p, c, id, now).Some?
    ensures ValidInbox(RequestOp(b, env, p, c, id, now).value) <==>
      now + p.escalationTimeoutMs <= env.expiresAt && |b.requests| < 1_000 && |Refresh(b, now).audit| < 10_000 && Unused(b.requests, id, env)
  {
    hide Refresh, Known, Allowed, ChainOk, RequestOk, Unique, CoreInv;
    RefreshKeeps(b, now);
    var b1, r := Refresh(b, now), NewRequest(env, p, c, id, now);
    assert RequestOp(b, env, p, c, id, now).value == Inbox(b1.requests + [r], Audited(b1.audit, RequestCreated, r, env.actorId, now, None));
    NewOk(env, p, c, id, now);
    RefreshedOk(b, b1);
    UniqueUnused(b.requests, b1.requests, r);
    AuditedKeeps(b1.audit, RequestCreated, r, env.actorId, now, None, id);
    var rs := b1.requests + [r];
    assert forall i :: 0 <= i < |b1.requests| ==> rs[i] == b1.requests[i];
    assert rs[|b1.requests|] == r;
  }

  lemma NewOk(env: Envelope, p: Policy, c: Context, id: Id, now: int)
    requires ValidPolicy(p) && now < env.expiresAt && Classify(env).Some?
    ensures RequestOk(NewRequest(env, p, c, id, now)) <==> now + p.escalationTimeoutMs <= env.expiresAt
  {
  }

  lemma RefreshedOk(b: Inbox, b1: Inbox)
    requires ValidInbox(b) && CoreInv(b1) && AllLater(b.requests, b1.requests) && |b1.requests| == |b.requests|
    ensures (forall i :: 0 <= i < |b1.requests| ==> RequestOk(b1.requests[i])) && Unique(b1.requests) && ChainOk(b1.audit)
  {
    hide RequestOk, Later, Good, Unique, ChainOk, TrailTells;
    forall i | 0 <= i < |b1.requests| ensures RequestOk(b1.requests[i]) { ChangedOk(b.requests[i], b1.requests[i]); }
  }

  lemma UniqueUnused(rs: seq<Request>, rs': seq<Request>, r: Request)
    requires Unique(rs') && AllLater(rs, rs') && |rs| == |rs'|
    ensures Unique(rs' + [r]) <==> Unused(rs, r.id, r.env)
  {
    var n, all := |rs'|, rs' + [r];
    forall i | 0 <= i < n ensures all[i].id == rs[i].id && all[i].env == rs[i].env { assert Later(rs[i], rs'[i]); }
    if Unique(all) {
      forall i | 0 <= i < n ensures rs[i].id != r.id && rs[i].env != r.env { assert all[i].id != all[n].id; }
    }
  }
}
