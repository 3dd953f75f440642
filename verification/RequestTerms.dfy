/** The terms a request is created on and what its approvals and its consumption owe to
    them, in every reachable state. Everything here is said of the fields themselves, not
    through the checks that the operations make. */
module RequestTerms {
  import opened Options
  import opened ApprovalInbox
  import opened InboxLifecycle
  import opened ActionGateway
  import opened ApprovedExecution

  /** Two people must approve: the policy calls updates critical, or confidence is too low. */
  predicate NeedsTwo(r: Request) { Update in r.policy.criticalRisks || r.context.confidence < r.policy.minimumConfidence }

  /** The bounds that a policy is held to. */
  predicate Bounded(p: Policy) {
    && p.minimumConfidence <= 100 && 0 < p.maxActions <= 100_000
    && 1_000 <= p.windowMs <= 86_400_000 && 1_000 <= p.approvalTtlMs <= 86_400_000
    && 1_000 <= p.escalationTimeoutMs <= p.approvalTtlMs
  }

  /** What the policy allows, and what the request was promised when it was created. */
  predicate Terms(r: Request) {
    && Bounded(r.policy) && r.context.confidence <= 100 && r.env.operation == "synthetic.subscription_failure"
    && r.env.environment in r.policy.allowedEnvironments
    && (r.policy.allowedActors == None || r.env.actorId in r.policy.allowedActors.value)
    && (r.policy.allowedResources == None || r.env.resourceId in r.policy.allowedResources.value)
    && (r.policy.maxAmountMinor == None || (r.context.amountMinor.Some? && r.context.amountMinor.value <= r.policy.maxAmountMinor.value))
    && r.required == (if NeedsTwo(r) then 2 else 1)
    && r.createdAt < r.env.expiresAt && r.escalationAt == r.createdAt + r.policy.escalationTimeoutMs
    && r.expiresAt <= r.env.expiresAt && r.expiresAt <= r.createdAt + r.policy.approvalTtlMs
    && (r.expiresAt == r.env.expiresAt || r.expiresAt == r.createdAt + r.policy.approvalTtlMs)
  }

  /** The approver is not the actor, and neither its principal nor its key is the actor or
      the workload. */
  predicate Outsider(env: Envelope, a: Approver) {
    a.id != env.actorId && {a.principalId, a.independenceKey} !! {env.actorId, env.workloadId}
  }

  predicate OtherPerson(a: Approver, b: Approver) {
    !(a.id == b.id || a.principalId == b.principalId || a.independenceKey == b.independenceKey)
  }

  /** Every approval came from an outsider, before escalation and expiry, and from somebody
      else than the other approvals. */
  ghost predicate FairDecisions(r: Request, ds: seq<Decision>) {
    && (forall k :: 0 <= k < |ds| && ds[k].kind == Approve ==>
          Outsider(r.env, ds[k].approver) && ds[k].decidedAt < r.escalationAt && ds[k].decidedAt < r.expiresAt)
    && (forall j, k :: 0 <= j < k < |ds| && ds[j].kind == Approve && ds[k].kind == Approve ==> OtherPerson(ds[j].approver, ds[k].approver))
  }

  ghost predicate Fair(r: Request) {
    Terms(r) && FairDecisions(r, r.decisions) && (r.consumedAt.Some? ==> r.consumedAt.value < r.expiresAt)
  }

  ghost predicate AllFair(rs: seq<Request>) { forall i :: 0 <= i < |rs| ==> Fair(rs[i]) }

  /** Nothing that the terms speak of differs. */
  predicate SameTerms(r: Request, r': Request) {
    && r'.env == r.env && r'.context == r.context && r'.policy == r.policy && r'.required == r.required
    && r'.createdAt == r.createdAt && r'.expiresAt == r.expiresAt && r'.escalationAt == r.escalationAt
  }

  lemma StaysFair(r: Request, r': Request)
    requires Fair(r) && SameTerms(r, r') && r'.decisions == r.decisions
    requires r'.consumedAt == r.consumedAt || (r'.consumedAt.Some? && r'.consumedAt.value < r.expiresAt)
    ensures Fair(r')
  {
    hide Outsider, OtherPerson;
  }

  // ---------------------------------------------------------------- the operations

  /** What is left pending is before escalation and expiry, what is left approved before expiry. */
  lemma RefreshFair(b: Inbox, now: int)
    requires CoreInv(b) && AllFair(b.requests)
    ensures AllFair(Refresh(b, now).requests)
    ensures forall i :: 0 <= i < |b.requests| ==> Unexpired(Refresh(b, now).requests[i], now)
  {
    hide CoreInv, Fair, Refresh;
    RefreshKeeps(b, now);
    forall i | 0 <= i < |b.requests| ensures Fair(Refresh(b, now).requests[i]) && Unexpired(Refresh(b, now).requests[i], now) {
      StaysFair(b.requests[i], RefreshedRequest(b.requests[i], now));
    }
  }

  predicate Unexpired(r: Request, now: int) {
    (r.status == Pending ==> now < r.escalationAt && now < r.expiresAt) && (r.status == Approved ==> now < r.expiresAt)
  }

  lemma ReplacedFair(rs: seq<Request>, i: nat, r: Request)
    requires AllFair(rs) && i < |rs| && Fair(r)
    ensures AllFair(rs[i := r])
  {
    hide Fair;
  }

  lemma AskFair(b: Inbox, env: Envelope, p: Policy, c: Context, id: Id, now: int)
    requires CoreInv(b) && AllFair(b.requests) && RequestOp(b, env, p, c, id, now).Some?
    ensures AllFair(RequestOp(b, env, p, c, id, now).value.requests)
  {
    hide CoreInv, Fair, Refresh, Velocity, Audited, Known, ValidPolicy;
    RefreshFair(b, now);
    if !Known(Refresh(b, now).requests, env) { NewIsFair(b, env, p, c, id, now); }
  }

  lemma NewIsFair(b: Inbox, env: Envelope, p: Policy, c: Context, id: Id, now: int)
    requires env.expiresAt > now && ValidPolicy(p) && c.confidence <= 100 && Classify(env).Some? && Allowed(p, env, c, Refresh(b, now).requests, now, None)
    ensures Fair(NewRequest(env, p, c, id, now))
  {
    hide Refresh, Velocity;
  }

  lemma ApprovalIsFair(r: Request, a: Approver, now: int)
    requires Fair(r) && now < r.escalationAt && now < r.expiresAt && Independent(r.env, a)
    requires forall k :: 0 <= k < |r.decisions| && r.decisions[k].kind == Approve ==> Distinct(r.decisions[k].approver, a)
    ensures Fair(r.(decisions := r.decisions + [Decision(Approve, a, now)]))
  {
    var ds := r.decisions + [Decision(Approve, a, now)];
    hide Terms;
    forall j, k | 0 <= j < k < |ds| && ds[j].kind == Approve && ds[k].kind == Approve ensures OtherPerson(ds[j].approver, ds[k].approver) {
      if k == |r.decisions| { assert Distinct(r.decisions[j].approver, a); }
    }
    hide OtherPerson, Distinct;
    SameDecisions(r, r.(decisions := ds), ds);
  }

  lemma SameDecisions(r: Request, r': Request, ds: seq<Decision>)
    requires Terms(r) && SameTerms(r, r') && FairDecisions(r, ds)
    ensures Terms(r') && FairDecisions(r', ds)
  {
    hide Outsider, OtherPerson;
  }

  lemma ApproveFair(b: Inbox, id: Id, a: Approver, now: int)
    requires CoreInv(b) && AllFair(b.requests) && ApproveOp(b, id, a, now).Some?
    ensures AllFair(ApproveOp(b, id, a, now).value.requests)
  {
    hide CoreInv, Fair, Refresh, Audited, Independent, Distinct, Approvals, FindRequest;
    RefreshFair(b, now);
    var b1 := Refresh(b, now);
    var i := FindRequest(b1.requests, id);
    var r := b1.requests[i];
    ApprovalIsFair(r, a, now);
    var r1 := r.(decisions := r.decisions + [Decision(Approve, a, now)]);
    ReplacedFair(b1.requests, i, r1);
    var r2 := r1.(status := Approved, artifact := Some(ArtifactFor(r1, now)));
    StaysFair(r1, r2);
    ReplacedFair(b1.requests[i := r1], i, r2);
  }

  lemma VerdictIsFair(r: Request, d: Decision, status: Status)
    requires Fair(r) && d.kind != Approve
    ensures Fair(r.(decisions := r.decisions + [d], status := status))
  {
    var ds := r.decisions + [d];
    hide Terms, Outsider, OtherPerson;
    assert FairDecisions(r, ds);
    SameDecisions(r, r.(decisions := ds, status := status), ds);
  }

  lemma DecideFair(b: Inbox, id: Id, a: Approver, kind: DecisionKind, now: int)
    requires CoreInv(b) && AllFair(b.requests) && kind != Approve && DecideOp(b, id, a, kind, now).Some?
    ensures AllFair(DecideOp(b, id, a, kind, now).value.requests)
  {
    hide CoreInv, Fair, Refresh, Audited, FindRequest;
    RefreshFair(b, now);
    var b1 := Refresh(b, now);
    var i := FindRequest(b1.requests, id);
    VerdictIsFair(b1.requests[i], Decision(kind, a, now), if kind == Reject then Rejected else Revoked);
  }

  lemma EditFair(b: Inbox, e: Event)
    requires CoreInv(b) && AllFair(b.requests) && (e.Supersede? || e.Link?) && InboxEvent(b, e).Some?
    ensures AllFair(InboxEvent(b, e).value.requests)
  {
    hide CoreInv, Fair, Refresh, Audited, FindRequest;
    if e.Supersede? {
      RefreshFair(b, e.now);
      var b1 := Refresh(b, e.now);
      var r := b1.requests[FindRequest(b1.requests, e.id)];
      StaysFair(r, r.(status := Superseded));
    } else {
      var r := b.requests[FindRequest(b.requests, e.next)];
      StaysFair(r, r.(supersedes := Some(e.superseded)));
    }
  }

  lemma InboxEventFair(b: Inbox, e: Event)
    requires CoreInv(b) && AllFair(b.requests) && InboxEvent(b, e).Some?
    ensures AllFair(InboxEvent(b, e).value.requests)
  {
    if e.Supersede? || e.Link? { EditFair(b, e); }
    hide CoreInv, AllFair, RequestOp, ApproveOp, DecideOp, SupersedeOp, LinkOp;
    match e
    case Submit(env, p, c, id, now) => AskFair(b, env, p, c, id, now);
    case ApproveBy(id, a, now) => ApproveFair(b, id, a, now);
    case RejectBy(id, a, now) => DecideFair(b, id, a, Reject, now);
    case RevokeBy(id, a, now) => DecideFair(b, id, a, Revoke, now);
    case Look(now) => RefreshFair(b, now);
    case _ =>
  }

  // ---------------------------------------------------------------- every run

  ghost predicate FairSys(s: Sys) { AllFair(s.inbox.requests) && (s.proc.Running? ==> AllFair(s.proc.mem.requests)) }

  lemma BeginFair(s: Sys, e: Event)
    requires Inv(s) && FairSys(s) && s.proc.Idle? && e.Begin?
    ensures FairSys(Apply(s, e))
  {
    hide Fair, Refresh, Allowed, RequiredApprovals, ValidPolicy, ValidInbox, FindRequest, Audited, CoreInv, StoreInv, ExecutedInv, StartedInv, ReturnedInv;
    RefreshFair(s.inbox, e.now);
    var mem := Refresh(s.inbox, e.now);
    var i := FindRequest(mem.requests, e.id);
    if i < |mem.requests| && mem.requests[i].status == Approved {
      var r := mem.requests[i];
      StaysFair(r, r.(consumedAt := Some(e.now), status := Executing));
    }
  }

  lemma ProcessFair(s: Sys, e: Event)
    requires Inv(s) && FairSys(s) && s.proc.Running?
    ensures FairSys(ProcessEvent(s, e))
  {
    hide Fair, Inv, SubmitStep, ResumeStep, AttemptStep, AdapterDoneStep, VerifyStep, Audited, ValidInbox, Latest;
    if !e.Finish? && !e.CatchWrite? { SameMem(s, e); }
    else if s.proc.i < |s.proc.mem.requests| {
      var r := s.proc.mem.requests[s.proc.i];
      var rs, i := s.proc.mem.requests, s.proc.i;
      if e.Finish? && s.proc.phase.Done? {
        var r' := r.(status := Executed, receiptHash := Some(s.proc.phase.receipt.hash));
        StaysFair(r, r');
        ReplacedFair(rs, i, r');
      } else {
        StaysFair(r, r.(status := ExecutionFailed));
        ReplacedFair(rs, i, r.(status := ExecutionFailed));
      }
    }
  }

  /** The gateway's part neither touches the inbox nor the working copy. */
  lemma SameMem(s: Sys, e: Event)
    requires s.proc.Running? && !e.Finish? && !e.CatchWrite?
    ensures var s' := ProcessEvent(s, e);
      s'.inbox == s.inbox && (s'.proc.Running? ==> s'.proc.mem == s.proc.mem && s'.proc.i == s.proc.i && s'.proc.replay == s.proc.replay)
  {
    hide ProvenanceActive, ApprovalFits, RecordOk, Latest, Appended, CreateReceipt;
  }

  lemma StepFair(s: Sys, e: Event)
    requires Inv(s) && FairSys(s)
    ensures FairSys(Apply(s, e))
  {
    hide AllFair, ProcessEvent, BeginStep, InboxEvent, StoreInv, ExecutedInv, StartedInv, ReturnedInv, ProcInv, ValidInbox;
    if e.Crash? {
    } else if s.proc.Running? {
      ProcessFair(s, e);
    } else if e.Begin? {
      BeginFair(s, e);
    } else if InboxEvent(s.inbox, e).Some? {
      InboxEventFair(s.inbox, e);
    }
  }

  /** In every reachable state every request was created on its policy's terms, and its
      approvals and its consumption kept to them. */
  lemma {:induction false} RequestsAreFair(es: seq<Event>)
    ensures FairSys(Run(INITIAL, es))
  {
    hide Apply, Inv, Fair;
    if es != [] {
      RequestsAreFair(es[..|es| - 1]);
      RunInv(es[..|es| - 1]);
      StepFair(Run(INITIAL, es[..|es| - 1]), es[|es| - 1]);
    }
  }
}
