/** Exactly when each operation of the inbox goes through, and what it then leaves, in every
    reachable state. */
module InboxAnswers {
  import opened Options
  import opened ApprovalInbox
  import opened InboxLifecycle
  import opened ApprovedExecution
  import opened RequestTerms
  import opened ExecutionSafety

  /** A live request of the actor, other than this one, created since. */
  predicate IsRecent(r: Request, actor: Id, since: int, but: Option<Id>) {
    r.env.actorId == actor && since <= r.createdAt && r.status != Superseded && but != Some(r.id)
  }

  ghost function Recent(rs: seq<Request>, actor: Id, since: int, but: Option<Id>): set<nat> {
    set i | 0 <= i < |rs| && IsRecent(rs[i], actor, since, but)
  }

  lemma RecentGrows(rs: seq<Request>, r: Request, actor: Id, since: int, but: Option<Id>)
    ensures Recent(rs + [r], actor, since, but) == Recent(rs, actor, since, but) + (if IsRecent(r, actor, since, but) then {|rs|} else {})
    ensures |rs| !in Recent(rs, actor, since, but)
  {
    hide IsRecent;
  }

  lemma {:induction false} VelocityCounts(rs: seq<Request>, actor: Id, since: int, but: Option<Id>)
    ensures Velocity(rs, actor, since, but) == |Recent(rs, actor, since, but)|
  {
    if rs != [] {
      var n := |rs| - 1;
      VelocityCounts(rs[..n], actor, since, but);
      RecentGrows(rs[..n], rs[n], actor, since, but);
      assert rs == rs[..n] + [rs[n]];
      assert IsRecent(rs[n], actor, since, but) <==> Counts(rs[n], actor, since, but);
      hide Recent, IsRecent, Counts;
    } else {
      assert Recent(rs, actor, since, but) == {};
    }
  }

  /** A refresh supersedes nothing. */
  lemma RecentSurvives(b: Inbox, now: int, actor: Id, since: int, but: Option<Id>)
    requires CoreInv(b)
    ensures Recent(Refresh(b, now).requests, actor, since, but) == Recent(b.requests, actor, since, but)
  {
    hide CoreInv, Refresh;
    RefreshKeeps(b, now);
  }

  lemma SameChecks(env: Envelope, a: Approver, b: Approver)
    ensures Independent(env, a) <==> Outsider(env, a)
    ensures Distinct(a, b) <==> OtherPerson(a, b)
  {
  }

  /** Position i is where the refreshed inbox finds the request. */
  lemma FoundAt(b: Inbox, i: nat, now: int)
    requires InboxInv(b) && i < |b.requests|
    ensures FindRequest(Refresh(b, now).requests, b.requests[i].id) == i
    ensures Refresh(b, now).requests[i] == RefreshedRequest(b.requests[i], now)
  {
    hide RequestOk, ChainOk, Good, Refresh, RefreshedRequest;
    RefreshKeeps(b, now);
    assert CoreInv(Refresh(b, now));
    var rs, j := Refresh(b, now).requests, FindRequest(Refresh(b, now).requests, b.requests[i].id);
    assert Later(b.requests[i], rs[i]);
    assert rs[i].id == b.requests[i].id;
  }

  // ---------------------------------------------------------------- approving

  /** Nobody who approved so far is this approver in another guise. */
  ghost predicate NewPerson(r: Request, a: Approver) {
    forall k :: 0 <= k < |r.decisions| && r.decisions[k].kind == Approve ==> OtherPerson(r.decisions[k].approver, a)
  }

  /** The decision is there; with one approval enough, or a second one, so is the artifact. */
  ghost predicate TookApproval(r: Request, r': Request, a: Approver, now: int) {
    && r'.decisions == r.decisions + [Decision(Approve, a, now)]
    && r'.status == (if NeedsTwo(r) && r.decisions == [] then Pending else Approved)
    && r'.artifact == (if r'.status == Pending then None else Some(Artifact(r.id, ActionDigest(r.env), INBOX_ID, now, r.expiresAt)))
  }

  /** A pending request takes an approval exactly from an outsider who has not approved yet,
      before escalation and expiry. The artifact is issued with the first approval, or with
      the second where two people must approve. */
  lemma ApprovalDecides(es: seq<Event>, i: nat, a: Approver, now: int)
    requires i < |After(es).inbox.requests| && After(es).inbox.requests[i].status == Pending
    ensures var r, next := After(es).inbox.requests[i], ApproveOp(After(es).inbox, After(es).inbox.requests[i].id, a, now);
      && (next.Some? <==> now < r.escalationAt && now < r.expiresAt && Outsider(r.env, a) && NewPerson(r, a))
      && (next.Some? ==> |next.value.requests| == |After(es).inbox.requests| && TookApproval(r, next.value.requests[i], a, now))
  {
    hide Run, Inv, InboxInv, AllFair, Refresh, FindRequest, ApproveOp, NewPerson, Outsider, AllApprove;
    var b := After(es).inbox;
    Reachable(es);
    hide After;
    FoundAt(b, i, now);
    PendingFacts(b, i);
    ApprovalFrom(b, i, a, now);
  }

  lemma AgainIsKnown(r: Request, a: Approver)
    ensures (exists k :: 0 <= k < |r.decisions| && r.decisions[k].kind == Approve && !Distinct(r.decisions[k].approver, a)) <==> !NewPerson(r, a)
    ensures Independent(r.env, a) <==> Outsider(r.env, a)
  {
    SameChecks(r.env, a, a);
    forall k | 0 <= k < |r.decisions| ensures Distinct(r.decisions[k].approver, a) <==> OtherPerson(r.decisions[k].approver, a) {
      SameChecks(r.env, r.decisions[k].approver, a);
    }
    hide Distinct, OtherPerson;
  }

  lemma ApprovalFrom(b: Inbox, i: nat, a: Approver, now: int)
    requires i < |b.requests| && b.requests[i].status == Pending
    requires FindRequest(Refresh(b, now).requests, b.requests[i].id) == i && Refresh(b, now).requests[i] == RefreshedRequest(b.requests[i], now)
    requires var r := b.requests[i];
      AllApprove(r.decisions) && r.artifact == None && |r.decisions| < r.required && r.required == if NeedsTwo(r) then 2 else 1
    ensures var r, next := b.requests[i], ApproveOp(b, b.requests[i].id, a, now);
      && (next.Some? <==> now < r.escalationAt && now < r.expiresAt && Outsider(r.env, a) && NewPerson(r, a))
      && (next.Some? ==> |next.value.requests| == |b.requests| && TookApproval(r, next.value.requests[i], a, now))
  {
    var r := b.requests[i];
    AgainIsKnown(r, a);
    var ds := r.decisions + [Decision(Approve, a, now)];
    assert AllApprove(ds);
    ApprovalsAll(ds);
    hide ApproveOp, Refresh, FindRequest, Independent, Outsider, NewPerson, Approvals, AllApprove, NeedsTwo;
    ApprovalTaken(b, i, a, now);
  }

  /** The operation on the request it finds. */
  lemma ApprovalTaken(b: Inbox, i: nat, a: Approver, now: int)
    requires i < |b.requests| && FindRequest(Refresh(b, now).requests, b.requests[i].id) == i
    ensures var r, next := Refresh(b, now).requests[i], ApproveOp(b, b.requests[i].id, a, now);
      && (next.Some? <==> r.status == Pending && Independent(r.env, a)
                          && !exists k :: 0 <= k < |r.decisions| && r.decisions[k].kind == Approve && !Distinct(r.decisions[k].approver, a))
      && (next.Some? ==> |next.value.requests| == |b.requests| && next.value.requests[i] == WithApproval(r, a, now))
  {
    hide Refresh, FindRequest, Audited, Independent, Distinct, Approvals;
  }

  function WithApproval(r: Request, a: Approver, now: int): Request {
    var r1 := r.(decisions := r.decisions + [Decision(Approve, a, now)]);
    if Approvals(r1.decisions) >= r1.required then r1.(status := Approved, artifact := Some(ArtifactFor(r1, now))) else r1
  }

  lemma Reachable(es: seq<Event>)
    ensures InboxInv(After(es).inbox) && AllFair(After(es).inbox.requests)
  {
    hide Run, AllFair, InboxInv, StoreInv, ExecutedInv, StartedInv, ReturnedInv, ProcInv;
    RunInv(es);
    RequestsAreFair(es);
  }

  lemma PendingFacts(b: Inbox, i: nat)
    requires InboxInv(b) && AllFair(b.requests) && i < |b.requests| && b.requests[i].status == Pending
    ensures var r := b.requests[i];
      && AllApprove(r.decisions) && r.artifact == None && |r.decisions| < r.required && r.required == if NeedsTwo(r) then 2 else 1
  {
    hide ValidInbox, TrailTells, Unique, ChainOk, IndependentApprovals, FairDecisions;
    assert Good(b.requests[i]) && Fair(b.requests[i]);
  }

  // ---------------------------------------------------------------- rejecting, revoking, editing

  /** Waiting for approval or for execution, and not out of time. */
  predicate Open(r: Request, now: int) {
    (r.status == Pending && now < r.escalationAt && now < r.expiresAt) || (r.status == Approved && now < r.expiresAt)
  }

  ghost predicate TookVerdict(r: Request, r': Request, a: Approver, kind: DecisionKind, now: int) {
    r'.decisions == r.decisions + [Decision(kind, a, now)] && r'.status == if kind == Reject then Rejected else Revoked
  }

  /** A request is rejected or revoked exactly while it is open, and then ends as asked. */
  lemma VerdictDecides(es: seq<Event>, i: nat, a: Approver, kind: DecisionKind, now: int)
    requires i < |After(es).inbox.requests| && kind != Approve
    ensures var r, next := After(es).inbox.requests[i], DecideOp(After(es).inbox, After(es).inbox.requests[i].id, a, kind, now);
      && (next.Some? <==> Open(r, now))
      && (next.Some? ==> |next.value.requests| == |After(es).inbox.requests| && TookVerdict(r, next.value.requests[i], a, kind, now))
  {
    hide Run, Inv;
    Reachable(es);
    FoundAt(After(es).inbox, i, now);
    hide InboxInv, AllFair, Refresh, Audited, FindRequest;
  }

  /** A request can be edited exactly as long as its approval has not been consumed. */
  lemma EditDecides(es: seq<Event>, i: nat, a: Approver, now: int)
    requires i < |After(es).inbox.requests|
    ensures var r, next := After(es).inbox.requests[i], SupersedeOp(After(es).inbox, After(es).inbox.requests[i].id, a, now);
      && (next.Some? <==> r.consumedAt == None)
      && (next.Some? ==> |next.value.requests| == |After(es).inbox.requests| && next.value.requests[i].status == Superseded)
  {
    hide Run, Inv;
    Reachable(es);
    var b := After(es).inbox;
    FoundAt(b, i, now);
    assert b.requests[i].consumedAt.Some? <==> Consumed(b.requests[i].status) by {
      hide ValidInbox, TrailTells, Unique, ChainOk;
      assert Good(b.requests[i]);
    }
    hide InboxInv, AllFair, Refresh, Audited, FindRequest;
  }

  // ---------------------------------------------------------------- asking

  /** What a policy lets a new request do. */
  predicate Permits(p: Policy, env: Envelope, c: Context) {
    && env.operation == "synthetic.subscription_failure" && env.environment in p.allowedEnvironments
    && (p.allowedActors == None || env.actorId in p.allowedActors.value)
    && (p.allowedResources == None || env.resourceId in p.allowedResources.value)
    && (p.maxAmountMinor == None || (c.amountMinor.Some? && c.amountMinor.value <= p.maxAmountMinor.value))
  }

  /** For an action without a live request, a new one is made exactly when the action is not
      expired, policy and context are in bounds, the policy permits it, and the actor made
      fewer than the allowed number of requests in the window. It starts out pending. */
  lemma AskingDecides(es: seq<Event>, env: Envelope, p: Policy, c: Context, id: Id, now: int)
    requires forall i :: 0 <= i < |After(es).inbox.requests| && After(es).inbox.requests[i].env == env ==> After(es).inbox.requests[i].status == Superseded
    ensures var rs, next := After(es).inbox.requests, RequestOp(After(es).inbox, env, p, c, id, now);
      && (next.Some? <==> now < env.expiresAt && Bounded(p) && c.confidence <= 100 && Permits(p, env, c)
                          && |Recent(rs, env.actorId, now - p.windowMs, None)| < p.maxActions)
      && (next.Some? ==> |next.value.requests| == |rs| + 1 && StartsOut(next.value.requests[|rs|], env, p, c, id, now))
  {
    hide Run, Inv, InboxInv, AllFair;
    Reachable(es);
    hide After;
    var b := After(es).inbox;
    Unknown(b, env, now);
    RecentAfter(b, now, env.actorId, now - p.windowMs, None);
    SameBounds(p);
    hide Refresh, Audited, Velocity, Recent, Bounded, ValidPolicy, Known, StartsOut, NewRequest;
    AskedFrom(b, env, p, c, id, now);
  }

  ghost predicate StartsOut(r: Request, env: Envelope, p: Policy, c: Context, id: Id, now: int) {
    && r.id == id && r.env == env && r.policy == p && r.context == c && r.status == Pending && r.createdAt == now
    && Fair(r) && r.decisions == [] && r.artifact == None && r.consumedAt == None && r.receiptHash == None
  }

  lemma SameBounds(p: Policy)
    ensures Bounded(p) <==> ValidPolicy(p)
  {
  }

  lemma Unknown(b: Inbox, env: Envelope, now: int)
    requires InboxInv(b) && forall i :: 0 <= i < |b.requests| && b.requests[i].env == env ==> b.requests[i].status == Superseded
    ensures !Known(Refresh(b, now).requests, env)
  {
    hide ValidInbox, CoreInv, Refresh;
    RefreshKeeps(b, now);
  }

  lemma RecentAfter(b: Inbox, now: int, actor: Id, since: int, but: Option<Id>)
    requires InboxInv(b)
    ensures Velocity(Refresh(b, now).requests, actor, since, but) == |Recent(b.requests, actor, since, but)|
  {
    hide ValidInbox, CoreInv, Refresh, Velocity, Recent;
    RecentSurvives(b, now, actor, since, but);
    VelocityCounts(Refresh(b, now).requests, actor, since, but);
  }

  lemma AskedFrom(b: Inbox, env: Envelope, p: Policy, c: Context, id: Id, now: int)
    requires !Known(Refresh(b, now).requests, env)
    ensures var next := RequestOp(b, env, p, c, id, now);
      && (next.Some? <==> now < env.expiresAt && ValidPolicy(p) && c.confidence <= 100 && Permits(p, env, c)
                          && Velocity(Refresh(b, now).requests, env.actorId, now - p.windowMs, None) < p.maxActions)
      && (next.Some? ==> |next.value.requests| == |b.requests| + 1 && StartsOut(next.value.requests[|b.requests|], env, p, c, id, now))
  {
    hide Refresh, Audited, Velocity, ValidPolicy, Known, Fair;
    if RequestOp(b, env, p, c, id, now).Some? { NewIsFair(b, env, p, c, id, now); }
  }

  /** An action with a live request gets that one back. */
  lemma AskingAgain(es: seq<Event>, env: Envelope, p: Policy, c: Context, id: Id, now: int, i: nat)
    requires i < |After(es).inbox.requests| && After(es).inbox.requests[i].env == env && After(es).inbox.requests[i].status != Superseded
    requires now < env.expiresAt && Bounded(p) && c.confidence <= 100
    ensures RequestOp(After(es).inbox, env, p, c, id, now) == Some(Refresh(After(es).inbox, now))
  {
    hide Run, Inv;
    var b := After(es).inbox;
    Reachable(es);
    RefreshKeeps(b, now) by { hide Good, TrailTells, Unique, ChainOk, ValidInbox; }
    assert Refresh(b, now).requests[i] == RefreshedRequest(b.requests[i], now);
    assert Known(Refresh(b, now).requests, env);
    hide InboxInv, AllFair, Refresh;
  }

  // ---------------------------------------------------------------- executing

  /** What is written when an approved request is consumed. */
  ghost function Consuming(b: Inbox, i: nat, now: int): Inbox
    requires i < |b.requests|
  {
    var mem := Refresh(b, now);
    Moved(mem, i, mem.requests[i].(consumedAt := Some(now), status := Executing), ArtifactConsumed, mem.requests[i].env.actorId, now, None)
  }

  /** An execution begins exactly when the caller is the request's actor and workload under
      its policy, the actor's other recent requests leave room, and the request is executed
      or executing already, or approved, not expired and its consumption can be written. */
  lemma BeginningDecides(es: seq<Event>, e: Event, i: nat)
    requires e.Begin? && After(es).proc.Idle? && i < |After(es).inbox.requests| && After(es).inbox.requests[i].id == e.id
    ensures var s, r := After(es), After(es).inbox.requests[i];
      Apply(s, e).proc.Running? <==>
        && e.actorId == r.env.actorId && e.workloadId == r.env.workloadId && e.policy == r.policy
        && |Recent(s.inbox.requests, r.env.actorId, e.now - r.policy.windowMs, Some(r.id))| < r.policy.maxActions
        && (r.status == Executing || r.status == Executed
            || (r.status == Approved && e.now < r.expiresAt && ValidInbox(Consuming(s.inbox, i, e.now))))
  {
    hide Run, Inv, InboxInv, AllFair, Refresh, Velocity, Recent, FindRequest, ValidInbox, Moved;
    var s := After(es);
    var b, r := s.inbox, s.inbox.requests[i];
    Reachable(es);
    hide After;
    FoundAt(b, i, e.now);
    RequestFacts(b, i);
    RecentAfter(b, e.now, r.env.actorId, e.now - r.policy.windowMs, Some(r.id));
    BeginningFrom(s, e, i);
  }

  lemma BeginningFrom(s: Sys, e: Event, i: nat)
    requires e.Begin? && s.proc.Idle? && i < |s.inbox.requests| && s.inbox.requests[i].id == e.id
    requires FindRequest(Refresh(s.inbox, e.now).requests, e.id) == i
    requires Refresh(s.inbox, e.now).requests[i] == RefreshedRequest(s.inbox.requests[i], e.now)
    requires Executable(s.inbox.requests[i])
    ensures var r := s.inbox.requests[i];
      Apply(s, e).proc.Running? <==>
        && e.actorId == r.env.actorId && e.workloadId == r.env.workloadId && e.policy == r.policy
        && Velocity(Refresh(s.inbox, e.now).requests, r.env.actorId, e.now - r.policy.windowMs, Some(r.id)) < r.policy.maxActions
        && (r.status == Executing || r.status == Executed
            || (r.status == Approved && e.now < r.expiresAt && ValidInbox(Consuming(s.inbox, i, e.now))))
  {
    hide Refresh, Velocity, FindRequest, ValidInbox, Moved, ValidPolicy, RequiredApprovals;
  }

  /** What is known of a stored request when it is to be executed. */
  ghost predicate Executable(r: Request) {
    && ValidPolicy(r.policy) && RequiredApprovals(r.policy, r.env, r.context) == r.required && Permits(r.policy, r.env, r.context)
    && (r.consumedAt.Some? <==> Consumed(r.status))
    && (r.status == Approved || r.status == Executing || r.status == Executed ==> r.artifact.Some?)
  }

  lemma RequestFacts(b: Inbox, i: nat)
    requires InboxInv(b) && AllFair(b.requests) && i < |b.requests|
    ensures Executable(b.requests[i])
  {
    hide ValidInbox, TrailTells, Unique, ChainOk, IndependentApprovals, FairDecisions, AllApprove;
    assert Good(b.requests[i]) && Fair(b.requests[i]);
  }
}
