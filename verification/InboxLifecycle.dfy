/** What every operation of the approval inbox keeps, request by request and for the
    audit trail as a whole. */
module InboxLifecycle {
  import opened Options
  import opened ApprovalInbox

  // ---------------------------------------------------------------- per request

  ghost predicate AllApprove(ds: seq<Decision>) {
    forall k :: 0 <= k < |ds| ==> ds[k].kind == Approve
  }

  /** Approvals by pairwise distinct people, none of them the actor or its workload. */
  ghost predicate IndependentApprovals(r: Request) {
    && (forall k :: 0 <= k < |r.decisions| && r.decisions[k].kind == Approve ==> Independent(r.env, r.decisions[k].approver))
    && (forall j, k :: 0 <= j < k < |r.decisions| && r.decisions[j].kind == Approve && r.decisions[k].kind == Approve
          ==> Distinct(r.decisions[j].approver, r.decisions[k].approver))
  }

  ghost predicate HasArtifact(r: Request) {
    r.artifact.Some? && r.artifact.value == ArtifactFor(r, r.artifact.value.approvedAt)
  }

  ghost predicate StatusFits(r: Request) {
    var n := |r.decisions|;
    match r.status
    case Pending => AllApprove(r.decisions) && n < r.required && r.artifact.None?
    case TimedOut => AllApprove(r.decisions) && n < r.required
    case Expired => AllApprove(r.decisions) && n <= r.required
    case Rejected => n > 0 && r.decisions[n - 1].kind == Reject
    case Revoked => n > 0 && r.decisions[n - 1].kind == Revoke
    case Superseded => true
    case _ => AllApprove(r.decisions) && n == r.required && HasArtifact(r)
  }

  /** A request as the operations leave it: at most one decision beyond the approvals, the
      approvals independent, and consumption recorded exactly for started executions. */
  ghost predicate Good(r: Request) {
    && 1 <= r.required <= 2
    && |r.decisions| <= r.required + 1
    && (|r.decisions| > 0 ==> AllApprove(r.decisions[..|r.decisions| - 1]))
    && IndependentApprovals(r)
    && StatusFits(r) && (r.artifact.Some? ==> HasArtifact(r))
    && (r.consumedAt.Some? <==> Consumed(r.status))
    && (r.receiptHash.Some? ==> r.status == Executed || r.status == ExecutionFailed)
    && (r.status == Executed ==> r.receiptHash.Some?)
  }

  /** The audit trail, replayed, yields every request's status. */
  ghost predicate TrailTells(b: Inbox) {
    forall i :: 0 <= i < |b.requests| ==> Replayed(b.audit, b.requests[i].id) == Some(b.requests[i].status)
  }

  ghost predicate CoreInv(b: Inbox) {
    && (forall i :: 0 <= i < |b.requests| ==> Good(b.requests[i]))
    && TrailTells(b) && Unique(b.requests) && ChainOk(b.audit)
  }

  ghost predicate InboxInv(b: Inbox) { ValidInbox(b) && CoreInv(b) }

  // ---------------------------------------------------------------- how a request evolves

  function Rank(s: Status): nat {
    match s
    case Pending => 0
    case Approved => 1
    case Executing | Rejected | Revoked | TimedOut | Expired => 2
    case Executed | ExecutionFailed | Superseded => 3
  }

  predicate Dead(s: Status) { s in {Rejected, Revoked, TimedOut, Expired, Superseded} }

  ghost predicate Later(r: Request, r': Request) {
    && r'.id == r.id && r'.env == r.env && r'.createdAt == r.createdAt && r'.expiresAt == r.expiresAt
    && r'.escalationAt == r.escalationAt && r'.required == r.required && r'.policy == r.policy
    && r.decisions <= r'.decisions
    && (r'.status == r.status || Rank(r.status) < Rank(r'.status))
    && (Dead(r.status) ==> Dead(r'.status))
    && (r.status == Superseded ==> r'.status == Superseded)
    && (Consumed(r.status) ==> Consumed(r'.status) && r'.artifact == r.artifact)
    && (r.status == Executed ==> r'.status == Executed && r'.receiptHash == r.receiptHash)
  }

  ghost predicate AllLater(rs: seq<Request>, rs': seq<Request>) {
    |rs| <= |rs'| && forall i :: 0 <= i < |rs| ==> Later(rs[i], rs'[i])
  }

  lemma LaterReflexive(rs: seq<Request>)
    ensures AllLater(rs, rs)
  {
  }

  lemma LaterTransitive(a: seq<Request>, b: seq<Request>, c: seq<Request>)
    requires AllLater(a, b) && AllLater(b, c)
    ensures AllLater(a, c)
  {
    forall i | 0 <= i < |a| ensures Later(a[i], c[i]) { assert Later(a[i], b[i]) && Later(b[i], c[i]); }
  }

  // ---------------------------------------------------------------- audit trail

  lemma AuditedKeeps(audit: seq<AuditRecord>, event: AuditEvent, r: Request, actor: Id, now: int, receipt: Option<Digest>, id: Id)
    requires ChainOk(audit)
    ensures ChainOk(Audited(audit, event, r, actor, now, receipt))
    ensures Replayed(Audited(audit, event, r, actor, now, receipt), id)
         == if id == r.id then StatusOfEvent(event, Replayed(audit, id)) else Replayed(audit, id)
  {
    var after := Audited(audit, event, r, actor, now, receipt);
    assert after[..|after| - 1] == audit;
  }

  /** One audited change of one request keeps the trail telling the truth. */
  lemma MovedKeeps(b: Inbox, i: nat, r: Request, event: AuditEvent, actor: Id, now: int, receipt: Option<Digest>)
    requires i < |b.requests| && TrailTells(b) && Unique(b.requests) && ChainOk(b.audit)
    requires r.id == b.requests[i].id && r.env == b.requests[i].env
    requires StatusOfEvent(event, Some(b.requests[i].status)) == Some(r.status)
    ensures var b' := Moved(b, i, r, event, actor, now, receipt);
            TrailTells(b') && Unique(b'.requests) && ChainOk(b'.audit)
  {
    hide Replayed, ChainOk, Audited, StatusOfEvent;
    var b' := Moved(b, i, r, event, actor, now, receipt);
    AuditedKeeps(b.audit, event, r, actor, now, receipt, r.id);
    forall j | 0 <= j < |b'.requests| ensures Replayed(b'.audit, b'.requests[j].id) == Some(b'.requests[j].status) {
      AuditedKeeps(b.audit, event, r, actor, now, receipt, b'.requests[j].id);
    }
  }

  lemma MovedCore(b: Inbox, i: nat, r: Request, event: AuditEvent, actor: Id, now: int, receipt: Option<Digest>)
    requires i < |b.requests| && CoreInv(b) && Good(r)
    requires r.id == b.requests[i].id && r.env == b.requests[i].env
    requires StatusOfEvent(event, Some(b.requests[i].status)) == Some(r.status)
    ensures CoreInv(Moved(b, i, r, event, actor, now, receipt))
  {
    hide Replayed, ChainOk, Audited, StatusOfEvent, Good;
    MovedKeeps(b, i, r, event, actor, now, receipt);
  }

  // ---------------------------------------------------------------- refresh

  function RefreshedRequest(r: Request, now: int): Request {
    if r.status == Pending && now >= r.escalationAt then r.(status := TimedOut)
    else if (r.status == Pending || r.status == Approved) && now >= r.expiresAt then r.(status := Expired)
    else r
  }

  lemma RefreshedGood(r: Request, now: int)
    requires Good(r)
    ensures Good(RefreshedRequest(r, now)) && Later(r, RefreshedRequest(r, now))
  {
  }

  lemma RefreshOneKeeps(b: Inbox, i: nat, now: int)
    requires i < |b.requests| && CoreInv(b)
    ensures CoreInv(RefreshOne(b, i, now))
    ensures RefreshOne(b, i, now).requests == b.requests[i := RefreshedRequest(b.requests[i], now)]
  {
    hide Good, Replayed, ChainOk, Audited, Unique;
    var r := RefreshedRequest(b.requests[i], now);
    assert Good(b.requests[i]);
    RefreshedGood(b.requests[i], now);
    if r != b.requests[i] {
      MovedCore(b, i, r, if r.status == TimedOut then RequestTimedOut else RequestExpired, INBOX_ID, now, None);
    }
  }

  lemma {:induction false} RefreshUpToKeeps(b: Inbox, n: nat, now: int)
    requires n <= |b.requests| && CoreInv(b)
    ensures CoreInv(RefreshUpTo(b, n, now))
    ensures forall i :: 0 <= i < |b.requests| ==>
      RefreshUpTo(b, n, now).requests[i] == if i < n then RefreshedRequest(b.requests[i], now) else b.requests[i]
  {
    hide CoreInv, RefreshOne, RefreshedRequest;
    if n > 0 {
      RefreshUpToKeeps(b, n - 1, now);
      RefreshOneKeeps(RefreshUpTo(b, n - 1, now), n - 1, now);
    }
  }

  lemma RefreshKeeps(b: Inbox, now: int)
    requires CoreInv(b)
    ensures CoreInv(Refresh(b, now)) && AllLater(b.requests, Refresh(b, now).requests)
    ensures forall i :: 0 <= i < |b.requests| ==> Refresh(b, now).requests[i] == RefreshedRequest(b.requests[i], now)
  {
    hide Good, Later, RefreshedRequest;
    RefreshUpToKeeps(b, |b.requests|, now);
    forall i | 0 <= i < |b.requests| ensures Later(b.requests[i], Refresh(b, now).requests[i]) {
      assert Good(b.requests[i]);
      RefreshedGood(b.requests[i], now);
    }
  }

  // ---------------------------------------------------------------- the operations

  lemma {:induction false} ApprovalsAll(ds: seq<Decision>)
    requires AllApprove(ds)
    ensures Approvals(ds) == |ds|
  {
    if ds != [] { ApprovalsAll(ds[..|ds| - 1]); }
  }

  /** What an operation promises about the store it would write. */
  ghost predicate Keeps(b: Inbox, b': Inbox) {
    CoreInv(b') && AllLater(b.requests, b'.requests) && NothingConsumed(b.requests, b'.requests)
  }

  /** Whoever has consumed an approval afterwards had done so before, with the same receipt. */
  ghost predicate NothingConsumed(rs: seq<Request>, rs': seq<Request>) {
    forall i :: 0 <= i < |rs'| && Consumed(rs'[i].status) ==>
      i < |rs| && rs[i].status == rs'[i].status && rs[i].receiptHash == rs'[i].receiptHash
  }

  /** Replacing one request by a later good one, with its audit event, after a refresh. */
  lemma RefreshThenMove(b: Inbox, i: nat, r: Request, event: AuditEvent, actor: Id, now: int, receipt: Option<Digest>)
    requires CoreInv(b) && i < |b.requests|
    requires var r0 := Refresh(b, now).requests[i]; Later(r0, r) && StatusOfEvent(event, Some(r0.status)) == Some(r.status)
    requires Good(r) && !Consumed(r.status)
    ensures Keeps(b, Moved(Refresh(b, now), i, r, event, actor, now, receipt))
  {
    hide Good, Replayed, ChainOk, Audited, StatusOfEvent, RefreshUpTo, Unique;
    RefreshKeeps(b, now);
    var b1 := Refresh(b, now);
    MovedCore(b1, i, r, event, actor, now, receipt);
    var b2 := Moved(b1, i, r, event, actor, now, receipt);
    forall j | 0 <= j < |b1.requests| ensures Later(b1.requests[j], b2.requests[j]) {}
    LaterTransitive(b.requests, b1.requests, b2.requests);
  }

  lemma ApprovedGood(r: Request, a: Approver, now: int)
    requires Good(r) && r.status == Pending && Independent(r.env, a)
    requires forall k :: 0 <= k < |r.decisions| && r.decisions[k].kind == Approve ==> Distinct(r.decisions[k].approver, a)
    ensures var r1 := r.(decisions := r.decisions + [Decision(Approve, a, now)]);
      if Approvals(r1.decisions) >= r1.required
      then var r2 := r1.(status := Approved, artifact := Some(ArtifactFor(r1, now))); Good(r2) && Later(r, r2)
      else Good(r1) && Later(r, r1)
  {
    var r1 := r.(decisions := r.decisions + [Decision(Approve, a, now)]);
    ApprovalAdded(r, r1, a, now);
    ApprovalsAll(r1.decisions);
    hide Good, Later, IndependentApprovals, AllApprove, Approvals, Independent, Distinct;
    if |r1.decisions| >= r1.required { Complete(r, r1, now); } else { StillPending(r, r1); }
  }

  lemma Complete(r: Request, r1: Request, now: int)
    requires Good(r) && r.status == Pending && |r1.decisions| == |r.decisions| + 1 && r.decisions <= r1.decisions
    requires r1 == r.(decisions := r1.decisions) && |r1.decisions| >= r1.required
    requires IndependentApprovals(r1) && AllApprove(r1.decisions) && AllApprove(r1.decisions[..|r1.decisions| - 1])
    ensures var r2 := r1.(status := Approved, artifact := Some(ArtifactFor(r1, now))); Good(r2) && Later(r, r2)
  {
    hide IndependentApprovals, AllApprove;
    SameApprovals(r1, r1.(status := Approved, artifact := Some(ArtifactFor(r1, now))));
  }

  lemma StillPending(r: Request, r1: Request)
    requires Good(r) && r.status == Pending && |r1.decisions| == |r.decisions| + 1 && r.decisions <= r1.decisions
    requires r1 == r.(decisions := r1.decisions) && |r1.decisions| < r1.required
    requires IndependentApprovals(r1) && AllApprove(r1.decisions) && AllApprove(r1.decisions[..|r1.decisions| - 1])
    ensures Good(r1) && Later(r, r1)
  {
    hide IndependentApprovals, AllApprove;
  }

  lemma ApprovalAdded(r: Request, r1: Request, a: Approver, now: int)
    requires IndependentApprovals(r) && AllApprove(r.decisions) && Independent(r.env, a)
    requires forall k :: 0 <= k < |r.decisions| && r.decisions[k].kind == Approve ==> Distinct(r.decisions[k].approver, a)
    requires r1 == r.(decisions := r.decisions + [Decision(Approve, a, now)])
    ensures IndependentApprovals(r1) && AllApprove(r1.decisions) && AllApprove(r1.decisions[..|r1.decisions| - 1])
  {
    hide Independent, Distinct;
  }

  lemma SameApprovals(r: Request, r': Request)
    requires IndependentApprovals(r) && r'.decisions == r.decisions && r'.env == r.env
    ensures IndependentApprovals(r')
  {}

  lemma ApproveKeeps(b: Inbox, id: Id, a: Approver, now: int)
    requires CoreInv(b) && ApproveOp(b, id, a, now).Some?
    ensures Keeps(b, ApproveOp(b, id, a, now).value)
  {
    hide Replayed, ChainOk, Audited, RefreshUpTo, Good, Later, Unique, Independent, Distinct, Approvals, FindRequest;
    RefreshKeeps(b, now);
    var b1 := Refresh(b, now);
    var i := FindRequest(b1.requests, id);
    var r := b1.requests[i];
    assert Good(r);
    ApprovedGood(r, a, now);
    var r1 := r.(decisions := r.decisions + [Decision(Approve, a, now)]);
    if Approvals(r1.decisions) >= r1.required {
      var r2 := r1.(status := Approved, artifact := Some(ArtifactFor(r1, now)));
      IssueKeeps(b, i, r1, r2, a.id, now);
    } else {
      RefreshThenMove(b, i, r1, RequestApproved, a.id, now, None);
    }
  }

  lemma IssueKeeps(b: Inbox, i: nat, r1: Request, r2: Request, actor: Id, now: int)
    requires CoreInv(b) && i < |b.requests|
    requires var r0 := Refresh(b, now).requests[i];
      r1.id == r0.id && r1.env == r0.env && r1.status == r0.status == Pending && Later(r0, r2)
    requires r2.id == r1.id && r2.env == r1.env && r2.status == Approved && Good(r2)
    ensures Keeps(b, Moved(Moved(Refresh(b, now), i, r1, RequestApproved, actor, now, None), i, r2, ArtifactIssued, INBOX_ID, now, None))
  {
    hide Replayed, ChainOk, Audited, RefreshUpTo, Good, Unique;
    RefreshKeeps(b, now);
    var b1 := Refresh(b, now);
    var b2 := Moved(b1, i, r1, RequestApproved, actor, now, None);
    MovedKeeps(b1, i, r1, RequestApproved, actor, now, None);
    MovedKeeps(b2, i, r2, ArtifactIssued, INBOX_ID, now, None);
    var b3 := Moved(b2, i, r2, ArtifactIssued, INBOX_ID, now, None);
    forall j | 0 <= j < |b1.requests| ensures Later(b1.requests[j], b3.requests[j]) && Good(b3.requests[j]) {
      assert Good(b1.requests[j]);
    }
    LaterTransitive(b.requests, b1.requests, b3.requests);
  }

  lemma DecidedGood(r: Request, a: Approver, kind: DecisionKind, now: int)
    requires Good(r) && (r.status == Pending || r.status == Approved) && kind != Approve
    ensures var r1 := r.(decisions := r.decisions + [Decision(kind, a, now)], status := if kind == Reject then Rejected else Revoked);
      Good(r1) && Later(r, r1)
  {
    var r1 := r.(decisions := r.decisions + [Decision(kind, a, now)], status := if kind == Reject then Rejected else Revoked);
    assert r1.decisions[..|r1.decisions| - 1] == r.decisions;
    DecisionAdded(r, r1, Decision(kind, a, now));
    hide Good, Later, IndependentApprovals, AllApprove, StatusFits;
    Terminal(r, r1);
  }

  lemma Terminal(r: Request, r1: Request)
    requires Good(r) && (r.status == Pending || r.status == Approved) && r1 == r.(decisions := r1.decisions, status := r1.status)
    requires |r1.decisions| == |r.decisions| + 1 && r1.decisions[..|r.decisions|] == r.decisions
    requires var kind := r1.decisions[|r.decisions|].kind; (kind == Reject && r1.status == Rejected) || (kind == Revoke && r1.status == Revoked)
    requires IndependentApprovals(r1)
    ensures Good(r1) && Later(r, r1)
  {
    assert AllApprove(r1.decisions[..|r1.decisions| - 1]);
    hide IndependentApprovals, AllApprove;
  }

  lemma DecisionAdded(r: Request, r1: Request, d: Decision)
    requires IndependentApprovals(r) && d.kind != Approve && r1.decisions == r.decisions + [d] && r1.env == r.env
    ensures IndependentApprovals(r1)
  {
    hide Independent, Distinct;
  }

  lemma DecideKeeps(b: Inbox, id: Id, a: Approver, kind: DecisionKind, now: int)
    requires CoreInv(b) && kind != Approve && DecideOp(b, id, a, kind, now).Some?
    ensures Keeps(b, DecideOp(b, id, a, kind, now).value)
  {
    hide Replayed, ChainOk, Audited, RefreshUpTo, Good, Later, Unique, FindRequest;
    RefreshKeeps(b, now);
    var i := FindRequest(Refresh(b, now).requests, id);
    var r := Refresh(b, now).requests[i];
    assert Good(r);
    DecidedGood(r, a, kind, now);
    var r1 := r.(decisions := r.decisions + [Decision(kind, a, now)], status := if kind == Reject then Rejected else Revoked);
    RefreshThenMove(b, i, r1, if kind == Reject then RequestRejected else RequestRevoked, a.id, now, None);
  }

  lemma SupersededGood(r: Request)
    requires Good(r) && r.consumedAt.None?
    ensures Good(r.(status := Superseded)) && Later(r, r.(status := Superseded))
  {
  }

  lemma SupersedeKeeps(b: Inbox, id: Id, a: Approver, now: int)
    requires CoreInv(b) && SupersedeOp(b, id, a, now).Some?
    ensures Keeps(b, SupersedeOp(b, id, a, now).value)
  {
    hide Replayed, ChainOk, Audited, RefreshUpTo, Good, Later, Unique, FindRequest;
    RefreshKeeps(b, now);
    var i := FindRequest(Refresh(b, now).requests, id);
    var r := Refresh(b, now).requests[i];
    assert Good(r);
    SupersededGood(r);
    RefreshThenMove(b, i, r.(status := Superseded), RequestSuperseded, a.id, now, None);
  }

  lemma LinkKeeps(b: Inbox, next: Id, superseded: Id)
    requires CoreInv(b) && LinkOp(b, next, superseded).Some?
    ensures Keeps(b, LinkOp(b, next, superseded).value)
  {
    hide Replayed, ChainOk, FindRequest;
    var i := FindRequest(b.requests, next);
    assert Good(b.requests[i]);
  }

  /** A freshly pushed request keeps the invariant as soon as the write validates. */
  lemma RequestKeeps(b: Inbox, env: Envelope, p: Policy, c: Context, id: Id, now: int)
    requires CoreInv(b) && RequestOp(b, env, p, c, id, now).Some?
    requires ValidInbox(RequestOp(b, env, p, c, id, now).value)
    ensures Keeps(b, RequestOp(b, env, p, c, id, now).value)
  {
    hide Replayed, ChainOk, Audited, RefreshUpTo, Allowed, StatusOfEvent;
    RefreshKeeps(b, now);
    var b1, b2 := Refresh(b, now), RequestOp(b, env, p, c, id, now).value;
    if b2 != b1 {
      var r := NewRequest(env, p, c, id, now);
      var n := |b1.requests|;
      NewIsGood(env, p, c, id, now);
      hide Good, Later, Allowed, NewRequest, RequestOp;
      assert b2.requests == b1.requests + [r];
      assert b2.requests[n] == r;
      forall j | 0 <= j < |b2.requests|
        ensures Replayed(b2.audit, b2.requests[j].id) == Some(b2.requests[j].status) && Good(b2.requests[j])
      {
        AuditedKeeps(b1.audit, RequestCreated, r, env.actorId, now, None, b2.requests[j].id);
        if j < n { assert b2.requests[j].id != b2.requests[n].id && b2.requests[j] == b1.requests[j]; }
        else { Created(Replayed(b1.audit, id)); }
      }
      forall j | 0 <= j < |b.requests| ensures Later(b.requests[j], b2.requests[j]) {
        assert b2.requests[j] == b1.requests[j];
      }
    }
  }

  lemma NewIsGood(env: Envelope, p: Policy, c: Context, id: Id, now: int)
    ensures Good(NewRequest(env, p, c, id, now)) && NewRequest(env, p, c, id, now).status == Pending && NewRequest(env, p, c, id, now).id == id
  {
  }

  lemma Created(before: Option<Status>)
    ensures StatusOfEvent(RequestCreated, before) == Some(Pending)
  {
  }
}
