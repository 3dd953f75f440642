/** The approval inbox: requests, independent approvals, one-shot artifacts, and the
    hash-linked audit trail.  Everything an operation does between reading the store and
    writing it back is one function here; `None` stands for the operation throwing, which
    leaves the durable store as it was. */
module ApprovalInbox {
  import opened Options

  type Id = string

  /** The part of an action envelope that the inbox and the gateway look at; `content`
      stands for everything else that the action hash covers. */
  datatype Envelope = Envelope(
    actionId: Id, actorId: Id, workloadId: Id, environment: Id, resourceId: Id, operation: Id,
    expiresAt: int, content: string)

  /** SHA-256 over canonical JSON, as an injective constructor per hashed record. */
  datatype Digest =
    | ActionDigest(env: Envelope)
    | ReceiptGenesis(action: Digest)
    | ReceiptDigest(receiptId: Id, action: Digest, status: ReceiptStatus, timestamp: int,
                    proof: Option<string>, failure: Option<Failure>, previous: Digest)
    | AuditAnchor
    | AuditDigest(sequence: nat, event: AuditEvent, requestId: Id, actionHash: Digest,
                  receiptHash: Option<Digest>, actorId: Id, timestamp: int, previous: Digest)

  datatype ReceiptStatus = Requested | Attempted | Committed | Verified | Failed
  datatype Failure = ExecutionError | UnknownOutcome | VerificationFailed

  datatype Risk = Read | Create | Update | Communicate | MoneyMovement | Delete | PermissionChange | Deployment

  datatype Status =
    | Pending | Approved | Rejected | Revoked | TimedOut | Expired
    | Executing | Executed | ExecutionFailed | Superseded

  datatype AuditEvent =
    | RequestCreated | RequestApproved | ArtifactIssued | RequestRejected | RequestRevoked
    | RequestTimedOut | RequestExpired | RequestSuperseded
    | ArtifactConsumed | ExecutionVerified | ExecutionFailedEvent

  datatype Policy = Policy(
    id: Id, version: nat, allowedEnvironments: set<Id>, allowedActors: Option<set<Id>>,
    allowedResources: Option<set<Id>>, maxAmountMinor: Option<nat>, minimumConfidence: nat,
    criticalRisks: set<Risk>, maxActions: nat, windowMs: nat,
    approvalTtlMs: nat, escalationTimeoutMs: nat)

  datatype Context = Context(confidence: nat, amountMinor: Option<nat>)

  datatype Approver = Approver(id: Id, principalId: Id, independenceKey: Id)

  datatype DecisionKind = Approve | Reject | Revoke

  datatype Decision = Decision(kind: DecisionKind, approver: Approver, decidedAt: int)

  datatype Artifact = Artifact(
    approvalId: Id, actionHash: Digest, approvedBy: Id, approvedAt: int, expiresAt: int)

  /** `policy` is the policy whose id, version and hash the request records. */
  datatype Request = Request(
    id: Id, env: Envelope, context: Context, policy: Policy, required: nat,
    status: Status, createdAt: int, expiresAt: int, escalationAt: int,
    decisions: seq<Decision>, artifact: Option<Artifact>, consumedAt: Option<int>,
    receiptHash: Option<Digest>, supersedes: Option<Id>)

  datatype AuditRecord = AuditRecord(
    sequence: nat, event: AuditEvent, requestId: Id, actionHash: Digest, receiptHash: Option<Digest>,
    actorId: Id, timestamp: int, previous: Digest, recordHash: Digest)

  datatype Inbox = Inbox(requests: seq<Request>, audit: seq<AuditRecord>)

  const INBOX_ID: Id := "approval-inbox"
  const SYNTHETIC_OPERATION: Id := "synthetic.subscription_failure"
  const MAX_REQUESTS := 1_000
  const MAX_DECISIONS := 4
  const MAX_AUDIT := 10_000
  const EMPTY := Inbox([], [])

  // ---------------------------------------------------------------- audit trail

  function HashOf(sequence: nat, event: AuditEvent, r: Request, receipt: Option<Digest>, actor: Id, now: int, previous: Digest): Digest {
    AuditDigest(sequence, event, r.id, ActionDigest(r.env), receipt, actor, now, previous)
  }

  function LastHash(audit: seq<AuditRecord>): Digest {
    if audit == [] then AuditAnchor else audit[|audit| - 1].recordHash
  }

  /** `appendAudit` */
  function Audited(audit: seq<AuditRecord>, event: AuditEvent, r: Request, actor: Id, now: int, receipt: Option<Digest>): seq<AuditRecord> {
    var previous := LastHash(audit);
    audit + [AuditRecord(|audit| + 1, event, r.id, ActionDigest(r.env), receipt, actor, now, previous,
                         HashOf(|audit| + 1, event, r, receipt, actor, now, previous))]
  }

  /** `validateAuditChain`, with the per-record hash check of `validateAudit`. */
  predicate ChainOk(audit: seq<AuditRecord>) {
    audit == [] ||
    var last := audit[|audit| - 1];
    && ChainOk(audit[..|audit| - 1])
    && last.sequence == |audit|
    && last.previous == LastHash(audit[..|audit| - 1])
    && last.recordHash == AuditDigest(last.sequence, last.event, last.requestId, last.actionHash, last.receiptHash,
                                      last.actorId, last.timestamp, last.previous)
  }

  /** What one audit event says about the status of the request it names. */
  function StatusOfEvent(event: AuditEvent, before: Option<Status>): Option<Status> {
    match event
    case RequestCreated => Some(Pending)
    case RequestApproved => before
    case ArtifactIssued => Some(Approved)
    case RequestRejected => Some(Rejected)
    case RequestRevoked => Some(Revoked)
    case RequestTimedOut => Some(TimedOut)
    case RequestExpired => Some(Expired)
    case RequestSuperseded => Some(Superseded)
    case ArtifactConsumed => Some(Executing)
    case ExecutionVerified => Some(Executed)
    case ExecutionFailedEvent => Some(ExecutionFailed)
  }

  /** The status of a request as the audit trail alone tells it. */
  function Replayed(audit: seq<AuditRecord>, id: Id): Option<Status> {
    if audit == [] then None
    else
      var last, before := audit[|audit| - 1], Replayed(audit[..|audit| - 1], id);
      if last.requestId == id then StatusOfEvent(last.event, before) else before
  }

  // ---------------------------------------------------------------- policy

  function Classify(env: Envelope): Option<Risk> {
    if env.operation == SYNTHETIC_OPERATION then Some(Update) else None
  }

  predicate ValidPolicy(p: Policy) {
    && p.minimumConfidence <= 100
    && 1 <= p.maxActions <= 100_000
    && 1_000 <= p.windowMs <= 86_400_000
    && 1_000 <= p.approvalTtlMs <= 86_400_000
    && 1_000 <= p.escalationTimeoutMs <= p.approvalTtlMs
  }

  predicate Counts(r: Request, actor: Id, cutoff: int, current: Option<Id>) {
    Some(r.id) != current && r.env.actorId == actor && r.createdAt >= cutoff && r.status != Superseded
  }

  function Velocity(history: seq<Request>, actor: Id, cutoff: int, current: Option<Id>): nat {
    if history == [] then 0
    else
      Velocity(history[..|history| - 1], actor, cutoff, current)
      + if Counts(history[|history| - 1], actor, cutoff, current) then 1 else 0
  }

  function RequiredApprovals(p: Policy, env: Envelope, c: Context): nat {
    if (Classify(env).Some? && Classify(env).value in p.criticalRisks) || c.confidence < p.minimumConfidence then 2 else 1
  }

  /** `evaluate(...).allowed` */
  predicate Allowed(p: Policy, env: Envelope, c: Context, history: seq<Request>, now: int, current: Option<Id>) {
    && env.environment in p.allowedEnvironments
    && (p.allowedActors.Some? ==> env.actorId in p.allowedActors.value)
    && (p.allowedResources.Some? ==> env.resourceId in p.allowedResources.value)
    && (p.maxAmountMinor.Some? ==> c.amountMinor.Some? && c.amountMinor.value <= p.maxAmountMinor.value)
    && Velocity(history, env.actorId, now - p.windowMs, current) < p.maxActions
  }

  // ---------------------------------------------------------------- validation on write

  predicate Consumed(s: Status) { s in {Executing, Executed, ExecutionFailed} }

  /** `validateRequest`: the lifecycle rules. */
  predicate RequestOk(r: Request) {
    && Classify(r.env).Some?
    && r.required in {1, 2}
    && |r.decisions| <= MAX_DECISIONS
    && r.createdAt < r.expiresAt && r.escalationAt <= r.expiresAt
    && (r.artifact.Some? ==> r.artifact.value.actionHash == ActionDigest(r.env) && r.artifact.value.approvedBy == INBOX_ID)
    && (r.status == Approved || Consumed(r.status) ==> r.artifact.Some?)
    && (Consumed(r.status) ==> r.consumedAt.Some?)
    && (r.status == Executed ==> r.receiptHash.Some?)
  }

  predicate Unique(rs: seq<Request>) {
    forall i, j :: 0 <= i < j < |rs| ==> rs[i].id != rs[j].id && ActionDigest(rs[i].env) != ActionDigest(rs[j].env)
  }

  /** `validateState`, run before every write. */
  predicate ValidInbox(b: Inbox) {
    && |b.requests| <= MAX_REQUESTS && |b.audit| <= MAX_AUDIT
    && (forall i :: 0 <= i < |b.requests| ==> RequestOk(b.requests[i]))
    && Unique(b.requests)
    && ChainOk(b.audit)
  }

  // ---------------------------------------------------------------- operations

  /** Replace request i and record one audit event about it. */
  function Moved(b: Inbox, i: nat, r: Request, event: AuditEvent, actor: Id, now: int, receipt: Option<Digest>): Inbox
    requires i < |b.requests|
  {
    Inbox(b.requests[i := r], Audited(b.audit, event, r, actor, now, receipt))
  }

  function RefreshOne(b: Inbox, i: nat, now: int): (b': Inbox)
    requires i < |b.requests|
    ensures |b'.requests| == |b.requests|
  {
    var r := b.requests[i];
    if r.status == Pending && now >= r.escalationAt then
      Moved(b, i, r.(status := TimedOut), RequestTimedOut, INBOX_ID, now, None)
    else if (r.status == Pending || r.status == Approved) && now >= r.expiresAt then
      Moved(b, i, r.(status := Expired), RequestExpired, INBOX_ID, now, None)
    else b
  }

  function RefreshUpTo(b: Inbox, n: nat, now: int): (b': Inbox)
    requires n <= |b.requests|
    ensures |b'.requests| == |b.requests|
  {
    if n == 0 then b else RefreshOne(RefreshUpTo(b, n - 1, now), n - 1, now)
  }

  function Refresh(b: Inbox, now: int): (b': Inbox)
    ensures |b'.requests| == |b.requests|
  {
    RefreshUpTo(b, |b.requests|, now)
  }

  /** Position of the first request with this id, or |rs|. */
  function FindRequest(rs: seq<Request>, id: Id): (i: nat)
    ensures i <= |rs|
    ensures i < |rs| ==> rs[i].id == id
    ensures forall j :: 0 <= j < i ==> rs[j].id != id
  {
    if rs == [] || rs[0].id == id then 0 else 1 + FindRequest(rs[1..], id)
  }

  predicate Known(rs: seq<Request>, env: Envelope) {
    exists i :: 0 <= i < |rs| && rs[i].env == env && rs[i].status != Superseded
  }

  function NewRequest(env: Envelope, p: Policy, c: Context, id: Id, now: int): Request {
    Request(id, env, c, p, RequiredApprovals(p, env, c), Pending, now,
            if env.expiresAt < now + p.approvalTtlMs then env.expiresAt else now + p.approvalTtlMs,
            now + p.escalationTimeoutMs, [], None, None, None, None)
  }

  /** `request`: an existing live request for the same action is returned as it is. */
  function RequestOp(b: Inbox, env: Envelope, p: Policy, c: Context, id: Id, now: int): Option<Inbox> {
    if env.expiresAt <= now || !ValidPolicy(p) || c.confidence > 100 then None
    else
      var b1 := Refresh(b, now);
      if Known(b1.requests, env) then Some(b1)
      else if Classify(env).None? || !Allowed(p, env, c, b1.requests, now, None) then None
      else
        var r := NewRequest(env, p, c, id, now);
        Some(Inbox(b1.requests + [r], Audited(b1.audit, RequestCreated, r, env.actorId, now, None)))
  }

  /** `assertIndependent` */
  predicate Independent(env: Envelope, a: Approver) {
    && a.id != env.actorId
    && a.principalId != env.actorId && a.principalId != env.workloadId
    && a.independenceKey != env.actorId && a.independenceKey != env.workloadId
  }

  predicate Distinct(a: Approver, b: Approver) {
    a.id != b.id && a.principalId != b.principalId && a.independenceKey != b.independenceKey
  }

  function Approvals(ds: seq<Decision>): nat {
    if ds == [] then 0 else Approvals(ds[..|ds| - 1]) + if ds[|ds| - 1].kind == Approve then 1 else 0
  }

  function ArtifactFor(r: Request, now: int): Artifact {
    Artifact(r.id, ActionDigest(r.env), INBOX_ID, now, r.expiresAt)
  }

  function ApproveOp(b: Inbox, id: Id, a: Approver, now: int): Option<Inbox> {
    var b1 := Refresh(b, now);
    var i := FindRequest(b1.requests, id);
    if i == |b1.requests| then None
    else
      var r := b1.requests[i];
      if r.status != Pending || !Independent(r.env, a) then None
      else if exists k :: 0 <= k < |r.decisions| && r.decisions[k].kind == Approve && !Distinct(r.decisions[k].approver, a) then None
      else
        var r1 := r.(decisions := r.decisions + [Decision(Approve, a, now)]);
        var b2 := Moved(b1, i, r1, RequestApproved, a.id, now, None);
        if Approvals(r1.decisions) >= r1.required then
          Some(Moved(b2, i, r1.(status := Approved, artifact := Some(ArtifactFor(r1, now))), ArtifactIssued, INBOX_ID, now, None))
        else Some(b2)
  }

  /** `decideTerminal`: reject or revoke. */
  function DecideOp(b: Inbox, id: Id, a: Approver, kind: DecisionKind, now: int): Option<Inbox>
    requires kind != Approve
  {
    var b1 := Refresh(b, now);
    var i := FindRequest(b1.requests, id);
    if i == |b1.requests| then None
    else
      var r := b1.requests[i];
      if r.status != Pending && r.status != Approved then None
      else
        var r1 := r.(decisions := r.decisions + [Decision(kind, a, now)], status := if kind == Reject then Rejected else Revoked);
        Some(Moved(b1, i, r1, if kind == Reject then RequestRejected else RequestRevoked, a.id, now, None))
  }

  /** The first transaction of `editAndResubmit`. */
  function SupersedeOp(b: Inbox, id: Id, a: Approver, now: int): Option<Inbox> {
    var b1 := Refresh(b, now);
    var i := FindRequest(b1.requests, id);
    if i == |b1.requests| then None
    else
      var r := b1.requests[i];
      if r.status == Executing || r.status == Executed || r.consumedAt.Some? then None
      else Some(Moved(b1, i, r.(status := Superseded), RequestSuperseded, a.id, now, None))
  }

  /** The last transaction of `editAndResubmit`. */
  function LinkOp(b: Inbox, next: Id, superseded: Id): Option<Inbox> {
    var i := FindRequest(b.requests, next);
    if i == |b.requests| then None
    else Some(Inbox(b.requests[i := b.requests[i].(supersedes := Some(superseded))], b.audit))
  }

  /** `mutate`: write back what the operation produced, if it validates. */
  function Commit(b: Inbox, next: Option<Inbox>): Inbox {
    if next.Some? && ValidInbox(next.value) then next.value else b
  }
}
