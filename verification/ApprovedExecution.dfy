/** Inbox and gateway as one protocol: every durable write is an atomic step, and a crash
    may come between any two of them.

    `execute` holds the inbox lock from its first read to its last write, so while a
    process is inside it no other inbox operation runs; a crash releases the lock.  An
    event that the code would refuse changes nothing, and `Throw` stands for any exception
    inside the guarded part of `execute`. */
module ApprovedExecution {
  import opened Options
  import opened ApprovalInbox
  import opened InboxLifecycle
  import opened ActionGateway

  datatype Phase =
    | AtSubmit           // consumption is durable, gateway.submit comes next
    | AtExecute          // the action is recorded, gateway.execute comes next
    | AtAdapter          // the attempt is durable, adapter.execute comes next
    | InAdapter          // adapter.execute has been started
    | AtVerify           // the commit is durable, adapter.verify comes next
    | Done(receipt: Receipt)
    | Caught             // in the catch block

  /** `mem` is the process's working copy of the inbox, `i` the request it executes;
      `replay` when that request was already executed. */
  datatype Process = Idle | Running(phase: Phase, mem: Inbox, i: nat, replay: bool)

  /** `started` and `returned` record every start of adapter.execute and every receipt
      handed back to a caller. */
  datatype Sys = Sys(
    inbox: Inbox, store: map<Id, Record>, proc: Process, started: seq<Envelope>, returned: seq<Receipt>)

  datatype AdapterOutcome = Success(proof: string) | Unknown | Threw

  datatype Event =
    | Submit(env: Envelope, policy: Policy, context: Context, id: Id, now: int)
    | ApproveBy(id: Id, approver: Approver, now: int)
    | RejectBy(id: Id, approver: Approver, now: int)
    | RevokeBy(id: Id, approver: Approver, now: int)
    | Supersede(id: Id, approver: Approver, now: int)
    | Link(next: Id, superseded: Id)
    | Look(now: int)
    | Begin(id: Id, actorId: Id, workloadId: Id, policy: Policy, now: int)
    | GatewaySubmit(now: int, receiptId: Id)
    | GatewayResume(now: int, receiptId: Id, nextReceiptId: Id, proof: Option<string>)
    | GatewayAttempt(now: int, receiptId: Id)
    | AdapterStart
    | AdapterDone(outcome: AdapterOutcome, now: int, receiptId: Id)
    | GatewayVerify(proof: Option<string>, now: int, receiptId: Id)
    | Finish(now: int, writeOk: bool)
    | Throw
    | CatchWrite(now: int)
    | Crash

  const INITIAL := Sys(EMPTY, map[], Idle, [], [])

  // ---------------------------------------------------------------- steps

  /** The verifier the inbox hands to its gateway: it reads the durable inbox. */
  predicate ProvenanceActive(b: Inbox, env: Envelope, a: Artifact) {
    var i := FindRequest(b.requests, a.approvalId);
    i < |b.requests| &&
    var r := b.requests[i];
    && (r.status == Executing || (r.status == Executed && r.receiptHash.Some?))
    && r.consumedAt.Some? && r.artifact == Some(a)
    && ActionDigest(r.env) == ActionDigest(env)
  }

  function BeginStep(s: Sys, id: Id, actorId: Id, workloadId: Id, p: Policy, now: int): Sys
    requires s.proc.Idle?
  {
    var mem := Refresh(s.inbox, now);
    var i := FindRequest(mem.requests, id);
    if i == |mem.requests| then s
    else
      var r := mem.requests[i];
      if !(r.status == Approved || r.status == Executing || r.status == Executed) || r.artifact.None? then s
      else if r.policy != p || !ValidPolicy(p) then s
      else if !Allowed(p, r.env, r.context, mem.requests, now, Some(r.id)) || RequiredApprovals(p, r.env, r.context) != r.required then s
      else if actorId != r.env.actorId || workloadId != r.env.workloadId then s
      else if r.status == Executed then s.(proc := Running(AtExecute, mem, i, true))
      else if r.status == Executing then
        if r.consumedAt.None? then s else s.(proc := Running(AtSubmit, mem, i, false))
      else if r.consumedAt.Some? then s
      else
        var mem' := Moved(mem, i, r.(consumedAt := Some(now), status := Executing), ArtifactConsumed, actorId, now, None);
        if ValidInbox(mem') then s.(inbox := mem', proc := Running(AtSubmit, mem', i, false)) else s
  }

  /** `gateway.submit` */
  function SubmitStep(s: Sys, now: int, receiptId: Id): Sys
    requires s.proc.Running? && s.proc.i < |s.proc.mem.requests|
  {
    var r := s.proc.mem.requests[s.proc.i];
    if r.artifact.None? || !ProvenanceActive(s.inbox, r.env, r.artifact.value) then s
    else
      var a := r.artifact.value;
      if r.env.actionId in s.store then
        var rec := s.store[r.env.actionId];
        if rec.env == r.env && rec.approval == a then s.(proc := s.proc.(phase := AtExecute)) else s
      else if r.env.expiresAt <= now || !ApprovalFits(r.env, a, now, true) then s
      else
        var rec := Appended(Record(r.env, a, []), Requested, now, receiptId, None, None);
        if rec.Some? && RecordOk(rec.value)
        then s.(store := s.store[r.env.actionId := rec.value], proc := s.proc.(phase := AtExecute)) else s
  }

  /** The checks at the head of `gateway.execute`. */
  predicate MayExecute(s: Sys, r: Request) {
    r.env.actionId in s.store &&
    var rec := s.store[r.env.actionId];
    && ProvenanceActive(s.inbox, rec.env, rec.approval)
    && rec.env == r.env
    && ApprovalFits(rec.env, rec.approval, 0, false)
    && rec.env.operation == SYNTHETIC_OPERATION
  }

  function Store(s: Sys, id: Id, rec: Option<Record>, phase: Phase): Sys
    requires s.proc.Running?
  {
    if rec.Some? && RecordOk(rec.value) then s.(store := s.store[id := rec.value], proc := s.proc.(phase := phase)) else s
  }

  /** An earlier attempt left a trace: return it, or settle it by asking the adapter what
      happened; never execute again. */
  function ResumeStep(s: Sys, now: int, id1: Id, id2: Id, proof: Option<string>): Sys
    requires s.proc.Running? && s.proc.i < |s.proc.mem.requests|
  {
    var r := s.proc.mem.requests[s.proc.i];
    if !MayExecute(s, r) then s
    else
      var rec := s.store[r.env.actionId];
      var verified := Latest(rec.receipts, Verified);
      if verified.Some? then s.(proc := s.proc.(phase := Done(verified.value)))
      else if proof.None? then s
      else if Latest(rec.receipts, Committed).Some? then
        Store(s, r.env.actionId, Appended(rec, Verified, now, id1, proof, None),
              Done(CreateReceipt(rec, Verified, now, id1, proof, None)))
      else if Latest(rec.receipts, Attempted).Some? then
        var mid := Appended(rec, Committed, now, id1, proof, None);
        if mid.None? then s
        else Store(s, r.env.actionId, Appended(mid.value, Verified, now, id2, proof, None),
                   Done(CreateReceipt(mid.value, Verified, now, id2, proof, None)))
      else s
  }

  /** No trace of an attempt: make the attempt durable before touching the adapter. */
  function AttemptStep(s: Sys, now: int, receiptId: Id): Sys
    requires s.proc.Running? && s.proc.i < |s.proc.mem.requests|
  {
    var r := s.proc.mem.requests[s.proc.i];
    if !MayExecute(s, r) then s
    else
      var rec := s.store[r.env.actionId];
      if Latest(rec.receipts, Verified).Some? || Latest(rec.receipts, Committed).Some? || Latest(rec.receipts, Attempted).Some? then s
      else if rec.env.expiresAt <= now || !ApprovalFits(rec.env, rec.approval, now, true) then s
      else Store(s, r.env.actionId, Appended(rec, Attempted, now, receiptId, None, None), AtAdapter)
  }

  function AfterThrow(s: Sys): Sys
    requires s.proc.Running?
  {
    if s.proc.replay then s.(proc := Idle) else s.(proc := s.proc.(phase := Caught))
  }

  function AdapterDoneStep(s: Sys, outcome: AdapterOutcome, now: int, receiptId: Id): Sys
    requires s.proc.Running? && s.proc.i < |s.proc.mem.requests|
  {
    var id := s.proc.mem.requests[s.proc.i].env.actionId;
    if id !in s.store then s
    else
      match outcome
      case Success(proof) => Store(s, id, Appended(s.store[id], Committed, now, receiptId, Some(proof), None), AtVerify)
      case Unknown => AfterThrow(Store(s, id, Appended(s.store[id], Failed, now, receiptId, None, Some(UnknownOutcome)), s.proc.phase))
      case Threw => AfterThrow(Store(s, id, Appended(s.store[id], Failed, now, receiptId, None, Some(ExecutionError)), s.proc.phase))
  }

  function VerifyStep(s: Sys, proof: Option<string>, now: int, receiptId: Id): Sys
    requires s.proc.Running? && s.proc.i < |s.proc.mem.requests|
  {
    var id := s.proc.mem.requests[s.proc.i].env.actionId;
    if id !in s.store then s
    else if proof.Some? then
      Store(s, id, Appended(s.store[id], Verified, now, receiptId, proof, None),
            Done(CreateReceipt(s.store[id], Verified, now, receiptId, proof, None)))
    else
      var rec := s.store[id];
      var committed := if rec.receipts == [] then None else Last(rec).proof;
      AfterThrow(Store(s, id, Appended(rec, Failed, now, receiptId, committed, Some(VerificationFailed)), s.proc.phase))
  }

  function FinishStep(s: Sys, now: int, writeOk: bool): Sys
    requires s.proc.Running? && s.proc.phase.Done? && s.proc.i < |s.proc.mem.requests|
  {
    var rc, r := s.proc.phase.receipt, s.proc.mem.requests[s.proc.i];
    if s.proc.replay then
      if rc.status == Verified && Some(rc.hash) == r.receiptHash
      then s.(proc := Idle, returned := s.returned + [rc]) else s.(proc := Idle)
    else
      var mem := Moved(s.proc.mem, s.proc.i, r.(status := Executed, receiptHash := Some(rc.hash)),
                       ExecutionVerified, r.env.actorId, now, Some(rc.hash));
      if writeOk && ValidInbox(mem) then s.(inbox := mem, proc := Idle, returned := s.returned + [rc])
      else s.(proc := Running(Caught, mem, s.proc.i, false))
  }

  /** The catch block: a durable failed receipt closes the request. */
  function CatchStep(s: Sys, now: int): Sys
    requires s.proc.Running? && s.proc.i < |s.proc.mem.requests|
  {
    var r := s.proc.mem.requests[s.proc.i];
    var failed := if r.env.actionId in s.store then Latest(s.store[r.env.actionId].receipts, Failed) else None;
    if failed.None? then s.(proc := Idle)
    else
      var mem := Moved(s.proc.mem, s.proc.i, r.(status := ExecutionFailed), ExecutionFailedEvent, r.env.actorId, now, Some(failed.value.hash));
      if ValidInbox(mem) then s.(inbox := mem, proc := Idle) else s.(proc := Idle)
  }

  function InboxEvent(b: Inbox, e: Event): Option<Inbox> {
    match e
    case Submit(env, p, c, id, now) => RequestOp(b, env, p, c, id, now)
    case ApproveBy(id, a, now) => ApproveOp(b, id, a, now)
    case RejectBy(id, a, now) => DecideOp(b, id, a, Reject, now)
    case RevokeBy(id, a, now) => DecideOp(b, id, a, Revoke, now)
    case Supersede(id, a, now) => SupersedeOp(b, id, a, now)
    case Link(next, superseded) => LinkOp(b, next, superseded)
    case Look(now) => Some(Refresh(b, now))
    case _ => None
  }

  function ProcessEvent(s: Sys, e: Event): Sys
    requires s.proc.Running?
  {
    if s.proc.i >= |s.proc.mem.requests| then s
    else
      match (e, s.proc.phase)
      case (GatewaySubmit(now, id), AtSubmit) => SubmitStep(s, now, id)
      case (GatewayResume(now, id1, id2, proof), AtExecute) => ResumeStep(s, now, id1, id2, proof)
      case (GatewayAttempt(now, id), AtExecute) => AttemptStep(s, now, id)
      case (AdapterStart, AtAdapter) =>
        s.(proc := s.proc.(phase := InAdapter), started := s.started + [s.proc.mem.requests[s.proc.i].env])
      case (AdapterDone(outcome, now, id), InAdapter) => AdapterDoneStep(s, outcome, now, id)
      case (GatewayVerify(proof, now, id), AtVerify) => VerifyStep(s, proof, now, id)
      case (Finish(now, writeOk), Done(_)) => FinishStep(s, now, writeOk)
      case (CatchWrite(now), Caught) => CatchStep(s, now)
      case (Throw, Caught) => s
      case (Throw, _) => AfterThrow(s)
      case _ => s
  }

  function Apply(s: Sys, e: Event): Sys {
    if e.Crash? then s.(proc := Idle)
    else if s.proc.Running? then ProcessEvent(s, e)
    else if e.Begin? then BeginStep(s, e.id, e.actorId, e.workloadId, e.policy, e.now)
    else s.(inbox := Commit(s.inbox, InboxEvent(s.inbox, e)))
  }

  function Run(s: Sys, es: seq<Event>): Sys {
    if es == [] then s else Apply(Run(s, es[..|es| - 1]), es[|es| - 1])
  }

  // ---------------------------------------------------------------- invariant

  ghost predicate Backed(b: Inbox, rec: Record) {
    exists i :: 0 <= i < |b.requests| && b.requests[i].env == rec.env && Consumed(b.requests[i].status)
             && b.requests[i].artifact == Some(rec.approval)
  }

  ghost predicate StoreInv(b: Inbox, store: map<Id, Record>) {
    forall id :: id in store ==> store[id].env.actionId == id && Shaped(store[id]) && RecordOk(store[id]) && Backed(b, store[id])
  }

  predicate Recorded(store: map<Id, Record>, env: Envelope) {
    env.actionId in store && store[env.actionId].env == env
  }

  /** An executed request stores the hash of its action's verified receipt. */
  ghost predicate ExecutedInv(b: Inbox, store: map<Id, Record>) {
    forall i :: 0 <= i < |b.requests| && b.requests[i].status == Executed ==>
      && Recorded(store, b.requests[i].env)
      && Closed(store[b.requests[i].env.actionId])
      && b.requests[i].receiptHash == Some(Last(store[b.requests[i].env.actionId]).hash)
  }

  ghost predicate StartedInv(store: map<Id, Record>, started: seq<Envelope>) {
    && (forall k :: 0 <= k < |started| ==> Recorded(store, started[k]) && |store[started[k].actionId].receipts| >= 2)
    && (forall j, k :: 0 <= j < k < |started| ==> started[j].actionId != started[k].actionId)
  }

  ghost predicate ReturnedInv(store: map<Id, Record>, returned: seq<Receipt>) {
    forall k :: 0 <= k < |returned| ==>
      returned[k].actionId in store && Closed(store[returned[k].actionId]) && Last(store[returned[k].actionId]) == returned[k]
  }

  ghost predicate PhaseInv(store: map<Id, Record>, started: seq<Envelope>, env: Envelope, phase: Phase) {
    match phase
    case AtSubmit => true
    case Caught => true
    case AtExecute => Recorded(store, env)
    case AtAdapter =>
      && Recorded(store, env) && Statuses(store[env.actionId]) == [Requested, Attempted]
      && forall k :: 0 <= k < |started| ==> started[k].actionId != env.actionId
    case InAdapter => Recorded(store, env) && Statuses(store[env.actionId]) == [Requested, Attempted]
    case AtVerify => Recorded(store, env) && Statuses(store[env.actionId]) == [Requested, Attempted, Committed]
    case Done(rc) => Recorded(store, env) && Closed(store[env.actionId]) && Last(store[env.actionId]) == rc
  }

  /** A pending request can time out, but it does not expire. */
  ghost predicate NeverPendingToExpired(rs: seq<Request>, rs': seq<Request>) {
    forall j :: 0 <= j < |rs| && j < |rs'| && rs[j].status == Pending ==> rs'[j].status != Expired
  }

  /** The working copy is the durable inbox up to requests that died of old age in it. */
  ghost predicate MemInv(b: Inbox, mem: Inbox, i: nat, caught: bool) {
    && CoreInv(mem) && |mem.requests| == |b.requests| && i < |b.requests|
    && AllLater(b.requests, mem.requests) && NeverPendingToExpired(b.requests, mem.requests)
    && (forall j :: 0 <= j < |b.requests| && j != i ==> mem.requests[j] == b.requests[j] || Dead(mem.requests[j].status))
    && (if caught then Consumed(mem.requests[i].status) else mem.requests[i] == b.requests[i])
  }

  ghost predicate ProcInv(s: Sys) {
    s.proc.Running? ==>
      && MemInv(s.inbox, s.proc.mem, s.proc.i, s.proc.phase.Caught?)
      && s.inbox.requests[s.proc.i].status == (if s.proc.replay then Executed else Executing)
      && (s.proc.phase.Caught? ==> !s.proc.replay)
      && PhaseInv(s.store, s.started, s.inbox.requests[s.proc.i].env, s.proc.phase)
  }

  ghost predicate Inv(s: Sys) {
    && InboxInv(s.inbox)
    && StoreInv(s.inbox, s.store) && ExecutedInv(s.inbox, s.store)
    && StartedInv(s.store, s.started) && ReturnedInv(s.store, s.returned)
    && ProcInv(s)
  }

  // ---------------------------------------------------------------- the inbox moves

  lemma StoreFollowsInbox(b: Inbox, b': Inbox, store: map<Id, Record>)
    requires StoreInv(b, store) && AllLater(b.requests, b'.requests)
    ensures StoreInv(b', store)
  {
    hide Shaped, RecordOk;
    forall id | id in store ensures Backed(b', store[id]) {
      var i :| 0 <= i < |b.requests| && b.requests[i].env == store[id].env && Consumed(b.requests[i].status)
             && b.requests[i].artifact == Some(store[id].approval);
      assert Later(b.requests[i], b'.requests[i]);
    }
  }

  lemma InboxEventKeeps(b: Inbox, e: Event)
    requires InboxInv(b) && InboxEvent(b, e).Some? && ValidInbox(InboxEvent(b, e).value)
    ensures Keeps(b, InboxEvent(b, e).value)
  {
    hide CoreInv, AllLater, ValidInbox, RequestOp, ApproveOp, DecideOp, SupersedeOp, LinkOp;
    match e
    case Submit(env, p, c, id, now) => RequestKeeps(b, env, p, c, id, now);
    case ApproveBy(id, a, now) => ApproveKeeps(b, id, a, now);
    case RejectBy(id, a, now) => DecideKeeps(b, id, a, Reject, now);
    case RevokeBy(id, a, now) => DecideKeeps(b, id, a, Revoke, now);
    case Supersede(id, a, now) => SupersedeKeeps(b, id, a, now);
    case Link(next, superseded) => LinkKeeps(b, next, superseded);
    case Look(now) => RefreshKeeps(b, now);
    case _ =>
  }

  lemma InboxEventTimesOut(b: Inbox, e: Event)
    requires InboxInv(b) && InboxEvent(b, e).Some?
    ensures NeverPendingToExpired(b.requests, InboxEvent(b, e).value.requests)
  {
    hide CoreInv, ValidInbox, Refresh, Audited, Allowed, Independent, Distinct, Approvals, FindRequest, Known;
    if !e.Link? && !e.Begin? && !e.GatewaySubmit? && !e.GatewayResume? && !e.GatewayAttempt? && !e.AdapterStart?
       && !e.AdapterDone? && !e.GatewayVerify? && !e.Finish? && !e.Throw? && !e.CatchWrite? && !e.Crash? {
      RefreshTimesOut(b, e.now);
    }
  }

  lemma InboxStepInv(s: Sys, e: Event)
    requires Inv(s) && s.proc.Idle? && !e.Crash? && !e.Begin?
    ensures Inv(Apply(s, e))
    ensures AllLater(s.inbox.requests, Apply(s, e).inbox.requests)
    ensures NeverPendingToExpired(s.inbox.requests, Apply(s, e).inbox.requests)
  {
    hide CoreInv, ValidInbox, InboxEvent, StoreInv, Later, StartedInv, ReturnedInv;
    var next := InboxEvent(s.inbox, e);
    if next.Some? && ValidInbox(next.value) {
      var b := next.value;
      InboxEventKeeps(s.inbox, e);
      InboxEventTimesOut(s.inbox, e);
      StoreFollowsInbox(s.inbox, b, s.store);
      forall i | 0 <= i < |b.requests| && b.requests[i].status == Executed
        ensures i < |s.inbox.requests| && s.inbox.requests[i].status == Executed
          && s.inbox.requests[i].receiptHash == b.requests[i].receiptHash && s.inbox.requests[i].env == b.requests[i].env
      {
        assert Later(s.inbox.requests[i], b.requests[i]);
        LaterEnv(s.inbox.requests[i], b.requests[i]);
      }
    } else {
      LaterReflexive(s.inbox.requests);
    }
  }

  lemma LaterEnv(r: Request, r': Request)
    requires Later(r, r')
    ensures r'.env == r.env && r'.id == r.id
  {
  }

  // ---------------------------------------------------------------- beginning an execution

  lemma StartedGood(r: Request, now: int)
    requires Good(r) && r.status == Approved
    ensures var r1 := r.(consumedAt := Some(now), status := Executing); Good(r1) && Later(r, r1)
  {
  }

  /** A refresh changes a request only by letting a pending or approved one die. */
  lemma RefreshedOrDead(b: Inbox, now: int)
    requires CoreInv(b)
    ensures forall j :: 0 <= j < |b.requests| ==>
      || Refresh(b, now).requests[j] == b.requests[j]
      || (Dead(Refresh(b, now).requests[j].status) && (b.requests[j].status == Pending || b.requests[j].status == Approved))
  {
    hide CoreInv, Refresh;
    RefreshKeeps(b, now);
  }

  /** Escalation comes no later than expiry, so a pending request times out first. */
  lemma RefreshTimesOut(b: Inbox, now: int)
    requires InboxInv(b)
    ensures NeverPendingToExpired(b.requests, Refresh(b, now).requests)
  {
    hide CoreInv, Refresh;
    RefreshKeeps(b, now);
    forall j | 0 <= j < |b.requests| ensures RequestOk(b.requests[j]) {}
  }

  lemma BeginInv(s: Sys, e: Event)
    requires Inv(s) && s.proc.Idle? && e.Begin?
    ensures Inv(Apply(s, e))
    ensures AllLater(s.inbox.requests, Apply(s, e).inbox.requests)
    ensures NeverPendingToExpired(s.inbox.requests, Apply(s, e).inbox.requests)
  {
    hide CoreInv, ValidInbox, Refresh, Allowed, RequiredApprovals, ValidPolicy, StoreInv, Good, Later, StartedInv, ReturnedInv, FindRequest, Moved;
    var mem := Refresh(s.inbox, e.now);
    RefreshKeeps(s.inbox, e.now);
    RefreshedOrDead(s.inbox, e.now);
    RefreshTimesOut(s.inbox, e.now);
    LaterReflexive(s.inbox.requests);
    var s' := Apply(s, e);
    var i := FindRequest(mem.requests, e.id);
    if s'.proc.Running? {
      var r := mem.requests[i];
      LaterEnv(s.inbox.requests[i], r);
      if r.status == Approved {
        assert Good(r) by { CoreGood(mem, i); }
        StartedGood(r, e.now);
        var r1 := r.(consumedAt := Some(e.now), status := Executing);
        BeginConsumes(s, mem, i, r1, e.actorId, e.now);
      }
    }
  }

  lemma CoreGood(b: Inbox, i: nat)
    requires CoreInv(b) && i < |b.requests|
    ensures Good(b.requests[i])
  {
  }

  lemma BeginConsumes(s: Sys, mem: Inbox, i: nat, r: Request, actor: Id, now: int)
    requires Inv(s) && s.proc.Idle?
    requires NeverPendingToExpired(s.inbox.requests, mem.requests)
    requires CoreInv(mem) && AllLater(s.inbox.requests, mem.requests) && |mem.requests| == |s.inbox.requests|
    requires forall j :: 0 <= j < |mem.requests| ==> mem.requests[j] == s.inbox.requests[j] || Dead(mem.requests[j].status)
    requires i < |mem.requests| && Later(mem.requests[i], r) && Good(r) && r.status == Executing
    requires ValidInbox(Moved(mem, i, r, ArtifactConsumed, actor, now, None))
    ensures var b := Moved(mem, i, r, ArtifactConsumed, actor, now, None);
      && Inv(s.(inbox := b, proc := Running(AtSubmit, b, i, false))) && AllLater(s.inbox.requests, b.requests)
      && NeverPendingToExpired(s.inbox.requests, b.requests)
  {
    hide ValidInbox, StoreInv, Good, StartedInv, ReturnedInv, Replayed, ChainOk, Audited, Unique;
    var b := Moved(mem, i, r, ArtifactConsumed, actor, now, None);
    MovedCore(mem, i, r, ArtifactConsumed, actor, now, None);
    UpdateLater(s.inbox.requests, mem.requests, i, r);
    StoreFollowsInbox(s.inbox, b, s.store);
    LaterReflexive(b.requests);
  }

  lemma UpdateLater(rs: seq<Request>, mid: seq<Request>, i: nat, r: Request)
    requires AllLater(rs, mid) && i < |mid| && Later(mid[i], r)
    ensures AllLater(rs, mid[i := r])
  {
    forall j | 0 <= j < |mid| ensures Later(mid[j], mid[i := r][j]) {}
    LaterTransitive(rs, mid, mid[i := r]);
  }

  // ---------------------------------------------------------------- the record grows

  /** Appending to a record that is not closed disturbs nothing that is known about it. */
  lemma GrowRecord(s: Sys, id: Id, rec: Record)
    requires Inv(s) && id in s.store && !Closed(s.store[id])
    requires rec.env == s.store[id].env && rec.approval == s.store[id].approval
    requires |rec.receipts| >= |s.store[id].receipts| && Shaped(rec) && RecordOk(rec)
    ensures var store := s.store[id := rec];
      && StoreInv(s.inbox, store) && ExecutedInv(s.inbox, store)
      && StartedInv(store, s.started) && ReturnedInv(store, s.returned)
  {
    hide InboxInv, Shaped, RecordOk, ProcInv;
    var store := s.store[id := rec];
    forall i | 0 <= i < |s.inbox.requests| && s.inbox.requests[i].status == Executed
      ensures s.inbox.requests[i].env.actionId != id
    {
      assert Closed(s.store[s.inbox.requests[i].env.actionId]);
    }
    forall k | 0 <= k < |s.returned| ensures s.returned[k].actionId != id {
      assert Closed(s.store[s.returned[k].actionId]);
    }
    assert Backed(s.inbox, s.store[id]);
    forall j | j in store ensures Backed(s.inbox, store[j]) {
      if j != id { assert Backed(s.inbox, s.store[j]); }
    }
  }

  /** The process is inside the guarded part, working on the request with this envelope. */
  ghost predicate Working(s: Sys, env: Envelope) {
    && Inv(s) && s.proc.Running? && !s.proc.phase.Caught?
    && s.proc.i < |s.proc.mem.requests| && s.proc.mem.requests[s.proc.i].env == env
  }

  /** Leaving the guarded part by an exception keeps the invariant. */
  lemma ThrowInv(s: Sys)
    requires Inv(s) && s.proc.Running? && !s.proc.phase.Caught?
    ensures Inv(AfterThrow(s))
  {
    hide CoreInv, AllLater, InboxInv, StoreInv, ExecutedInv, StartedInv, ReturnedInv;
  }

  /** Replace the record and move on to a phase that fits it. */
  lemma GrowTo(s: Sys, env: Envelope, rec: Record, phase: Phase)
    requires Working(s, env) && Recorded(s.store, env) && !phase.Caught?
    requires var before := s.store[env.actionId];
      !Closed(before) && rec.env == before.env && rec.approval == before.approval && |rec.receipts| >= |before.receipts|
    requires Shaped(rec) && RecordOk(rec)
    requires PhaseInv(s.store[env.actionId := rec], s.started, env, phase)
    ensures Working(s.(store := s.store[env.actionId := rec], proc := s.proc.(phase := phase)), env)
  {
    hide InboxInv, StoreInv, ExecutedInv, StartedInv, ReturnedInv, Shaped, RecordOk, PhaseInv, CoreInv, AllLater;
    GrowRecord(s, env.actionId, rec);
  }

  /** A failed receipt is durable before the exception leaves the gateway. */
  lemma FailInv(s: Sys, env: Envelope, rec: Record)
    requires Working(s, env) && Recorded(s.store, env)
    requires var before := s.store[env.actionId];
      !Closed(before) && rec.env == before.env && rec.approval == before.approval && |rec.receipts| >= |before.receipts|
    requires Shaped(rec) && RecordOk(rec)
    ensures Inv(AfterThrow(s.(store := s.store[env.actionId := rec])))
  {
    hide InboxInv, StoreInv, ExecutedInv, StartedInv, ReturnedInv, Shaped, RecordOk, PhaseInv, CoreInv, AllLater;
    GrowTo(s, env, rec, AtSubmit) by { PhaseSubmit(s.store[env.actionId := rec], s.started, env); }
    ThrowInv(s.(store := s.store[env.actionId := rec], proc := s.proc.(phase := AtSubmit)));
  }

  lemma PhaseSubmit(store: map<Id, Record>, started: seq<Envelope>, env: Envelope)
    ensures PhaseInv(store, started, env, AtSubmit)
  {
  }

  lemma WorkingRecord(s: Sys, env: Envelope)
    requires Working(s, env) && Recorded(s.store, env)
    ensures Shaped(s.store[env.actionId]) && RecordOk(s.store[env.actionId])
    ensures 1 <= |s.store[env.actionId].receipts| <= 5
  {
    ShapeTells(s.store[env.actionId]);
  }

  /** A record under a fresh action id disturbs nothing either. */
  lemma FreshRecord(s: Sys, env: Envelope, rec: Record)
    requires Inv(s) && env.actionId !in s.store && rec.env == env && Backed(s.inbox, rec)
    requires Shaped(rec) && RecordOk(rec)
    ensures var store := s.store[env.actionId := rec];
      && StoreInv(s.inbox, store) && ExecutedInv(s.inbox, store)
      && StartedInv(store, s.started) && ReturnedInv(store, s.returned)
  {
    hide InboxInv, Shaped, RecordOk, ProcInv, Backed;
  }

  lemma SubmitInv(s: Sys, env: Envelope, now: int, receiptId: Id)
    requires Working(s, env) && s.proc.phase == AtSubmit
    ensures Inv(SubmitStep(s, now, receiptId))
  {
    hide InboxInv, StoreInv, ExecutedInv, StartedInv, ReturnedInv, CoreInv, AllLater, ProvenanceActive, RecordOk, ApprovalFits;
    var r, s' := s.proc.mem.requests[s.proc.i], SubmitStep(s, now, receiptId);
    if s'.store != s.store {
      var rec := s'.store[env.actionId];
      assert Statuses(rec) == [Requested];
      assert Backed(s.inbox, rec) by { assert s.inbox.requests[s.proc.i].env == rec.env; }
      FreshRecord(s, env, rec);
    }
  }

  /** Settling a committed or attempted record ends in a closed one. */
  lemma SettleInv(s: Sys, env: Envelope, mid: Record, rec: Record)
    requires Working(s, env) && Recorded(s.store, env) && !Closed(s.store[env.actionId])
    requires mid.env == env && mid.approval == s.store[env.actionId].approval && |mid.receipts| >= |s.store[env.actionId].receipts|
    requires rec.env == mid.env && rec.approval == mid.approval && Statuses(rec) == Statuses(mid) + [Verified]
    requires Shaped(rec) && RecordOk(rec)
    ensures Inv(s.(store := s.store[env.actionId := rec], proc := s.proc.(phase := Done(Last(rec)))))
  {
    hide InboxInv, StoreInv, ExecutedInv, StartedInv, ReturnedInv, CoreInv, AllLater, RecordOk, Shaped;
    assert Last(rec).status == Statuses(rec)[|rec.receipts| - 1];
    GrowTo(s, env, rec, Done(Last(rec)));
  }

  lemma ResumeInv(s: Sys, env: Envelope, now: int, id1: Id, id2: Id, proof: Option<string>)
    requires Working(s, env) && s.proc.phase == AtExecute
    ensures Inv(ResumeStep(s, now, id1, id2, proof))
  {
    hide InboxInv, StoreInv, ExecutedInv, StartedInv, ReturnedInv, CoreInv, AllLater, ProvenanceActive, RecordOk, Latest, ReceiptOk, ApprovalFits, Statuses;
    if MayExecute(s, s.proc.mem.requests[s.proc.i]) {
      WorkingRecord(s, env);
      var rec := s.store[env.actionId];
      ShapeTells(rec);
      if Closed(rec) {
      } else if proof.Some? && Latest(rec.receipts, Committed).Some? {
        AppendedOk(rec, Verified, now, id1, proof, None);
        SettleInv(s, env, rec, Appended(rec, Verified, now, id1, proof, None).value);
      } else if proof.Some? && Latest(rec.receipts, Attempted).Some? {
        AppendedOk(rec, Committed, now, id1, proof, None);
        var mid := Appended(rec, Committed, now, id1, proof, None).value;
        AppendedOk(mid, Verified, now, id2, proof, None);
        SettleInv(s, env, mid, Appended(mid, Verified, now, id2, proof, None).value);
      }
    }
  }

  lemma AttemptInv(s: Sys, env: Envelope, now: int, receiptId: Id)
    requires Working(s, env) && s.proc.phase == AtExecute
    ensures Inv(AttemptStep(s, now, receiptId))
  {
    hide InboxInv, StoreInv, ExecutedInv, ReturnedInv, CoreInv, AllLater, ProvenanceActive, RecordOk, Latest, ReceiptOk, ApprovalFits;
    var s' := AttemptStep(s, now, receiptId);
    if s' != s {
      WorkingRecord(s, env);
      var rec := s.store[env.actionId];
      ShapeTells(rec);
      AppendedOk(rec, Attempted, now, receiptId, None, None);
      GrowTo(s, env, Appended(rec, Attempted, now, receiptId, None, None).value, AtAdapter);
    }
  }

  /** The one place where the adapter is started: the action id has never been started. */
  lemma AdapterStartInv(s: Sys, env: Envelope)
    requires Working(s, env) && s.proc.phase == AtAdapter
    ensures Inv(s.(proc := s.proc.(phase := InAdapter), started := s.started + [env]))
  {
    hide InboxInv, StoreInv, ExecutedInv, ReturnedInv, CoreInv, AllLater;
  }

  lemma AdapterDoneInv(s: Sys, env: Envelope, outcome: AdapterOutcome, now: int, receiptId: Id)
    requires Working(s, env) && s.proc.phase == InAdapter
    ensures Inv(AdapterDoneStep(s, outcome, now, receiptId))
  {
    hide InboxInv, StoreInv, ExecutedInv, StartedInv, ReturnedInv, CoreInv, AllLater, RecordOk, ReceiptOk;
    WorkingRecord(s, env);
    var rec := s.store[env.actionId];
    assert Last(rec).status == Statuses(rec)[1];
    match outcome
    case Success(proof) =>
      AppendedOk(rec, Committed, now, receiptId, Some(proof), None);
      GrowTo(s, env, Appended(rec, Committed, now, receiptId, Some(proof), None).value, AtVerify);
    case Unknown =>
      AppendedOk(rec, Failed, now, receiptId, None, Some(UnknownOutcome));
      FailInv(s, env, Appended(rec, Failed, now, receiptId, None, Some(UnknownOutcome)).value);
    case Threw =>
      AppendedOk(rec, Failed, now, receiptId, None, Some(ExecutionError));
      FailInv(s, env, Appended(rec, Failed, now, receiptId, None, Some(ExecutionError)).value);
  }

  lemma VerifyInv(s: Sys, env: Envelope, proof: Option<string>, now: int, receiptId: Id)
    requires Working(s, env) && s.proc.phase == AtVerify
    ensures Inv(VerifyStep(s, proof, now, receiptId))
  {
    hide InboxInv, StoreInv, ExecutedInv, StartedInv, ReturnedInv, CoreInv, AllLater, RecordOk, ReceiptOk;
    WorkingRecord(s, env);
    var rec := s.store[env.actionId];
    assert Last(rec).status == Statuses(rec)[2];
    if proof.Some? {
      AppendedOk(rec, Verified, now, receiptId, proof, None);
      var rec' := Appended(rec, Verified, now, receiptId, proof, None).value;
      GrowTo(s, env, rec', Done(Last(rec')));
    } else {
      AppendedOk(rec, Failed, now, receiptId, Last(rec).proof, Some(VerificationFailed));
      FailInv(s, env, Appended(rec, Failed, now, receiptId, Last(rec).proof, Some(VerificationFailed)).value);
    }
  }

  // ---------------------------------------------------------------- ending an execution

  lemma EndedGood(r: Request, r': Request, base: Request)
    requires Good(r) && Consumed(r.status) && Later(base, r) && base.status == Executing
    requires (exists h :: r' == r.(status := Executed, receiptHash := Some(h))) || r' == r.(status := ExecutionFailed)
    ensures Good(r') && Later(base, r')
  {
  }

  /** Writing back the working copy after the request it executes has ended. */
  lemma WriteBack(s: Sys, r: Request, event: AuditEvent, actor: Id, now: int, receipt: Option<Digest>)
    requires Inv(s) && s.proc.Running? && !s.proc.replay
    requires var r0 := s.proc.mem.requests[s.proc.i];
      (exists h :: r == r0.(status := Executed, receiptHash := Some(h))) || r == r0.(status := ExecutionFailed)
    requires StatusOfEvent(event, Some(s.proc.mem.requests[s.proc.i].status)) == Some(r.status)
    requires r.status == Executed ==>
      Recorded(s.store, r.env) && Closed(s.store[r.env.actionId]) && r.receiptHash == Some(Last(s.store[r.env.actionId]).hash)
    ensures var mem := Moved(s.proc.mem, s.proc.i, r, event, actor, now, receipt);
      && MemInv(s.inbox, mem, s.proc.i, true)
      && (ValidInbox(mem) ==> InboxInv(mem) && StoreInv(mem, s.store) && ExecutedInv(mem, s.store))
  {
    hide ValidInbox, Replayed, ChainOk, Audited, Unique, Good, StoreInv, StartedInv, ReturnedInv, StatusOfEvent, PhaseInv;
    var i, mem0 := s.proc.i, s.proc.mem;
    CoreGood(mem0, i);
    assert Later(s.inbox.requests[i], mem0.requests[i]);
    EndedGood(mem0.requests[i], r, s.inbox.requests[i]);
    MovedCore(mem0, i, r, event, actor, now, receipt);
    var mem := Moved(mem0, i, r, event, actor, now, receipt);
    forall j | 0 <= j < |mem.requests| ensures Later(s.inbox.requests[j], mem.requests[j]) {
      if j != i { assert mem.requests[j] == mem0.requests[j]; }
    }
    StoreFollowsInbox(s.inbox, mem, s.store);
  }

  lemma FinishInv(s: Sys, env: Envelope, now: int, writeOk: bool)
    requires Working(s, env) && s.proc.phase.Done?
    ensures Inv(FinishStep(s, now, writeOk))
    ensures AllLater(s.inbox.requests, FinishStep(s, now, writeOk).inbox.requests)
    ensures NeverPendingToExpired(s.inbox.requests, FinishStep(s, now, writeOk).inbox.requests)
  {
    hide ValidInbox, CoreInv, Moved, StoreInv, ExecutedInv, StartedInv, AllLater;
    LaterReflexive(s.inbox.requests);
    var rc, r := s.proc.phase.receipt, s.proc.mem.requests[s.proc.i];
    assert rc.actionId == env.actionId by { ReceiptNamesAction(s, env); }
    if !s.proc.replay {
      WriteBack(s, r.(status := Executed, receiptHash := Some(rc.hash)), ExecutionVerified, r.env.actorId, now, Some(rc.hash));
    }
  }

  lemma ReceiptNamesAction(s: Sys, env: Envelope)
    requires Working(s, env) && Recorded(s.store, env)
    ensures s.store[env.actionId].receipts != [] && Last(s.store[env.actionId]).actionId == env.actionId
  {
    WorkingRecord(s, env);
    var rec := s.store[env.actionId];
    assert ReceiptOk(rec, |rec.receipts| - 1);
  }

  lemma CatchInv(s: Sys, now: int)
    requires Inv(s) && s.proc.Running? && s.proc.phase.Caught?
    ensures Inv(CatchStep(s, now))
    ensures AllLater(s.inbox.requests, CatchStep(s, now).inbox.requests)
    ensures NeverPendingToExpired(s.inbox.requests, CatchStep(s, now).inbox.requests)
  {
    hide ValidInbox, CoreInv, Moved, StoreInv, ExecutedInv, StartedInv, ReturnedInv, AllLater, Latest;
    LaterReflexive(s.inbox.requests);
    var r := s.proc.mem.requests[s.proc.i];
    if r.env.actionId in s.store && Latest(s.store[r.env.actionId].receipts, Failed).Some? {
      var hash := Latest(s.store[r.env.actionId].receipts, Failed).value.hash;
      WriteBack(s, r.(status := ExecutionFailed), ExecutionFailedEvent, r.env.actorId, now, Some(hash));
    }
  }

  // ---------------------------------------------------------------- whole runs

  lemma ProcessInv(s: Sys, e: Event)
    requires Inv(s) && s.proc.Running?
    ensures Inv(ProcessEvent(s, e))
    ensures AllLater(s.inbox.requests, ProcessEvent(s, e).inbox.requests)
    ensures NeverPendingToExpired(s.inbox.requests, ProcessEvent(s, e).inbox.requests)
  {
    hide InboxInv, StoreInv, ExecutedInv, StartedInv, ReturnedInv, CoreInv, AllLater,
         SubmitStep, ResumeStep, AttemptStep, AdapterDoneStep, VerifyStep, FinishStep, CatchStep;
    LaterReflexive(s.inbox.requests);
    var env := s.proc.mem.requests[s.proc.i].env;
    match (e, s.proc.phase)
    case (GatewaySubmit(now, id), AtSubmit) => SubmitInv(s, env, now, id); SameInbox(s, e);
    case (GatewayResume(now, id1, id2, proof), AtExecute) => ResumeInv(s, env, now, id1, id2, proof); SameInbox(s, e);
    case (GatewayAttempt(now, id), AtExecute) => AttemptInv(s, env, now, id); SameInbox(s, e);
    case (AdapterStart, AtAdapter) => AdapterStartInv(s, env);
    case (AdapterDone(outcome, now, id), InAdapter) => AdapterDoneInv(s, env, outcome, now, id); SameInbox(s, e);
    case (GatewayVerify(proof, now, id), AtVerify) => VerifyInv(s, env, proof, now, id); SameInbox(s, e);
    case (Finish(now, writeOk), Done(_)) => FinishInv(s, env, now, writeOk);
    case (CatchWrite(now), Caught) => CatchInv(s, now);
    case (Throw, Caught) =>
    case (Throw, _) => ThrowInv(s);
    case _ =>
  }

  lemma SameInbox(s: Sys, e: Event)
    requires s.proc.Running? && !e.Finish? && !e.CatchWrite?
    ensures ProcessEvent(s, e).inbox == s.inbox
  {
  }

  /** Every step keeps the invariant and moves requests only forward. */
  lemma StepInv(s: Sys, e: Event)
    requires Inv(s)
    ensures Inv(Apply(s, e))
    ensures AllLater(s.inbox.requests, Apply(s, e).inbox.requests)
    ensures NeverPendingToExpired(s.inbox.requests, Apply(s, e).inbox.requests)
  {
    hide InboxInv, StoreInv, ExecutedInv, StartedInv, ReturnedInv, AllLater, CoreInv, ProcessEvent, BeginStep, InboxEvent;
    LaterReflexive(s.inbox.requests);
    if e.Crash? {
    } else if s.proc.Running? {
      ProcessInv(s, e);
    } else if e.Begin? {
      BeginInv(s, e);
    } else {
      InboxStepInv(s, e);
    }
  }

  lemma {:induction false} RunInv(es: seq<Event>)
    ensures Inv(Run(INITIAL, es))
  {
    hide Inv, Apply;
    if es == [] { InitialInv(); } else { RunInv(es[..|es| - 1]); StepInv(Run(INITIAL, es[..|es| - 1]), es[|es| - 1]); }
  }

  lemma InitialInv()
    ensures Inv(INITIAL)
  {
  }
}
