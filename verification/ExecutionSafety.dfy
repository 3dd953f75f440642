/** Safety of approved execution over every run: any sequence of events, with crashes and
    exceptions anywhere. */
module ExecutionSafety {
  import opened Options
  import opened ApprovalInbox
  import opened InboxLifecycle
  import opened ActionGateway
  import opened ApprovedExecution
  import opened RequestTerms

  function After(es: seq<Event>): Sys { Run(INITIAL, es) }

  lemma {:induction false} RunConcat(s: Sys, a: seq<Event>, b: seq<Event>)
    ensures Run(s, a + b) == Run(Run(s, a), b)
  {
    hide Apply;
    if b == [] {
      assert a + b == a;
    } else {
      RunConcat(s, a, b[..|b| - 1]);
      assert (a + b)[..|a + b| - 1] == a + b[..|b| - 1];
    }
  }

  /** From an invariant state on, requests only move forward. */
  lemma {:induction false} RunForward(s: Sys, es: seq<Event>)
    requires Inv(s)
    ensures Inv(Run(s, es)) && AllLater(s.inbox.requests, Run(s, es).inbox.requests)
  {
    hide Inv, Apply, Later;
    if es == [] {
      LaterReflexive(s.inbox.requests);
    } else {
      var init := es[..|es| - 1];
      RunForward(s, init);
      StepInv(Run(s, init), es[|es| - 1]);
      LaterTransitive(s.inbox.requests, Run(s, init).inbox.requests, Run(s, es).inbox.requests);
    }
  }

  // ---------------------------------------------------------------- at most once, and only approved

  /** adapter.execute is started at most once per action id. */
  lemma StartedAtMostOnce(es: seq<Event>)
    ensures forall j, k :: 0 <= j < k < |After(es).started| ==> After(es).started[j].actionId != After(es).started[k].actionId
  {
    hide Run;
    RunInv(es);
  }

  /** The policy allowed the request; it holds two approvals where the policy calls updates
      critical or confidence was too low, and otherwise one; they are by people with pairwise
      distinct ids, principals and independence keys, none of them the actor or its workload,
      given before escalation and expiry; and it was consumed before it expired. */
  ghost predicate IndependentlyApproved(r: Request) {
    && Fair(r) && r.consumedAt.Some?
    && |r.decisions| == (if NeedsTwo(r) then 2 else 1)
    && forall k :: 0 <= k < |r.decisions| ==> r.decisions[k].kind == Approve
  }

  ghost predicate ApprovedAt(rs: seq<Request>, i: nat, env: Envelope) {
    i < |rs| && rs[i].env == env && Consumed(rs[i].status) && IndependentlyApproved(rs[i])
  }

  /** Whatever was started had been asked for in the inbox and independently approved. */
  lemma StartedOnlyIfApproved(es: seq<Event>, k: nat)
    requires k < |After(es).started|
    ensures exists i :: ApprovedAt(After(es).inbox.requests, i, After(es).started[k])
  {
    hide Run, ValidInbox, RecordOk, Shaped, Good, ExecutedInv, ReturnedInv, ProcInv, IndependentlyApproved, CoreInv;
    RunInv(es);
    var s := After(es);
    var rec := s.store[s.started[k].actionId];
    assert Backed(s.inbox, rec);
    var i :| 0 <= i < |s.inbox.requests| && s.inbox.requests[i].env == rec.env && Consumed(s.inbox.requests[i].status);
    CoreGood(s.inbox, i);
    RequestsAreFair(es);
    hide Fair;
    assert Fair(s.inbox.requests[i]);
    ConsumedMeansApproved(s.inbox.requests[i]);
    assert ApprovedAt(s.inbox.requests, i, s.started[k]);
  }

  lemma ConsumedMeansApproved(r: Request)
    requires Good(r) && Fair(r) && Consumed(r.status)
    ensures IndependentlyApproved(r)
  {
    assert AllApprove(r.decisions);
    hide FairDecisions, IndependentApprovals;
  }

  /** Once a request is rejected, revoked, timed out, expired or superseded, its action is
      not started, before or after. */
  lemma DeadNeverStarts(es: seq<Event>, more: seq<Event>, i: nat)
    requires i < |After(es).inbox.requests| && Dead(After(es).inbox.requests[i].status)
    ensures After(es).inbox.requests[i].env !in After(es + more).started
  {
    hide Run, Inv;
    RunInv(es);
    RunConcat(INITIAL, es, more);
    RunForward(After(es), more);
    var s, env := After(es + more), After(es).inbox.requests[i].env;
    assert Later(After(es).inbox.requests[i], s.inbox.requests[i]);
    forall k | 0 <= k < |s.started| ensures s.started[k] != env {
      StartedOnlyIfApproved(es + more, k);
      var j :| ApprovedAt(s.inbox.requests, j, s.started[k]);
      SameActionSameRequest(s, i, j);
    }
  }

  lemma SameActionSameRequest(s: Sys, i: nat, j: nat)
    requires Inv(s) && i < |s.inbox.requests| && j < |s.inbox.requests|
    ensures s.inbox.requests[i].env == s.inbox.requests[j].env ==> i == j
  {
    hide ChainOk, StoreInv, ExecutedInv, StartedInv, ReturnedInv, ProcInv, CoreInv, RequestOk;
    var rs := s.inbox.requests;
    assert i < j ==> ActionDigest(rs[i].env) != ActionDigest(rs[j].env);
    assert j < i ==> ActionDigest(rs[j].env) != ActionDigest(rs[i].env);
  }

  // ---------------------------------------------------------------- receipts

  /** Every durable record is a linked chain with one of eight status histories, so the
      receipt limit is never reached. */
  lemma ReceiptHistories(es: seq<Event>, id: Id)
    requires id in After(es).store
    ensures Shaped(After(es).store[id]) && RecordOk(After(es).store[id])
    ensures |After(es).store[id].receipts| <= 5 < MAX_RECEIPTS
  {
    hide Run, RecordOk;
    RunInv(es);
    ShapeTells(After(es).store[id]);
  }

  lemma ClosedStays(s: Sys, e: Event, id: Id)
    requires Inv(s) && id in s.store && Closed(s.store[id])
    ensures id in Apply(s, e).store && Apply(s, e).store[id] == s.store[id]
  {
    hide Inv, InboxEvent, Refresh, Allowed, Moved, ValidInbox, Closed, RequiredApprovals, ValidPolicy, ProcessEvent, FindRequest;
    if s.proc.Running? && !e.Crash? { RunningClosedStays(s, e, id); }
  }

  lemma RunningClosedStays(s: Sys, e: Event, id: Id)
    requires Inv(s) && s.proc.Running? && id in s.store && Closed(s.store[id])
    ensures id in ProcessEvent(s, e).store && ProcessEvent(s, e).store[id] == s.store[id]
  {
    hide Inv, Closed, SubmitStep, ResumeStep, AttemptStep, AdapterDoneStep, VerifyStep, FinishStep, CatchStep;
    if s.proc.i < |s.proc.mem.requests| {
      ClosedResume(s, e, id);
      ClosedWork(s, e, id);
    }
  }

  /** Submitting keeps an existing record, and resuming returns the verified receipt. */
  lemma ClosedResume(s: Sys, e: Event, id: Id)
    requires Inv(s) && s.proc.Running? && s.proc.i < |s.proc.mem.requests| && id in s.store && Closed(s.store[id])
    ensures e.GatewaySubmit? ==> id in SubmitStep(s, e.now, e.receiptId).store && SubmitStep(s, e.now, e.receiptId).store[id] == s.store[id]
    ensures e.GatewayResume? ==>
      var s' := ResumeStep(s, e.now, e.receiptId, e.nextReceiptId, e.proof); id in s'.store && s'.store[id] == s.store[id]
    ensures e.GatewayAttempt? ==> id in AttemptStep(s, e.now, e.receiptId).store && AttemptStep(s, e.now, e.receiptId).store[id] == s.store[id]
  {
    hide InboxInv, ExecutedInv, StartedInv, ReturnedInv, CoreInv, AllLater, RecordOk, ProvenanceActive, ApprovalFits, Moved,
         ValidInbox, NeverPendingToExpired, Latest, Statuses, Shaped, Closed, Backed, ProcInv;
    ClosedShape(s.store[id]);
  }

  /** A record at work is not a closed one. */
  lemma ClosedWork(s: Sys, e: Event, id: Id)
    requires Inv(s) && s.proc.Running? && s.proc.i < |s.proc.mem.requests| && id in s.store && Closed(s.store[id])
    ensures e.AdapterDone? && s.proc.phase.InAdapter? ==>
      var s' := AdapterDoneStep(s, e.outcome, e.now, e.receiptId); id in s'.store && s'.store[id] == s.store[id]
    ensures e.GatewayVerify? && s.proc.phase.AtVerify? ==>
      var s' := VerifyStep(s, e.proof, e.now, e.receiptId); id in s'.store && s'.store[id] == s.store[id]
    ensures e.Finish? && s.proc.phase.Done? ==> FinishStep(s, e.now, e.writeOk).store == s.store
    ensures e.CatchWrite? && s.proc.phase.Caught? ==> CatchStep(s, e.now).store == s.store
  {
    hide InboxInv, ExecutedInv, StartedInv, ReturnedInv, CoreInv, AllLater, RecordOk, ProvenanceActive, ApprovalFits, Moved,
         ValidInbox, NeverPendingToExpired, Latest, Statuses, Shaped, Closed, Backed;
    ClosedShape(s.store[id]);
  }

  lemma ClosedShape(rec: Record)
    requires Shaped(rec) && Closed(rec)
    ensures Latest(rec.receipts, Verified).Some?
    ensures Statuses(rec) != [Requested, Attempted] && Statuses(rec) != [Requested, Attempted, Committed]
  {
    ShapeTells(rec);
    assert Statuses(rec)[|rec.receipts| - 1] == Verified;
  }

  /** After a verified receipt nothing is ever appended to the record. */
  lemma {:induction false} VerifiedIsFinal(es: seq<Event>, more: seq<Event>, id: Id)
    requires id in After(es).store && Closed(After(es).store[id])
    ensures id in After(es + more).store && After(es + more).store[id] == After(es).store[id]
  {
    hide Apply, Inv;
    if more == [] {
      assert es + more == es;
    } else {
      var init := more[..|more| - 1];
      VerifiedIsFinal(es, init, id);
      assert (es + more)[..|es + more| - 1] == es + init;
      RunInv(es + init);
      ClosedStays(After(es + init), more[|more| - 1], id);
    }
  }

  /** Every execute that ever succeeds for an action returns the same verified receipt, and
      an executed request stores exactly the hash of that receipt. */
  lemma OneReceiptPerAction(es: seq<Event>)
    ensures var rs := After(es).returned;
      forall j, k :: 0 <= j < |rs| && 0 <= k < |rs| && rs[j].actionId == rs[k].actionId ==> rs[j] == rs[k]
    ensures forall k :: 0 <= k < |After(es).returned| ==> After(es).returned[k].status == Verified
    ensures forall i :: 0 <= i < |After(es).inbox.requests| && After(es).inbox.requests[i].status == Executed ==>
      var env := After(es).inbox.requests[i].env;
      && Recorded(After(es).store, env) && Closed(After(es).store[env.actionId])
      && After(es).inbox.requests[i].receiptHash == Some(Last(After(es).store[env.actionId]).hash)
  {
    hide Run, InboxInv, StoreInv, StartedInv, ProcInv;
    RunInv(es);
  }

  // ---------------------------------------------------------------- lifecycle

  /** Consumption is recorded exactly for started executions, at most three decisions are
      ever taken, and the audit trail alone determines every status. */
  lemma RequestLifecycle(es: seq<Event>, i: nat)
    requires i < |After(es).inbox.requests|
    ensures var r := After(es).inbox.requests[i];
      && (r.consumedAt.Some? <==> Consumed(r.status))
      && |r.decisions| <= r.required + 1 <= 3
      && Replayed(After(es).inbox.audit, r.id) == Some(r.status)
    ensures ChainOk(After(es).inbox.audit)
  {
    hide Run, ValidInbox, StoreInv, ExecutedInv, StartedInv, ReturnedInv, ProcInv, Replayed, ChainOk;
    RunInv(es);
    CoreGood(After(es).inbox, i);
  }

  /** No step takes a pending request to expired. */
  lemma PendingNeverExpires(es: seq<Event>, e: Event, i: nat)
    requires i < |After(es).inbox.requests| && After(es).inbox.requests[i].status == Pending
    ensures i < |After(es + [e]).inbox.requests| && After(es + [e]).inbox.requests[i].status != Expired
  {
    hide Apply, Inv, Later;
    RunInv(es);
    StepInv(After(es), e);
    assert (es + [e])[..|es|] == es;
  }

  /** How often the status of request i changes during a run. */
  ghost function Changes(es: seq<Event>, i: nat): nat {
    if es == [] then 0
    else
      var before, after := After(es[..|es| - 1]).inbox.requests, After(es).inbox.requests;
      Changes(es[..|es| - 1], i) + if i < |before| && i < |after| && before[i].status != after[i].status then 1 else 0
  }

  lemma {:induction false} ChangesBelowRank(es: seq<Event>, i: nat)
    ensures Changes(es, i) <= if i < |After(es).inbox.requests| then Rank(After(es).inbox.requests[i].status) else 0
  {
    hide Apply, Inv;
    if es != [] {
      var init := es[..|es| - 1];
      ChangesBelowRank(init, i);
      RunInv(init);
      StepInv(After(init), es[|es| - 1]);
      if i < |After(init).inbox.requests| { assert Later(After(init).inbox.requests[i], After(es).inbox.requests[i]); }
    }
  }

  lemma AtMostThreeChanges(es: seq<Event>, i: nat)
    ensures Changes(es, i) <= 3
  {
    ChangesBelowRank(es, i);
  }

  // ---------------------------------------------------------------- velocity

  /** When request k was created, fewer than `maxActions` live requests of its actor lay in
      the window its policy looks back over; that stays true of the statuses of today. */
  ghost predicate WithinVelocity(rs: seq<Request>) {
    forall k :: 0 <= k < |rs| ==>
      Velocity(rs[..k], rs[k].env.actorId, rs[k].createdAt - rs[k].policy.windowMs, None) < rs[k].policy.maxActions
  }

  lemma {:induction false} VelocityShrinks(rs: seq<Request>, rs': seq<Request>, actor: Id, cutoff: int)
    requires |rs| == |rs'| && AllLater(rs, rs')
    ensures Velocity(rs', actor, cutoff, None) <= Velocity(rs, actor, cutoff, None)
  {
    if rs != [] {
      var n := |rs| - 1;
      assert Later(rs[n], rs'[n]);
      VelocityShrinks(rs[..n], rs'[..n], actor, cutoff);
    }
  }

  lemma VelocityKept(rs: seq<Request>, rs': seq<Request>)
    requires AllLater(rs, rs') && WithinVelocity(rs)
    requires Grows(rs, rs')
    ensures WithinVelocity(rs')
  {
    hide Velocity;
    forall k | 0 <= k < |rs'|
      ensures Velocity(rs'[..k], rs'[k].env.actorId, rs'[k].createdAt - rs'[k].policy.windowMs, None) < rs'[k].policy.maxActions
    {
      if k < |rs| {
        assert Later(rs[k], rs'[k]);
        VelocityShrinks(rs[..k], rs'[..k], rs[k].env.actorId, rs[k].createdAt - rs[k].policy.windowMs);
      }
    }
  }

  /** Only `request` creates requests, one at a time, and only within the velocity limit. */
  ghost predicate Grows(rs: seq<Request>, rs': seq<Request>) {
    |rs'| == |rs| || (|rs'| == |rs| + 1 &&
      Velocity(rs'[..|rs|], rs'[|rs|].env.actorId, rs'[|rs|].createdAt - rs'[|rs|].policy.windowMs, None) < rs'[|rs|].policy.maxActions)
  }

  lemma RequestGrows(b: Inbox, env: Envelope, p: Policy, c: Context, id: Id, now: int)
    requires RequestOp(b, env, p, c, id, now).Some?
    ensures Grows(b.requests, RequestOp(b, env, p, c, id, now).value.requests)
  {
    hide Velocity, Audited, Known, ValidPolicy;
    var b1, b2 := Refresh(b, now), RequestOp(b, env, p, c, id, now).value;
    assert |b2.requests| > |b.requests| ==> b2.requests[..|b.requests|] == b1.requests;
  }

  lemma InboxEventGrows(b: Inbox, e: Event)
    requires InboxEvent(b, e).Some?
    ensures Grows(b.requests, InboxEvent(b, e).value.requests)
  {
    hide Velocity, RequestOp, Independent, Distinct, Approvals, Audited, Refresh, FindRequest;
    if e.Submit? { RequestGrows(b, e.env, e.policy, e.context, e.id, e.now); }
  }

  lemma StepGrows(s: Sys, e: Event)
    requires Inv(s)
    ensures Grows(s.inbox.requests, Apply(s, e).inbox.requests)
  {
    hide Velocity, CoreInv, StoreInv, ExecutedInv, StartedInv, ReturnedInv, RecordOk, ProvenanceActive, Refresh, FindRequest,
         Independent, Distinct, Approvals, Known, Audited, Latest, ApprovalFits, ValidPolicy, ValidInbox, InboxEvent;
    if !s.proc.Running? && InboxEvent(s.inbox, e).Some? { InboxEventGrows(s.inbox, e); }
  }

  lemma StepVelocity(s: Sys, e: Event)
    requires Inv(s) && WithinVelocity(s.inbox.requests)
    ensures WithinVelocity(Apply(s, e).inbox.requests)
  {
    hide WithinVelocity, Velocity, AllLater, Inv, Apply, NeverPendingToExpired;
    StepInv(s, e);
    StepGrows(s, e);
    VelocityKept(s.inbox.requests, Apply(s, e).inbox.requests);
  }

  lemma {:induction false} RunVelocity(es: seq<Event>)
    ensures WithinVelocity(After(es).inbox.requests)
  {
    hide Apply, Inv;
    if es != [] {
      RunVelocity(es[..|es| - 1]);
      RunInv(es[..|es| - 1]);
      StepVelocity(After(es[..|es| - 1]), es[|es| - 1]);
    }
  }

  /** Live requests of one actor created within [lo, hi]. */
  function CreatedWithin(rs: seq<Request>, actor: Id, lo: int, hi: int): nat {
    if rs == [] then 0
    else
      var r := rs[|rs| - 1];
      CreatedWithin(rs[..|rs| - 1], actor, lo, hi)
      + if r.env.actorId == actor && lo <= r.createdAt <= hi && r.status != Superseded then 1 else 0
  }

  lemma {:induction false} WindowBelowVelocity(rs: seq<Request>, actor: Id, lo: int, hi: int, cutoff: int)
    requires cutoff <= lo
    ensures CreatedWithin(rs, actor, lo, hi) <= Velocity(rs, actor, cutoff, None)
  {
    if rs != [] { WindowBelowVelocity(rs[..|rs| - 1], actor, lo, hi, cutoff); }
  }

  lemma {:induction false} WindowBound(rs: seq<Request>, p: Policy, actor: Id, lo: int)
    requires WithinVelocity(rs) && forall k :: 0 <= k < |rs| ==> rs[k].policy == p
    ensures CreatedWithin(rs, actor, lo, lo + p.windowMs) <= p.maxActions
  {
    hide Velocity;
    if rs != [] {
      var n := |rs| - 1;
      var r, init := rs[n], rs[..|rs| - 1];
      if r.env.actorId == actor && lo <= r.createdAt <= lo + p.windowMs && r.status != Superseded {
        WindowBelowVelocity(init, actor, lo, lo + p.windowMs, r.createdAt - p.windowMs);
      } else {
        assert WithinVelocity(init) by {
          forall k | 0 <= k < n
            ensures Velocity(init[..k], init[k].env.actorId, init[k].createdAt - init[k].policy.windowMs, None) < init[k].policy.maxActions
          {
            assert init[..k] == rs[..k];
          }
        }
        WindowBound(init, p, actor, lo);
      }
    }
  }

  /** With one policy in force, no closed interval of the policy's window length ever holds
      the creation times of more than `maxActions` live requests of one actor, in any
      reachable state and whatever the clock does. */
  lemma VelocityOverRuns(es: seq<Event>, p: Policy, actor: Id, lo: int)
    requires forall k :: 0 <= k < |After(es).inbox.requests| ==> After(es).inbox.requests[k].policy == p
    ensures CreatedWithin(After(es).inbox.requests, actor, lo, lo + p.windowMs) <= p.maxActions
  {
    RunVelocity(es);
    WindowBound(After(es).inbox.requests, p, actor, lo);
  }
}
