/** The inbox object in the code's own imperative form: each method loads the store, works
    on the copy step by step, and writes the copy back if it validates. */
module InboxStore {
  import opened Options
  import opened ApprovalInbox
  import opened InboxLifecycle

  /** `refresh`: one pass over the requests, updating the loaded state as it goes. */
  method RefreshAll(state: Inbox, now: int) returns (next: Inbox)
    ensures next == Refresh(state, now)
  {
    next := state;
    var i := 0;
    while i < |state.requests|
      invariant 0 <= i <= |state.requests| == |next.requests|
      invariant next == RefreshUpTo(state, i, now)
    {
      var r := next.requests[i];
      if r.status == Pending && now >= r.escalationAt {
        next := next.(requests := next.requests[i := r.(status := TimedOut)]);
        next := next.(audit := Audited(next.audit, RequestTimedOut, r.(status := TimedOut), INBOX_ID, now, None));
      } else if (r.status == Pending || r.status == Approved) && now >= r.expiresAt {
        next := next.(requests := next.requests[i := r.(status := Expired)]);
        next := next.(audit := Audited(next.audit, RequestExpired, r.(status := Expired), INBOX_ID, now, None));
      }
      i := i + 1;
    }
  }

  method IndexOf(rs: seq<Request>, id: Id) returns (i: nat)
    ensures i == FindRequest(rs, id)
  {
    i := 0;
    while i < |rs| && rs[i].id != id
      invariant 0 <= i <= |rs|
      invariant forall j :: 0 <= j < i ==> rs[j].id != id
    {
      i := i + 1;
    }
  }

  method CountApprovals(ds: seq<Decision>) returns (n: nat)
    ensures n == Approvals(ds)
  {
    n := 0;
    for k := 0 to |ds|
      invariant n == Approvals(ds[..k])
    {
      assert ds[..k + 1][..k] == ds[..k];
      if ds[k].kind == Approve { n := n + 1; }
    }
    assert ds[..|ds|] == ds;
  }

  /** The audit chain check with its running hash and sequence number. */
  method ValidateAuditChain(audit: seq<AuditRecord>) returns (ok: bool)
    ensures ok == ChainOk(audit)
  {
    var previous, sequence := AuditAnchor, 1;
    var k := 0;
    while k < |audit|
      invariant 0 <= k <= |audit| && sequence == k + 1 && previous == LastHash(audit[..k])
      invariant ChainOk(audit[..k])
    {
      var record := audit[k];
      assert audit[..k + 1][..k] == audit[..k];
      if record.sequence != sequence || record.previous != previous
         || record.recordHash != AuditDigest(record.sequence, record.event, record.requestId, record.actionHash,
                                             record.receiptHash, record.actorId, record.timestamp, record.previous) {
        ChainPrefix(audit, k + 1);
        return false;
      }
      previous, sequence := record.recordHash, sequence + 1;
      k := k + 1;
    }
    assert audit[..|audit|] == audit;
    return true;
  }

  lemma {:induction false} ChainPrefix(audit: seq<AuditRecord>, k: nat)
    requires k <= |audit| && !ChainOk(audit[..k])
    ensures !ChainOk(audit)
    decreases |audit|
  {
    if k == |audit| {
      assert audit[..k] == audit;
    } else {
      var init := audit[..|audit| - 1];
      assert init[..k] == audit[..k];
      ChainPrefix(init, k);
    }
  }

  predicate NoRepeats<T(==)>(xs: seq<T>) { forall i, j :: 0 <= i < j < |xs| ==> xs[i] != xs[j] }

  /** `unique`, by collecting what was seen. */
  method AllUnique<T(==)>(xs: seq<T>) returns (ok: bool)
    ensures ok == NoRepeats(xs)
  {
    var seen: set<T> := {};
    for k := 0 to |xs|
      invariant NoRepeats(xs[..k]) && forall x :: x in seen <==> x in xs[..k]
    {
      if xs[k] in seen {
        var i :| 0 <= i < k && xs[..k][i] == xs[k];
        assert xs[i] == xs[k];
        return false;
      }
      assert xs[..k + 1] == xs[..k] + [xs[k]];
      seen := seen + {xs[k]};
    }
    assert xs[..|xs|] == xs;
    ok := true;
  }

  method RequestsOk(rs: seq<Request>) returns (ok: bool)
    ensures ok <==> forall i :: 0 <= i < |rs| ==> RequestOk(rs[i])
  {
    for k := 0 to |rs|
      invariant forall i :: 0 <= i < k ==> RequestOk(rs[i])
    {
      if !RequestOk(rs[k]) { return false; }
    }
    ok := true;
  }

  /** `validateState`: every request, the uniqueness of ids and of action hashes, then the
      audit chain. */
  method ValidateState(b: Inbox) returns (ok: bool)
    ensures ok == ValidInbox(b)
  {
    hide RequestOk, ChainOk;
    if |b.requests| > MAX_REQUESTS || |b.audit| > MAX_AUDIT { return false; }
    ok := RequestsOk(b.requests);
    if !ok { return; }
    var ids := seq(|b.requests|, i requires 0 <= i < |b.requests| => b.requests[i].id);
    var hashes := seq(|b.requests|, i requires 0 <= i < |b.requests| => ActionDigest(b.requests[i].env));
    var distinctIds := AllUnique(ids);
    var distinctHashes := AllUnique(hashes);
    assert distinctIds && distinctHashes <==> Unique(b.requests) by { SameUnique(b.requests, ids, hashes); }
    if !distinctIds || !distinctHashes { return false; }
    ok := ValidateAuditChain(b.audit);
  }

  lemma SameUnique(rs: seq<Request>, ids: seq<Id>, hashes: seq<Digest>)
    requires |ids| == |hashes| == |rs|
    requires forall i :: 0 <= i < |rs| ==> ids[i] == rs[i].id && hashes[i] == ActionDigest(rs[i].env)
    ensures NoRepeats(ids) && NoRepeats(hashes) <==> Unique(rs)
  {
    if Unique(rs) {
      forall i, j | 0 <= i < j < |rs| ensures ids[i] != ids[j] && hashes[i] != hashes[j] {
        assert rs[i].id != rs[j].id && ActionDigest(rs[i].env) != ActionDigest(rs[j].env);
      }
    }
    if NoRepeats(ids) && NoRepeats(hashes) {
      forall i, j | 0 <= i < j < |rs| ensures rs[i].id != rs[j].id && ActionDigest(rs[i].env) != ActionDigest(rs[j].env) {
        assert ids[i] != ids[j] && hashes[i] != hashes[j];
      }
    }
  }

  class LocalApprovalInbox {
    var requests: seq<Request>
    var audit: seq<AuditRecord>

    function State(): Inbox
      reads this
    {
      Inbox(requests, audit)
    }

    ghost predicate Valid()
      reads this
    {
      InboxInv(State())
    }

    constructor ()
      ensures Valid() && State() == EMPTY
    {
      requests, audit := [], [];
    }

    /** `write`: nothing is stored unless the whole state validates. The inbox keeps its
        invariant and no request moves back, provided the operation that made the new state
        keeps them whenever that state validates. */
    method Write(next: Inbox) returns (ok: bool)
      requires Valid() && (ValidInbox(next) ==> CoreInv(next) && AllLater(State().requests, next.requests))
      modifies this
      ensures Valid() && AllLater(old(State()).requests, requests)
      ensures ok == ValidInbox(next) && State() == if ok then next else old(State())
    {
      hide ValidInbox, CoreInv, Later;
      LaterReflexive(requests);
      ok := ValidateState(next);
      if ok { requests, audit := next.requests, next.audit; }
    }

    method Ask(env: Envelope, p: Policy, c: Context, id: Id, now: int) returns (ok: bool)
      requires Valid()
      modifies this
      ensures Valid() && AllLater(old(State()).requests, requests)
      ensures State() == Commit(old(State()), RequestOp(old(State()), env, p, c, id, now))
      ensures ok <==> RequestOp(old(State()), env, p, c, id, now).Some? && ValidInbox(RequestOp(old(State()), env, p, c, id, now).value)
    {
      hide ValidInbox, CoreInv, Allowed, Refresh, Later;
      LaterReflexive(requests);
      if env.expiresAt <= now || !ValidPolicy(p) || c.confidence > 100 { return false; }
      var state := RefreshAll(State(), now);
      if !Known(state.requests, env) {
        if Classify(env).None? || !Allowed(p, env, c, state.requests, now, None) { return false; }
        var r := NewRequest(env, p, c, id, now);
        state := state.(requests := state.requests + [r]);
        state := state.(audit := Audited(state.audit, RequestCreated, r, env.actorId, now, None));
      }
      if ValidInbox(state) { RequestKeeps(State(), env, p, c, id, now); }
      ok := Write(state);
    }

    method Approve(id: Id, a: Approver, now: int) returns (ok: bool)
      requires Valid()
      modifies this
      ensures Valid() && AllLater(old(State()).requests, requests)
      ensures State() == Commit(old(State()), ApproveOp(old(State()), id, a, now))
      ensures ok <==> ApproveOp(old(State()), id, a, now).Some? && ValidInbox(ApproveOp(old(State()), id, a, now).value)
    {
      hide ValidInbox, CoreInv, Refresh, Later, Independent, Distinct, Approvals, FindRequest;
      LaterReflexive(requests);
      var state := RefreshAll(State(), now);
      var i := IndexOf(state.requests, id);
      if i == |state.requests| { return false; }
      var r := state.requests[i];
      if r.status != Pending || !Independent(r.env, a) { return false; }
      if exists k :: 0 <= k < |r.decisions| && r.decisions[k].kind == DecisionKind.Approve && !Distinct(r.decisions[k].approver, a) { return false; }
      r := r.(decisions := r.decisions + [Decision(DecisionKind.Approve, a, now)]);
      state := Moved(state, i, r, RequestApproved, a.id, now, None);
      var n := CountApprovals(r.decisions);
      if n >= r.required {
        r := r.(status := Approved, artifact := Some(ArtifactFor(r, now)));
        state := Moved(state, i, r, ArtifactIssued, INBOX_ID, now, None);
      }
      ApproveKeeps(State(), id, a, now);
      ok := Write(state);
    }

    /** `reject` and `revoke` */
    method DecideTerminal(id: Id, a: Approver, kind: DecisionKind, now: int) returns (ok: bool)
      requires Valid() && kind != DecisionKind.Approve
      modifies this
      ensures Valid() && AllLater(old(State()).requests, requests)
      ensures State() == Commit(old(State()), DecideOp(old(State()), id, a, kind, now))
      ensures ok <==> DecideOp(old(State()), id, a, kind, now).Some? && ValidInbox(DecideOp(old(State()), id, a, kind, now).value)
    {
      hide ValidInbox, CoreInv, Refresh, Later, FindRequest;
      LaterReflexive(requests);
      var state := RefreshAll(State(), now);
      var i := IndexOf(state.requests, id);
      if i == |state.requests| { return false; }
      var r := state.requests[i];
      if r.status == Executing || r.status == Executed || r.status == ExecutionFailed { return false; }
      if r.status != Pending && r.status != Approved { return false; }
      r := r.(decisions := r.decisions + [Decision(kind, a, now)]);
      r := r.(status := if kind == Reject then Rejected else Revoked);
      state := Moved(state, i, r, if kind == Reject then RequestRejected else RequestRevoked, a.id, now, None);
      DecideKeeps(State(), id, a, kind, now);
      ok := Write(state);
    }

    /** The first half of `editAndResubmit`. */
    method SupersedeForEdit(id: Id, a: Approver, now: int) returns (ok: bool)
      requires Valid()
      modifies this
      ensures Valid() && AllLater(old(State()).requests, requests)
      ensures State() == Commit(old(State()), SupersedeOp(old(State()), id, a, now))
      ensures ok <==> SupersedeOp(old(State()), id, a, now).Some? && ValidInbox(SupersedeOp(old(State()), id, a, now).value)
    {
      hide ValidInbox, CoreInv, Refresh, Later, FindRequest;
      LaterReflexive(requests);
      var state := RefreshAll(State(), now);
      var i := IndexOf(state.requests, id);
      if i == |state.requests| { return false; }
      var r := state.requests[i];
      if r.status == Executing || r.status == Executed || r.consumedAt.Some? { return false; }
      state := Moved(state, i, r.(status := Superseded), RequestSuperseded, a.id, now, None);
      SupersedeKeeps(State(), id, a, now);
      ok := Write(state);
    }
  }
}
