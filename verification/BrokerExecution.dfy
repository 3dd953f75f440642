/** Safety of credential use over every interleaving of registration, rotation, revocation,
    issue and execution, with a stop possible between any two steps. */
module BrokerExecution {
  import opened CredentialBroker

  /** In the store that the activity check saw, the grant was unrevoked and unexpired and
      belonged to the caller, its credential was unrevoked, unexpired and still at the granted
      version, the executor was made for its provider and scopes, and the secret in hand is the
      one behind the credential's vault reference at that moment. */
  ghost predicate UseOk(ex: Executor, u: Use) {
    && u.grant.id in u.at.grants && u.at.grants[u.grant.id] == u.grant
    && !u.grant.revoked && u.now < u.grant.expiresAt && u.caller == u.grant.binding
    && Key(u.caller.tenant, u.grant.credential) in u.at.credentials
    && var c := u.at.credentials[Key(u.caller.tenant, u.grant.credential)];
    && !c.revoked && u.later < c.expiresAt && c.version == u.grant.version && c.vaultRef == u.secret
    && ex.provider == c.provider && (forall x :: x in u.grant.scopes ==> x in ex.scopes)
    && u.grant.id in u.at.receipts && u.at.receipts[u.grant.id].status == Executing
  }

  ghost predicate HasRun(y: Sys, id: string) { exists i :: 0 <= i < |y.ran| && y.ran[i].grant.id == id }

  /** What ties an execution to the store, whatever others do meanwhile. */
  ghost predicate Tied(s: Store, x: Session) {
    && !x.grant.revoked
    && x.grant.id in s.grants && GrantLater(x.grant, s.grants[x.grant.id])
    && x.grant.id in s.receipts && s.receipts[x.grant.id].id == x.receipt
    && KeyOf(x.grant) in s.credentials
    && var c := s.credentials[KeyOf(x.grant)];
      c.version > x.grant.version || (c.version == x.grant.version && c.vaultRef == x.vaultRef)
  }

  ghost predicate PhaseOk(y: Sys, x: Session) {
    && (x.phase.Checking? || x.phase.Ready? || x.phase.Running? ==> x.phase.secret == x.vaultRef)
    && (x.phase.Ready? ==> UseOk(y.executor, Use(x.grant, x.phase.secret, x.phase.at, x.phase.caller, x.phase.now, x.phase.later)))
    && (x.phase.Running? ==> HasRun(y, x.grant.id))
    && (x.phase.Ended? || x.phase.Running? || !HasRun(y, x.grant.id))
    && (x.phase.Ended? || (x.grant.id in y.store.receipts && y.store.receipts[x.grant.id].status.Executing?))
  }

  ghost predicate SessionsOk(y: Sys) {
    && (forall k :: 0 <= k < |y.sessions| ==> Tied(y.store, y.sessions[k]) && PhaseOk(y, y.sessions[k]))
    && (forall i, j :: 0 <= i < j < |y.sessions| ==> y.sessions[i].grant.id != y.sessions[j].grant.id)
  }

  /** At most one call of the executor per grant, each with a secret that was current. */
  ghost predicate RanOk(y: Sys) {
    && (forall i :: 0 <= i < |y.ran| ==> UseOk(y.executor, y.ran[i]) && y.ran[i].grant.id in y.store.receipts)
    && (forall i, j :: 0 <= i < j < |y.ran| ==> y.ran[i].grant.id != y.ran[j].grant.id)
    && (forall i :: 0 <= i < |y.rechecked| ==> UseOk(y.executor, y.rechecked[i]))
  }

  /** `failed` means the executor was never called, `executed` that it was. */
  ghost predicate StatusOk(y: Sys) {
    forall id <- y.store.receipts ::
      && (y.store.receipts[id].status.Failed? ==> !HasRun(y, id))
      && (y.store.receipts[id].status.Executed? ==> HasRun(y, id))
  }

  ghost predicate Inv(y: Sys) { StoreOk(y.store) && SessionsOk(y) && RanOk(y) && StatusOk(y) }

  lemma TiedLater(s: Store, s': Store, x: Session)
    requires Tied(s, x) && Later(s, s')
    ensures Tied(s', x)
  {
    assert GrantLater(s.grants[x.grant.id], s'.grants[x.grant.id]);
    assert CredentialLater(s.credentials[KeyOf(x.grant)], s'.credentials[KeyOf(x.grant)]);
    assert ReceiptLater(s.receipts[x.grant.id], s'.receipts[x.grant.id]);
  }

  /** Registration, rotation, revocation and issue leave every execution in order. */
  lemma StoreStep(y: Sys, s': Store)
    requires Inv(y) && StoreOk(s') && Later(y.store, s') && s'.receipts == y.store.receipts
    ensures Inv(y.(store := s'))
  {
    hide StoreOk, Later, Tied, UseOk;
    var y' := y.(store := s');
    SameRuns(y, y');
    forall k | 0 <= k < |y.sessions| ensures Tied(s', y.sessions[k]) && PhaseOk(y', y.sessions[k]) {
      TiedLater(y.store, s', y.sessions[k]);
      assert PhaseOk(y, y.sessions[k]);
    }
  }

  lemma SameRuns(y: Sys, y': Sys)
    requires y'.ran == y.ran
    ensures forall id :: HasRun(y', id) <==> HasRun(y, id)
  {}

  /** An execution is not concerned by changes to other grants' receipts. */
  lemma PhaseKeeps(y: Sys, y': Sys, x: Session)
    requires PhaseOk(y, x) && (HasRun(y', x.grant.id) <==> HasRun(y, x.grant.id)) && y'.executor == y.executor
    requires x.grant.id in y.store.receipts ==> x.grant.id in y'.store.receipts && y'.store.receipts[x.grant.id].status == y.store.receipts[x.grant.id].status
    ensures PhaseOk(y', x)
  {
    hide HasRun, UseOk;
  }

  lemma NewPhase(y: Sys, x: Session)
    requires x.phase.Reading? && !HasRun(y, x.grant.id) && x.grant.id in y.store.receipts && y.store.receipts[x.grant.id].status.Executing?
    ensures PhaseOk(y, x)
  {
    hide HasRun, UseOk;
  }

  lemma EndedPhase(y: Sys, x: Session)
    requires x.phase.Ended?
    ensures PhaseOk(y, x)
  {
    hide HasRun, UseOk;
  }

  /** A grant without a receipt has no execution and was never run. */
  lemma NoReceiptNoSession(y: Sys, id: string)
    requires Inv(y) && id !in y.store.receipts
    ensures !HasRun(y, id) && forall k :: 0 <= k < |y.sessions| ==> y.sessions[k].grant.id != id
  {
    hide StoreOk, StatusOk, UseOk, PhaseOk;
    forall k | 0 <= k < |y.sessions| ensures y.sessions[k].grant.id != id { assert Tied(y.store, y.sessions[k]); }
  }

  lemma BeginTies(s: Store, ex: Executor, b: Binding, id: string, r: Request, now: int, verified: bool, receipt: string)
    requires StoreOk(s) && Begin(s, ex, b, id, r, now, verified, receipt).Started?
    ensures var start := Begin(s, ex, b, id, r, now, verified, receipt);
      && Tied(start.store, Session(start.grant, start.vaultRef, receipt, Reading)) && start.grant.id == id
      && id !in s.receipts && start.store.receipts == s.receipts[id := start.store.receipts[id]]
      && start.store.receipts[id].status.Executing?
  {
    GrantIds(s);
    hide StoreOk, Supports;
  }

  lemma StartStep(y: Sys, x: Session, s': Store)
    requires Inv(y) && StoreOk(s') && Later(y.store, s') && x.phase.Reading? && Tied(s', x)
    requires x.grant.id !in y.store.receipts && s'.receipts == y.store.receipts[x.grant.id := s'.receipts[x.grant.id]]
    requires s'.receipts[x.grant.id].status.Executing?
    ensures Inv(y.(store := s', sessions := y.sessions + [x]))
  {
    NoReceiptNoSession(y, x.grant.id);
    hide StoreOk, Later, Tied, UseOk, PhaseOk, SessionsOk, RanOk, StatusOk;
    var y' := y.(store := s', sessions := y.sessions + [x]);
    SameRuns(y, y');
    hide HasRun;
    NewPhase(y', x);
    StartSessions(y, x, y');
    StartStatus(y, y', x.grant.id);
  }

  lemma StartStatus(y: Sys, y': Sys, id: string)
    requires RanOk(y) && StatusOk(y) && y'.ran == y.ran && y'.rechecked == y.rechecked && y'.executor == y.executor && id !in y.store.receipts
    requires id in y'.store.receipts && y'.store.receipts[id].status.Executing?
    requires y'.store.receipts == y.store.receipts[id := y'.store.receipts[id]]
    requires forall x :: HasRun(y', x) <==> HasRun(y, x)
    ensures RanOk(y') && StatusOk(y')
  {
    hide HasRun, UseOk;
  }

  lemma StartSessions(y: Sys, x: Session, y': Sys)
    requires SessionsOk(y) && Later(y.store, y'.store) && Tied(y'.store, x) && PhaseOk(y', x)
    requires y'.executor == y.executor && y'.sessions == y.sessions + [x] && forall id :: HasRun(y', id) <==> HasRun(y, id)
    requires forall k :: 0 <= k < |y.sessions| ==> y.sessions[k].grant.id != x.grant.id
    requires forall id <- y.store.receipts :: id in y'.store.receipts && y'.store.receipts[id] == y.store.receipts[id]
    ensures SessionsOk(y')
  {
    hide Later, Tied, PhaseOk, HasRun;
    forall k | 0 <= k < |y.sessions| ensures Tied(y'.store, y.sessions[k]) && PhaseOk(y', y.sessions[k]) {
      TiedLater(y.store, y'.store, y.sessions[k]);
      PhaseKeeps(y, y', y.sessions[k]);
    }
  }

  /** Execution k moves to a phase that suits it; the store is untouched. */
  lemma MoveStep(y: Sys, k: nat, phase: Phase)
    requires Inv(y) && k < |y.sessions| && PhaseOk(y, y.sessions[k].(phase := phase))
    ensures Inv(Move(y, k, phase))
  {
    hide StoreOk, Tied, UseOk;
    var y' := Move(y, k, phase);
    SameRuns(y, y');
    forall j | 0 <= j < |y'.sessions| ensures Tied(y'.store, y'.sessions[j]) && PhaseOk(y', y'.sessions[j]) {
      assert Tied(y.store, y.sessions[j]) && PhaseOk(y, y.sessions[j]);
      assert y'.sessions[j].(phase := y.sessions[j].phase) == y.sessions[j];
      TiedAnyPhase(y.store, y.sessions[j], y'.sessions[j]);
    }
    assert SessionsOk(y');
  }

  lemma TiedAnyPhase(s: Store, x: Session, x': Session)
    requires Tied(s, x) && x' == x.(phase := x'.phase)
    ensures Tied(s, x')
  {}

  /** A passed check sees exactly what UseOk records. */
  lemma ActiveUse(y: Sys, k: nat, b: Binding, now: int, later: int)
    requires Inv(y) && k < |y.sessions| && Active(y.store, y.executor, y.sessions[k].grant, b, now, later)
    ensures UseOk(y.executor, Use(y.sessions[k].grant, y.sessions[k].vaultRef, y.store, b, now, later))
  {
    GrantIds(y.store);
    hide StoreOk, StatusOk, PhaseOk;
    assert Tied(y.store, y.sessions[k]);
  }

  lemma CallStep(y: Sys, k: nat)
    requires Inv(y) && k < |y.sessions| && y.sessions[k].phase.Ready?
    ensures Inv(Apply(y, CallExecutor(k)))
  {
    hide StoreOk, Tied, UseOk;
    var x := y.sessions[k];
    var y' := Apply(y, CallExecutor(k));
    var u := y'.ran[|y.ran|];
    assert PhaseOk(y, x) && Tied(y.store, x);
    assert x.grant.id in y.store.receipts && y.store.receipts[x.grant.id].status.Executing?;
    forall id ensures HasRun(y', id) <==> HasRun(y, id) || id == x.grant.id { RanMore(y, y', id); }
    forall j | 0 <= j < |y'.sessions| ensures Tied(y'.store, y'.sessions[j]) && PhaseOk(y', y'.sessions[j]) {
      assert Tied(y.store, y.sessions[j]) && PhaseOk(y, y.sessions[j]);
      assert j != k ==> y.sessions[j].grant.id != x.grant.id;
      TiedAnyPhase(y.store, y.sessions[j], y'.sessions[j]);
    }
    assert SessionsOk(y') by { assert forall j :: 0 <= j < |y'.sessions| ==> y'.sessions[j].grant == y.sessions[j].grant; }
    forall i | 0 <= i < |y.ran| ensures y.ran[i].grant.id != x.grant.id { assert !HasRun(y, x.grant.id); }
    assert RanOk(y');
    assert StatusOk(y');
  }

  lemma RanMore(y: Sys, y': Sys, id: string)
    requires |y'.ran| == |y.ran| + 1 && y'.ran[..|y.ran|] == y.ran
    ensures HasRun(y', id) <==> HasRun(y, id) || id == y'.ran[|y.ran|].grant.id
  {
    assert forall i :: 0 <= i < |y.ran| ==> y'.ran[i] == y.ran[i];
  }

  predicate Settles(x: Session, status: Status) {
    (status.Failed? && x.phase.Failing?) || ((status.Executed? || status.Unknown?) && x.phase.Running?)
  }

  lemma InProgress(y: Sys, k: nat)
    requires Inv(y) && k < |y.sessions| && !y.sessions[k].phase.Ended?
    ensures var x, rs := y.sessions[k], y.store.receipts;
      && x.grant.id in rs && rs[x.grant.id].id == x.receipt && rs[x.grant.id].status.Executing?
      && (x.phase.Running? <==> HasRun(y, x.grant.id))
  {
    hide StoreOk, RanOk, StatusOk, UseOk, HasRun;
    assert PhaseOk(y, y.sessions[k]) && Tied(y.store, y.sessions[k]);
  }

  /** The receipt of execution k gets its final status. */
  lemma CompleteStep(y: Sys, k: nat, status: Status)
    requires Inv(y) && k < |y.sessions| && Settles(y.sessions[k], status)
    ensures var x := y.sessions[k];
      var done := Complete(y.store, x.grant.id, x.receipt, status);
      done.Some? && Inv(Move(y, k, Ended).(store := done.value))
  {
    InProgress(y, k);
    hide SessionsOk, RanOk, StatusOk, StoreOk, Later, HasRun;
    var x := y.sessions[k];
    CompleteOk(y.store, x.grant.id, x.receipt, status);
    Settle(y, k, status, Complete(y.store, x.grant.id, x.receipt, status).value);
  }

  lemma Settle(y: Sys, k: nat, status: Status, s': Store)
    requires SessionsOk(y) && RanOk(y) && StatusOk(y) && k < |y.sessions| && Settles(y.sessions[k], status)
    requires StoreOk(s') && Later(y.store, s') && y.sessions[k].grant.id in y.store.receipts
    requires y.sessions[k].phase.Running? <==> HasRun(y, y.sessions[k].grant.id)
    requires var id, rs := y.sessions[k].grant.id, y.store.receipts; s'.receipts == rs[id := rs[id].(status := status)]
    ensures Inv(Move(y, k, Ended).(store := s'))
  {
    hide SessionsOk, RanOk, StatusOk, StoreOk, Later, HasRun;
    var y' := Move(y, k, Ended).(store := s');
    SameRuns(y, y');
    SettledStatus(y, y', y.sessions[k].grant.id, status);
    EndSession(y, k, y');
  }

  lemma EndSession(y: Sys, k: nat, y': Sys)
    requires SessionsOk(y) && Later(y.store, y'.store) && k < |y.sessions|
    requires y'.executor == y.executor && y'.sessions == y.sessions[k := y.sessions[k].(phase := Ended)] && forall id :: HasRun(y', id) <==> HasRun(y, id)
    requires forall id <- y.store.receipts :: id in y'.store.receipts && (id == y.sessions[k].grant.id || y'.store.receipts[id] == y.store.receipts[id])
    ensures SessionsOk(y')
  {
    hide Later, Tied, PhaseOk, HasRun;
    forall j | 0 <= j < |y'.sessions| ensures Tied(y'.store, y'.sessions[j]) && PhaseOk(y', y'.sessions[j]) && y'.sessions[j].grant == y.sessions[j].grant {
      TiedLater(y.store, y'.store, y.sessions[j]);
      TiedAnyPhase(y'.store, y.sessions[j], y'.sessions[j]);
      if j == k { EndedPhase(y', y'.sessions[j]); }
      else { assert y.sessions[j].grant.id != y.sessions[k].grant.id; PhaseKeeps(y, y', y.sessions[j]); }
    }
  }

  lemma SettledStatus(y: Sys, y': Sys, id: string, status: Status)
    requires RanOk(y) && StatusOk(y) && y'.ran == y.ran && y'.rechecked == y.rechecked && y'.executor == y.executor && id in y.store.receipts
    requires y'.store.receipts == y.store.receipts[id := y.store.receipts[id].(status := status)]
    requires (status.Failed? && !HasRun(y, id)) || (status.Executed? && HasRun(y, id)) || status.Unknown?
    requires forall x :: HasRun(y', x) <==> HasRun(y, x)
    ensures RanOk(y') && StatusOk(y')
  {
    hide HasRun, UseOk;
  }

  lemma AdvanceOk(y: Sys, e: Event)
    requires Inv(y) && OfSession(e) && e.k < |y.sessions|
    ensures Inv(Advance(y, e, y.sessions[e.k]))
  {
    hide StoreOk, Tied, UseOk, RanOk, StatusOk, Active, Complete;
    var x := y.sessions[e.k];
    assert PhaseOk(y, x);
    match e
    case ReadSecret(k, ok) =>
      if x.phase.Reading? { MoveStep(y, k, if ok then Checking(x.vaultRef) else Failing); }
    case CheckActive(k, b, now, later, verified) =>
      if x.phase.Checking? {
        if verified && Active(y.store, y.executor, x.grant, b, now, later) {
          ActiveUse(y, k, b, now, later);
          MoveStep(y, k, Ready(x.phase.secret, y.store, b, now, later));
        } else {
          MoveStep(y, k, Failing);
        }
      }
    case CallExecutor(k) => if x.phase.Ready? { CallStep(y, k); }
    case Recheck(k, b, now, later, verified) =>
      if x.phase.Running? && verified && Active(y.store, y.executor, x.grant, b, now, later) {
        ActiveUse(y, k, b, now, later);
        RecheckStep(y, Use(x.grant, x.vaultRef, y.store, b, now, later));
      }
    case Fail(k) => if x.phase.Failing? { CompleteStep(y, k, Failed); }
    case Finish(k, ok) => if x.phase.Running? { CompleteStep(y, k, if ok then Executed else Unknown); }
    case Crash(k) => MoveStep(y, k, Ended);
  }

  lemma RecheckStep(y: Sys, u: Use)
    requires Inv(y) && UseOk(y.executor, u)
    ensures Inv(y.(rechecked := y.rechecked + [u]))
  {
    hide StoreOk, Tied, UseOk;
    var y' := y.(rechecked := y.rechecked + [u]);
    SameRuns(y, y');
    forall k | 0 <= k < |y.sessions| ensures Tied(y'.store, y'.sessions[k]) && PhaseOk(y', y'.sessions[k]) {
      assert Tied(y.store, y.sessions[k]) && PhaseOk(y, y.sessions[k]);
    }
  }

  lemma StepInv(y: Sys, e: Event)
    requires Inv(y)
    ensures Inv(Apply(y, e))
  {
    hide StoreOk, SessionsOk, RanOk, StatusOk, Later, Tied, Advance, Begin;
    match e
    case RegisterCredential(key, c) =>
      if Register(y.store, key, c).Some? { RegisterOk(y.store, key, c); StoreStep(y, Register(y.store, key, c).value); }
    case RotateCredential(key, vaultRef, expiresAt, asked) =>
      if Rotate(y.store, key, vaultRef, expiresAt, asked).Some? {
        RotateOk(y.store, key, vaultRef, expiresAt, asked);
        StoreStep(y, Rotate(y.store, key, vaultRef, expiresAt, asked).value);
      }
    case RevokeCredential(key) =>
      if Revoke(y.store, key).Some? { RevokeOk(y.store, key); StoreStep(y, Revoke(y.store, key).value); }
    case IssueGrant(w, r, expiresAt, asked, now, id, authorized) =>
      if Issue(y.store, w, r, expiresAt, asked, now, id, authorized).Some? {
        IssueOk(y.store, w, r, expiresAt, asked, now, id, authorized);
        StoreStep(y, Issue(y.store, w, r, expiresAt, asked, now, id, authorized).value);
      }
    case StartExecution(b, id, r, now, verified, receipt) =>
      var start := Begin(y.store, y.executor, b, id, r, now, verified, receipt);
      if start.Started? {
        BeginOk(y.store, y.executor, b, id, r, now, verified, receipt);
        BeginTies(y.store, y.executor, b, id, r, now, verified, receipt);
        StartStep(y, Session(start.grant, start.vaultRef, receipt, Reading), start.store);
      }
    case _ => if e.k < |y.sessions| { AdvanceOk(y, e); }
  }

  lemma {:induction false} RunInv(ex: Executor, es: seq<Event>)
    ensures Inv(Run(ex, es))
  {
    if es == [] {
      assert StoreOk(Run(ex, es).store);
    } else {
      hide Apply, Inv;
      RunInv(ex, es[..|es| - 1]);
      StepInv(Run(ex, es[..|es| - 1]), es[|es| - 1]);
    }
  }

  // ---------------------------------------------------------------- main results

  /** In every reachable store an unrevoked grant carries the current version of its
      unrevoked credential, and every store written passes the checks made on reading. */
  lemma UnrevokedGrantsAreCurrent(ex: Executor, es: seq<Event>, id: string)
    requires id in Run(ex, es).store.grants && !Run(ex, es).store.grants[id].revoked
    ensures var s := Run(ex, es).store;
      var g := s.grants[id];
      && KeyOf(g) in s.credentials && !s.credentials[KeyOf(g)].revoked
      && s.credentials[KeyOf(g)].version == g.version && g.expiresAt <= s.credentials[KeyOf(g)].expiresAt
  {
    hide SessionsOk, RanOk, StatusOk, Run;
    RunInv(ex, es);
    assert GrantOk(Run(ex, es).store, id);
  }

  /** The executor is called at most once for a grant, however many executions of it start. */
  lemma ExecutorRunsAtMostOnce(ex: Executor, es: seq<Event>, i: nat, j: nat)
    requires i < |Run(ex, es).ran| && j < |Run(ex, es).ran| && Run(ex, es).ran[i].grant.id == Run(ex, es).ran[j].grant.id
    ensures i == j
  {
    hide StoreOk, SessionsOk, StatusOk, Run, UseOk;
    RunInv(ex, es);
  }

  /** The store recorded with a use is one that this run really went through. */
  ghost predicate Past(ex: Executor, es: seq<Event>, s: Store) {
    exists n :: 0 <= n <= |es| && Run(ex, es[..n]).store == s
  }

  lemma PastGrows(ex: Executor, es: seq<Event>, e: Event, s: Store)
    requires Past(ex, es, s)
    ensures Past(ex, es + [e], s)
  {
    var n :| 0 <= n <= |es| && Run(ex, es[..n]).store == s;
    assert (es + [e])[..n] == es[..n];
  }

  ghost predicate AllPast(ex: Executor, es: seq<Event>, y: Sys) {
    && (forall k :: 0 <= k < |y.sessions| && y.sessions[k].phase.Ready? ==> Past(ex, es, y.sessions[k].phase.at))
    && (forall i :: 0 <= i < |y.ran| ==> Past(ex, es, y.ran[i].at))
    && (forall i :: 0 <= i < |y.rechecked| ==> Past(ex, es, y.rechecked[i].at))
  }

  /** A step adds no recorded store but the present one. */
  lemma StepPast(ex: Executor, es: seq<Event>, y: Sys, e: Event)
    requires AllPast(ex, es, y) && Past(ex, es, y.store)
    ensures AllPast(ex, es, Apply(y, e))
  {
    hide Past, Begin, Active, Complete, Register, Rotate, Revoke, Issue;
  }

  lemma {:induction false} RunPast(ex: Executor, es: seq<Event>)
    ensures AllPast(ex, es, Run(ex, es))
  {
    hide Apply;
    if es != [] {
      var before, e := es[..|es| - 1], es[|es| - 1];
      RunPast(ex, before);
      assert before[..|before|] == before && before + [e] == es;
      assert Past(ex, before, Run(ex, before).store);
      StepPast(ex, before, Run(ex, before), e);
      hide Past;
      forall s | Past(ex, before, s) ensures Past(ex, es, s) { PastGrows(ex, before, e, s); }
    }
  }

  lemma {:induction false} SameExecutor(ex: Executor, es: seq<Event>)
    ensures Run(ex, es).executor == ex
  {
    hide Begin, Active, Complete, Register, Rotate, Revoke, Issue;
    if es != [] { SameExecutor(ex, es[..|es| - 1]); }
  }

  /** Whenever the executor is called, and whenever it passes an activity check while it
      runs, there was a moment of this run, that of its last check, at which the grant and
      its credential were good, the caller was the grant's own workload, subject and run, and
      the secret it holds was the current one. */
  lemma SecretWasCurrent(ex: Executor, es: seq<Event>, u: Use)
    requires u in Run(ex, es).ran || u in Run(ex, es).rechecked
    ensures UseOk(ex, u) && Past(ex, es, u.at)
  {
    hide StoreOk, SessionsOk, StatusOk, UseOk, Past, Run;
    SameExecutor(ex, es);
    RunInv(ex, es);
    RunPast(ex, es);
  }

  lemma StepLater(y: Sys, e: Event)
    requires Inv(y)
    ensures Later(y.store, Apply(y, e).store)
  {
    hide SessionsOk, RanOk, StatusOk, Tied, Begin, Later, Complete, Active, StoreOk;
    NothingChanged(y.store);
    match e
    case RegisterCredential(key, c) => if Register(y.store, key, c).Some? { RegisterOk(y.store, key, c); }
    case RotateCredential(key, vaultRef, expiresAt, asked) =>
      if Rotate(y.store, key, vaultRef, expiresAt, asked).Some? { RotateOk(y.store, key, vaultRef, expiresAt, asked); }
    case RevokeCredential(key) => if Revoke(y.store, key).Some? { RevokeOk(y.store, key); }
    case IssueGrant(w, r, expiresAt, asked, now, id, authorized) =>
      if Issue(y.store, w, r, expiresAt, asked, now, id, authorized).Some? { IssueOk(y.store, w, r, expiresAt, asked, now, id, authorized); }
    case StartExecution(b, id, r, now, verified, receipt) =>
      if Begin(y.store, y.executor, b, id, r, now, verified, receipt).Started? { BeginOk(y.store, y.executor, b, id, r, now, verified, receipt); }
    case Fail(k) =>
      if k < |y.sessions| { CompleteLater(y.store, y.sessions[k].grant.id, y.sessions[k].receipt, Failed); }
    case Finish(k, ok) =>
      if k < |y.sessions| { CompleteLater(y.store, y.sessions[k].grant.id, y.sessions[k].receipt, if ok then Executed else Unknown); }
    case _ =>
  }

  lemma NothingChanged(s: Store)
    ensures Later(s, s)
  {}

  lemma CompleteLater(s: Store, id: string, receipt: string, status: Status)
    requires StoreOk(s)
    ensures Complete(s, id, receipt, status).Some? ==> Later(s, Complete(s, id, receipt, status).value)
  {
    hide StoreOk, Complete, Later;
    if Complete(s, id, receipt, status).Some? { CompleteOk(s, id, receipt, status); }
  }

  /** Once a receipt has left `executing` nothing changes it, so a grant never executes anew. */
  lemma {:induction false} SettledReceiptsAreFinal(ex: Executor, es: seq<Event>, n: nat, id: string)
    requires n <= |es| && id in Run(ex, es[..n]).store.receipts && !Run(ex, es[..n]).store.receipts[id].status.Executing?
    ensures id in Run(ex, es).store.receipts && Run(ex, es).store.receipts[id] == Run(ex, es[..n]).store.receipts[id]
    decreases |es|
  {
    hide Apply, Inv;
    if n == |es| {
      assert es[..n] == es;
    } else {
      var before := es[..|es| - 1];
      assert before[..n] == es[..n];
      SettledReceiptsAreFinal(ex, before, n, id);
      RunInv(ex, before);
      StepLater(Run(ex, before), es[|es| - 1]);
      assert ReceiptLater(Run(ex, before).store.receipts[id], Run(ex, es).store.receipts[id]);
    }
  }

  /** A `failed` receipt's executor was never called; an `executed` one's was, exactly once. */
  lemma ReceiptTellsWhetherItRan(ex: Executor, es: seq<Event>, id: string)
    requires id in Run(ex, es).store.receipts
    ensures Run(ex, es).store.receipts[id].status.Failed? ==> !HasRun(Run(ex, es), id)
    ensures Run(ex, es).store.receipts[id].status.Executed? ==> HasRun(Run(ex, es), id)
  {
    hide StoreOk, SessionsOk, RanOk, UseOk, Run, HasRun;
    RunInv(ex, es);
  }
}
