/** Exactly when each operation of the broker goes through, and what it leaves, said of the
    rows alone. */
module BrokerAnswers {
  import opened Options
  import opened CredentialBroker
  import opened BrokerExecution

  // ---------------------------------------------------------------- credentials

  /** A new credential starts at version one, unrevoked. */
  lemma RegisterDecides(s: Store, key: Key, c: Credential)
    ensures Register(s, key, c).Some? <==> key !in s.credentials && |s.credentials| < 1_000 && c.createdAt < c.expiresAt
    ensures Register(s, key, c).Some? ==>
      var s' := Register(s, key, c).value;
      s'.grants == s.grants && s'.receipts == s.receipts && s'.credentials == s.credentials[key := c.(version := 1, revoked := false)]
  {
  }

  /** Afterwards every grant of the credential is revoked, and no other grant is touched. */
  ghost predicate OnlyRevokes(s: Store, s': Store, key: Key) {
    && s'.receipts == s.receipts && s'.grants.Keys == s.grants.Keys
    && (forall id :: id in s.grants ==>
          if s.grants[id].binding.tenant == key.tenant && s.grants[id].credential == key.id
          then s'.grants[id] == s.grants[id].(revoked := true) else s'.grants[id] == s.grants[id])
  }

  /** Rotation wants an unrevoked credential and a future expiry; it takes the new reference
      and expiry, counts the version up and revokes every grant of the credential. */
  lemma RotateDecides(s: Store, key: Key, vaultRef: string, expiresAt: int, asked: int)
    ensures Rotate(s, key, vaultRef, expiresAt, asked).Some? <==>
      asked < expiresAt && key in s.credentials && !s.credentials[key].revoked && s.credentials[key].createdAt < expiresAt
    ensures Rotate(s, key, vaultRef, expiresAt, asked).Some? ==>
      var c, s' := s.credentials[key], Rotate(s, key, vaultRef, expiresAt, asked).value;
      && OnlyRevokes(s, s', key)
      && s'.credentials == s.credentials[key := c.(vaultRef := vaultRef, expiresAt := expiresAt, version := c.version + 1)]
  {
  }

  /** Revocation marks the credential and revokes every grant of it. */
  lemma RevokeDecides(s: Store, key: Key)
    ensures Revoke(s, key).Some? <==> key in s.credentials
    ensures Revoke(s, key).Some? ==>
      OnlyRevokes(s, Revoke(s, key).value, key) && Revoke(s, key).value.credentials == s.credentials[key := s.credentials[key].(revoked := true)]
  {
  }

  // ---------------------------------------------------------------- grants

  /** The workload may have a grant on this credential. */
  predicate Grantable(c: Credential, w: Workload, r: Request, now: int) {
    && !c.revoked && now < c.expiresAt
    && r.provider == c.provider && w.binding.project == c.project && w.binding.environment == c.environment
    && forall x :: x in r.scopes ==> x in c.scopes
  }

  /** A lifetime that starts now, of at most fifteen minutes, or five with broken glass, and
      within those of credential and workload. */
  predicate ShortLived(c: Credential, w: Workload, expiresAt: int, now: int, glass: bool) {
    now < expiresAt <= now + (if glass then 300_000 else 900_000) && expiresAt <= c.expiresAt && expiresAt <= w.expiresAt
  }

  predicate Owns(c: Credential, w: Workload) { c.owner == w.binding.workload && c.ownerKind == w.binding.kind }

  /** A grant is issued exactly for a grantable credential and a short lifetime, to its owner
      or with break-glass authorization; it names the current version and the caller. */
  lemma IssueDecides(s: Store, w: Workload, r: Request, expiresAt: int, asked: int, now: int, id: string, authorized: bool)
    ensures var key, next := Key(w.binding.tenant, r.credential), Issue(s, w, r, expiresAt, asked, now, id, authorized);
      && (next.Some? <==>
            && asked < expiresAt && key in s.credentials && Grantable(s.credentials[key], w, r, now)
            && (Owns(s.credentials[key], w) || authorized) && ShortLived(s.credentials[key], w, expiresAt, now, !Owns(s.credentials[key], w))
            && id !in s.grants && |s.grants| < 10_000)
      && (next.Some? ==> Issued(s, next.value, s.credentials[key], w, r, expiresAt, now, id))
  {
    hide Grantable, ShortLived;
    var key := Key(w.binding.tenant, r.credential);
    if key in s.credentials { SameGrantChecks(s.credentials[key], w, r, expiresAt, now); }
  }

  lemma SameGrantChecks(c: Credential, w: Workload, r: Request, expiresAt: int, now: int)
    ensures Grantable(c, w, r, now) <==>
      CredentialUsable(c, now) && r.provider == c.provider && w.binding.project == c.project && w.binding.environment == c.environment && Within(r.scopes, c.scopes)
    ensures forall glass :: ShortLived(c, w, expiresAt, now, glass) <==>
      && (glass ==> expiresAt - now <= 300_000)
      && expiresAt - now <= 900_000 && now < expiresAt && expiresAt <= c.expiresAt && expiresAt <= w.expiresAt
  {
  }

  ghost predicate Issued(s: Store, s': Store, c: Credential, w: Workload, r: Request, expiresAt: int, now: int, id: string) {
    && s'.credentials == s.credentials && s'.receipts == s.receipts
    && s'.grants == s.grants[id := Grant(id, r.credential, c.version, w.binding, c.provider, r.scopes, r.action, now, expiresAt, !Owns(c, w), false)]
  }

  // ---------------------------------------------------------------- starting

  /** The grant is for this caller and request and still good, its credential is good and at
      the granted version, and the executor is made for it. */
  ghost predicate Good(s: Store, ex: Executor, b: Binding, id: string, r: Request, now: int) {
    && id in s.grants
    && var g := s.grants[id];
    && !g.revoked && now < g.expiresAt && g.binding == b
    && Request(g.credential, g.provider, g.scopes, g.action) == r
    && Key(b.tenant, g.credential) in s.credentials
    && var c := s.credentials[Key(b.tenant, g.credential)];
    && !c.revoked && now < c.expiresAt && c.version == g.version
    && ex.provider == c.provider && forall x :: x in g.scopes ==> x in ex.scopes
  }

  lemma GoodIsStartable(s: Store, ex: Executor, b: Binding, id: string, r: Request, now: int)
    ensures Good(s, ex, b, id, r, now) <==> Startable(s, ex, b, id, r, now)
  {
  }

  /** Starting an execution: an executed grant answers its receipt, one with any other receipt
      is refused, and a good one without receipt starts with the credential's current vault
      reference once the action's receipt was verified. */
  lemma BeginDecides(s: Store, ex: Executor, b: Binding, id: string, r: Request, now: int, verified: bool, receipt: string)
    ensures var start := Begin(s, ex, b, id, r, now, verified, receipt);
      && (start.Prior? <==> Good(s, ex, b, id, r, now) && id in s.receipts && s.receipts[id].status == Executed)
      && (start.Prior? ==> start.receipt == s.receipts[id])
      && (start.Started? <==>
            && Good(s, ex, b, id, r, now) && id !in s.receipts && verified && |s.receipts| < 10_000
            && forall x :: x in s.receipts ==> s.receipts[x].id != receipt)
      && (start.Started? ==> Opened(s, start, id, receipt))
  {
    GoodIsStartable(s, ex, b, id, r, now);
    hide Good;
  }

  /** The grant and its credential's vault reference are handed on, with a receipt in execution. */
  ghost predicate Opened(s: Store, start: Start, id: string, receipt: string)
    requires start.Started?
  {
    && id in s.grants
    && var g := s.grants[id];
    && Key(g.binding.tenant, g.credential) in s.credentials
    && start.grant == g && start.vaultRef == s.credentials[Key(g.binding.tenant, g.credential)].vaultRef
    && start.store.credentials == s.credentials && start.store.grants == s.grants
    && start.store.receipts == s.receipts[id := Receipt(receipt, id, Key(g.binding.tenant, g.credential), g.version, g.binding.workload, g.action, Executing)]
  }

  // ---------------------------------------------------------------- ending

  /** The receipt says how the execution ended: executed when the executor returned with a
      request id, unknown when it was called and did not, failed when it was not called. */
  lemma EndIsRecorded(y: Sys, k: nat, ok: bool)
    requires Inv(y) && k < |y.sessions| && (y.sessions[k].phase.Running? || y.sessions[k].phase.Failing?)
    ensures EndedAs(y, Apply(y, if y.sessions[k].phase.Running? then Finish(k, ok) else Fail(k)), k, ok)
  {
    hide StoreOk, RanOk, StatusOk, UseOk;
    InProgress(y, k);
    hide SessionsOk;
  }

  ghost predicate EndedAs(y: Sys, y': Sys, k: nat, ok: bool)
    requires k < |y.sessions|
  {
    var x := y.sessions[k];
    && |y'.sessions| == |y.sessions| && y'.sessions[k].phase == Ended
    && x.grant.id in y.store.receipts && x.grant.id in y'.store.receipts
    && y'.store.receipts[x.grant.id] ==
         y.store.receipts[x.grant.id].(status := if x.phase.Failing? then Failed else if ok then Executed else Unknown)
  }

  /** The secret that is used is read from the reference that the execution started with, and a
      vault or an activity check that fails keeps the executor from being called. */
  lemma OnlyCheckedSecretsAreUsed(y: Sys, k: nat, e: Event)
    requires k < |y.sessions| && OfSession(e) && e.k == k
    ensures var x, x' := y.sessions[k], Apply(y, e).sessions[k];
      && (x'.phase.Checking? && !x.phase.Checking? ==> e == ReadSecret(k, true) && x.phase.Reading? && x'.phase.secret == x.vaultRef)
      && (x'.phase.Ready? && !x.phase.Ready? ==> e.CheckActive? && e.verified && x.phase.Checking?)
      && (x'.phase.Running? && !x.phase.Running? ==> e.CallExecutor? && x.phase.Ready? && |Apply(y, e).ran| == |y.ran| + 1)
      && (e == ReadSecret(k, false) && x.phase.Reading? ==> x'.phase == Failing)
      && (e.CheckActive? && !e.verified && x.phase.Checking? ==> x'.phase == Failing)
  {
    hide Active, Complete;
  }

  /** The execution may go on: its grant is as it was, still good and the caller's, its
      credential is good and at the granted version, the executor is made for it, and its
      receipt is in execution. */
  ghost predicate StillGood(s: Store, ex: Executor, g: Grant, b: Binding, now: int, later: int) {
    && g.id in s.grants
    && var h := s.grants[g.id];
    && !h.revoked && now < h.expiresAt && h.binding == b
    && h.credential == g.credential && h.provider == g.provider && h.scopes == g.scopes && h.action == g.action
    && Key(b.tenant, g.credential) in s.credentials
    && var c := s.credentials[Key(b.tenant, g.credential)];
    && !c.revoked && later < c.expiresAt && c.version == h.version
    && ex.provider == c.provider && (forall x :: x in h.scopes ==> x in ex.scopes)
    && g.id in s.receipts && s.receipts[g.id].status == Executing
  }

  /** The check before the call lets an execution go on exactly then, and so do the checks that
      the executor makes while it runs. */
  lemma CheckDecides(y: Sys, k: nat, b: Binding, now: int, later: int, verified: bool)
    requires Inv(y) && k < |y.sessions|
    ensures var x := y.sessions[k];
      var good := verified && StillGood(y.store, y.executor, x.grant, b, now, later);
      && (x.phase.Checking? ==> Apply(y, CheckActive(k, b, now, later, verified))
                                == Move(y, k, if good then Ready(x.phase.secret, y.store, b, now, later) else Failing))
      && (x.phase.Running? && good ==> Apply(y, Recheck(k, b, now, later, verified))
                                       == y.(rechecked := y.rechecked + [Use(x.grant, x.phase.secret, y.store, b, now, later)]))
      && (x.phase.Running? && !good ==> Apply(y, Recheck(k, b, now, later, verified)) == y)
  {
    hide Complete, Active, StillGood, Inv;
    StillGoodIsActive(y.store, y.executor, y.sessions[k].grant, b, now, later) by { StoreGrants(y); }
  }

  lemma StoreGrants(y: Sys)
    requires Inv(y)
    ensures forall id :: id in y.store.grants ==> y.store.grants[id].id == id
  {
    hide SessionsOk, RanOk, StatusOk, ReceiptsOk, GrantCurrent;
    forall id | id in y.store.grants ensures y.store.grants[id].id == id { assert GrantOk(y.store, id); }
  }

  lemma StillGoodIsActive(s: Store, ex: Executor, g: Grant, b: Binding, now: int, later: int)
    requires forall id :: id in s.grants ==> s.grants[id].id == id
    ensures StillGood(s, ex, g, b, now, later) <==> Active(s, ex, g, b, now, later)
  {
  }

  /** In every reachable store every grant was issued for at most fifteen minutes, or five with
      broken glass, on its credential's provider, project and environment, within its scopes
      and up to its version, and to its owner unless glass was broken. */
  lemma GrantsKeepTerms(ex: Executor, es: seq<Event>, id: string)
    requires id in Run(ex, es).store.grants
    ensures var s := Run(ex, es).store;
      var g := s.grants[id];
      && g.id == id && g.issuedAt < g.expiresAt <= g.issuedAt + (if g.breakGlass then 300_000 else 900_000)
      && Key(g.binding.tenant, g.credential) in s.credentials
      && var c := s.credentials[Key(g.binding.tenant, g.credential)];
      && 1 <= c.version && c.createdAt < c.expiresAt
      && g.version <= c.version && g.provider == c.provider && (forall x :: x in g.scopes ==> x in c.scopes)
      && g.binding.project == c.project && g.binding.environment == c.environment
      && (g.breakGlass || (g.binding.workload == c.owner && g.binding.kind == c.ownerKind))
  {
    hide SessionsOk, RanOk, StatusOk, Run, ReceiptsOk;
    RunInv(ex, es);
    assert GrantOk(Run(ex, es).store, id);
  }
}
