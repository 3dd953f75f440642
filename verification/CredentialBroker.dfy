/** The credential broker: credentials rotate and are revoked, grants are issued against one
    version of a credential, and each grant may be executed once with the credential's
    secret. Every locked update of the store is one step; steps of different executions
    interleave freely and a process may stop between any two. */
module CredentialBroker {
  import opened Options

  /** Whom a grant is bound to. */
  datatype Binding = Binding(
    tenant: string, project: string, environment: string, workload: string, subject: string, kind: string, run: string)

  datatype Workload = Workload(binding: Binding, expiresAt: int)
  datatype Action = Action(id: string, hash: string, receiptHash: string)
  datatype Request = Request(credential: string, provider: string, scopes: seq<string>, action: Action)
  datatype Key = Key(tenant: string, id: string)

  datatype Credential = Credential(
    project: string, environment: string, provider: string, owner: string, ownerKind: string, vaultRef: string,
    scopes: seq<string>, version: nat, createdAt: int, expiresAt: int, revoked: bool)

  datatype Grant = Grant(
    id: string, credential: string, version: nat, binding: Binding, provider: string, scopes: seq<string>, action: Action,
    issuedAt: int, expiresAt: int, breakGlass: bool, revoked: bool)

  datatype Status = Executing | Executed | Failed | Unknown
  datatype Receipt = Receipt(id: string, grant: string, credential: Key, version: nat, workload: string, action: Action, status: Status)

  /** Receipts are kept by grant: the store admits one per grant. */
  datatype Store = Store(credentials: map<Key, Credential>, grants: map<string, Grant>, receipts: map<string, Receipt>)

  /** The provider and the scopes that the configured executor supports. */
  datatype Executor = Executor(provider: string, scopes: set<string>)

  const MAX_CREDENTIALS := 1_000
  const MAX_GRANTS := 10_000
  const MAX_RECEIPTS := 10_000
  const MAX_GRANT_TTL := 900_000
  const MAX_BREAK_GLASS_TTL := 300_000

  function KeyOf(g: Grant): Key { Key(g.binding.tenant, g.credential) }

  // ---------------------------------------------------------------- checks

  predicate Within(scopes: seq<string>, allowed: seq<string>) { forall x <- scopes :: x in allowed }

  predicate Supports(ex: Executor, provider: string, scopes: seq<string>) {
    provider == ex.provider && forall x <- scopes :: x in ex.scopes
  }

  predicate CredentialUsable(c: Credential, now: int) { !c.revoked && c.expiresAt > now }

  predicate GrantUsable(g: Grant, b: Binding, r: Request, now: int) {
    && !g.revoked && g.expiresAt > now
    && g.binding == b
    && g.credential == r.credential && g.provider == r.provider && g.scopes == r.scopes && g.action == r.action
  }

  /** `assertExecutionActive`, on the store as it is now. */
  predicate Active(s: Store, ex: Executor, g: Grant, b: Binding, now: int, later: int) {
    && g.id in s.grants
    && var current := s.grants[g.id];
    && GrantUsable(current, b, Request(g.credential, g.provider, g.scopes, g.action), now)
    && KeyOf(current) in s.credentials
    && var c := s.credentials[KeyOf(current)];
    && CredentialUsable(c, later)
    && c.version == current.version && Supports(ex, c.provider, current.scopes)
    && current.id in s.receipts && s.receipts[current.id].status.Executing?
  }

  // ---------------------------------------------------------------- updates of the store

  function Register(s: Store, key: Key, c: Credential): Option<Store> {
    if key in s.credentials || |s.credentials| >= MAX_CREDENTIALS || c.expiresAt <= c.createdAt then None
    else Some(s.(credentials := s.credentials[key := c.(version := 1, revoked := false)]))
  }

  /** Every grant of the credential, revoked. */
  function RevokeGrants(gs: map<string, Grant>, key: Key): (r: map<string, Grant>)
    ensures r.Keys == gs.Keys
  {
    map id | id in gs :: if KeyOf(gs[id]) == key then gs[id].(revoked := true) else gs[id]
  }

  function Rotate(s: Store, key: Key, vaultRef: string, expiresAt: int, asked: int): Option<Store> {
    if expiresAt <= asked || key !in s.credentials then None
    else
      var c := s.credentials[key];
      if c.revoked || expiresAt <= c.createdAt then None
      else
        Some(s.(
          credentials := s.credentials[key := c.(vaultRef := vaultRef, expiresAt := expiresAt, version := c.version + 1)],
          grants := RevokeGrants(s.grants, key)))
  }

  function Revoke(s: Store, key: Key): Option<Store> {
    if key !in s.credentials then None
    else
      Some(s.(
        credentials := s.credentials[key := s.credentials[key].(revoked := true)],
        grants := RevokeGrants(s.grants, key)))
  }

  function Issue(
    s: Store, w: Workload, r: Request, expiresAt: int, asked: int, now: int, id: string, authorized: bool): Option<Store>
  {
    var key := Key(w.binding.tenant, r.credential);
    if expiresAt <= asked || key !in s.credentials then None
    else
      var c := s.credentials[key];
      var owner := c.owner == w.binding.workload && c.ownerKind == w.binding.kind;
      if !CredentialUsable(c, now) || r.provider != c.provider || w.binding.project != c.project
        || w.binding.environment != c.environment || !Within(r.scopes, c.scopes) then None
      else if !owner && (!authorized || expiresAt - now > MAX_BREAK_GLASS_TTL) then None
      else if expiresAt - now > MAX_GRANT_TTL || expiresAt <= now || expiresAt > c.expiresAt || expiresAt > w.expiresAt then None
      else if id in s.grants || |s.grants| >= MAX_GRANTS then None
      else
        Some(s.(grants := s.grants[id :=
          Grant(id, r.credential, c.version, w.binding, c.provider, r.scopes, r.action, now, expiresAt, !owner, false)]))
  }

  datatype Start =
    | Refused
    | Prior(receipt: Receipt)
    | Started(store: Store, grant: Grant, vaultRef: string)

  /** The grant is good for the request, and its credential is usable at the granted version. */
  predicate Startable(s: Store, ex: Executor, b: Binding, id: string, r: Request, now: int) {
    && id in s.grants && GrantUsable(s.grants[id], b, r, now)
    && var g := s.grants[id];
    && KeyOf(g) in s.credentials
    && var c := s.credentials[KeyOf(g)];
    && CredentialUsable(c, now) && c.version == g.version && Supports(ex, c.provider, g.scopes)
  }

  predicate IdUsed(receipts: map<string, Receipt>, id: string) { exists x :: x in receipts && receipts[x].id == id }

  /** The first transaction of `executeServerSide`. */
  function Begin(s: Store, ex: Executor, b: Binding, id: string, r: Request, now: int, verified: bool, receipt: string): Start {
    if !Startable(s, ex, b, id, r, now) then Refused
    else if id in s.receipts then
      if s.receipts[id].status.Executed? then Prior(s.receipts[id]) else Refused
    else if !verified || |s.receipts| >= MAX_RECEIPTS || IdUsed(s.receipts, receipt) then Refused
    else
      var g := s.grants[id];
      var c := s.credentials[KeyOf(g)];
      var made := Receipt(receipt, id, KeyOf(g), c.version, b.workload, g.action, Executing);
      Started(s.(receipts := s.receipts[id := made]), g, c.vaultRef)
  }

  /** `completeExecution` for the receipt of this grant. */
  function Complete(s: Store, id: string, receipt: string, status: Status): Option<Store> {
    if id !in s.receipts || s.receipts[id].id != receipt || !s.receipts[id].status.Executing? then None
    else Some(s.(receipts := s.receipts[id := s.receipts[id].(status := status)]))
  }

  // ---------------------------------------------------------------- executions

  /** Where an execution stands. `Ready` remembers the store that its activity check saw. */
  datatype Phase =
    | Reading
    | Checking(secret: string)
    | Ready(secret: string, at: Store, caller: Binding, now: int, later: int)
    | Running(secret: string)
    | Failing
    | Ended

  datatype Session = Session(grant: Grant, vaultRef: string, receipt: string, phase: Phase)

  /** The executor holds the secret read from this reference; `at` is what the last activity
      check saw, and `caller` whom it authenticated. */
  datatype Use = Use(grant: Grant, secret: string, at: Store, caller: Binding, now: int, later: int)

  /** `ran` lists the calls of the executor, `rechecked` the activity checks it passed while running. */
  datatype Sys = Sys(executor: Executor, store: Store, sessions: seq<Session>, ran: seq<Use>, rechecked: seq<Use>)

  datatype Event =
    | RegisterCredential(key: Key, credential: Credential)
    | RotateCredential(key: Key, vaultRef: string, expiresAt: int, asked: int)
    | RevokeCredential(key: Key)
    | IssueGrant(w: Workload, r: Request, expiresAt: int, asked: int, now: int, id: string, authorized: bool)
    | StartExecution(b: Binding, id: string, r: Request, now: int, verified: bool, receipt: string)
    | ReadSecret(k: nat, ok: bool)
    | CheckActive(k: nat, b: Binding, now: int, later: int, verified: bool)
    | CallExecutor(k: nat)
    | Recheck(k: nat, b: Binding, now: int, later: int, verified: bool)
    | Fail(k: nat)
    | Finish(k: nat, ok: bool)
    | Crash(k: nat)

  function WithStore(y: Sys, s: Option<Store>): Sys { if s.Some? then y.(store := s.value) else y }

  function Move(y: Sys, k: nat, phase: Phase): Sys
    requires k < |y.sessions|
  {
    y.(sessions := y.sessions[k := y.sessions[k].(phase := phase)])
  }

  function Apply(y: Sys, e: Event): Sys {
    match e
    case RegisterCredential(key, c) => WithStore(y, Register(y.store, key, c))
    case RotateCredential(key, vaultRef, expiresAt, asked) => WithStore(y, Rotate(y.store, key, vaultRef, expiresAt, asked))
    case RevokeCredential(key) => WithStore(y, Revoke(y.store, key))
    case IssueGrant(w, r, expiresAt, asked, now, id, authorized) => WithStore(y, Issue(y.store, w, r, expiresAt, asked, now, id, authorized))
    case StartExecution(b, id, r, now, verified, receipt) =>
      var start := Begin(y.store, y.executor, b, id, r, now, verified, receipt);
      if start.Started? then
        y.(store := start.store, sessions := y.sessions + [Session(start.grant, start.vaultRef, receipt, Reading)])
      else y
    case _ => if e.k < |y.sessions| then Advance(y, e, y.sessions[e.k]) else y
  }

  predicate OfSession(e: Event) {
    e.ReadSecret? || e.CheckActive? || e.CallExecutor? || e.Recheck? || e.Fail? || e.Finish? || e.Crash?
  }

  /** One step of execution k. */
  function Advance(y: Sys, e: Event, x: Session): Sys
    requires OfSession(e) && e.k < |y.sessions| && x == y.sessions[e.k]
  {
    match e
    case ReadSecret(k, ok) =>
      if x.phase.Reading? then Move(y, k, if ok then Checking(x.vaultRef) else Failing) else y
    case CheckActive(k, b, now, later, verified) =>
      if !x.phase.Checking? then y
      else if verified && Active(y.store, y.executor, x.grant, b, now, later) then Move(y, k, Ready(x.phase.secret, y.store, b, now, later))
      else Move(y, k, Failing)
    case CallExecutor(k) =>
      if x.phase.Ready?
      then Move(y, k, Running(x.phase.secret)).(ran := y.ran + [Use(x.grant, x.phase.secret, x.phase.at, x.phase.caller, x.phase.now, x.phase.later)])
      else y
    case Recheck(k, b, now, later, verified) =>
      if x.phase.Running? && verified && Active(y.store, y.executor, x.grant, b, now, later)
      then y.(rechecked := y.rechecked + [Use(x.grant, x.phase.secret, y.store, b, now, later)])
      else y
    case Fail(k) =>
      if x.phase.Failing? then WithStore(Move(y, k, Ended), Complete(y.store, x.grant.id, x.receipt, Failed)) else y
    case Finish(k, ok) =>
      if x.phase.Running? then WithStore(Move(y, k, Ended), Complete(y.store, x.grant.id, x.receipt, if ok then Executed else Unknown)) else y
    case Crash(k) => Move(y, k, Ended)
  }

  function Run(ex: Executor, es: seq<Event>): Sys {
    if es == [] then Sys(ex, Store(map[], map[], map[]), [], [], []) else Apply(Run(ex, es[..|es| - 1]), es[|es| - 1])
  }

  // ---------------------------------------------------------------- what the store keeps

  /** An unrevoked grant is for the current version of an unrevoked credential and does not
      outlive it. */
  predicate GrantCurrent(s: Store, g: Grant) {
    !g.revoked ==>
      && KeyOf(g) in s.credentials
      && var c := s.credentials[KeyOf(g)]; !c.revoked && c.version == g.version && g.expiresAt <= c.expiresAt
  }

  /** What reading the store back demands of a grant; and it stays within its credential's
      project and environment, and belongs to the credential's owner unless glass was broken. */
  predicate GrantValid(s: Store, id: string, g: Grant) {
    && g.id == id
    && g.issuedAt < g.expiresAt <= g.issuedAt + (if g.breakGlass then MAX_BREAK_GLASS_TTL else MAX_GRANT_TTL)
    && KeyOf(g) in s.credentials
    && var c := s.credentials[KeyOf(g)];
    && g.version <= c.version && g.provider == c.provider && Within(g.scopes, c.scopes)
    && g.binding.project == c.project && g.binding.environment == c.environment
    && (g.breakGlass || (g.binding.workload == c.owner && g.binding.kind == c.ownerKind))
  }

  predicate ReceiptValid(s: Store, id: string, r: Receipt) {
    && r.grant == id && id in s.grants
    && var g := s.grants[id]; r.credential == KeyOf(g) && r.version == g.version && r.workload == g.binding.workload && r.action == g.action
  }

  predicate CredentialOk(c: Credential) { c.version >= 1 && c.createdAt < c.expiresAt }

  ghost predicate GrantOk(s: Store, id: string)
    requires id in s.grants
  {
    GrantValid(s, id, s.grants[id]) && GrantCurrent(s, s.grants[id])
  }

  ghost predicate SizesOk(s: Store) {
    |s.credentials| <= MAX_CREDENTIALS && |s.grants| <= MAX_GRANTS && |s.receipts| <= MAX_RECEIPTS
  }

  ghost predicate ReceiptsOk(s: Store) {
    && (forall id <- s.receipts :: ReceiptValid(s, id, s.receipts[id]))
    && (forall a <- s.receipts, b <- s.receipts :: s.receipts[a].id == s.receipts[b].id ==> a == b)
  }

  ghost predicate StoreOk(s: Store) {
    && SizesOk(s)
    && (forall key <- s.credentials :: CredentialOk(s.credentials[key]))
    && (forall id <- s.grants :: GrantOk(s, id))
    && ReceiptsOk(s)
  }

  /** How stored rows may change: a vault reference only together with the version, a grant
      only by revocation, a receipt only while it is executing. */
  predicate CredentialLater(c: Credential, c': Credential) {
    c'.version > c.version || (c'.version == c.version && c'.vaultRef == c.vaultRef && (c.revoked ==> c'.revoked))
  }

  predicate GrantLater(g: Grant, g': Grant) { g' == g || g' == g.(revoked := true) }

  predicate ReceiptLater(r: Receipt, r': Receipt) { r' == r || (r.status.Executing? && r' == r.(status := r'.status)) }

  ghost predicate CredentialsLater(s: Store, s': Store) {
    forall key <- s.credentials :: key in s'.credentials && CredentialLater(s.credentials[key], s'.credentials[key])
  }

  ghost predicate GrantsLater(s: Store, s': Store) {
    forall id <- s.grants :: id in s'.grants && GrantLater(s.grants[id], s'.grants[id])
  }

  ghost predicate ReceiptsLater(s: Store, s': Store) {
    forall id <- s.receipts :: id in s'.receipts && ReceiptLater(s.receipts[id], s'.receipts[id])
  }

  /** Nothing is lost. */
  ghost predicate Later(s: Store, s': Store) { CredentialsLater(s, s') && GrantsLater(s, s') && ReceiptsLater(s, s') }

  lemma RegisterOk(s: Store, key: Key, c: Credential)
    requires StoreOk(s) && Register(s, key, c).Some?
    ensures var s' := Register(s, key, c).value; StoreOk(s') && Later(s, s')
  {
    hide GrantOk, ReceiptsOk, GrantsLater, CredentialsLater, ReceiptsLater;
    var s' := Register(s, key, c).value;
    GrantsUntouched(s, s');
    ReceiptsSurvive(s, s');
  }

  /** Receipts mention nothing of a grant that revocation changes. */
  lemma ReceiptsSurvive(s: Store, s': Store)
    requires ReceiptsOk(s) && s'.receipts == s.receipts && GrantsLater(s, s')
    ensures ReceiptsOk(s') && ReceiptsLater(s, s')
  {
    forall id | id in s'.receipts ensures ReceiptValid(s', id, s'.receipts[id]) {
      assert ReceiptValid(s, id, s.receipts[id]);
      assert GrantLater(s.grants[id], s'.grants[id]);
    }
  }

  /** What neither rotation nor revocation changes. */
  predicate SameCredential(c: Credential, c': Credential) {
    && c'.provider == c.provider && c'.scopes == c.scopes && c'.project == c.project && c'.environment == c.environment
    && c'.owner == c.owner && c'.ownerKind == c.ownerKind
  }

  /** Changing one credential and revoking all its grants. */
  lemma ReplaceOk(s: Store, key: Key, c': Credential)
    requires StoreOk(s) && key in s.credentials && CredentialLater(s.credentials[key], c') && CredentialOk(c')
    requires SameCredential(s.credentials[key], c')
    ensures var s' := s.(credentials := s.credentials[key := c'], grants := RevokeGrants(s.grants, key));
      StoreOk(s') && Later(s, s')
  {
    hide GrantOk, ReceiptsOk, GrantsLater, ReceiptsLater, RevokeGrants;
    SameSize(s.grants, RevokeGrants(s.grants, key));
    var s' := s.(credentials := s.credentials[key := c'], grants := RevokeGrants(s.grants, key));
    assert s'.credentials.Keys == s.credentials.Keys;
    SameSize(s.credentials, s'.credentials);
    RevokedGrantsOk(s, key, c');
    ReceiptsSurvive(s, s');
  }

  lemma RevokedGrantsOk(s: Store, key: Key, c': Credential)
    requires (forall id <- s.grants :: GrantOk(s, id)) && key in s.credentials && CredentialLater(s.credentials[key], c')
    requires SameCredential(s.credentials[key], c')
    ensures var s' := s.(credentials := s.credentials[key := c'], grants := RevokeGrants(s.grants, key));
      (forall id <- s'.grants :: GrantOk(s', id)) && GrantsLater(s, s')
  {
    hide Within;
    var s' := s.(credentials := s.credentials[key := c'], grants := RevokeGrants(s.grants, key));
    forall id | id in s'.grants ensures GrantOk(s', id) && GrantLater(s.grants[id], s'.grants[id]) { assert GrantOk(s, id); }
  }

  lemma AllGrantsLater(s: Store, s': Store)
    requires forall id :: id in s.grants ==> id in s'.grants && GrantLater(s.grants[id], s'.grants[id])
    ensures GrantsLater(s, s')
  {}

  lemma SameSize<X, Y>(a: map<X, Y>, b: map<X, Y>)
    requires a.Keys == b.Keys
    ensures |a| == |b|
  {
    assert |a.Keys| == |a| && |b.Keys| == |b|;
  }

  lemma RotateOk(s: Store, key: Key, vaultRef: string, expiresAt: int, asked: int)
    requires StoreOk(s) && Rotate(s, key, vaultRef, expiresAt, asked).Some?
    ensures var s' := Rotate(s, key, vaultRef, expiresAt, asked).value; StoreOk(s') && Later(s, s')
  {
    hide GrantOk, ReceiptsOk, Later, SizesOk, RevokeGrants;
    var c := s.credentials[key];
    ReplaceOk(s, key, c.(vaultRef := vaultRef, expiresAt := expiresAt, version := c.version + 1));
  }

  lemma RevokeOk(s: Store, key: Key)
    requires StoreOk(s) && Revoke(s, key).Some?
    ensures var s' := Revoke(s, key).value; StoreOk(s') && Later(s, s')
  {
    hide GrantOk, ReceiptsOk, Later, SizesOk, RevokeGrants;
    ReplaceOk(s, key, s.credentials[key].(revoked := true));
  }

  lemma IssueOk(s: Store, w: Workload, r: Request, expiresAt: int, asked: int, now: int, id: string, authorized: bool)
    requires StoreOk(s) && Issue(s, w, r, expiresAt, asked, now, id, authorized).Some?
    ensures var s' := Issue(s, w, r, expiresAt, asked, now, id, authorized).value; StoreOk(s') && Later(s, s')
  {
    hide Within, ReceiptsOk, GrantsLater, ReceiptsLater;
    var s' := Issue(s, w, r, expiresAt, asked, now, id, authorized).value;
    forall x | x in s'.grants ensures GrantOk(s', x) { assert x != id ==> GrantOk(s, x); }
    AllGrantsLater(s, s');
    ReceiptsSurvive(s, s');
  }

  lemma BeginOk(s: Store, ex: Executor, b: Binding, id: string, r: Request, now: int, verified: bool, receipt: string)
    requires StoreOk(s) && Begin(s, ex, b, id, r, now, verified, receipt).Started?
    ensures var s' := Begin(s, ex, b, id, r, now, verified, receipt).store; StoreOk(s') && Later(s, s')
  {
    hide GrantOk, ReceiptsOk, GrantsLater, CredentialsLater, ReceiptsLater, Supports;
    var s' := Begin(s, ex, b, id, r, now, verified, receipt).store;
    GrantsUntouched(s, s');
    assert id == s.grants[id].id by { GrantIds(s); }
    ReceiptPut(s, id, s'.receipts[id]);
  }

  lemma GrantIds(s: Store)
    requires StoreOk(s)
    ensures forall id <- s.grants :: s.grants[id].id == id
  {
    hide Within;
    forall id | id in s.grants ensures s.grants[id].id == id { assert GrantOk(s, id); }
  }

  /** What the grants are checked against does not include the receipts, nor other credentials. */
  lemma GrantsUntouched(s: Store, s': Store)
    requires s'.grants == s.grants && forall id <- s.grants :: GrantOk(s, id)
    requires forall key <- s.credentials :: key in s'.credentials && s'.credentials[key] == s.credentials[key]
    ensures forall id <- s'.grants :: GrantOk(s', id)
    ensures CredentialsLater(s, s') && GrantsLater(s, s')
  {
    hide Within;
    forall id | id in s'.grants ensures GrantOk(s', id) { assert GrantOk(s, id); }
  }

  lemma ReceiptPut(s: Store, id: string, r: Receipt)
    requires ReceiptsOk(s) && ReceiptValid(s, id, r)
    requires forall x <- s.receipts :: s.receipts[x].id == r.id ==> x == id
    requires id in s.receipts ==> ReceiptLater(s.receipts[id], r)
    ensures var s' := s.(receipts := s.receipts[id := r]); ReceiptsOk(s') && ReceiptsLater(s, s')
  {
    var s' := s.(receipts := s.receipts[id := r]);
    forall x | x in s'.receipts ensures ReceiptValid(s', x, s'.receipts[x]) { assert x != id ==> ReceiptValid(s, x, s.receipts[x]); }
  }

  lemma CompleteOk(s: Store, id: string, receipt: string, status: Status)
    requires StoreOk(s) && Complete(s, id, receipt, status).Some?
    ensures var s' := Complete(s, id, receipt, status).value; StoreOk(s') && Later(s, s')
  {
    hide GrantOk, GrantsLater, CredentialsLater, ReceiptsLater;
    var s' := Complete(s, id, receipt, status).value;
    assert s'.receipts.Keys == s.receipts.Keys;
    SameSize(s.receipts, s'.receipts);
    GrantsUntouched(s, s');
    assert ReceiptValid(s, id, s.receipts[id]);
    ReceiptPut(s, id, s'.receipts[id]);
  }
}
