/** The outbox dispatcher and the report worker over their three tables.  Each SQL
    transaction, and each statement outside one, is one function on the tables. */
module ReportJobs {
  import opened Options

  type EventId = nat
  type ReportId = nat

  datatype EventStatus = Waiting | Leased | Dispatched | Buried
  datatype OutboxRow = OutboxRow(report: ReportId, status: EventStatus, attempts: nat, leaseUntil: Option<int>, availableAt: int, sent: bool)

  datatype JobStatus = Processing | Completed | Failed | DeadLetter
  datatype Receipt = Receipt(status: JobStatus, attempts: nat, leaseUntil: Option<int>)

  datatype ReportStatus = Accepted | InProgress | Evaluated | Abandoned

  datatype Tables = Tables(outbox: map<EventId, OutboxRow>, receipts: map<EventId, Receipt>, reports: map<ReportId, ReportStatus>)

  datatype ClaimResult = Claimed | Duplicate | DeadLettered | LeaseActive | Mismatch

  const DISPATCH_LEASE := 60_000
  const WORKER_LEASE := 300_000

  predicate Final(s: JobStatus) { s == Completed || s == DeadLetter }

  predicate Past(lease: Option<int>, now: int) { lease.Some? && lease.value < now }

  // ---------------------------------------------------------------- dispatcher transactions

  predicate Exhausted(row: OutboxRow, max: nat) { !row.sent && row.status != Buried && row.attempts >= max }

  /** First statement pair of the dispatch transaction: bury what has no attempts left. */
  function BuryExhausted(t: Tables, max: nat): Tables {
    t.(outbox := map e | e in t.outbox ::
         if Exhausted(t.outbox[e], max) then t.outbox[e].(status := Buried, leaseUntil := None) else t.outbox[e],
       reports := map r | r in t.reports ::
         if t.reports[r] == Accepted && exists e :: e in t.outbox && Exhausted(t.outbox[e], max) && t.outbox[e].report == r
         then Abandoned else t.reports[r])
  }

  predicate Eligible(row: OutboxRow, now: int, max: nat) {
    && !row.sent && row.availableAt <= now && row.attempts < max
    && (row.status == Waiting || (row.status == Leased && Past(row.leaseUntil, now)))
  }

  function LeaseRow(row: OutboxRow, now: int): OutboxRow {
    row.(status := Leased, leaseUntil := Some(now + DISPATCH_LEASE), attempts := row.attempts + 1)
  }

  /** Lease the picked rows that are eligible; which rows get picked depends on locks and
      the batch limit. */
  function LeasePicked(t: Tables, picked: set<EventId>, now: int, max: nat): Tables {
    t.(outbox := map e | e in t.outbox ::
         if e in picked && Eligible(t.outbox[e], now, max) then LeaseRow(t.outbox[e], now) else t.outbox[e])
  }

  function MarkSent(t: Tables, e: EventId): Tables {
    if e !in t.outbox then t
    else t.(outbox := t.outbox[e := t.outbox[e].(status := Dispatched, sent := true, leaseUntil := None)])
  }

  /** A failed publish: wait again, or give up when this was the last attempt. */
  function MarkUnsent(t: Tables, e: EventId, attempts: nat, availableAt: int, max: nat): Tables {
    if e !in t.outbox then t
    else if attempts >= max then t.(outbox := t.outbox[e := t.outbox[e].(status := Buried, leaseUntil := None)])
    else t.(outbox := t.outbox[e := t.outbox[e].(status := Waiting, leaseUntil := None, availableAt := availableAt)])
  }

  function AbandonReport(t: Tables, r: ReportId): Tables {
    if r in t.reports && t.reports[r] == Accepted then t.(reports := t.reports[r := Abandoned]) else t
  }

  // ---------------------------------------------------------------- worker transactions

  function BeginReport(t: Tables, r: ReportId): Tables {
    if r in t.reports && (t.reports[r] == Accepted || t.reports[r] == Abandoned) then t.(reports := t.reports[r := InProgress]) else t
  }

  /** `claimReport` */
  function ClaimTx(t: Tables, e: EventId, r: ReportId, now: int, max: nat): (Tables, ClaimResult) {
    if e !in t.outbox || t.outbox[e].report != r then (t, Mismatch)
    else if e !in t.receipts then
      (BeginReport(t.(receipts := t.receipts[e := Receipt(Processing, 1, Some(now + WORKER_LEASE))]), r), Claimed)
    else
      var rc := t.receipts[e];
      if ((rc.status == Processing && Past(rc.leaseUntil, now)) || rc.status == Failed) && rc.attempts < max then
        (BeginReport(t.(receipts := t.receipts[e := Receipt(Processing, rc.attempts + 1, Some(now + WORKER_LEASE))]), r), Claimed)
      else if Final(rc.status) then (t, Duplicate)
      else if rc.status == Failed && rc.attempts >= max then
        (t.(receipts := t.receipts[e := rc.(status := DeadLetter)],
            reports := if r in t.reports then t.reports[r := Abandoned] else t.reports), DeadLettered)
      else (t, LeaseActive)
  }

  /** The processing transaction; None when the report is not in progress. */
  function CompleteTx(t: Tables, e: EventId, r: ReportId): Option<Tables> {
    if r !in t.reports || t.reports[r] != InProgress then None
    else Some(t.(reports := t.reports[r := Evaluated],
                 receipts := if e in t.receipts then t.receipts[e := t.receipts[e].(status := Completed, leaseUntil := None)] else t.receipts))
  }

  /** The failure transaction rewrites report and receipt unconditionally. */
  function FailTx(t: Tables, e: EventId, r: ReportId, dead: bool): Tables {
    t.(reports := if r in t.reports then t.reports[r := if dead then Abandoned else Accepted] else t.reports,
       receipts := if e in t.receipts
                   then t.receipts[e := t.receipts[e].(status := if dead then DeadLetter else Failed, leaseUntil := None)]
                   else t.receipts)
  }

  // ---------------------------------------------------------------- the system

  datatype Phase = Working | Failing(retryable: bool) | Deciding(dead: bool)

  /** A worker between its transactions; `claim` is the attempt number its claim produced. */
  datatype Worker = Worker(event: EventId, report: ReportId, claim: nat, lease: int, phase: Phase)

  /** `sending` holds the dispatchers' published-or-not batches, `closing` the reports they
      still have to abandon; `leases` and `claims` count every lease and claim ever made. */
  datatype Sys = Sys(
    t: Tables, now: int, sending: set<(EventId, nat)>, closing: set<ReportId>, workers: map<nat, Worker>,
    leases: multiset<EventId>, claims: multiset<EventId>)

  datatype Config = Config(maxAttempts: nat, workerMaxAttempts: nat)

  datatype Event =
    | Tick(now: int)
    | AcceptReport(event: EventId, report: ReportId)
    | Dispatch(picked: set<EventId>)
    | Sent(event: EventId, attempts: nat)
    | Unsent(event: EventId, attempts: nat, availableAt: int)
    | Close(report: ReportId)
    | LoseDispatcher(event: EventId, attempts: nat)
    | Claim(worker: nat, event: EventId, report: ReportId)
    | Complete(worker: nat)
    | Stumble(worker: nat, retryable: bool)
    | ReadAttempts(worker: nat)
    | RecordFailure(worker: nat)
    | LoseWorker(worker: nat)

  const INITIAL := Sys(Tables(map[], map[], map[]), 0, {}, {}, map[], multiset{}, multiset{})

  function DispatchStep(c: Config, s: Sys, picked: set<EventId>): Sys {
    var t := BuryExhausted(s.t, c.maxAttempts);
    var taken := set e | e in picked && e in t.outbox && Eligible(t.outbox[e], s.now, c.maxAttempts);
    s.(t := LeasePicked(t, taken, s.now, c.maxAttempts),
       sending := s.sending + (set e | e in taken :: (e, t.outbox[e].attempts + 1)),
       leases := s.leases + multiset(taken))
  }

  function SentStep(s: Sys, e: EventId, n: nat): Sys {
    if (e, n) in s.sending then s.(t := MarkSent(s.t, e), sending := s.sending - {(e, n)}) else s
  }

  function UnsentStep(c: Config, s: Sys, e: EventId, n: nat, availableAt: int): Sys {
    if (e, n) !in s.sending then s
    else
      var s1 := s.(t := MarkUnsent(s.t, e, n, availableAt, c.maxAttempts), sending := s.sending - {(e, n)});
      if n >= c.maxAttempts && e in s.t.outbox then s1.(closing := s1.closing + {s.t.outbox[e].report}) else s1
  }

  function CloseStep(s: Sys, r: ReportId): Sys {
    if r in s.closing then s.(t := AbandonReport(s.t, r), closing := s.closing - {r}) else s
  }

  function ClaimStep(c: Config, s: Sys, w: nat, e: EventId, r: ReportId): Sys {
    var (t, result) := ClaimTx(s.t, e, r, s.now, c.workerMaxAttempts);
    if result == Claimed && e in t.receipts
    then s.(t := t, workers := s.workers[w := Worker(e, r, t.receipts[e].attempts, s.now + WORKER_LEASE, Working)],
            claims := s.claims + multiset{e})
    else s.(t := t)
  }

  function WorkerStep(c: Config, s: Sys, w: nat, ev: Event): Sys
    requires w in s.workers
  {
    var k := s.workers[w];
    match (ev, k.phase)
    case (Complete(_), Working) =>
      var t := CompleteTx(s.t, k.event, k.report);
      if t.Some? then s.(t := t.value, workers := s.workers - {w})
      else s.(workers := s.workers[w := k.(phase := Failing(false))])
    case (Stumble(_, retryable), Working) => s.(workers := s.workers[w := k.(phase := Failing(retryable))])
    case (ReadAttempts(_), Failing(retryable)) =>
      var attempts := if k.event in s.t.receipts then s.t.receipts[k.event].attempts else 1;
      s.(workers := s.workers[w := k.(phase := Deciding(!retryable || attempts >= c.workerMaxAttempts))])
    case (RecordFailure(_), Deciding(dead)) => s.(t := FailTx(s.t, k.event, k.report, dead), workers := s.workers - {w})
    case (LoseWorker(_), _) => s.(workers := s.workers - {w})
    case _ => s
  }

  function Apply(c: Config, s: Sys, ev: Event): Sys {
    match ev
    case Tick(now) => if now >= s.now then s.(now := now) else s
    case AcceptReport(e, r) =>
      if e in s.t.outbox || r in s.t.reports then s
      else s.(t := s.t.(outbox := s.t.outbox[e := OutboxRow(r, Waiting, 0, None, s.now, false)], reports := s.t.reports[r := Accepted]))
    case Dispatch(picked) => DispatchStep(c, s, picked)
    case Sent(e, n) => SentStep(s, e, n)
    case Unsent(e, n, availableAt) => UnsentStep(c, s, e, n, availableAt)
    case Close(r) => CloseStep(s, r)
    case LoseDispatcher(e, n) => s.(sending := s.sending - {(e, n)})
    case Claim(w, e, r) => if w in s.workers then s else ClaimStep(c, s, w, e, r)
    case Complete(w) => if w in s.workers then WorkerStep(c, s, w, ev) else s
    case Stumble(w, _) => if w in s.workers then WorkerStep(c, s, w, ev) else s
    case ReadAttempts(w) => if w in s.workers then WorkerStep(c, s, w, ev) else s
    case RecordFailure(w) => if w in s.workers then WorkerStep(c, s, w, ev) else s
    case LoseWorker(w) => if w in s.workers then WorkerStep(c, s, w, ev) else s
  }

  function Run(c: Config, s: Sys, es: seq<Event>): Sys {
    if es == [] then s else Apply(c, Run(c, s, es[..|es| - 1]), es[|es| - 1])
  }

  // ---------------------------------------------------------------- bounded attempts, in every run

  /** True in every run, however late any worker is. */
  ghost predicate Counted(c: Config, s: Sys) {
    && (forall e :: e in s.t.outbox ==> s.leases[e] == s.t.outbox[e].attempts <= c.maxAttempts)
    && (forall e :: e !in s.t.outbox ==> s.leases[e] == 0 && e !in s.t.receipts)
    && (forall e :: e in s.t.receipts ==> 1 <= s.t.receipts[e].attempts == s.claims[e] <= c.workerMaxAttempts)
    && (forall e :: e !in s.t.receipts ==> s.claims[e] == 0)
  }

  lemma DispatchCounted(c: Config, s: Sys, picked: set<EventId>)
    requires Counted(c, s)
    ensures Counted(c, DispatchStep(c, s, picked))
  {
  }

  function AttemptsOf(t: Tables, e: EventId): nat { if e in t.receipts then t.receipts[e].attempts else 0 }

  /** What a claim can do to the receipts, and when. */
  lemma ClaimReceipts(t: Tables, e: EventId, r: ReportId, now: int, max: nat)
    ensures var (t', result) := ClaimTx(t, e, r, now, max);
      && t'.outbox == t.outbox
      && (result == Claimed ==>
            && e in t.outbox && t.outbox[e].report == r
            && t'.receipts == t.receipts[e := Receipt(Processing, AttemptsOf(t, e) + 1, Some(now + WORKER_LEASE))]
            && (e in t.receipts ==> t.receipts[e].attempts < max && !Final(t.receipts[e].status)
                                    && (t.receipts[e].status == Processing ==> Past(t.receipts[e].leaseUntil, now))))
      && (result == DeadLettered ==>
            && e in t.receipts && e in t.outbox && t.outbox[e].report == r && t.receipts[e].status == Failed
            && t'.receipts == t.receipts[e := t.receipts[e].(status := DeadLetter)])
      && (result != Claimed && result != DeadLettered ==> t' == t)
  {
  }

  lemma ClaimCounted(c: Config, s: Sys, w: nat, e: EventId, r: ReportId)
    requires Counted(c, s) && c.workerMaxAttempts >= 1
    ensures Counted(c, ClaimStep(c, s, w, e, r))
  {
    hide ClaimTx;
    ClaimReceipts(s.t, e, r, s.now, c.workerMaxAttempts);
  }

  lemma WorkerCounted(c: Config, s: Sys, w: nat, ev: Event)
    requires Counted(c, s) && w in s.workers
    ensures Counted(c, WorkerStep(c, s, w, ev))
  {
    hide Counted;
    var s' := WorkerStep(c, s, w, ev);
    assert s'.t.outbox == s.t.outbox && s'.leases == s.leases && s'.claims == s.claims;
    assert s'.t.receipts.Keys == s.t.receipts.Keys;
    assert forall e :: e in s.t.receipts ==> s'.t.receipts[e].attempts == s.t.receipts[e].attempts;
    hide WorkerStep;
    SameAttempts(c, s, s');
  }

  lemma SameAttempts(c: Config, s: Sys, s': Sys)
    requires Counted(c, s) && s'.t.outbox == s.t.outbox && s'.leases == s.leases && s'.claims == s.claims
    requires s'.t.receipts.Keys == s.t.receipts.Keys
    requires forall e :: e in s.t.receipts ==> s'.t.receipts[e].attempts == s.t.receipts[e].attempts
    ensures Counted(c, s')
  {
  }

  /** What the statements outside the dispatch transaction leave alone. */
  ghost predicate RowsMarked(s: Sys, s': Sys) {
    && s'.t.receipts == s.t.receipts && s'.workers == s.workers && s'.leases == s.leases && s'.claims == s.claims && s'.now == s.now
    && s'.t.outbox.Keys == s.t.outbox.Keys && s'.t.reports.Keys == s.t.reports.Keys
    && (forall e :: e in s.t.outbox ==> s'.t.outbox[e].report == s.t.outbox[e].report && s'.t.outbox[e].attempts == s.t.outbox[e].attempts)
    && (forall r :: r in s.t.reports ==>
          s'.t.reports[r] == s.t.reports[r] || (s.t.reports[r] == Accepted && s'.t.reports[r] == Abandoned))
  }

  lemma SentMarks(s: Sys, e: EventId, n: nat)
    ensures RowsMarked(s, SentStep(s, e, n))
  {
    assert SentStep(s, e, n).t.outbox.Keys == s.t.outbox.Keys;
  }

  lemma UnsentMarks(c: Config, s: Sys, e: EventId, n: nat, availableAt: int)
    ensures RowsMarked(s, UnsentStep(c, s, e, n, availableAt))
  {
    assert UnsentStep(c, s, e, n, availableAt).t.outbox.Keys == s.t.outbox.Keys;
  }

  lemma CloseMarks(s: Sys, r: ReportId)
    ensures RowsMarked(s, CloseStep(s, r))
  {
  }

  lemma MarkedCounted(c: Config, s: Sys, s': Sys)
    requires Counted(c, s) && RowsMarked(s, s')
    ensures Counted(c, s')
  {
  }

  lemma StepCounted(c: Config, s: Sys, ev: Event)
    requires Counted(c, s) && c.workerMaxAttempts >= 1
    ensures Counted(c, Apply(c, s, ev))
  {
    hide DispatchStep, ClaimStep, WorkerStep, SentStep, UnsentStep, CloseStep, RowsMarked;
    if ev.Dispatch? { DispatchCounted(c, s, ev.picked); }
    else if ev.Sent? { SentMarks(s, ev.event, ev.attempts); MarkedCounted(c, s, SentStep(s, ev.event, ev.attempts)); }
    else if ev.Unsent? {
      UnsentMarks(c, s, ev.event, ev.attempts, ev.availableAt);
      MarkedCounted(c, s, UnsentStep(c, s, ev.event, ev.attempts, ev.availableAt));
    }
    else if ev.Close? { CloseMarks(s, ev.report); MarkedCounted(c, s, CloseStep(s, ev.report)); }
    else if ev.Claim? { ClaimCounted(c, s, ev.worker, ev.event, ev.report); }
    else if (ev.Complete? || ev.Stumble? || ev.ReadAttempts? || ev.RecordFailure? || ev.LoseWorker?) && ev.worker in s.workers {
      WorkerCounted(c, s, ev.worker, ev);
    }
  }

  lemma {:induction false} RunCounted(c: Config, es: seq<Event>)
    requires c.workerMaxAttempts >= 1
    ensures Counted(c, Run(c, INITIAL, es))
  {
    hide Apply;
    if es != [] { RunCounted(c, es[..|es| - 1]); StepCounted(c, Run(c, INITIAL, es[..|es| - 1]), es[|es| - 1]); }
  }

  /** In every interleaving of dispatchers, workers and crashes an event is leased at most
      `maxAttempts` times and its receipt claimed at most `workerMaxAttempts` times. */
  lemma AttemptsBounded(c: Config, es: seq<Event>, e: EventId)
    requires c.workerMaxAttempts >= 1
    ensures Run(c, INITIAL, es).leases[e] <= c.maxAttempts
    ensures Run(c, INITIAL, es).claims[e] <= c.workerMaxAttempts
  {
    hide Run;
    RunCounted(c, es);
  }

  // ---------------------------------------------------------------- who owns a receipt

  /** What the report may say, given the receipt of its event.  A dispatcher that ran out of
      attempts may have abandoned a report that nobody is working on. */
  predicate Agrees(receipt: Option<JobStatus>, report: ReportStatus) {
    match receipt
    case None => report == Accepted || report == Abandoned
    case Some(Failed) => report == Accepted || report == Abandoned
    case Some(Processing) => report == InProgress
    case Some(Completed) => report == Evaluated
    case Some(DeadLetter) => report == Abandoned
  }

  function JobOf(t: Tables, e: EventId): Option<JobStatus> {
    if e in t.receipts then Some(t.receipts[e].status) else None
  }

  ghost predicate TablesAgree(t: Tables) {
    && (forall e :: e in t.receipts ==> e in t.outbox)
    && (forall e :: e in t.outbox ==> t.outbox[e].report in t.reports && Agrees(JobOf(t, e), t.reports[t.outbox[e].report]))
    && (forall e, f :: e in t.outbox && f in t.outbox && e != f ==> t.outbox[e].report != t.outbox[f].report)
  }

  predicate Holds(t: Tables, k: Worker) {
    k.event in t.receipts && t.receipts[k.event].attempts == k.claim
  }

  /** A worker whose claim is the latest one finds its receipt in processing under its own
      lease; every other worker has been overtaken. */
  ghost predicate WorkerOk(t: Tables, k: Worker) {
    && k.event in t.receipts && k.event in t.outbox && k.report == t.outbox[k.event].report
    && k.claim <= t.receipts[k.event].attempts
    && (Holds(t, k) ==> t.receipts[k.event].status == Processing && t.receipts[k.event].leaseUntil == Some(k.lease))
  }

  ghost predicate Owned(s: Sys) {
    && TablesAgree(s.t)
    && (forall w :: w in s.workers ==> WorkerOk(s.t, s.workers[w]))
    && (forall v, w :: v in s.workers && w in s.workers && v != w && s.workers[v].event == s.workers[w].event
          ==> s.workers[v].claim != s.workers[w].claim)
  }

  /** The step is a write by a worker that has been overtaken. */
  predicate Overtaken(s: Sys, ev: Event) {
    (ev.Complete? || ev.RecordFailure?) && ev.worker in s.workers && !Holds(s.t, s.workers[ev.worker])
  }

  ghost predicate FinalKept(t: Tables, t': Tables) {
    forall e :: e in t.receipts && Final(t.receipts[e].status) ==> e in t'.receipts && t'.receipts[e] == t.receipts[e]
  }

  /** Receipts stay, every event keeps its report, and reports only go from accepted to
      abandoned. */
  ghost predicate OnlyAbandons(t: Tables, t': Tables) {
    && t'.receipts == t.receipts && t'.outbox.Keys == t.outbox.Keys && t'.reports.Keys == t.reports.Keys
    && (forall e :: e in t.outbox ==> t'.outbox[e].report == t.outbox[e].report)
    && (forall r :: r in t.reports ==> t'.reports[r] == t.reports[r] || (t.reports[r] == Accepted && t'.reports[r] == Abandoned))
  }

  lemma RowsAgree(t: Tables, t': Tables)
    requires TablesAgree(t) && OnlyAbandons(t, t')
    ensures TablesAgree(t')
  {
    forall e | e in t'.outbox ensures t'.outbox[e].report in t'.reports && Agrees(JobOf(t', e), t'.reports[t'.outbox[e].report]) {
      assert Agrees(JobOf(t, e), t.reports[t.outbox[e].report]);
      assert t'.outbox[e].report == t.outbox[e].report;
    }
    forall e, f | e in t'.outbox && f in t'.outbox && e != f ensures t'.outbox[e].report != t'.outbox[f].report {
      assert t'.outbox[e].report == t.outbox[e].report && t'.outbox[f].report == t.outbox[f].report;
    }
  }

  /** Then ownership stays. */
  lemma RowsOnly(s: Sys, s': Sys)
    requires Owned(s) && s'.workers == s.workers && OnlyAbandons(s.t, s'.t)
    ensures Owned(s')
  {
    RowsAgree(s.t, s'.t);
    hide TablesAgree;
    forall w | w in s'.workers ensures WorkerOk(s'.t, s'.workers[w]) {
      assert WorkerOk(s.t, s.workers[w]);
      assert s'.t.outbox[s.workers[w].event].report == s.t.outbox[s.workers[w].event].report;
    }
  }

  lemma DispatchAbandons(c: Config, s: Sys, picked: set<EventId>)
    ensures OnlyAbandons(s.t, DispatchStep(c, s, picked).t) && DispatchStep(c, s, picked).workers == s.workers
  {
    hide Exhausted, Eligible;
    var s' := DispatchStep(c, s, picked);
    assert s'.t.outbox.Keys == s.t.outbox.Keys;
    assert s'.t.reports.Keys == s.t.reports.Keys;
  }

  lemma DispatchOwned(c: Config, s: Sys, picked: set<EventId>)
    requires Owned(s)
    ensures Owned(DispatchStep(c, s, picked)) && DispatchStep(c, s, picked).t.receipts == s.t.receipts
  {
    hide Owned, DispatchStep;
    DispatchAbandons(c, s, picked);
    RowsOnly(s, DispatchStep(c, s, picked));
  }

  lemma ClaimOwned(c: Config, s: Sys, w: nat, e: EventId, r: ReportId)
    requires Owned(s) && w !in s.workers
    ensures Owned(ClaimStep(c, s, w, e, r)) && FinalKept(s.t, ClaimStep(c, s, w, e, r).t)
  {
    hide TablesAgree, ClaimTx;
    ClaimReceipts(s.t, e, r, s.now, c.workerMaxAttempts);
    ClaimAgrees(s.t, e, r, s.now, c.workerMaxAttempts);
    var s' := ClaimStep(c, s, w, e, r);
    forall v | v in s.workers ensures WorkerOk(s'.t, s.workers[v]) { assert WorkerOk(s.t, s.workers[v]); }
    forall v | v in s.workers && s.workers[v].event == e ensures s.workers[v].claim <= AttemptsOf(s.t, e) {
      assert WorkerOk(s.t, s.workers[v]);
    }
  }

  lemma ClaimAgrees(t: Tables, e: EventId, r: ReportId, now: int, max: nat)
    requires TablesAgree(t)
    ensures TablesAgree(ClaimTx(t, e, r, now, max).0)
  {
    ClaimReceipts(t, e, r, now, max);
    var (t', result) := ClaimTx(t, e, r, now, max);
    if result == Claimed || result == DeadLettered {
      assert Agrees(JobOf(t, e), t.reports[r]);
      assert t'.reports == t.reports[r := if result == Claimed then InProgress else Abandoned];
      hide ClaimTx;
      SetReport(t, t', e, r);
    }
  }

  /** One receipt and its report move together. */
  lemma SetReport(t: Tables, t': Tables, e: EventId, r: ReportId)
    requires TablesAgree(t) && t'.outbox == t.outbox && e in t.outbox && t.outbox[e].report == r
    requires e in t'.receipts && t'.receipts == t.receipts[e := t'.receipts[e]]
    requires r in t'.reports && t'.reports == t.reports[r := t'.reports[r]]
    requires Agrees(Some(t'.receipts[e].status), t'.reports[r])
    ensures TablesAgree(t')
  {
    forall f | f in t'.outbox ensures Agrees(JobOf(t', f), t'.reports[t'.outbox[f].report]) {
      assert Agrees(JobOf(t, f), t.reports[t.outbox[f].report]);
    }
  }

  /** Any worker's write, late or not; the completion goes through exactly while the receipt
      is in processing. */
  lemma WriteAgrees(t: Tables, e: EventId, r: ReportId, dead: bool)
    requires TablesAgree(t) && e in t.receipts && t.outbox[e].report == r
    ensures TablesAgree(FailTx(t, e, r, dead))
    ensures CompleteTx(t, e, r).Some? <==> t.receipts[e].status == Processing
    ensures CompleteTx(t, e, r).Some? ==> TablesAgree(CompleteTx(t, e, r).value)
  {
    assert Agrees(JobOf(t, e), t.reports[r]);
    SetReport(t, FailTx(t, e, r, dead), e, r);
    if CompleteTx(t, e, r).Some? { SetReport(t, CompleteTx(t, e, r).value, e, r); }
  }

  /** Taking one worker out, with a write to the receipt it holds. */
  lemma WriteOwned(s: Sys, w: nat, t: Tables)
    requires Owned(s) && w in s.workers && TablesAgree(t)
    requires Holds(s.t, s.workers[w]) && t.outbox == s.t.outbox
    requires var e := s.workers[w].event;
      e in t.receipts && t.receipts == s.t.receipts[e := t.receipts[e]] && t.receipts[e].attempts == s.t.receipts[e].attempts
    ensures Owned(s.(t := t, workers := s.workers - {w})) && FinalKept(s.t, t)
  {
    hide TablesAgree;
    assert WorkerOk(s.t, s.workers[w]);
    var s' := s.(t := t, workers := s.workers - {w});
    forall v | v in s'.workers ensures WorkerOk(s'.t, s'.workers[v]) { assert WorkerOk(s.t, s.workers[v]); }
  }

  lemma WorkerOwned(c: Config, s: Sys, w: nat, ev: Event)
    requires Owned(s) && w in s.workers && !Overtaken(s, ev)
    requires (ev.Complete? || ev.RecordFailure?) ==> ev.worker == w
    ensures Owned(WorkerStep(c, s, w, ev)) && FinalKept(s.t, WorkerStep(c, s, w, ev).t)
  {
    hide TablesAgree;
    var k, s' := s.workers[w], WorkerStep(c, s, w, ev);
    assert WorkerOk(s.t, k);
    WriteAgrees(s.t, k.event, k.report, k.phase == Deciding(true));
    if s'.t != s.t {
      hide Owned;
      WriteOwned(s, w, s'.t);
    } else {
      PhaseOwned(s, s', w);
    }
  }

  /** Only the worker's phase changes, or the worker disappears. */
  lemma PhaseOwned(s: Sys, s': Sys, w: nat)
    requires Owned(s) && s'.t == s.t && w in s.workers
    requires s'.workers == s.workers || s'.workers == s.workers - {w}
      || exists p :: s'.workers == s.workers[w := s.workers[w].(phase := p)]
    ensures Owned(s')
  {
    hide TablesAgree;
    forall v | v in s'.workers ensures WorkerOk(s'.t, s'.workers[v]) { assert WorkerOk(s.t, s.workers[v]); }
  }

  lemma MarkedOwned(s: Sys, s': Sys)
    requires Owned(s) && RowsMarked(s, s')
    ensures Owned(s') && FinalKept(s.t, s'.t)
  {
    RowsOnly(s, s') by { hide Owned; }
  }

  lemma AcceptOwned(s: Sys, e: EventId, r: ReportId, row: OutboxRow)
    requires Owned(s) && e !in s.t.outbox && r !in s.t.reports && row.report == r
    ensures Owned(s.(t := s.t.(outbox := s.t.outbox[e := row], reports := s.t.reports[r := Accepted])))
  {
    var s' := s.(t := s.t.(outbox := s.t.outbox[e := row], reports := s.t.reports[r := Accepted]));
    forall f | f in s'.t.outbox
      ensures s'.t.outbox[f].report in s'.t.reports && Agrees(JobOf(s'.t, f), s'.t.reports[s'.t.outbox[f].report])
    {
      if f != e { assert Agrees(JobOf(s.t, f), s.t.reports[s.t.outbox[f].report]); }
    }
    forall w | w in s'.workers ensures WorkerOk(s'.t, s'.workers[w]) { assert WorkerOk(s.t, s.workers[w]); }
  }

  /** Unless the step is a write by an overtaken worker, ownership and agreement are kept
      and no final receipt changes. */
  lemma StepOwned(c: Config, s: Sys, ev: Event)
    requires Owned(s) && !Overtaken(s, ev)
    ensures Owned(Apply(c, s, ev)) && FinalKept(s.t, Apply(c, s, ev).t)
  {
    hide Owned, DispatchStep, ClaimStep, WorkerStep, Overtaken, SentStep, UnsentStep, CloseStep, RowsMarked;
    match ev
    case Dispatch(picked) => DispatchOwned(c, s, picked);
    case Claim(w, e, r) => if w !in s.workers { ClaimOwned(c, s, w, e, r); }
    case Complete(w) => if w in s.workers { WorkerOwned(c, s, w, ev); }
    case Stumble(w, _) => if w in s.workers { WorkerOwned(c, s, w, ev); }
    case ReadAttempts(w) => if w in s.workers { WorkerOwned(c, s, w, ev); }
    case RecordFailure(w) => if w in s.workers { WorkerOwned(c, s, w, ev); }
    case LoseWorker(w) => if w in s.workers { WorkerOwned(c, s, w, ev); }
    case AcceptReport(e, r) =>
      if e !in s.t.outbox && r !in s.t.reports { AcceptOwned(s, e, r, OutboxRow(r, Waiting, 0, None, s.now, false)); }
    case Tick(now) => ClockOwned(s, s.(now := now));
    case LoseDispatcher(e, n) => ClockOwned(s, s.(sending := s.sending - {(e, n)}));
    case Sent(e, n) => SentMarks(s, e, n); MarkedOwned(s, SentStep(s, e, n));
    case Unsent(e, n, at) => UnsentMarks(c, s, e, n, at); MarkedOwned(s, UnsentStep(c, s, e, n, at));
    case Close(r) => CloseMarks(s, r); MarkedOwned(s, CloseStep(s, r));
  }

  lemma ClockOwned(s: Sys, s': Sys)
    requires Owned(s) && s'.t == s.t && s'.workers == s.workers
    ensures Owned(s')
  {
  }

  /** No write in the run comes from an overtaken worker. */
  ghost predicate Fenced(c: Config, es: seq<Event>) {
    forall i :: 0 <= i < |es| ==> !Overtaken(Run(c, INITIAL, es[..i]), es[i])
  }

  lemma FencedPrefix(c: Config, es: seq<Event>, n: nat)
    requires Fenced(c, es) && n <= |es|
    ensures Fenced(c, es[..n])
  {
    hide Run, Overtaken;
    forall i | 0 <= i < n ensures !Overtaken(Run(c, INITIAL, es[..n][..i]), es[..n][i]) {
      assert es[..n][..i] == es[..i];
    }
  }

  /** In every such run each report agrees with its receipt. */
  lemma {:induction false} FencedAgrees(c: Config, es: seq<Event>)
    requires Fenced(c, es)
    ensures Owned(Run(c, INITIAL, es))
  {
    hide Apply, Overtaken;
    if es != [] {
      var n := |es| - 1;
      FencedPrefix(c, es, n);
      hide Owned;
      FencedAgrees(c, es[..n]);
      StepOwned(c, Run(c, INITIAL, es[..n]), es[n]);
    }
  }

  /** In every such run a completed or dead-lettered receipt never changes again. */
  lemma {:induction false} FencedFinality(c: Config, es: seq<Event>, n: nat)
    requires Fenced(c, es) && n <= |es|
    ensures FinalKept(Run(c, INITIAL, es[..n]).t, Run(c, INITIAL, es).t)
    decreases |es|
  {
    hide Apply, Overtaken, Owned;
    if n == |es| {
      assert es[..n] == es;
    } else {
      var m := |es| - 1;
      FencedPrefix(c, es, m);
      assert es[..m][..n] == es[..n];
      FencedFinality(c, es[..m], n);
      FencedAgrees(c, es[..m]);
      StepOwned(c, Run(c, INITIAL, es[..m]), es[m]);
    }
  }

  // ---------------------------------------------------------------- leases keep workers from being overtaken

  /** The step is not a write by a worker whose lease has run out. */
  predicate InTime(s: Sys, ev: Event) {
    (ev.Complete? || ev.RecordFailure?) && ev.worker in s.workers ==> s.now <= s.workers[ev.worker].lease
  }

  ghost predicate Timely(c: Config, es: seq<Event>) {
    forall i :: 0 <= i < |es| ==> InTime(Run(c, INITIAL, es[..i]), es[i])
  }

  /** A worker within its lease holds its receipt. */
  ghost predicate LeaseHolds(s: Sys) {
    forall w :: w in s.workers && s.now <= s.workers[w].lease ==> Holds(s.t, s.workers[w])
  }

  lemma StepLease(c: Config, s: Sys, ev: Event)
    requires Owned(s) && LeaseHolds(s)
    ensures LeaseHolds(Apply(c, s, ev))
  {
    hide TablesAgree, Apply;
    var s' := Apply(c, s, ev);
    WorkersKeep(c, s, ev);
    forall w | w in s'.workers && s'.now <= s'.workers[w].lease ensures Holds(s'.t, s'.workers[w]) {
      if w in s.workers {
        assert WorkerOk(s.t, s.workers[w]) && Holds(s.t, s.workers[w]);
        HolderKeeps(c, s, ev, s.workers[w]);
      }
    }
  }

  /** A step changes no worker but its phase, and a new worker holds its receipt. */
  lemma WorkersKeep(c: Config, s: Sys, ev: Event)
    ensures var s' := Apply(c, s, ev);
      && s.now <= s'.now
      && (forall w :: w in s'.workers && w in s.workers ==> s'.workers[w] == s.workers[w].(phase := s'.workers[w].phase))
      && (forall w :: w in s'.workers && w !in s.workers ==> Holds(s'.t, s'.workers[w]))
  {
    hide ClaimTx, DispatchStep, CompleteTx, FailTx;
    if ev.Dispatch? { DispatchReceipts(c, s, ev.picked); }
  }

  /** No step takes a receipt from a worker that is within its lease. */
  lemma HolderKeeps(c: Config, s: Sys, ev: Event, k: Worker)
    requires WorkerOk(s.t, k) && Holds(s.t, k) && s.now <= k.lease
    ensures Holds(Apply(c, s, ev).t, k)
  {
    hide TablesAgree, ClaimTx, DispatchStep, CompleteTx, FailTx;
    if ev.Dispatch? { DispatchReceipts(c, s, ev.picked); }
    else if ev.Claim? { ClaimReceipts(s.t, ev.event, ev.report, s.now, c.workerMaxAttempts); }
    else if ev.Complete? || ev.RecordFailure? { WriteKeepsAttempts(c, s, ev, k.event); }
  }

  lemma WriteKeepsAttempts(c: Config, s: Sys, ev: Event, e: EventId)
    requires ev.Complete? || ev.RecordFailure?
    ensures Apply(c, s, ev).t.receipts.Keys == s.t.receipts.Keys
    ensures e in s.t.receipts ==> Apply(c, s, ev).t.receipts[e].attempts == s.t.receipts[e].attempts
  {
  }

  lemma {:induction false} TimelyRun(c: Config, es: seq<Event>)
    requires Timely(c, es)
    ensures Fenced(c, es) && Owned(Run(c, INITIAL, es)) && LeaseHolds(Run(c, INITIAL, es))
  {
    hide Apply, Owned, LeaseHolds;
    if es == [] {
      FencedAgrees(c, []);
      NobodyLate();
    } else {
      var n := |es| - 1;
      forall i | 0 <= i < n ensures InTime(Run(c, INITIAL, es[..n][..i]), es[..n][i]) { assert es[..n][..i] == es[..i]; }
      TimelyRun(c, es[..n]);
      var s := Run(c, INITIAL, es[..n]);
      InTimeNotOvertaken(s, es[n]);
      StepLease(c, s, es[n]);
      StepOwned(c, s, es[n]);
      forall i | 0 <= i < |es| ensures !Overtaken(Run(c, INITIAL, es[..i]), es[i]) {
        if i < n { assert es[..n][..i] == es[..i]; assert !Overtaken(Run(c, INITIAL, es[..n][..i]), es[..n][i]); }
      }
    }
  }

  lemma NobodyLate()
    ensures LeaseHolds(INITIAL)
  {
  }

  lemma InTimeNotOvertaken(s: Sys, ev: Event)
    requires LeaseHolds(s) && InTime(s, ev)
    ensures !Overtaken(s, ev)
  {
  }

  /** Main result: if no worker writes after its lease has run out, completed and
      dead-lettered receipts are final, and every report agrees with its receipt. */
  lemma TimelyWorkersAreSafe(c: Config, es: seq<Event>, n: nat)
    requires Timely(c, es) && n <= |es|
    ensures FinalKept(Run(c, INITIAL, es[..n]).t, Run(c, INITIAL, es).t)
    ensures TablesAgree(Run(c, INITIAL, es).t)
  {
    hide Run, Fenced, Timely;
    TimelyRun(c, es);
    FencedFinality(c, es, n);
  }

  lemma {:induction false} RunConcat(c: Config, s: Sys, a: seq<Event>, b: seq<Event>)
    ensures Run(c, s, a + b) == Run(c, Run(c, s, a), b)
  {
    hide Apply;
    if b == [] {
      assert a + b == a;
    } else {
      RunConcat(c, s, a, b[..|b| - 1]);
      assert (a + b)[..|a + b| - 1] == a + b[..|b| - 1];
    }
  }

  lemma DispatchReceipts(c: Config, s: Sys, picked: set<EventId>)
    ensures DispatchStep(c, s, picked).t.receipts == s.t.receipts && DispatchStep(c, s, picked).workers == s.workers
    ensures DispatchStep(c, s, picked).now == s.now
  {
  }
}
