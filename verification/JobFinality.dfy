/** What holds of jobs in every run, however late any worker is, and exactly when a settled
    receipt is overwritten. */
module JobFinality {
  import opened Options
  import opened ReportJobs

  // ---------------------------------------------------------------- true in every run

  /** A receipt has a lease exactly while it is in processing. */
  ghost predicate LeasesFit(t: Tables) {
    forall e :: e in t.receipts ==> (t.receipts[e].status == Processing <==> t.receipts[e].leaseUntil.Some?)
  }

  /** The worker's event has a receipt, and its report is that of the event. */
  ghost predicate WorkerKnown(t: Tables, k: Worker) {
    k.event in t.receipts && k.event in t.outbox && k.report == t.outbox[k.event].report
  }

  ghost predicate Consistent(s: Sys) {
    && TablesAgree(s.t) && LeasesFit(s.t)
    && forall w :: w in s.workers ==> WorkerKnown(s.t, s.workers[w])
  }

  lemma RowsConsistent(s: Sys, s': Sys)
    requires Consistent(s) && OnlyAbandons(s.t, s'.t) && s'.workers == s.workers
    ensures Consistent(s')
  {
    RowsAgree(s.t, s'.t);
    hide TablesAgree;
    forall w | w in s'.workers ensures WorkerKnown(s'.t, s'.workers[w]) { assert WorkerKnown(s.t, s.workers[w]); }
  }

  lemma MarkedConsistent(s: Sys, s': Sys)
    requires Consistent(s) && RowsMarked(s, s')
    ensures Consistent(s')
  {
    hide Consistent;
    RowsConsistent(s, s');
  }

  lemma AcceptConsistent(s: Sys, e: EventId, r: ReportId, row: OutboxRow)
    requires Consistent(s) && e !in s.t.outbox && r !in s.t.reports && row.report == r
    ensures Consistent(s.(t := s.t.(outbox := s.t.outbox[e := row], reports := s.t.reports[r := Accepted])))
  {
    var s' := s.(t := s.t.(outbox := s.t.outbox[e := row], reports := s.t.reports[r := Accepted]));
    forall f | f in s'.t.outbox
      ensures s'.t.outbox[f].report in s'.t.reports && Agrees(JobOf(s'.t, f), s'.t.reports[s'.t.outbox[f].report])
    {
      if f != e { assert Agrees(JobOf(s.t, f), s.t.reports[s.t.outbox[f].report]); }
    }
    forall w | w in s'.workers ensures WorkerKnown(s'.t, s'.workers[w]) { assert WorkerKnown(s.t, s.workers[w]); }
  }

  lemma ClaimConsistent(c: Config, s: Sys, w: nat, e: EventId, r: ReportId)
    requires Consistent(s)
    ensures Consistent(ClaimStep(c, s, w, e, r))
  {
    hide TablesAgree, ClaimTx;
    ClaimReceipts(s.t, e, r, s.now, c.workerMaxAttempts);
    ClaimAgrees(s.t, e, r, s.now, c.workerMaxAttempts);
    var s' := ClaimStep(c, s, w, e, r);
    forall v | v in s.workers ensures WorkerKnown(s'.t, s.workers[v]) { assert WorkerKnown(s.t, s.workers[v]); }
  }

  /** The receipts a write leaves: the same ones, one of them perhaps settled. */
  lemma WriteConsistent(s: Sys, s': Sys, e: EventId, rc: Receipt)
    requires Consistent(s) && TablesAgree(s'.t) && s'.t.outbox == s.t.outbox && e in s.t.receipts
    requires s'.t.receipts == s.t.receipts || (s'.t.receipts == s.t.receipts[e := rc] && rc.status != Processing && rc.leaseUntil.None?)
    requires forall w :: w in s'.workers ==> w in s.workers && s'.workers[w].event == s.workers[w].event && s'.workers[w].report == s.workers[w].report
    ensures Consistent(s')
  {
    hide TablesAgree;
    forall w | w in s'.workers ensures WorkerKnown(s'.t, s'.workers[w]) { assert WorkerKnown(s.t, s.workers[w]); }
  }

  lemma WorkerConsistent(c: Config, s: Sys, w: nat, ev: Event)
    requires Consistent(s) && w in s.workers
    ensures Consistent(WorkerStep(c, s, w, ev))
  {
    hide TablesAgree, LeasesFit;
    var k, s' := s.workers[w], WorkerStep(c, s, w, ev);
    assert WorkerKnown(s.t, k);
    var dead := k.phase == Deciding(true);
    WriteAgrees(s.t, k.event, k.report, dead) by { hide TablesAgree; assert k.event in s.t.outbox; }
    var status := if ev.Complete? then Completed else if dead then DeadLetter else Failed;
    hide Consistent;
    WriteConsistent(s, s', k.event, s.t.receipts[k.event].(status := status, leaseUntil := None));
  }

  lemma StepConsistent(c: Config, s: Sys, ev: Event)
    requires Consistent(s)
    ensures Consistent(Apply(c, s, ev))
  {
    hide Consistent, DispatchStep, ClaimStep, WorkerStep, SentStep, UnsentStep, CloseStep, RowsMarked, OnlyAbandons;
    match ev
    case Dispatch(picked) => DispatchAbandons(c, s, picked); RowsConsistent(s, DispatchStep(c, s, picked));
    case Claim(w, e, r) => ClaimConsistent(c, s, w, e, r);
    case Complete(w) => if w in s.workers { WorkerConsistent(c, s, w, ev); }
    case Stumble(w, _) => if w in s.workers { WorkerConsistent(c, s, w, ev); }
    case ReadAttempts(w) => if w in s.workers { WorkerConsistent(c, s, w, ev); }
    case RecordFailure(w) => if w in s.workers { WorkerConsistent(c, s, w, ev); }
    case LoseWorker(w) => if w in s.workers { WorkerConsistent(c, s, w, ev); }
    case AcceptReport(e, r) =>
      if e !in s.t.outbox && r !in s.t.reports { AcceptConsistent(s, e, r, OutboxRow(r, Waiting, 0, None, s.now, false)); }
    case Tick(now) => SameRows(s, s.(now := now));
    case LoseDispatcher(e, n) => SameRows(s, s.(sending := s.sending - {(e, n)}));
    case Sent(e, n) => SentMarks(s, e, n); MarkedConsistent(s, SentStep(s, e, n));
    case Unsent(e, n, at) => UnsentMarks(c, s, e, n, at); MarkedConsistent(s, UnsentStep(c, s, e, n, at));
    case Close(r) => CloseMarks(s, r); MarkedConsistent(s, CloseStep(s, r));
  }

  lemma SameRows(s: Sys, s': Sys)
    requires Consistent(s) && s'.t == s.t && s'.workers == s.workers
    ensures Consistent(s')
  {
  }

  /** In every interleaving, however late any worker writes, each report agrees with the
      receipt of its event. */
  lemma {:induction false} ReportsAlwaysAgree(c: Config, es: seq<Event>)
    ensures Consistent(Run(c, INITIAL, es)) && TablesAgree(Run(c, INITIAL, es).t)
  {
    hide Apply;
    if es != [] { ReportsAlwaysAgree(c, es[..|es| - 1]); StepConsistent(c, Run(c, INITIAL, es[..|es| - 1]), es[|es| - 1]); }
  }

  // ---------------------------------------------------------------- exactly when finality is lost

  /** The worker's completion goes through and meets a receipt that is settled otherwise. */
  predicate CompletionUndoes(s: Sys, k: Worker) {
    && k.phase == Working && k.report in s.t.reports && s.t.reports[k.report] == InProgress && k.event in s.t.receipts
    && var rc := s.t.receipts[k.event]; Final(rc.status) && !(rc.status == Completed && rc.leaseUntil.None?)
  }

  /** The worker's failure write meets a receipt that is settled otherwise. */
  predicate FailureUndoes(s: Sys, k: Worker) {
    && k.phase.Deciding? && k.event in s.t.receipts
    && var rc := s.t.receipts[k.event]; Final(rc.status) && !(rc.status == DeadLetter && k.phase.dead && rc.leaseUntil.None?)
  }

  predicate Undoes(s: Sys, ev: Event) {
    || (ev.Complete? && ev.worker in s.workers && CompletionUndoes(s, s.workers[ev.worker]))
    || (ev.RecordFailure? && ev.worker in s.workers && FailureUndoes(s, s.workers[ev.worker]))
  }

  /** In any state whatever, a failure write keeps settled receipts exactly when it meets none
      or rewrites one to what it is. Holding the claim is no protection. */
  lemma FailureOverwritesExactly(c: Config, s: Sys, w: nat)
    requires w in s.workers
    ensures FinalKept(s.t, Apply(c, s, RecordFailure(w)).t) <==> !FailureUndoes(s, s.workers[w])
  {
    var k, t' := s.workers[w], Apply(c, s, RecordFailure(w)).t;
    if k.phase.Deciding? && k.event in s.t.receipts {
      var rc := s.t.receipts[k.event];
      OneReceipt(s.t, t', k.event, rc.(status := if k.phase.dead then DeadLetter else Failed, leaseUntil := None));
    }
  }

  lemma CompletionOverwritesExactly(c: Config, s: Sys, w: nat)
    requires w in s.workers
    ensures FinalKept(s.t, Apply(c, s, Complete(w)).t) <==> !CompletionUndoes(s, s.workers[w])
  {
    var k, t' := s.workers[w], Apply(c, s, Complete(w)).t;
    if k.phase.Working? && CompleteTx(s.t, k.event, k.report).Some? && k.event in s.t.receipts {
      OneReceipt(s.t, t', k.event, s.t.receipts[k.event].(status := Completed, leaseUntil := None));
    }
  }

  lemma OneReceipt(t: Tables, t': Tables, e: EventId, rc: Receipt)
    requires e in t.receipts && t'.receipts == t.receipts[e := rc]
    ensures FinalKept(t, t') <==> !Final(t.receipts[e].status) || rc == t.receipts[e]
  {
  }

  /** No step but these two ever touches a settled receipt: this holds of every state and
      every event. */
  lemma StepKeepsFinalExactly(c: Config, s: Sys, ev: Event)
    ensures FinalKept(s.t, Apply(c, s, ev).t) <==> !Undoes(s, ev)
  {
    hide FailureUndoes, CompletionUndoes, ClaimTx, DispatchStep;
    if (ev.Complete? || ev.RecordFailure?) && ev.worker in s.workers {
      if ev.Complete? { CompletionOverwritesExactly(c, s, ev.worker); } else { FailureOverwritesExactly(c, s, ev.worker); }
    } else if ev.Dispatch? {
      DispatchReceipts(c, s, ev.picked);
    } else if ev.Claim? {
      ClaimReceipts(s.t, ev.event, ev.report, s.now, c.workerMaxAttempts);
    }
  }

  /** In the states that runs reach, only a failure write can do it: one that meets a
      completed receipt, or a dead-lettered one when it means to retry. */
  predicate LateFailure(s: Sys, ev: Event) {
    && ev.RecordFailure? && ev.worker in s.workers && s.workers[ev.worker].phase.Deciding?
    && var k := s.workers[ev.worker];
    && k.event in s.t.receipts
    && (s.t.receipts[k.event].status == Completed || (s.t.receipts[k.event].status == DeadLetter && !k.phase.dead))
  }

  lemma OnlyLateFailuresUndo(s: Sys, ev: Event)
    requires Consistent(s)
    ensures Undoes(s, ev) <==> LateFailure(s, ev)
  {
    if (ev.Complete? || ev.RecordFailure?) && ev.worker in s.workers {
      var k := s.workers[ev.worker];
      assert WorkerKnown(s.t, k);
      assert Agrees(JobOf(s.t, k.event), s.t.reports[k.report]);
      hide TablesAgree;
    }
  }

  lemma FinalKeptJoins(a: Tables, b: Tables, d: Tables)
    requires FinalKept(a, b) && FinalKept(b, d)
    ensures FinalKept(a, d)
  {
  }

  /** Whatever was settled at any moment of the run is as it was at every later moment. */
  ghost predicate FinalityHolds(c: Config, es: seq<Event>) {
    forall m, n :: 0 <= m <= n <= |es| ==> FinalKept(Run(c, INITIAL, es[..m]).t, Run(c, INITIAL, es[..n]).t)
  }

  ghost predicate NoLateFailure(c: Config, es: seq<Event>) {
    forall i :: 0 <= i < |es| ==> !LateFailure(Run(c, INITIAL, es[..i]), es[i])
  }

  lemma RunStep(c: Config, es: seq<Event>, i: nat)
    requires i < |es|
    ensures Run(c, INITIAL, es[..i + 1]) == Apply(c, Run(c, INITIAL, es[..i]), es[i])
    ensures FinalKept(Run(c, INITIAL, es[..i]).t, Run(c, INITIAL, es[..i + 1]).t) <==> !LateFailure(Run(c, INITIAL, es[..i]), es[i])
  {
    assert es[..i + 1][..i] == es[..i];
    var s := Run(c, INITIAL, es[..i]);
    ReportsAlwaysAgree(c, es[..i]);
    hide Apply, Consistent;
    StepKeepsFinalExactly(c, s, es[i]);
    OnlyLateFailuresUndo(s, es[i]);
  }

  lemma {:induction false} KeptFrom(c: Config, es: seq<Event>, m: nat, n: nat)
    requires NoLateFailure(c, es) && m <= n <= |es|
    ensures FinalKept(Run(c, INITIAL, es[..m]).t, Run(c, INITIAL, es[..n]).t)
    decreases n
  {
    hide Run, LateFailure;
    if m < n {
      KeptFrom(c, es, m, n - 1);
      RunStep(c, es, n - 1);
      FinalKeptJoins(Run(c, INITIAL, es[..m]).t, Run(c, INITIAL, es[..n - 1]).t, Run(c, INITIAL, es[..n]).t);
    }
  }

  /** Over whole runs: settled receipts are final exactly when no step is such a write. */
  lemma FinalityExactly(c: Config, es: seq<Event>)
    ensures FinalityHolds(c, es) <==> NoLateFailure(c, es)
  {
    hide Run, LateFailure, FinalKept;
    if NoLateFailure(c, es) {
      forall m, n | 0 <= m <= n <= |es| ensures FinalKept(Run(c, INITIAL, es[..m]).t, Run(c, INITIAL, es[..n]).t) { KeptFrom(c, es, m, n); }
    }
    if FinalityHolds(c, es) {
      forall i | 0 <= i < |es| ensures !LateFailure(Run(c, INITIAL, es[..i]), es[i]) { RunStep(c, es, i); }
    }
  }

  // ---------------------------------------------------------------- two runs that lose it

  /** A listed sequence of states is the run when each step leads to the next. */
  lemma {:induction false} TraceIsRun(c: Config, es: seq<Event>, ss: seq<Sys>)
    requires |ss| == |es| + 1 && forall i :: 0 <= i < |es| ==> Apply(c, ss[i], es[i]) == ss[i + 1]
    ensures forall n :: 0 <= n <= |es| ==> Run(c, ss[0], es[..n]) == ss[n]
  {
    hide Apply;
    if es != [] {
      var m := |es| - 1;
      TraceIsRun(c, es[..m], ss[..m + 1]);
      forall n | 0 <= n <= |es| ensures Run(c, ss[0], es[..n]) == ss[n] {
        if n <= m { assert es[..m][..n] == es[..n]; } else { assert es[..n] == es && es[..m][..m] == es[..m]; }
      }
    }
  }

  /** Event 7 with report 7, dispatched once. */
  function Job(receipt: Option<Receipt>, report: ReportStatus, now: int, workers: map<nat, Worker>, claims: nat): Sys {
    Sys(Tables(map[7 := OutboxRow(7, Dispatched, 1, None, 0, true)],
               if receipt.None? then map[] else map[7 := receipt.value], map[7 := report]),
        now, {}, {}, workers, multiset{7}, multiset{}[7 := claims])
  }

  const PUBLISHED: seq<Event> := [AcceptReport(7, 7), Dispatch({7}), Sent(7, 1)]

  /** How a job comes to the workers in the deployed system. */
  lemma Published(c: Config)
    requires c.maxAttempts >= 1
    ensures Run(c, INITIAL, PUBLISHED) == Job(None, Accepted, 0, map[], 0)
  {
    var row := OutboxRow(7, Waiting, 0, None, 0, false);
    var accepted := Sys(Tables(map[7 := row], map[], map[7 := Accepted]), 0, {}, {}, map[], multiset{}, multiset{});
    var leased := accepted.(t := accepted.t.(outbox := map[7 := LeaseRow(row, 0)]), sending := {(7, 1)}, leases := multiset{7});
    assert Apply(c, INITIAL, AcceptReport(7, 7)) == accepted;
    assert Apply(c, accepted, Dispatch({7})) == leased by { LeasesSeven(c, accepted, leased, row); }
    assert Apply(c, leased, Sent(7, 1)) == Job(None, Accepted, 0, map[], 0);
    hide Apply;
    TraceIsRun(c, PUBLISHED, [INITIAL, accepted, leased, Job(None, Accepted, 0, map[], 0)]);
    assert PUBLISHED[..3] == PUBLISHED;
  }

  lemma LeasesSeven(c: Config, s: Sys, s': Sys, row: OutboxRow)
    requires c.maxAttempts >= 1 && row == OutboxRow(7, Waiting, 0, None, 0, false)
    requires s == Sys(Tables(map[7 := row], map[], map[7 := Accepted]), 0, {}, {}, map[], multiset{}, multiset{})
    requires s' == s.(t := s.t.(outbox := map[7 := LeaseRow(row, 0)]), sending := {(7, 1)}, leases := multiset{7})
    ensures DispatchStep(c, s, {7}) == s'
  {
    var t := BuryExhausted(s.t, c.maxAttempts);
    assert t.outbox == s.t.outbox && t.reports == s.t.reports;
    assert (set e | e in {7} && e in t.outbox && Eligible(t.outbox[e], s.now, c.maxAttempts)) == {7};
    assert LeasePicked(t, {7}, 0, c.maxAttempts).outbox == map[7 := LeaseRow(row, 0)];
    assert (set e | e in {7} :: (e, t.outbox[e].attempts + 1)) == {(7, 1)};
  }

  const LATE: Receipt := Receipt(Processing, 1, Some(300_000))
  const FIRST: Worker := Worker(7, 7, 1, 300_000, Working)
  const SECOND: Worker := Worker(7, 7, 2, 600_001, Working)
  const THIRD: Worker := Worker(7, 7, 3, 600_001, Working)

  /** The first of two workers outlives its lease and fails after the second completed. */
  const LATE_WORKER: seq<Event> :=
    [Claim(0, 7, 7), Tick(300_001), Claim(1, 7, 7), Complete(1), Stumble(0, true), ReadAttempts(0), RecordFailure(0)]

  /** The late failure comes before the completion: a third worker claims the receipt, the
      second completes under it, and the third, within its lease and holding the claim, then
      finds the report not processable and buries it. */
  const HOLDER_BURIES: seq<Event> :=
    [Claim(0, 7, 7), Tick(300_001), Claim(1, 7, 7), Stumble(0, true), ReadAttempts(0), RecordFailure(0),
     Claim(2, 7, 7), Complete(1), Complete(2), ReadAttempts(2), RecordFailure(2)]

  /** Both runs begin with two claims, the second after the first one's lease ran out. */
  function Started(n: nat): Sys
    requires n <= 3
  {
    if n == 0 then Job(None, Accepted, 0, map[], 0)
    else if n == 1 then Job(Some(LATE), InProgress, 0, map[0 := FIRST], 1)
    else if n == 2 then Job(Some(LATE), InProgress, 300_001, map[0 := FIRST], 1)
    else Job(Some(Receipt(Processing, 2, Some(600_001))), InProgress, 300_001, map[0 := FIRST, 1 := SECOND], 2)
  }

  lemma TwoClaims(c: Config)
    requires c.workerMaxAttempts >= 3
    ensures Apply(c, Started(0), Claim(0, 7, 7)) == Started(1)
    ensures Apply(c, Started(1), Tick(300_001)) == Started(2)
    ensures Apply(c, Started(2), Claim(1, 7, 7)) == Started(3)
  {
    FirstClaim(c);
    SecondClaim(c);
    assert Apply(c, Started(1), Tick(300_001)) == Started(2);
    hide Apply, Started;
  }

  lemma FirstClaim(c: Config)
    requires c.workerMaxAttempts >= 3
    ensures Apply(c, Started(0), Claim(0, 7, 7)) == Started(1)
  {
    hide WorkerStep, DispatchStep, UnsentStep, SentStep, CloseStep;
  }

  lemma SecondClaim(c: Config)
    requires c.workerMaxAttempts >= 3
    ensures Apply(c, Started(2), Claim(1, 7, 7)) == Started(3)
  {
    hide WorkerStep, DispatchStep, UnsentStep, SentStep, CloseStep;
    assert Started(3).workers == map[0 := FIRST][1 := SECOND];
  }

  function LateState(n: nat): Sys
    requires n <= 7
  {
    if n <= 3 then Started(n)
    else
      Job(Some(if n < 7 then Receipt(Completed, 2, None) else Receipt(Failed, 2, None)), if n < 7 then Evaluated else Accepted, 300_001,
          if n == 7 then map[] else map[0 := FIRST.(phase := if n == 4 then Working else if n == 5 then Failing(true) else Deciding(false))], 2)
  }

  lemma LateCompletes(c: Config)
    requires c.workerMaxAttempts >= 3
    ensures Apply(c, LateState(3), Complete(1)) == LateState(4)
  {
    hide ClaimStep, DispatchStep, UnsentStep, SentStep, CloseStep;
    assert LateState(3).workers - {1} == LateState(4).workers;
  }

  lemma LateStumbles(c: Config)
    requires c.workerMaxAttempts >= 3
    ensures Apply(c, LateState(4), Stumble(0, true)) == LateState(5)
    ensures Apply(c, LateState(5), ReadAttempts(0)) == LateState(6)
  {
    hide ClaimStep, DispatchStep, UnsentStep, SentStep, CloseStep;
  }

  lemma LateWrites(c: Config)
    requires c.workerMaxAttempts >= 3
    ensures Apply(c, LateState(6), RecordFailure(0)) == LateState(7)
  {
    hide ClaimStep, DispatchStep, UnsentStep, SentStep, CloseStep;
    assert LateState(6).workers - {0} == LateState(7).workers;
  }

  lemma LateStep(c: Config, i: nat)
    requires c.workerMaxAttempts >= 3 && i < 7
    ensures Apply(c, LateState(i), LATE_WORKER[i]) == LateState(i + 1)
  {
    if i < 3 { TwoClaims(c); } else { LateCompletes(c); LateStumbles(c); LateWrites(c); }
    hide Apply, Job;
  }

  lemma LateEnds()
    ensures LateState(4).t.receipts == map[7 := Receipt(Completed, 2, None)] && LateState(4).t.reports == map[7 := Evaluated]
    ensures LateState(7).t.receipts == map[7 := Receipt(Failed, 2, None)] && LateState(7).t.reports == map[7 := Accepted]
    ensures LateState(0) == Job(None, Accepted, 0, map[], 0)
  {
  }

  /** The completion of the second worker is undone by the first. */
  lemma LateWorkerUndoesCompletion(c: Config)
    requires c.maxAttempts >= 1 && c.workerMaxAttempts >= 3
    ensures var t := Run(c, INITIAL, PUBLISHED + LATE_WORKER[..4]).t;
      t.receipts == map[7 := Receipt(Completed, 2, None)] && t.reports == map[7 := Evaluated]
    ensures var t := Run(c, INITIAL, PUBLISHED + LATE_WORKER).t;
      t.receipts == map[7 := Receipt(Failed, 2, None)] && t.reports == map[7 := Accepted]
  {
    hide Apply, LateState, Job;
    Published(c);
    LateEnds();
    var es := LATE_WORKER;
    var ss := seq(8, i requires 0 <= i < 8 => LateState(i));
    forall i | 0 <= i < 7 ensures Apply(c, ss[i], es[i]) == ss[i + 1] { LateStep(c, i); }
    TraceIsRun(c, es, ss);
    RunConcat(c, INITIAL, PUBLISHED, es[..4]);
    RunConcat(c, INITIAL, PUBLISHED, es);
    assert es[..7] == es;
  }

  function HolderState(n: nat): Sys
    requires n <= 11
  {
    if n <= 3 then Started(n)
    else if n <= 5 then
      Started(3).(workers := map[0 := FIRST.(phase := if n == 4 then Failing(true) else Deciding(false)), 1 := SECOND])
    else if n == 6 then Job(Some(Receipt(Failed, 2, None)), Accepted, 300_001, map[1 := SECOND], 2)
    else if n == 7 then Job(Some(Receipt(Processing, 3, Some(600_001))), InProgress, 300_001, map[1 := SECOND, 2 := THIRD], 3)
    else if n <= 10 then
      Job(Some(Receipt(Completed, 3, None)), Evaluated, 300_001,
          map[2 := THIRD.(phase := if n == 8 then Working else if n == 9 then Failing(false) else Deciding(true))], 3)
    else Job(Some(Receipt(DeadLetter, 3, None)), Abandoned, 300_001, map[], 3)
  }

  lemma HolderFails(c: Config)
    requires c.workerMaxAttempts >= 3
    ensures Apply(c, HolderState(3), Stumble(0, true)) == HolderState(4)
    ensures Apply(c, HolderState(4), ReadAttempts(0)) == HolderState(5)
  {
    hide ClaimStep, DispatchStep, UnsentStep, SentStep, CloseStep;
    assert HolderState(3).workers[0 := FIRST.(phase := Failing(true))] == HolderState(4).workers;
    assert HolderState(4).workers[0 := FIRST.(phase := Deciding(false))] == HolderState(5).workers;
  }

  lemma HolderFailureWrites(c: Config)
    requires c.workerMaxAttempts >= 3
    ensures Apply(c, HolderState(5), RecordFailure(0)) == HolderState(6)
  {
    hide ClaimStep, DispatchStep, UnsentStep, SentStep, CloseStep;
    assert HolderState(5).workers - {0} == HolderState(6).workers;
  }

  lemma HolderReclaims(c: Config)
    requires c.workerMaxAttempts >= 3
    ensures Apply(c, HolderState(6), Claim(2, 7, 7)) == HolderState(7)
  {
    hide WorkerStep, DispatchStep, UnsentStep, SentStep, CloseStep;
    var s, s' := HolderState(6), HolderState(7);
    assert s.workers[2 := THIRD] == s'.workers && s.claims + multiset{7} == s'.claims;
    var (t, result) := ClaimTx(s.t, 7, 7, 300_001, c.workerMaxAttempts);
    assert t.receipts == s'.t.receipts && t.reports == s'.t.reports && t.outbox == s'.t.outbox && result == Claimed;
    hide ClaimTx;
  }

  lemma HolderCompletes(c: Config)
    requires c.workerMaxAttempts >= 3
    ensures Apply(c, HolderState(7), Complete(1)) == HolderState(8)
  {
    hide ClaimStep, DispatchStep, UnsentStep, SentStep, CloseStep;
    assert HolderState(7).workers - {1} == HolderState(8).workers;
  }

  lemma HolderStumbles(c: Config)
    requires c.workerMaxAttempts >= 3
    ensures Apply(c, HolderState(8), Complete(2)) == HolderState(9)
    ensures Apply(c, HolderState(9), ReadAttempts(2)) == HolderState(10)
  {
    hide ClaimStep, DispatchStep, UnsentStep, SentStep, CloseStep;
  }

  lemma HolderWrites(c: Config)
    requires c.workerMaxAttempts >= 3
    ensures Apply(c, HolderState(10), RecordFailure(2)) == HolderState(11)
  {
    hide ClaimStep, DispatchStep, UnsentStep, SentStep, CloseStep;
    assert HolderState(10).workers - {2} == HolderState(11).workers;
  }

  lemma HolderStep(c: Config, i: nat)
    requires c.workerMaxAttempts >= 3 && i < 11
    ensures Apply(c, HolderState(i), HOLDER_BURIES[i]) == HolderState(i + 1)
  {
    if i < 3 { TwoClaims(c); }
    else if i < 6 { HolderFails(c); HolderFailureWrites(c); }
    else if i < 8 { HolderReclaims(c); HolderCompletes(c); }
    else { HolderStumbles(c); HolderWrites(c); }
    hide Apply, Job;
  }

  lemma HolderEnds()
    ensures var s := HolderState(10);
      && s.t.receipts == map[7 := Receipt(Completed, 3, None)] && s.t.reports == map[7 := Evaluated]
      && s.workers == map[2 := THIRD.(phase := Deciding(true))] && s.now == 300_001
    ensures HolderState(11).t.receipts == map[7 := Receipt(DeadLetter, 3, None)] && HolderState(11).t.reports == map[7 := Abandoned]
    ensures HolderState(0) == Job(None, Accepted, 0, map[], 0)
  {
  }

  /** A worker within its lease that holds the claim buries a completed job: neither
      protects a settled receipt once some other worker wrote late. */
  lemma HolderBuriesCompletion(c: Config)
    requires c.maxAttempts >= 1 && c.workerMaxAttempts >= 3
    ensures var s := Run(c, INITIAL, PUBLISHED + HOLDER_BURIES[..10]);
      && s.t.receipts == map[7 := Receipt(Completed, 3, None)] && s.t.reports == map[7 := Evaluated]
      && InTime(s, HOLDER_BURIES[10]) && !Overtaken(s, HOLDER_BURIES[10])
    ensures var t := Run(c, INITIAL, PUBLISHED + HOLDER_BURIES).t;
      t.receipts == map[7 := Receipt(DeadLetter, 3, None)] && t.reports == map[7 := Abandoned]
  {
    hide Apply, HolderState, Job, Run;
    Published(c);
    HolderEnds();
    var es := HOLDER_BURIES;
    var ss := seq(12, i requires 0 <= i < 12 => HolderState(i));
    forall i | 0 <= i < 11 ensures Apply(c, ss[i], es[i]) == ss[i + 1] { HolderStep(c, i); }
    TraceIsRun(c, es, ss);
    RunConcat(c, INITIAL, PUBLISHED, es[..10]);
    RunConcat(c, INITIAL, PUBLISHED, es);
    assert es[..11] == es;
  }
}
