/** Which jobs can still settle. Nothing here says that a job will: only whether some
    continuation of the run settles it. */
module JobSettling {
  import opened Options
  import opened ReportJobs
  import opened JobFinality

  /** The receipt is on its last attempt and nobody is working on it. */
  ghost predicate Stranded(c: Config, s: Sys, e: EventId) {
    && e in s.t.receipts && s.t.receipts[e].status == Processing && s.t.receipts[e].attempts >= c.workerMaxAttempts
    && forall w :: w in s.workers ==> s.workers[w].event != e
  }

  /** After a crash on the last attempt no later event ever moves the receipt: it is neither
      claimed nor dead-lettered. */
  lemma {:induction false} StrandedForever(c: Config, s: Sys, es: seq<Event>, e: EventId)
    requires Stranded(c, s, e)
    ensures Stranded(c, Run(c, s, es), e) && Run(c, s, es).t.receipts[e] == s.t.receipts[e]
  {
    hide Apply;
    if es != [] {
      StrandedForever(c, s, es[..|es| - 1], e);
      StrandedStep(c, Run(c, s, es[..|es| - 1]), es[|es| - 1], e);
    }
  }

  lemma StrandedStep(c: Config, s: Sys, ev: Event, e: EventId)
    requires Stranded(c, s, e)
    ensures Stranded(c, Apply(c, s, ev), e) && Apply(c, s, ev).t.receipts[e] == s.t.receipts[e]
  {
    hide DispatchStep, ClaimTx;
    if ev.Dispatch? { DispatchReceipts(c, s, ev.picked); }
    if ev.Claim? { ClaimReceipts(s.t, ev.event, ev.report, s.now, c.workerMaxAttempts); }
  }

  // ---------------------------------------------------------------- a continuation that settles

  ghost predicate Settled(s: Sys, e: EventId) { e in s.t.receipts && Final(s.t.receipts[e].status) }

  ghost predicate CanSettle(c: Config, s: Sys, e: EventId) { exists es :: Settled(Run(c, s, es), e) }

  lemma SettledNow(c: Config, s: Sys, e: EventId)
    requires Settled(s, e)
    ensures CanSettle(c, s, e)
  {
    assert Run(c, s, []) == s;
  }

  lemma SettlesLater(c: Config, s: Sys, ev: Event, e: EventId)
    requires CanSettle(c, Apply(c, s, ev), e)
    ensures CanSettle(c, s, e)
  {
    hide Apply;
    var es :| Settled(Run(c, Apply(c, s, ev), es), e);
    RunConcat(c, s, [ev], es);
    assert Run(c, s, [ev]) == Apply(c, Run(c, s, []), ev) by { assert [ev][..0] == []; }
    assert Settled(Run(c, s, [ev] + es), e);
  }

  /** A worker still at work completes the job. */
  lemma WorkingSettles(c: Config, s: Sys, e: EventId, w: nat)
    requires Consistent(s) && w in s.workers && s.workers[w].event == e && s.workers[w].phase == Working
    requires e in s.t.receipts && s.t.receipts[e].status == Processing
    ensures CanSettle(c, s, e)
  {
    var k, s' := s.workers[w], Apply(c, s, Complete(w));
    assert WorkerKnown(s.t, k);
    WriteAgrees(s.t, e, k.report, false);
    assert Settled(s', e);
    hide Apply, Consistent;
    SettledNow(c, s', e);
    SettlesLater(c, s, Complete(w), e);
  }

  lemma {:induction false} FreshWorker(ws: set<nat>) returns (w: nat)
    ensures w !in ws && forall v :: v in ws ==> v < w
  {
    if ws == {} {
      w := 0;
    } else {
      var v :| v in ws;
      var u := FreshWorker(ws - {v});
      w := if v < u then u else v + 1;
      forall x | x in ws ensures x < w { assert x == v || x in ws - {v}; }
    }
  }

  /** Failed, or left in processing with attempts to spare. */
  predicate Claimable(c: Config, rc: Receipt, now: int) {
    rc.status == Failed || (rc.status == Processing && Past(rc.leaseUntil, now) && rc.attempts < c.workerMaxAttempts)
  }

  /** Whoever may claim the receipt can complete the job, or buries it by the claim. */
  lemma ClaimableSettles(c: Config, s: Sys, e: EventId)
    requires Consistent(s) && e in s.t.outbox
    requires e in s.t.receipts ==> Claimable(c, s.t.receipts[e], s.now)
    ensures CanSettle(c, s, e)
  {
    var w := FreshWorker(s.workers.Keys);
    var r := s.t.outbox[e].report;
    var s' := Apply(c, s, Claim(w, e, r));
    StepConsistent(c, s, Claim(w, e, r));
    if ClaimTx(s.t, e, r, s.now, c.workerMaxAttempts).1 == DeadLettered {
      assert Settled(s', e);
      SettledNow(c, s', e);
    } else {
      assert s'.workers[w].event == e && s'.workers[w].phase == Working && s'.t.receipts[e].status == Processing;
      hide Consistent, Apply;
      WorkingSettles(c, s', e, w);
    }
    hide Apply;
    SettlesLater(c, s, Claim(w, e, r), e);
  }

  /** A lease runs out if nothing else happens. */
  lemma LeaseRunsOut(c: Config, s: Sys, e: EventId)
    requires Consistent(s) && e in s.t.outbox && e in s.t.receipts
    requires s.t.receipts[e].status == Processing && s.t.receipts[e].attempts < c.workerMaxAttempts
    ensures CanSettle(c, s, e)
  {
    var until := s.t.receipts[e].leaseUntil.value;
    var ev := Tick(if s.now <= until then until + 1 else s.now);
    var s' := Apply(c, s, ev);
    StepConsistent(c, s, ev);
    assert s'.t == s.t && Past(s'.t.receipts[e].leaseUntil, s'.now);
    hide Consistent, Apply;
    ClaimableSettles(c, s', e);
    SettlesLater(c, s, ev, e);
  }

  /** A worker on the last attempt that is about to record its failure settles the job, or
      leaves it to the next claim to bury it. */
  lemma DecidingSettles(c: Config, s: Sys, e: EventId, w: nat)
    requires Consistent(s) && w in s.workers && s.workers[w].event == e && s.workers[w].phase.Deciding? && e in s.t.receipts
    ensures CanSettle(c, s, e)
  {
    var k, ev := s.workers[w], RecordFailure(w);
    var s' := Apply(c, s, ev);
    assert WorkerKnown(s.t, k);
    StepConsistent(c, s, ev);
    assert s'.t.receipts[e].status == (if k.phase.dead then DeadLetter else Failed) && e in s'.t.outbox;
    hide Consistent, Apply;
    if k.phase.dead { SettledNow(c, s', e); } else { ClaimableSettles(c, s', e); }
    SettlesLater(c, s, ev, e);
  }

  lemma FailingSettles(c: Config, s: Sys, e: EventId, w: nat)
    requires Consistent(s) && w in s.workers && s.workers[w].event == e && s.workers[w].phase.Failing? && e in s.t.receipts
    ensures CanSettle(c, s, e)
  {
    var ev := ReadAttempts(w);
    var s' := Apply(c, s, ev);
    StepConsistent(c, s, ev);
    assert s'.t == s.t && s'.workers[w].event == e && s'.workers[w].phase.Deciding?;
    hide Consistent, Apply;
    DecidingSettles(c, s', e, w);
    SettlesLater(c, s, ev, e);
  }

  lemma OtherwiseSettles(c: Config, s: Sys, e: EventId)
    requires Consistent(s) && e in s.t.outbox && !Stranded(c, s, e)
    ensures CanSettle(c, s, e)
  {
    hide Consistent;
    if e !in s.t.receipts || s.t.receipts[e].status == Failed {
      ClaimableSettles(c, s, e);
    } else if Final(s.t.receipts[e].status) {
      SettledNow(c, s, e);
    } else if s.t.receipts[e].attempts < c.workerMaxAttempts {
      LeaseRunsOut(c, s, e);
    } else {
      var w :| w in s.workers && s.workers[w].event == e;
      match s.workers[w].phase
      case Working => WorkingSettles(c, s, e, w);
      case Failing(_) => FailingSettles(c, s, e, w);
      case Deciding(_) => DecidingSettles(c, s, e, w);
    }
  }

  /** In every reachable state an accepted event can still settle exactly unless it is
      stranded: on its last attempt, in processing, with no worker left. */
  lemma SettlesUnlessStranded(c: Config, es: seq<Event>, e: EventId)
    requires e in Run(c, INITIAL, es).t.outbox
    ensures CanSettle(c, Run(c, INITIAL, es), e) <==> !Stranded(c, Run(c, INITIAL, es), e)
  {
    var s := Run(c, INITIAL, es);
    ReportsAlwaysAgree(c, es);
    hide Consistent;
    if Stranded(c, s, e) {
      forall more ensures !Settled(Run(c, s, more), e) { StrandedForever(c, s, more, e); }
    } else {
      OtherwiseSettles(c, s, e);
    }
  }

  // ---------------------------------------------------------------- it does happen

  /** Event 7 was claimed n times, and the last worker is gone too. */
  ghost predicate LostTimes(s: Sys, n: nat) {
    && 7 in s.t.outbox && s.t.outbox[7].report == 7 && s.workers == map[]
    && 7 in s.t.receipts && s.t.receipts[7].status == Processing && s.t.receipts[7].attempts == n && s.t.receipts[7].leaseUntil.Some?
  }

  lemma ClaimAndLose(c: Config, s: Sys, n: nat) returns (es: seq<Event>)
    requires s.workers == map[] && 7 in s.t.outbox && s.t.outbox[7].report == 7 && n < c.workerMaxAttempts
    requires if 7 in s.t.receipts then LostTimes(s, n) else n == 0
    ensures LostTimes(Run(c, s, es), n + 1)
  {
    var now := if 7 in s.t.receipts && s.now <= s.t.receipts[7].leaseUntil.value then s.t.receipts[7].leaseUntil.value + 1 else s.now;
    var s1 := s.(now := now);
    var s2 := Apply(c, s1, Claim(0, 7, 7));
    ClaimAgain(c, s1, n);
    var s3 := s2.(workers := map[]);
    assert Apply(c, s2, LoseWorker(0)) == s3 by { LoseOnly(c, s2); }
    assert Apply(c, s, Tick(now)) == s1;
    hide Apply;
    es := [Tick(now), Claim(0, 7, 7), LoseWorker(0)];
    TraceIsRun(c, es, [s, s1, s2, s3]);
    assert es[..3] == es;
  }

  lemma ClaimAgain(c: Config, s: Sys, n: nat)
    requires s.workers == map[] && 7 in s.t.outbox && s.t.outbox[7].report == 7 && n < c.workerMaxAttempts
    requires if 7 in s.t.receipts then LostTimes(s, n) && Past(s.t.receipts[7].leaseUntil, s.now) else n == 0
    ensures var s' := Apply(c, s, Claim(0, 7, 7));
      && s'.workers.Keys == {0} && s'.t.outbox == s.t.outbox
      && 7 in s'.t.receipts && s'.t.receipts[7] == Receipt(Processing, n + 1, Some(s.now + WORKER_LEASE))
  {
  }

  lemma LoseOnly(c: Config, s: Sys)
    requires s.workers.Keys == {0}
    ensures Apply(c, s, LoseWorker(0)) == s.(workers := map[])
  {
    assert s.workers - {0} == map[];
  }

  lemma {:induction false} LoseAll(c: Config, n: nat) returns (es: seq<Event>)
    requires c.maxAttempts >= 1 && 1 <= n <= c.workerMaxAttempts
    ensures LostTimes(Run(c, INITIAL, es), n)
    decreases n
  {
    var before: seq<Event>;
    if n == 1 {
      before := PUBLISHED;
      Published(c);
    } else {
      before := LoseAll(c, n - 1);
    }
    hide Apply, Run;
    var more := ClaimAndLose(c, Run(c, INITIAL, before), n - 1);
    es := before + more;
    RunConcat(c, INITIAL, before, more);
  }

  /** Whatever the limits are, some run strands a job that was accepted and published: its
      workers stop one after the other, the last one on the last attempt. */
  lemma JobsGetStranded(c: Config)
    requires c.maxAttempts >= 1 && c.workerMaxAttempts >= 1
    ensures exists es :: Stranded(c, Run(c, INITIAL, es), 7)
  {
    hide Run;
    var es := LoseAll(c, c.workerMaxAttempts);
    assert Stranded(c, Run(c, INITIAL, es), 7);
  }
}
