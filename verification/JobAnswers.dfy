/** What the dispatcher and the worker answer and write, case by case, said of the rows alone. */
module JobAnswers {
  import opened Options
  import opened ReportJobs
  import opened JobFinality

  // ---------------------------------------------------------------- claims

  /** Completed or dead-lettered. */
  predicate IsSettled(rc: Receipt) { rc.status == Completed || rc.status == DeadLetter }

  /** In processing, and its lease still runs or its attempts are used up. */
  predicate IsBusy(rc: Receipt, now: int, max: nat) {
    rc.status == Processing && (rc.leaseUntil == None || now <= rc.leaseUntil.value || max <= rc.attempts)
  }

  /** Failed, with its attempts used up. */
  predicate IsSpent(rc: Receipt, max: nat) { rc.status == Failed && max <= rc.attempts }

  /** The answer that the receipt alone calls for. */
  ghost predicate RightAnswer(t: Tables, e: EventId, r: ReportId, now: int, max: nat, answer: ClaimResult) {
    && (answer == Mismatch <==> e !in t.outbox || t.outbox[e].report != r)
    && (answer != Mismatch ==>
          && (answer == Duplicate <==> e in t.receipts && IsSettled(t.receipts[e]))
          && (answer == LeaseActive <==> e in t.receipts && IsBusy(t.receipts[e], now, max))
          && (answer == DeadLettered <==> e in t.receipts && IsSpent(t.receipts[e], max))
          && (answer == Claimed <==>
                e !in t.receipts || (!IsSettled(t.receipts[e]) && !IsBusy(t.receipts[e], now, max) && !IsSpent(t.receipts[e], max))))
  }

  /** In any state, a claim answers what the receipt calls for, and only a claim that goes
      through or buries the job writes anything. */
  lemma ClaimAnswers(t: Tables, e: EventId, r: ReportId, now: int, max: nat)
    ensures var (t', answer) := ClaimTx(t, e, r, now, max);
      && RightAnswer(t, e, r, now, max, answer)
      && (answer == Mismatch || answer == Duplicate || answer == LeaseActive ==> t' == t)
  {
  }

  /** What a claim writes: the receipt in processing for one attempt more under a lease of
      five minutes, or dead-lettered as it is; the report follows. */
  lemma ClaimWrites(s: Sys, e: EventId, r: ReportId, max: nat)
    requires Consistent(s)
    ensures var (t', answer) := ClaimTx(s.t, e, r, s.now, max);
      && t'.outbox == s.t.outbox
      && (answer == Claimed ==> Taken(s.t, t', e, r, s.now))
      && (answer == DeadLettered ==> GivenUp(s.t, t', e, r))
  {
    var t := s.t;
    hide LeasesFit;
    ClaimAgrees(t, e, r, s.now, max);
    ClaimReceipts(t, e, r, s.now, max);
    var (t', answer) := ClaimTx(t, e, r, s.now, max);
    hide ClaimTx;
    if answer == Claimed || answer == DeadLettered { assert Agrees(JobOf(t', e), t'.reports[r]); }
    hide TablesAgree;
  }

  ghost predicate Taken(t: Tables, t': Tables, e: EventId, r: ReportId, now: int) {
    && e in t'.receipts && r in t'.reports && t'.reports[r] == InProgress
    && t'.receipts[e] == Receipt(Processing, (if e in t.receipts then t.receipts[e].attempts else 0) + 1, Some(now + 300_000))
  }

  ghost predicate GivenUp(t: Tables, t': Tables, e: EventId, r: ReportId) {
    && e in t'.receipts && e in t.receipts && r in t'.reports && t'.reports[r] == Abandoned
    && t'.receipts[e] == t.receipts[e].(status := DeadLetter)
  }

  /** In every run, redelivering a settled event is answered as a duplicate and writes nothing. */
  lemma SettledAnswersDuplicate(c: Config, es: seq<Event>, w: nat, e: EventId)
    requires var t := Run(c, INITIAL, es).t; e in t.receipts && IsSettled(t.receipts[e])
    ensures var s := Run(c, INITIAL, es);
      && e in s.t.outbox
      && ClaimTx(s.t, e, s.t.outbox[e].report, s.now, c.workerMaxAttempts) == (s.t, Duplicate)
      && Apply(c, s, Claim(w, e, s.t.outbox[e].report)) == s
  {
    hide Run;
    ReportsAlwaysAgree(c, es);
  }

  // ---------------------------------------------------------------- how work ends

  /** A failure that can be retried, with attempts left, puts receipt and report back; any
      other ends the job. */
  lemma FailureVerdict(c: Config, s: Sys, w: nat)
    requires Consistent(s) && w in s.workers && s.workers[w].phase.Failing?
    ensures var k := s.workers[w];
      var s' := Apply(c, Apply(c, s, ReadAttempts(w)), RecordFailure(w));
      && k.event in s.t.receipts && k.event in s'.t.receipts && k.report in s'.t.reports && w !in s'.workers
      && var again := k.phase.retryable && s.t.receipts[k.event].attempts < c.workerMaxAttempts;
      && s'.t.receipts[k.event] == s.t.receipts[k.event].(status := if again then Failed else DeadLetter, leaseUntil := None)
      && s'.t.reports[k.report] == (if again then Accepted else Abandoned)
  {
    var k := s.workers[w];
    assert WorkerKnown(s.t, k);
    assert k.report in s.t.reports;
    hide TablesAgree, LeasesFit;
  }

  /** A completion goes through exactly while the receipt is in processing; otherwise the
      worker goes on to record a failure that is not retried. */
  lemma CompletionVerdict(c: Config, s: Sys, w: nat)
    requires Consistent(s) && w in s.workers && s.workers[w].phase == Working
    ensures var k, s' := s.workers[w], Apply(c, s, Complete(w));
      && k.event in s.t.receipts && k.event in s'.t.receipts && k.report in s'.t.reports
      && if s.t.receipts[k.event].status == Processing
         then s'.t.receipts[k.event] == s.t.receipts[k.event].(status := Completed, leaseUntil := None) && s'.t.reports[k.report] == Evaluated && w !in s'.workers
         else s'.t == s.t && w in s'.workers && s'.workers[w] == k.(phase := Failing(false))
  {
    var k := s.workers[w];
    assert WorkerKnown(s.t, k);
    WriteAgrees(s.t, k.event, k.report, false);
    assert k.report in s.t.reports;
    hide TablesAgree, LeasesFit;
  }

  // ---------------------------------------------------------------- dispatching

  /** Not dispatched, due, with attempts left, and waiting or with a lease that has run out. */
  predicate IsDue(row: OutboxRow, now: int, max: nat) {
    && !row.sent && row.availableAt <= now && row.attempts < max
    && (row.status == Waiting || (row.status == Leased && row.leaseUntil.Some? && row.leaseUntil.value < now))
  }

  /** Not dispatched, not buried yet, without attempts left. */
  predicate IsOver(row: OutboxRow, max: nat) { !row.sent && row.status != Buried && max <= row.attempts }

  /** A dispatch buries what is over, abandons its report if that was still accepted, and
      leases for a minute what it picked and is due; nothing else changes. */
  lemma DispatchWrites(c: Config, s: Sys, picked: set<EventId>, e: EventId)
    requires e in s.t.outbox
    ensures var s', row := DispatchStep(c, s, picked), s.t.outbox[e];
      && e in s'.t.outbox
      && s'.t.outbox[e] ==
           (if IsOver(row, c.maxAttempts) then row.(status := Buried, leaseUntil := None)
            else if e in picked && IsDue(row, s.now, c.maxAttempts)
            then row.(status := Leased, leaseUntil := Some(s.now + 60_000), attempts := row.attempts + 1)
            else row)
      && (((e, row.attempts + 1) in s'.sending && (e, row.attempts + 1) !in s.sending) ==> e in picked && IsDue(row, s.now, c.maxAttempts))
  {
  }

  lemma DispatchAbandonsExactly(c: Config, s: Sys, picked: set<EventId>, r: ReportId)
    requires r in s.t.reports
    ensures var s' := DispatchStep(c, s, picked);
      && r in s'.t.reports
      && s'.t.reports[r] ==
           if s.t.reports[r] == Accepted && exists e :: e in s.t.outbox && IsOver(s.t.outbox[e], c.maxAttempts) && s.t.outbox[e].report == r
           then Abandoned else s.t.reports[r]
  {
    assert forall e :: e in s.t.outbox ==> (Exhausted(s.t.outbox[e], c.maxAttempts) <==> IsOver(s.t.outbox[e], c.maxAttempts));
    hide Exhausted, IsOver, Eligible;
  }

  /** After a publish the event is dispatched; after a failed one it waits until it is due
      again, or is buried when that was its last attempt. */
  lemma PublishWrites(c: Config, s: Sys, e: EventId, n: nat, availableAt: int)
    requires e in s.t.outbox && (e, n) in s.sending
    ensures var row := s.t.outbox[e];
      && e in SentStep(s, e, n).t.outbox && e in UnsentStep(c, s, e, n, availableAt).t.outbox
      && SentStep(s, e, n).t.outbox[e] == row.(status := Dispatched, sent := true, leaseUntil := None)
      && UnsentStep(c, s, e, n, availableAt).t.outbox[e] ==
           (if n < c.maxAttempts then row.(status := Waiting, leaseUntil := None, availableAt := availableAt) else row.(status := Buried, leaseUntil := None))
      && (c.maxAttempts <= n ==> row.report in UnsentStep(c, s, e, n, availableAt).closing)
      && (n < c.maxAttempts ==> UnsentStep(c, s, e, n, availableAt).closing == s.closing)
  {
  }

  /** The report of an event that was buried is abandoned if it was still accepted. */
  lemma CloseWrites(s: Sys, r: ReportId)
    requires r in s.closing && r in s.t.reports
    ensures r in CloseStep(s, r).t.reports && CloseStep(s, r).t.reports[r] == (if s.t.reports[r] == Accepted then Abandoned else s.t.reports[r])
  {
  }
}
