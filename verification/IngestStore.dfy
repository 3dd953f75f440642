/** The two ingest transactions as the code runs them: statement by statement on the tables,
    with a rollback to the state before when a statement fails. */
module IngestStore {
  import opened Options
  import opened ReportIngest

  /** The foreign key of the outbox: every event's report exists. */
  ghost predicate EventsRefer(t: Tables) { forall e <- t.outbox :: t.outbox[e].report in t.reports }

  /** Finished long enough ago and named by no ledger row. */
  predicate Deletable(row: ReportRow, ledger: map<LedgerKey, LedgerRow>, id: Id, now: int, days: nat) {
    row.finished && Expired(row.completedAt, now, days) && !Referenced(ledger, id)
  }

  lemma CascadeAll(outbox: map<Id, OutboxRow>, reports: map<Id, ReportRow>)
    requires forall e <- outbox :: outbox[e].report in reports
    ensures Cascade(outbox, reports) == outbox
  {
  }

  /** Deleting one more report deletes exactly its events. */
  lemma CascadeOne(outbox: map<Id, OutboxRow>, reports: map<Id, ReportRow>, id: Id)
    ensures var left := Cascade(outbox, reports);
      (map e | e in left && left[e].report != id :: left[e]) == Cascade(outbox, reports - {id})
  {
  }

  /** The reports left when those in `todo` are still to be looked at. */
  function Left(before: map<Id, ReportRow>, todo: set<Id>, ledger: map<LedgerKey, LedgerRow>, now: int, days: nat): map<Id, ReportRow> {
    map id | id in before && (id in todo || !Deletable(before[id], ledger, id, now, days)) :: before[id]
  }

  lemma NothingDeleted(before: map<Id, ReportRow>, ledger: map<LedgerKey, LedgerRow>, now: int, days: nat)
    ensures Left(before, before.Keys, ledger, now, days) == before
  {
  }

  lemma LeftStep(before: map<Id, ReportRow>, todo: set<Id>, ledger: map<LedgerKey, LedgerRow>, now: int, days: nat, id: Id)
    requires id in todo && todo <= before.Keys
    ensures var left := Left(before, todo, ledger, now, days);
      && id in left && left[id] == before[id]
      && Left(before, todo - {id}, ledger, now, days) == if Deletable(before[id], ledger, id, now, days) then left - {id} else left
  {
    hide Deletable;
  }

  lemma LeftDone(before: map<Id, ReportRow>, ledger: map<LedgerKey, LedgerRow>, now: int, days: nat)
    ensures Left(before, {}, ledger, now, days) == KeepReports(before, ledger, now, days)
  {
    hide Referenced, Expired;
  }

  lemma EventsReferToLeft(outbox: map<Id, OutboxRow>, reports: map<Id, ReportRow>)
    ensures forall e <- Cascade(outbox, reports) :: Cascade(outbox, reports)[e].report in reports
  {
  }

  /** What the cleanup deletes is never named by what it leaves. */
  lemma CleanupKeepsLedger(t: Tables, now: int, days: nat)
    ensures LedgerOk(t) ==> LedgerOk(Cleanup(t, now, days))
  {
    var t' := Cleanup(t, now, days);
    if LedgerOk(t) {
      forall k | k in t'.ledger ensures t'.ledger[k].report in t'.reports { assert Referenced(t'.ledger, t'.ledger[k].report); }
    }
  }

  class Database {
    var ledger: map<LedgerKey, LedgerRow>
    var reports: map<Id, ReportRow>
    var outbox: map<Id, OutboxRow>

    function Value(): Tables
      reads this
    {
      Tables(ledger, reports, outbox)
    }

    constructor ()
      ensures Value() == EMPTY.tables
    {
      ledger, reports, outbox := map[], map[], map[];
    }

    /** `insert ... on conflict do nothing` */
    method InsertLedger(k: LedgerKey, row: LedgerRow) returns (inserted: bool)
      modifies this`ledger
      ensures inserted == (k !in old(ledger))
      ensures ledger == if inserted then old(ledger)[k := row] else old(ledger)
    {
      inserted := k !in ledger;
      if inserted { ledger := ledger[k := row]; }
    }

    method InsertReport(id: Id, row: ReportRow) returns (ok: bool)
      modifies this`reports
      ensures ok == (id !in old(reports) && !Taken(old(reports), row.project, row.runId, row.hash))
      ensures reports == if ok then old(reports)[id := row] else old(reports)
    {
      ok := id !in reports && !Taken(reports, row.project, row.runId, row.hash);
      if ok { reports := reports[id := row]; }
    }

    method InsertEvent(id: Id, row: OutboxRow) returns (ok: bool)
      modifies this`outbox
      ensures ok == (id !in old(outbox))
      ensures outbox == if ok then old(outbox)[id := row] else old(outbox)
    {
      ok := id !in outbox;
      if ok { outbox := outbox[id := row]; }
    }

    method AcceptReport(k: LedgerKey, r: Report, a: Answers) returns (outcome: Outcome)
      modifies this
      ensures (Value(), outcome) == Accept(old(Value()), k, r, a)
    {
      hide Taken, RequestHash;
      if !a.valid { return Invalid; }
      var hash := RequestHash(r);
      var ledgerBefore, reportsBefore := ledger, reports;
      var inserted := InsertLedger(k, LedgerRow(hash, a.report, a.now + IDEMPOTENCY_DAYS * DAY));
      if !inserted {
        return if ledger[k].hash == hash then Duplicate(ledger[k].report) else Conflict;
      }
      if !a.project || !a.quota {
        ledger := ledgerBefore;
        return if !a.project then Unavailable else OverQuota;
      }
      var stored := InsertReport(a.report, ReportRow(k.project, r.runId, hash, false, None));
      if !stored {
        ledger := ledgerBefore;
        return UniqueViolation;
      }
      var queued := InsertEvent(a.event, OutboxRow(a.report, None));
      if !queued {
        ledger, reports := ledgerBefore, reportsBefore;
        return UniqueViolation;
      }
      outcome := Accepted(a.report);
    }

    /** `delete from idempotency_ledger`, row by row. */
    method DeleteLedger(now: int)
      modifies this`ledger
      ensures ledger == KeepLedger(old(ledger), now)
    {
      ghost var before := ledger;
      var todo := ledger.Keys;
      while todo != {}
        invariant todo <= before.Keys
        invariant ledger == map k | k in before && (k in todo || before[k].expiresAt >= now) :: before[k]
        decreases |todo|
      {
        var k :| k in todo;
        if ledger[k].expiresAt < now { ledger := ledger - {k}; }
        todo := todo - {k};
      }
    }

    /** `delete from reports`, row by row, each with its outbox events. */
    method DeleteReports(now: int, days: nat)
      requires EventsRefer(Value())
      modifies this`reports, this`outbox
      ensures reports == KeepReports(old(reports), ledger, now, days)
      ensures outbox == Cascade(old(outbox), reports) && EventsRefer(Value())
    {
      hide Deletable, Left, Cascade, KeepReports;
      ghost var t := Value();
      var todo := reports.Keys;
      CascadeAll(t.outbox, t.reports);
      NothingDeleted(t.reports, ledger, now, days);
      while todo != {}
        invariant todo <= t.reports.Keys
        invariant reports == Left(t.reports, todo, ledger, now, days) && outbox == Cascade(t.outbox, reports)
        decreases |todo|
      {
        var id :| id in todo;
        LeftStep(t.reports, todo, ledger, now, days, id);
        if Deletable(reports[id], ledger, id, now, days) {
          ghost var before := reports;
          reports := reports - {id};
          outbox := map e | e in outbox && outbox[e].report != id :: outbox[e];
          CascadeOne(t.outbox, before, id);
        }
        todo := todo - {id};
      }
      LeftDone(t.reports, ledger, now, days);
      EventsReferToLeft(t.outbox, reports);
    }

    method DeleteEvents(now: int)
      modifies this`outbox
      ensures outbox == KeepOutbox(old(outbox), now)
    {
      ghost var before := outbox;
      var todo := outbox.Keys;
      while todo != {}
        invariant todo <= before.Keys
        invariant outbox == map e | e in before && (e in todo || !Expired(before[e].settledAt, now, OUTBOX_DAYS)) :: before[e]
        decreases |todo|
      {
        hide Expired;
        var e :| e in todo;
        if Expired(outbox[e].settledAt, now, OUTBOX_DAYS) { outbox := outbox - {e}; }
        todo := todo - {e};
      }
    }

    /** The deletions that concern these three tables, in order: no expired ledger row is
        left, every ledger row left still names its report, and a report is gone exactly when
        it was finished long enough ago and no ledger row left names it. */
    method RunCleanup(now: int, days: nat)
      requires EventsRefer(Value())
      modifies this
      ensures Value() == Cleanup(old(Value()), now, days)
      ensures forall k <- ledger :: ledger[k].expiresAt >= now
      ensures old(LedgerOk(Value())) ==> LedgerOk(Value())
      ensures EventsRefer(Value())
      ensures forall id <- old(reports) :: id !in reports <==> Deletable(old(reports)[id], ledger, id, now, days)
    {
      DeleteLedger(now);
      DeleteReports(now, days);
      DeleteEvents(now);
      CleanupKeepsLedger(old(Value()), now, days);
    }
  }
}
