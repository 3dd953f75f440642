/** Each answer of an ingest and each deletion of a cleanup, exactly. */
module IngestAnswers {
  import opened Options
  import opened ReportIngest
  import CanonicalJson
  import JsonText

  /** What is hashed is an object with the schema version, the run's id and the payload. */
  lemma HashedObject(r: Report) returns (version: CanonicalJson.Text, runId: CanonicalJson.Text, payload: CanonicalJson.Text, one: CanonicalJson.Numeral)
    ensures JsonText.Spells(version, "schemaVersion") && JsonText.Spells(runId, "runId") && JsonText.Spells(payload, "payload") && JsonText.Spells(one, "1")
    ensures CanonicalJson.Meaning(Body(r)) == CanonicalJson.TObj(map[
      version := CanonicalJson.TNum(one), runId := CanonicalJson.TStr(r.runId), payload := CanonicalJson.Meaning(r.payload)])
  {
    hide JsonText.Spells, Body, CanonicalJson.Meaning;
    FieldNames();
    BodyShape(r);
    version, runId, payload, one := SCHEMA_VERSION, RUN_ID, PAYLOAD, [49];
  }

  lemma FieldNames()
    ensures JsonText.Spells(SCHEMA_VERSION, "schemaVersion") && JsonText.Spells(RUN_ID, "runId")
    ensures JsonText.Spells(PAYLOAD, "payload") && JsonText.Spells([49], "1")
  {
  }

  /** The answers are given in this order: the request is malformed; its key was used before,
      with the same request or another; the project is gone; its quota is used up; the report
      is stored already or an id clashes; and only then it is accepted, for seven days. */
  lemma IngestDecides(t: Tables, k: LedgerKey, r: Report, a: Answers)
    ensures var (t', answer) := Accept(t, k, r, a);
      && (answer == Invalid <==> !a.valid)
      && (a.valid && k in t.ledger ==> answer == if t.ledger[k].hash == RequestHash(r) then Duplicate(t.ledger[k].report) else Conflict)
      && (answer.Duplicate? || answer == Conflict ==> a.valid && k in t.ledger)
      && (answer == Unavailable <==> a.valid && k !in t.ledger && !a.project)
      && (answer == OverQuota <==> a.valid && k !in t.ledger && a.project && !a.quota)
      && (answer.Accepted? || answer == UniqueViolation <==> a.valid && k !in t.ledger && a.project && a.quota)
      && (!answer.Accepted? ==> t' == t)
      && (answer.Accepted? ==> answer.report == a.report && Inserted(t, t', k, r, a))
  {
    hide RequestHash, Taken;
  }

  ghost predicate Inserted(t: Tables, t': Tables, k: LedgerKey, r: Report, a: Answers) {
    && t'.ledger == t.ledger[k := LedgerRow(RequestHash(r), a.report, a.now + 604_800_000)]
    && t'.reports == t.reports[a.report := ReportRow(k.project, r.runId, RequestHash(r), false, None)]
    && t'.outbox == t.outbox[a.event := OutboxRow(a.report, None)]
  }

  /** A cleanup deletes exactly the ledger rows whose time is over; then exactly the reports that
      finished more than the retention ago and that no row left names; and of the events those
      of deleted reports and those settled more than thirty days ago. */
  lemma CleanupDecides(t: Tables, now: int, days: nat)
    ensures var t' := Cleanup(t, now, days);
      && (forall k :: k in t'.ledger <==> k in t.ledger && now <= t.ledger[k].expiresAt)
      && (forall k :: k in t'.ledger ==> t'.ledger[k] == t.ledger[k])
      && (forall id :: id in t'.reports <==> id in t.reports && !Outdated(t.reports[id], t'.ledger, id, now, days))
      && (forall id :: id in t'.reports ==> t'.reports[id] == t.reports[id])
      && (forall e :: e in t'.outbox <==> e in t.outbox && t.outbox[e].report in t'.reports && !LongSettled(t.outbox[e], now))
      && (forall e :: e in t'.outbox ==> t'.outbox[e] == t.outbox[e])
  {
  }

  ghost predicate Outdated(row: ReportRow, ledger: map<LedgerKey, LedgerRow>, id: Id, now: int, days: nat) {
    && row.finished && row.completedAt.Some? && row.completedAt.value + days * 86_400_000 < now
    && forall k :: k in ledger ==> ledger[k].report != id
  }

  predicate LongSettled(row: OutboxRow, now: int) { row.settledAt.Some? && row.settledAt.value + 2_592_000_000 < now }
}
