/** Report ingest: one transaction writes the idempotency ledger, the report and its outbox
    event; a cleanup transaction deletes old rows. Each transaction is one atomic step. */
module ReportIngest {
  import opened Options
  import CanonicalJson

  type Value = CanonicalJson.Value
  type Text = CanonicalJson.Text

  /** A report id or an event id. */
  type Id = nat

  datatype LedgerKey = LedgerKey(project: string, key: string)
  datatype LedgerRow = LedgerRow(hash: Text, report: Id, expiresAt: int)
  datatype ReportRow = ReportRow(project: string, runId: Text, hash: Text, finished: bool, completedAt: Option<int>)
  datatype OutboxRow = OutboxRow(report: Id, settledAt: Option<int>)
  datatype Tables = Tables(ledger: map<LedgerKey, LedgerRow>, reports: map<Id, ReportRow>, outbox: map<Id, OutboxRow>)

  datatype Report = Report(runId: Text, payload: Value)

  /** What the rest of the system answers during one ingest: the validators, the project and
      quota lookups, the two random ids and the clock. */
  datatype Answers = Answers(valid: bool, project: bool, quota: bool, report: Id, event: Id, now: int)

  datatype Outcome =
    | Accepted(report: Id)
    | Duplicate(report: Id)
    | Conflict
    | Invalid
    | Unavailable
    | OverQuota
    | UniqueViolation

  const DAY := 86_400_000
  const IDEMPOTENCY_DAYS := 7
  const OUTBOX_DAYS := 30

  const SCHEMA_VERSION: Text := [115, 99, 104, 101, 109, 97, 86, 101, 114, 115, 105, 111, 110]
  const RUN_ID: Text := [114, 117, 110, 73, 100]
  const PAYLOAD: Text := [112, 97, 121, 108, 111, 97, 100]

  /** The object whose canonical text is hashed. */
  function Body(r: Report): Value {
    CanonicalJson.Obj([
      CanonicalJson.Member(SCHEMA_VERSION, CanonicalJson.Num([49])),
      CanonicalJson.Member(RUN_ID, CanonicalJson.Str(r.runId)),
      CanonicalJson.Member(PAYLOAD, r.payload)])
  }

  /** SHA-256 of the canonical text, taken as injective: the text itself. */
  function RequestHash(r: Report): Text { CanonicalJson.Print(Body(r)) }

  // ---------------------------------------------------------------- the two transactions

  /** `unique (project_id, run_id, payload_sha256)` */
  predicate Taken(reports: map<Id, ReportRow>, project: string, runId: Text, hash: Text) {
    exists id :: id in reports && reports[id].project == project && reports[id].runId == runId && reports[id].hash == hash
  }

  function Accept(t: Tables, k: LedgerKey, r: Report, a: Answers): (Tables, Outcome) {
    if !a.valid then (t, Invalid)
    else
      var hash := RequestHash(r);
      if k in t.ledger then (t, if t.ledger[k].hash == hash then Duplicate(t.ledger[k].report) else Conflict)
      else if !a.project then (t, Unavailable)
      else if !a.quota then (t, OverQuota)
      else if a.report in t.reports || a.event in t.outbox || Taken(t.reports, k.project, r.runId, hash) then (t, UniqueViolation)
      else
        (Tables(
          t.ledger[k := LedgerRow(hash, a.report, a.now + IDEMPOTENCY_DAYS * DAY)],
          t.reports[a.report := ReportRow(k.project, r.runId, hash, false, None)],
          t.outbox[a.event := OutboxRow(a.report, None)]), Accepted(a.report))
  }

  function KeepLedger(ledger: map<LedgerKey, LedgerRow>, now: int): map<LedgerKey, LedgerRow> {
    map k | k in ledger && ledger[k].expiresAt >= now :: ledger[k]
  }

  predicate Referenced(ledger: map<LedgerKey, LedgerRow>, id: Id) { exists k :: k in ledger && ledger[k].report == id }

  predicate Expired(at: Option<int>, now: int, days: nat) { at.Some? && at.value < now - days * DAY }

  function KeepReports(reports: map<Id, ReportRow>, ledger: map<LedgerKey, LedgerRow>, now: int, days: nat): map<Id, ReportRow> {
    map id | id in reports && !(reports[id].finished && Expired(reports[id].completedAt, now, days) && !Referenced(ledger, id)) :: reports[id]
  }

  /** Deleting a report deletes its outbox events. */
  function Cascade(outbox: map<Id, OutboxRow>, reports: map<Id, ReportRow>): map<Id, OutboxRow> {
    map e | e in outbox && outbox[e].report in reports :: outbox[e]
  }

  function KeepOutbox(outbox: map<Id, OutboxRow>, now: int): map<Id, OutboxRow> {
    map e | e in outbox && !Expired(outbox[e].settledAt, now, OUTBOX_DAYS) :: outbox[e]
  }

  /** Expired ledger rows go first, so that they no longer keep their reports alive. */
  function Cleanup(t: Tables, now: int, days: nat): Tables {
    var ledger := KeepLedger(t.ledger, now);
    var reports := KeepReports(t.reports, ledger, now, days);
    Tables(ledger, reports, KeepOutbox(Cascade(t.outbox, reports), now))
  }

  // ---------------------------------------------------------------- runs

  /** `emitted` lists the reports for which an outbox event was committed, in order; `swept`
      those whose event was deleted by cleanup once settled. */
  datatype Sys = Sys(tables: Tables, emitted: seq<Id>, swept: set<Id>)

  const EMPTY := Sys(Tables(map[], map[], map[]), [], {})

  datatype Event =
    | Ingest(k: LedgerKey, r: Report, a: Answers)
    | Clean(now: int, days: nat)
    | MoveReport(id: Id, finished: bool, completedAt: Option<int>)
    | SettleEvent(e: Id, settledAt: Option<int>)

  function OutcomeOf(s: Sys, e: Event): Outcome
    requires e.Ingest?
  {
    Accept(s.tables, e.k, e.r, e.a).1
  }

  /** Report ids are random: one that was ever used does not come up again. */
  function Apply(s: Sys, e: Event): Sys {
    match e
    case Ingest(k, r, a) =>
      var (t, outcome) := Accept(s.tables, k, r, a);
      if outcome.Accepted? && a.report !in s.emitted then Sys(t, s.emitted + [a.report], s.swept) else s
    case Clean(now, days) =>
      var t := Cleanup(s.tables, now, days);
      var out := s.tables.outbox;
      s.(tables := t, swept := s.swept + set x | x in out && Expired(out[x].settledAt, now, OUTBOX_DAYS) :: out[x].report)
    case MoveReport(id, finished, completedAt) =>
      if id in s.tables.reports
      then s.(tables := s.tables.(reports := s.tables.reports[id := s.tables.reports[id].(finished := finished, completedAt := completedAt)]))
      else s
    case SettleEvent(x, settledAt) =>
      if x in s.tables.outbox
      then s.(tables := s.tables.(outbox := s.tables.outbox[x := s.tables.outbox[x].(settledAt := settledAt)]))
      else s
  }

  function RunFrom(s: Sys, es: seq<Event>): Sys {
    if es == [] then s else Apply(RunFrom(s, es[..|es| - 1]), es[|es| - 1])
  }

  // ---------------------------------------------------------------- invariant

  /** Every ledger row names an existing report with its own project and hash, no two rows
      the same one. */
  ghost predicate LedgerOk(t: Tables) {
    && (forall k <- t.ledger ::
      && t.ledger[k].report in t.reports
      && t.reports[t.ledger[k].report].project == k.project
      && t.reports[t.ledger[k].report].hash == t.ledger[k].hash)
    && (forall k <- t.ledger, l <- t.ledger :: t.ledger[k].report == t.ledger[l].report ==> k == l)
  }

  ghost predicate ReportsUnique(t: Tables) {
    forall i <- t.reports, j <- t.reports ::
      t.reports[i].project == t.reports[j].project && t.reports[i].runId == t.reports[j].runId && t.reports[i].hash == t.reports[j].hash ==> i == j
  }

  ghost predicate HasEvent(t: Tables, id: Id) { exists e :: e in t.outbox && t.outbox[e].report == id }

  /** One event was ever committed for each report, and unless cleanup swept it after it
      settled it is still there. */
  ghost predicate EventsOk(s: Sys) {
    && (forall i, j :: 0 <= i < j < |s.emitted| ==> s.emitted[i] != s.emitted[j])
    && (forall id <- s.tables.reports :: id in s.emitted && (HasEvent(s.tables, id) || id in s.swept))
    && (forall e <- s.tables.outbox :: s.tables.outbox[e].report in s.tables.reports)
    && (forall e <- s.tables.outbox, f <- s.tables.outbox :: s.tables.outbox[e].report == s.tables.outbox[f].report ==> e == f)
  }

  ghost predicate Inv(s: Sys) { LedgerOk(s.tables) && ReportsUnique(s.tables) && EventsOk(s) }

  lemma IngestInv(s: Sys, e: Event)
    requires Inv(s) && e.Ingest?
    ensures Inv(Apply(s, e))
  {
    hide RequestHash;
    if Apply(s, e) != s {
      IngestLedger(s, e) by { hide EventsOk; }
      IngestUnique(s, e) by { hide EventsOk, LedgerOk; }
      IngestEvents(s, e) by { hide ReportsUnique, LedgerOk; }
    }
  }

  lemma IngestLedger(s: Sys, e: Event)
    requires LedgerOk(s.tables) && e.Ingest? && Apply(s, e) != s
    ensures LedgerOk(Apply(s, e).tables)
  {
    hide RequestHash, Taken;
  }

  lemma IngestUnique(s: Sys, e: Event)
    requires ReportsUnique(s.tables) && e.Ingest? && Apply(s, e) != s
    ensures ReportsUnique(Apply(s, e).tables)
  {
    hide RequestHash;
  }

  lemma IngestEvents(s: Sys, e: Event)
    requires EventsOk(s) && e.Ingest? && Apply(s, e) != s
    ensures EventsOk(Apply(s, e))
  {
    hide RequestHash, Taken;
    var s' := Apply(s, e);
    assert s'.tables.outbox[e.a.event].report == e.a.report;
    forall id | HasEvent(s.tables, id) ensures HasEvent(s'.tables, id) {
      var x :| x in s.tables.outbox && s.tables.outbox[x].report == id;
      assert s'.tables.outbox[x].report == id;
    }
    hide HasEvent;
  }

  lemma CleanInv(s: Sys, e: Event)
    requires Inv(s) && e.Clean?
    ensures Inv(Apply(s, e))
  {
    var s' := Apply(s, e);
    var t, t' := s.tables, s'.tables;
    forall k | k in t'.ledger ensures t'.ledger[k].report in t'.reports { assert Referenced(t'.ledger, t'.ledger[k].report); }
    forall id | id in t'.reports ensures HasEvent(t', id) || id in s'.swept {
      if HasEvent(t, id) {
        var x :| x in t.outbox && t.outbox[x].report == id;
        assert x in t'.outbox || Expired(t.outbox[x].settledAt, e.now, OUTBOX_DAYS);
      }
    }
  }

  lemma MoveInv(s: Sys, e: Event)
    requires Inv(s) && (e.MoveReport? || e.SettleEvent?)
    ensures Inv(Apply(s, e))
  {
    hide Inv, Accept, Cleanup;
    var s' := Apply(s, e);
    assert s'.tables.ledger == s.tables.ledger && s'.tables.reports.Keys == s.tables.reports.Keys && s'.tables.outbox.Keys == s.tables.outbox.Keys;
    SameRows(s, s');
  }

  /** Only marks changed: neither who names whom nor which request a report holds. */
  lemma SameRows(s: Sys, s': Sys)
    requires Inv(s) && s'.emitted == s.emitted && s'.swept == s.swept && s'.tables.ledger == s.tables.ledger
    requires s'.tables.reports.Keys == s.tables.reports.Keys && s'.tables.outbox.Keys == s.tables.outbox.Keys
    requires forall id <- s.tables.reports :: SameReport(s.tables.reports[id], s'.tables.reports[id])
    requires forall x <- s.tables.outbox :: s'.tables.outbox[x].report == s.tables.outbox[x].report
    ensures Inv(s')
  {
    assert LedgerOk(s'.tables) by { hide EventsOk, ReportsUnique; }
    assert ReportsUnique(s'.tables) by { hide EventsOk, LedgerOk; }
    assert EventsOk(s') by {
      hide LedgerOk, ReportsUnique;
      forall id | HasEvent(s.tables, id) ensures HasEvent(s'.tables, id) {
        var x :| x in s.tables.outbox && s.tables.outbox[x].report == id;
        assert s'.tables.outbox[x].report == id;
      }
    }
  }

  predicate SameReport(a: ReportRow, b: ReportRow) { b.project == a.project && b.runId == a.runId && b.hash == a.hash }

  lemma StepInv(s: Sys, e: Event)
    requires Inv(s)
    ensures Inv(Apply(s, e))
  {
    hide Inv, Apply;
    match e
    case Ingest(_, _, _) => IngestInv(s, e);
    case Clean(_, _) => CleanInv(s, e);
    case _ => MoveInv(s, e);
  }

  lemma {:induction false} RunInv(es: seq<Event>)
    ensures Inv(RunFrom(EMPTY, es))
  {
    hide Apply;
    if es != [] {
      RunInv(es[..|es| - 1]);
      hide Inv;
      StepInv(RunFrom(EMPTY, es[..|es| - 1]), es[|es| - 1]);
    }
  }

  // ---------------------------------------------------------------- main results

  /** In every reachable state a ledger row names an existing report of its project with its
      request hash, and no other row names that report. */
  lemma {:induction false} LedgerNamesReports(es: seq<Event>, k: LedgerKey)
    requires k in RunFrom(EMPTY, es).tables.ledger
    ensures var t := RunFrom(EMPTY, es).tables;
      var row := t.ledger[k];
      && row.report in t.reports && t.reports[row.report].project == k.project && t.reports[row.report].hash == row.hash
      && forall l <- t.ledger :: t.ledger[l].report == row.report ==> l == k
  {
    hide RunFrom, ReportsUnique, EventsOk;
    RunInv(es);
  }

  function Occurrences(ids: seq<Id>, id: Id): nat {
    if ids == [] then 0 else Occurrences(ids[..|ids| - 1], id) + if ids[|ids| - 1] == id then 1 else 0
  }

  lemma {:induction false} DistinctOccurOnce(ids: seq<Id>, id: Id)
    requires forall i, j :: 0 <= i < j < |ids| ==> ids[i] != ids[j]
    ensures Occurrences(ids, id) == if id in ids then 1 else 0
  {
    if ids != [] {
      DistinctOccurOnce(ids[..|ids| - 1], id);
      assert ids == ids[..|ids| - 1] + [ids[|ids| - 1]];
    }
  }

  lemma OneEventPerReport(es: seq<Event>, id: Id)
    requires id in RunFrom(EMPTY, es).tables.reports
    ensures var s := RunFrom(EMPTY, es); Occurrences(s.emitted, id) == 1 && (HasEvent(s.tables, id) || id in s.swept)
  {
    hide RunFrom, ReportsUnique, LedgerOk, HasEvent;
    RunInv(es);
    DistinctOccurOnce(RunFrom(EMPTY, es).emitted, id);
  }

  /** The same JSON up to key order. */
  ghost predicate SameRequest(r: Report, q: Report) {
    r.runId == q.runId && CanonicalJson.Meaning(r.payload) == CanonicalJson.Meaning(q.payload)
  }

  /** Two reports have the same hash exactly when they are the same JSON up to key order. */
  lemma SameHashIffSameRequest(r: Report, q: Report)
    requires CanonicalJson.Proper(r.payload) && CanonicalJson.IsData(r.payload)
    requires CanonicalJson.Proper(q.payload) && CanonicalJson.IsData(q.payload)
    ensures RequestHash(r) == RequestHash(q) <==> SameRequest(r, q)
  {
    hide CanonicalJson.Meaning, Body, CanonicalJson.Proper, CanonicalJson.IsData, CanonicalJson.Print;
    BodyShape(r);
    BodyShape(q);
    CanonicalJson.SameTextIffSameMeaning(Body(r), Body(q));
    SameFields(r, q);
  }

  ghost function BodyMeaning(r: Report): CanonicalJson.Tree {
    CanonicalJson.TObj(map[
      SCHEMA_VERSION := CanonicalJson.TNum([49]), RUN_ID := CanonicalJson.TStr(r.runId), PAYLOAD := CanonicalJson.Meaning(r.payload)])
  }

  lemma SameFields(r: Report, q: Report)
    ensures BodyMeaning(r) == BodyMeaning(q) <==> r.runId == q.runId && CanonicalJson.Meaning(r.payload) == CanonicalJson.Meaning(q.payload)
  {
    hide CanonicalJson.Meaning;
    assert SCHEMA_VERSION[0] == 115 && RUN_ID[0] == 114 && PAYLOAD[0] == 112;
    assert BodyMeaning(r).fields[RUN_ID] == CanonicalJson.TStr(r.runId) && BodyMeaning(q).fields[RUN_ID] == CanonicalJson.TStr(q.runId);
    assert BodyMeaning(r).fields[PAYLOAD] == CanonicalJson.Meaning(r.payload) && BodyMeaning(q).fields[PAYLOAD] == CanonicalJson.Meaning(q.payload);
  }

  lemma BodyKeys(r: Report)
    ensures var ms := Body(r).members;
      && |ms| == 3 && CanonicalJson.DistinctKeys(ms)
      && CanonicalJson.Keys(ms) == [SCHEMA_VERSION, RUN_ID, PAYLOAD]
      && CanonicalJson.IndexOf(ms, SCHEMA_VERSION) == 0 && CanonicalJson.IndexOf(ms, RUN_ID) == 1 && CanonicalJson.IndexOf(ms, PAYLOAD) == 2
  {
    hide CanonicalJson.Keys, CanonicalJson.IndexOf;
    var ms := Body(r).members;
    assert SCHEMA_VERSION[0] == 115 && RUN_ID[0] == 114 && PAYLOAD[0] == 112;
    CanonicalJson.KeyAt(ms, 0);
    CanonicalJson.KeyAt(ms, 1);
    CanonicalJson.KeyAt(ms, 2);
  }

  lemma BodyShape(r: Report)
    ensures CanonicalJson.Proper(Body(r)) == CanonicalJson.Proper(r.payload) && CanonicalJson.IsData(Body(r)) == CanonicalJson.IsData(r.payload)
    ensures CanonicalJson.Meaning(Body(r)) == BodyMeaning(r)
  {
    BodyKeys(r);
    hide CanonicalJson.Keys, CanonicalJson.IndexOf, CanonicalJson.DistinctKeys;
    var ms := Body(r).members;
    assert ms[0] in ms && ms[1] in ms && ms[2] in ms;
    assert CanonicalJson.Meaning(ms[0].value) == CanonicalJson.TNum([49]) && CanonicalJson.Meaning(ms[1].value) == CanonicalJson.TStr(r.runId);
    assert CanonicalJson.Meaning(Body(r)).fields == BodyMeaning(r).fields;
  }

  /** Until a cleanup finds it expired, a ledger row stays as it was written. */
  lemma {:induction false} RowStays(s: Sys, es: seq<Event>, k: LedgerKey)
    requires k in s.tables.ledger
    requires forall e <- es :: e.Clean? ==> e.now <= s.tables.ledger[k].expiresAt
    ensures k in RunFrom(s, es).tables.ledger && RunFrom(s, es).tables.ledger[k] == s.tables.ledger[k]
  {
    hide RequestHash;
    if es != [] { RowStays(s, es[..|es| - 1], k); }
  }

  /** An ingest that is not accepted leaves every table as it was. */
  lemma RefusalChangesNothing(s: Sys, e: Event)
    requires e.Ingest? && !OutcomeOf(s, e).Accepted?
    ensures Apply(s, e) == s
  {}

  /** A key once accepted answers, for as long as no cleanup finds it expired and whatever
      else happens, `duplicate` with the original report exactly when the request is the
      same JSON up to key order, and a conflict otherwise. */
  lemma RetriesAreIdempotent(s: Sys, first: Event, es: seq<Event>, again: Event)
    requires first.Ingest? && again.Ingest? && again.k == first.k && again.a.valid
    requires OutcomeOf(s, first).Accepted? && first.a.report !in s.emitted
    requires forall e <- es :: e.Clean? ==> e.now <= first.a.now + IDEMPOTENCY_DAYS * DAY
    requires CanonicalJson.Proper(first.r.payload) && CanonicalJson.IsData(first.r.payload)
    requires CanonicalJson.Proper(again.r.payload) && CanonicalJson.IsData(again.r.payload)
    ensures var later := RunFrom(Apply(s, first), es);
      && OutcomeOf(later, again) == (if SameRequest(again.r, first.r) then Duplicate(first.a.report) else Conflict)
      && Apply(later, again) == later
  {
    hide RequestHash, RunFrom;
    RowStays(Apply(s, first), es, first.k);
    SameHashIffSameRequest(again.r, first.r);
    hide Apply;
    RefusalChangesNothing(RunFrom(Apply(s, first), es), again);
  }

  ghost predicate AllData(es: seq<Event>) {
    forall e <- es :: e.Ingest? ==> CanonicalJson.Proper(e.r.payload) && CanonicalJson.IsData(e.r.payload)
  }

  /** Step n of the run accepted this report for the project. */
  ghost predicate AcceptedAt(es: seq<Event>, n: nat, project: string, id: Id) {
    && n < |es| && es[n].Ingest? && es[n].k.project == project && es[n].a.report == id
    && OutcomeOf(RunFrom(EMPTY, es[..n]), es[n]) == Accepted(id)
  }

  ghost predicate StoredFrom(es: seq<Event>, n: nat, id: Id, row: ReportRow) {
    AcceptedAt(es, n, row.project, id) && row.runId == es[n].r.runId && row.hash == RequestHash(es[n].r)
  }

  /** A step leaves a stored report's project, run id and hash alone, and only an accepted
      ingest stores a new one. */
  lemma ReportRowOrigin(s: Sys, e: Event, id: Id)
    requires id in Apply(s, e).tables.reports
    ensures var row' := Apply(s, e).tables.reports[id];
      if id in s.tables.reports then
        var row := s.tables.reports[id]; row'.project == row.project && row'.runId == row.runId && row'.hash == row.hash
      else
        && e.Ingest? && e.a.report == id && OutcomeOf(s, e) == Accepted(id)
        && row'.project == e.k.project && row'.runId == e.r.runId && row'.hash == RequestHash(e.r)
  {
    hide RequestHash, Taken, Referenced, Expired;
  }

  /** Every stored report was accepted by some step of the run and holds its run id and hash. */
  lemma {:induction false} StoredReportsWereAccepted(es: seq<Event>, id: Id)
    requires id in RunFrom(EMPTY, es).tables.reports
    ensures exists n: nat :: StoredFrom(es, n, id, RunFrom(EMPTY, es).tables.reports[id])
  {
    hide RequestHash, Apply, OutcomeOf;
    assert es != [];
    var before, e := es[..|es| - 1], es[|es| - 1];
    var t, t' := RunFrom(EMPTY, before).tables, RunFrom(EMPTY, es).tables;
    ReportRowOrigin(RunFrom(EMPTY, before), e, id);
    if id in t.reports {
      StoredReportsWereAccepted(before, id);
      var n: nat :| StoredFrom(before, n, id, t.reports[id]);
      assert before[..n] == es[..n];
      assert StoredFrom(es, n, id, t'.reports[id]);
    } else {
      assert StoredFrom(es, |es| - 1, id, t'.reports[id]);
    }
  }

  /** Step n accepted the same request for the project, and that report is still stored. */
  ghost predicate StillStored(es: seq<Event>, n: nat, k: LedgerKey, r: Report) {
    n < |es| && es[n].Ingest? && AcceptedAt(es, n, k.project, es[n].a.report) && SameRequest(es[n].r, r)
    && es[n].a.report in RunFrom(EMPTY, es).tables.reports
  }

  /** After any run, with the environment willing and fresh ids, an ingest is accepted exactly
      when its key is not in the ledger and the project stores no report that an earlier step
      accepted for the same JSON. In particular the same report is refused under another key,
      and under its own once its ledger row is gone but the report is not. */
  lemma AcceptedExactlyWhen(es: seq<Event>, e: Event)
    requires e.Ingest? && AllData(es + [e]) && DistinctIds(es)
    requires e.a.valid && e.a.project && e.a.quota
    requires var t := RunFrom(EMPTY, es).tables; e.a.report !in t.reports && e.a.event !in t.outbox
    ensures OutcomeOf(RunFrom(EMPTY, es), e).Accepted? <==>
      e.k !in RunFrom(EMPTY, es).tables.ledger && !exists n: nat :: StillStored(es, n, e.k, e.r)
  {
    var t := RunFrom(EMPTY, es).tables;
    if Taken(t.reports, e.k.project, e.r.runId, RequestHash(e.r)) { TakenMeansStored(es, e); }
    if n: nat :| StillStored(es, n, e.k, e.r) { StoredMeansTaken(es, e, n); }
    hide RequestHash, RunFrom, Taken, StillStored;
  }

  lemma TakenMeansStored(es: seq<Event>, e: Event)
    requires e.Ingest? && AllData(es + [e]) && Taken(RunFrom(EMPTY, es).tables.reports, e.k.project, e.r.runId, RequestHash(e.r))
    ensures exists n: nat :: StillStored(es, n, e.k, e.r)
  {
    hide RequestHash, RunFrom, CanonicalJson.Meaning;
    var rows := RunFrom(EMPTY, es).tables.reports;
    var id :| id in rows && rows[id].project == e.k.project && rows[id].runId == e.r.runId && rows[id].hash == RequestHash(e.r);
    StoredReportsWereAccepted(es, id);
    var n: nat :| StoredFrom(es, n, id, rows[id]);
    assert (es + [e])[|es|] == e && (es + [e])[n] == es[n];
    SameHashIffSameRequest(es[n].r, e.r);
    assert StillStored(es, n, e.k, e.r);
  }

  lemma StoredMeansTaken(es: seq<Event>, e: Event, n: nat)
    requires e.Ingest? && AllData(es + [e]) && DistinctIds(es) && StillStored(es, n, e.k, e.r)
    ensures Taken(RunFrom(EMPTY, es).tables.reports, e.k.project, e.r.runId, RequestHash(e.r))
  {
    hide RequestHash, RunFrom, CanonicalJson.Meaning;
    var rows, id := RunFrom(EMPTY, es).tables.reports, es[n].a.report;
    StoredReportsWereAccepted(es, id);
    var m: nat :| StoredFrom(es, m, id, rows[id]);
    assert m == n;
    assert (es + [e])[|es|] == e && (es + [e])[n] == es[n];
    SameHashIffSameRequest(es[n].r, e.r);
  }

  /** Report ids are random: no two ingests draw the same one. */
  ghost predicate DistinctIds(es: seq<Event>) {
    forall i, j :: 0 <= i < j < |es| && es[i].Ingest? && es[j].Ingest? ==> es[i].a.report != es[j].a.report
  }

  /** Once its ledger row is gone, a report that is still stored, finished or not, cannot be
      sent again by whatever cleanups got there: the table's own uniqueness refuses it, and it
      is neither accepted nor answered as a duplicate. */
  lemma LateRetryIsRefused(es: seq<Event>, n: nat, again: Event)
    requires again.Ingest? && AllData(es + [again]) && DistinctIds(es) && again.a.valid && again.a.project && again.a.quota
    requires StillStored(es, n, again.k, again.r) && again.k !in RunFrom(EMPTY, es).tables.ledger
    ensures OutcomeOf(RunFrom(EMPTY, es), again).UniqueViolation? && Apply(RunFrom(EMPTY, es), again) == RunFrom(EMPTY, es)
  {
    hide RequestHash, RunFrom;
    StoredMeansTaken(es, again, n);
    hide Taken;
    RefusalChangesNothing(RunFrom(EMPTY, es), again);
  }

  /** A report accepted, then finished or not, then cleaned up a moment after its ledger row
      expired, well inside its own retention. */
  function LateRun(k: LedgerKey, r: Report, finished: bool): seq<Event> {
    [Ingest(k, r, Answers(true, true, true, 1, 2, 0)),
     MoveReport(1, finished, if finished then Some(0) else None),
     Clean(IDEMPOTENCY_DAYS * DAY + 1, 30)]
  }

  /** So a retry after the window really meets this case, for any key and report. */
  lemma LateRetryHappens(k: LedgerKey, r: Report, finished: bool)
    ensures var es := LateRun(k, r, finished); StillStored(es, 0, k, r) && k !in RunFrom(EMPTY, es).tables.ledger
  {
    hide RequestHash, CanonicalJson.Meaning;
    var es := LateRun(k, r, finished);
    var hash, done := RequestHash(r), if finished then Some(0) else None;
    var s1 := Sys(Tables(map[k := LedgerRow(hash, 1, IDEMPOTENCY_DAYS * DAY)], map[1 := ReportRow(k.project, r.runId, hash, false, None)],
                         map[2 := OutboxRow(1, None)]), [1], {});
    assert OutcomeOf(EMPTY, es[0]) == Accepted(1) && Apply(EMPTY, es[0]) == s1;
    var s2 := s1.(tables := s1.tables.(reports := map[1 := ReportRow(k.project, r.runId, hash, finished, done)]));
    assert Apply(s1, es[1]) == s2;
    var s3 := Apply(s2, es[2]);
    assert k !in s3.tables.ledger && 1 in s3.tables.reports;
    hide Apply, OutcomeOf;
    assert es[..0] == [];
    ThreeSteps(EMPTY, es);
  }

  lemma ThreeSteps(s: Sys, es: seq<Event>)
    requires |es| == 3
    ensures RunFrom(s, es) == Apply(Apply(Apply(s, es[0]), es[1]), es[2])
  {
    hide Apply;
    var two, one := es[..2], es[..1];
    assert two[..1] == one && one[..0] == [];
    assert RunFrom(s, one) == Apply(RunFrom(s, []), es[0]);
    assert RunFrom(s, two) == Apply(RunFrom(s, one), es[1]);
  }
}
