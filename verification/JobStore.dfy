/** The dispatcher's and the worker's statements as the code issues them, on tables that
    change in place. */
module JobStore {
  import opened Options
  import opened ReportJobs
  import JobFinality
  import opened JobAnswers

  /** One event of a dispatched batch: the attempt it was leased for, whether publishing it
      worked, and when it would be tried again. */
  datatype Publish = Publish(event: EventId, attempts: nat, ok: bool, availableAt: int)

  /** What the dispatcher writes after one publish. */
  function Settled(t: Tables, p: Publish, max: nat): Tables {
    if p.ok then MarkSent(t, p.event)
    else
      var t1 := MarkUnsent(t, p.event, p.attempts, p.availableAt, max);
      if p.attempts >= max && p.event in t.outbox then AbandonReport(t1, t.outbox[p.event].report) else t1
  }

  function SettledAll(t: Tables, ps: seq<Publish>, max: nat): Tables {
    if ps == [] then t else Settled(SettledAll(t, ps[..|ps| - 1], max), ps[|ps| - 1], max)
  }

  /** The loop's writes do not touch the worker's receipts, and leave every event for the
      same report with the same number of attempts. */
  lemma {:induction false} SettledKeepsReceipts(t: Tables, ps: seq<Publish>, max: nat)
    ensures var t' := SettledAll(t, ps, max);
      && t'.receipts == t.receipts && t'.outbox.Keys == t.outbox.Keys
      && forall e <- t.outbox :: t'.outbox[e].report == t.outbox[e].report && t'.outbox[e].attempts == t.outbox[e].attempts
  {
    if ps != [] { SettledKeepsReceipts(t, ps[..|ps| - 1], max); }
  }

  /** The events in order of creation, each once. */
  ghost predicate Lists(order: seq<EventId>, outbox: map<EventId, OutboxRow>) {
    && (forall e :: e in order <==> e in outbox)
    && forall i, j :: 0 <= i < j < |order| ==> order[i] != order[j]
  }

  function BuriedRow(row: OutboxRow, max: nat): OutboxRow {
    if IsOver(row, max) then row.(status := Buried, leaseUntil := None) else row
  }

  /** The rows in `done` are buried where exhausted, the others as they were. */
  ghost predicate RowsBuried(before: map<EventId, OutboxRow>, outbox: map<EventId, OutboxRow>, done: seq<EventId>, max: nat) {
    && outbox.Keys == before.Keys
    && forall e :: e in before ==> outbox[e] == if e in done then BuriedRow(before[e], max) else before[e]
  }

  /** The reports of the exhausted rows in `done`. */
  ghost predicate Collected(before: map<EventId, OutboxRow>, exhausted: set<ReportId>, done: seq<EventId>, max: nat) {
    forall r :: r in exhausted <==> exists e :: e in done && e in before && IsOver(before[e], max) && before[e].report == r
  }

  lemma NextRow(order: seq<EventId>, outbox: map<EventId, OutboxRow>, i: nat)
    requires Lists(order, outbox) && i < |order|
    ensures order[..i + 1] == order[..i] + [order[i]] && order[i] in outbox && order[i] !in order[..i]
  {
  }

  lemma NothingBuried(t: Tables, max: nat)
    ensures RowsBuried(t.outbox, t.outbox, [], max) && Collected(t.outbox, {}, [], max)
  {
  }

  lemma BuryOne(before: map<EventId, OutboxRow>, outbox: map<EventId, OutboxRow>, done: seq<EventId>, e: EventId, max: nat)
    requires RowsBuried(before, outbox, done, max) && e in before && e !in done
    ensures e in outbox && outbox[e] == before[e]
    ensures RowsBuried(before, outbox[e := BuriedRow(outbox[e], max)], done + [e], max)
    ensures !IsOver(before[e], max) ==> RowsBuried(before, outbox, done + [e], max)
  {
    hide IsOver;
    var next := outbox[e := BuriedRow(outbox[e], max)];
    assert next.Keys == before.Keys;
    forall f | f in before ensures next[f] == if f in done + [e] then BuriedRow(before[f], max) else before[f] {
      assert f in done + [e] <==> f in done || f == e;
    }
    if !IsOver(before[e], max) { assert next == outbox; }
  }

  lemma CollectOne(before: map<EventId, OutboxRow>, exhausted: set<ReportId>, done: seq<EventId>, e: EventId, max: nat)
    requires Collected(before, exhausted, done, max) && e in before
    ensures Collected(before, exhausted + (if IsOver(before[e], max) then {before[e].report} else {}), done + [e], max)
    ensures !IsOver(before[e], max) ==> Collected(before, exhausted, done + [e], max)
  {
    hide IsOver;
    forall f ensures f in done + [e] <==> f in done || f == e {}
  }

  lemma SameOver(max: nat)
    ensures forall row: OutboxRow :: Exhausted(row, max) <==> IsOver(row, max)
  {
  }

  lemma SameDue(now: int, max: nat)
    ensures forall row: OutboxRow :: Eligible(row, now, max) <==> IsDue(row, now, max)
  {
  }

  lemma BuriedAll(t: Tables, order: seq<EventId>, max: nat, t': Tables, exhausted: set<ReportId>)
    requires Lists(order, t.outbox) && t'.receipts == t.receipts
    requires RowsBuried(t.outbox, t'.outbox, order, max) && Collected(t.outbox, exhausted, order, max)
    requires t'.reports == map r | r in t.reports :: if t.reports[r] == Accepted && r in exhausted then Abandoned else t.reports[r]
    ensures t' == BuryExhausted(t, max)
  {
    SameOver(max);
    hide IsOver, Exhausted;
    var b := BuryExhausted(t, max);
    assert t'.outbox == b.outbox;
    forall r | r in t.reports ensures t'.reports[r] == b.reports[r] {
      if r in exhausted {
        var e :| e in order && e in t.outbox && IsOver(t.outbox[e], max) && t.outbox[e].report == r;
      }
    }
    assert t'.reports == b.reports;
  }

  predicate Free(e: EventId, locked: set<EventId>, outbox: map<EventId, OutboxRow>, now: int, max: nat) {
    e !in locked && e in outbox && IsDue(outbox[e], now, max)
  }

  /** `taken` are the first eligible and unlocked events, and all of them unless the limit
      was reached. */
  ghost predicate OldestFirst(
    order: seq<EventId>, locked: set<EventId>, outbox: map<EventId, OutboxRow>, now: int, max: nat, limit: nat, taken: seq<EventId>)
  {
    && |taken| <= limit
    && (forall e :: e in taken ==> e in order && Free(e, locked, outbox, now, max))
    && (forall i, j :: 0 <= i < j < |order| && order[j] in taken && Free(order[i], locked, outbox, now, max) ==> order[i] in taken)
    && (|taken| < limit ==> forall i :: 0 <= i < |order| && Free(order[i], locked, outbox, now, max) ==> order[i] in taken)
  }

  ghost predicate LeasedRows(before: map<EventId, OutboxRow>, outbox: map<EventId, OutboxRow>, taken: seq<EventId>, now: int) {
    && outbox.Keys == before.Keys
    && forall e :: e in before ==> outbox[e] == if e in taken then LeaseRow(before[e], now) else before[e]
  }

  lemma NothingTaken(locked: set<EventId>, outbox: map<EventId, OutboxRow>, now: int, max: nat, limit: nat)
    ensures OldestFirst([], locked, outbox, now, max, limit, []) && LeasedRows(outbox, outbox, [], now)
  {
  }

  lemma LeaseOne(
    before: map<EventId, OutboxRow>, outbox: map<EventId, OutboxRow>, done: seq<EventId>, e: EventId, locked: set<EventId>, now: int,
    max: nat, limit: nat, taken: seq<EventId>)
    requires LeasedRows(before, outbox, taken, now) && OldestFirst(done, locked, before, now, max, limit, taken) && e in before && e !in done
    ensures e in outbox && outbox[e] == before[e] && LeasedRows(before, outbox[e := LeaseRow(outbox[e], now)], taken + [e], now)
  {
    hide IsDue;
    assert e !in taken;
    var next := outbox[e := LeaseRow(outbox[e], now)];
    assert next.Keys == before.Keys;
    forall f ensures f in taken + [e] <==> f in taken || f == e {}
  }

  lemma TakeOne(
    done: seq<EventId>, e: EventId, locked: set<EventId>, outbox: map<EventId, OutboxRow>, now: int, max: nat, limit: nat, taken: seq<EventId>)
    requires OldestFirst(done, locked, outbox, now, max, limit, taken) && |taken| < limit && Free(e, locked, outbox, now, max)
    ensures OldestFirst(done + [e], locked, outbox, now, max, limit, taken + [e])
  {
    hide Free;
    var order, more := done + [e], taken + [e];
    forall i | 0 <= i < |order| && Free(order[i], locked, outbox, now, max) ensures order[i] in more {
      if i < |done| { assert done[i] in taken; }
    }
  }

  lemma SkipOne(
    done: seq<EventId>, e: EventId, locked: set<EventId>, outbox: map<EventId, OutboxRow>, now: int, max: nat, limit: nat, taken: seq<EventId>)
    requires OldestFirst(done, locked, outbox, now, max, limit, taken) && e !in done && !(|taken| < limit && Free(e, locked, outbox, now, max))
    ensures OldestFirst(done + [e], locked, outbox, now, max, limit, taken)
  {
    hide Free;
    var order := done + [e];
    assert e !in taken;
    forall i, j | 0 <= i < j < |order| && order[j] in taken && Free(order[i], locked, outbox, now, max) ensures order[i] in taken {
      assert j < |done| ==> done[i] in taken;
    }
  }

  lemma LeasedAll(
    t: Tables, order: seq<EventId>, locked: set<EventId>, now: int, max: nat, limit: nat, taken: seq<EventId>, outbox: map<EventId, OutboxRow>)
    requires LeasedRows(t.outbox, outbox, taken, now) && OldestFirst(order, locked, t.outbox, now, max, limit, taken)
    ensures t.(outbox := outbox) == LeasePicked(t, (set e | e in taken), now, max)
  {
    SameDue(now, max);
    hide IsDue, Eligible;
    var picked := set e | e in taken;
    forall e | e in t.outbox ensures outbox[e] == LeasePicked(t, picked, now, max).outbox[e] {
      assert e in taken ==> Free(e, locked, t.outbox, now, max);
    }
    assert outbox == LeasePicked(t, picked, now, max).outbox;
  }

  /** The tables agree and the event has a receipt and this report. */
  ghost predicate Matched(t: Tables, e: EventId, r: ReportId) {
    TablesAgree(t) && e in t.receipts && t.outbox[e].report == r
  }

  class HostedTables {
    var outbox: map<EventId, OutboxRow>
    var receipts: map<EventId, Receipt>
    var reports: map<ReportId, ReportStatus>

    function Value(): Tables
      reads this
    {
      Tables(outbox, receipts, reports)
    }

    constructor ()
      ensures Value() == INITIAL.t
    {
      outbox, receipts, reports := map[], map[], map[];
    }

    /** The first statement pair: bury what has no attempts left, then abandon the reports
        that were still accepted. */
    method BuryRows(order: seq<EventId>, max: nat)
      requires Lists(order, outbox)
      modifies this
      ensures Value() == BuryExhausted(old(Value()), max)
    {
      hide Lists, RowsBuried, Collected, IsOver;
      ghost var t := Value();
      var exhausted: set<ReportId> := {};
      NothingBuried(t, max);
      for i := 0 to |order|
        invariant receipts == t.receipts && reports == t.reports
        invariant RowsBuried(t.outbox, outbox, order[..i], max) && Collected(t.outbox, exhausted, order[..i], max)
      {
        var e := order[i];
        NextRow(order, t.outbox, i);
        BuryOne(t.outbox, outbox, order[..i], e, max);
        CollectOne(t.outbox, exhausted, order[..i], e, max);
        if IsOver(outbox[e], max) {
          exhausted := exhausted + {outbox[e].report};
          outbox := outbox[e := outbox[e].(status := Buried, leaseUntil := None)];
        }
      }
      assert order[..|order|] == order;
      reports := map r | r in reports :: if reports[r] == Accepted && r in exhausted then Abandoned else reports[r];
      BuriedAll(t, order, max, Value(), exhausted);
    }

    /** The rest of the transaction: walk the rows in order of creation, skip locked ones and
        lease what is eligible, up to the limit. */
    method LeaseRows(order: seq<EventId>, locked: set<EventId>, now: int, max: nat, limit: nat) returns (taken: seq<EventId>)
      requires Lists(order, outbox)
      modifies this
      ensures OldestFirst(order, locked, old(outbox), now, max, limit, taken)
      ensures Value() == LeasePicked(old(Value()), (set e | e in taken), now, max)
    {
      hide Lists, OldestFirst, LeasedRows, IsDue;
      ghost var t := Value();
      taken := [];
      NothingTaken(locked, t.outbox, now, max, limit);
      for i := 0 to |order|
        invariant receipts == t.receipts && reports == t.reports
        invariant OldestFirst(order[..i], locked, t.outbox, now, max, limit, taken) && LeasedRows(t.outbox, outbox, taken, now)
      {
        var e := order[i];
        NextRow(order, t.outbox, i);
        LeaseOne(t.outbox, outbox, order[..i], e, locked, now, max, limit, taken);
        if |taken| < limit && e !in locked && IsDue(outbox[e], now, max) {
          TakeOne(order[..i], e, locked, t.outbox, now, max, limit, taken);
          outbox := outbox[e := LeaseRow(outbox[e], now)];
          taken := taken + [e];
        } else {
          SkipOne(order[..i], e, locked, t.outbox, now, max, limit, taken);
        }
      }
      assert order[..|order|] == order;
      LeasedAll(t, order, locked, now, max, limit, taken, outbox);
    }

    /** The dispatch transaction: at most `limit` events are leased, the oldest eligible ones
        that are not locked, each for one attempt more; one left waiting means that the
        batch is full. */
    method LeaseBatch(order: seq<EventId>, locked: set<EventId>, now: int, max: nat, limit: nat) returns (taken: seq<EventId>)
      requires Lists(order, outbox)
      modifies this
      ensures |taken| <= limit && OldestFirst(order, locked, BuryExhausted(old(Value()), max).outbox, now, max, limit, taken)
      ensures Value() == LeasePicked(BuryExhausted(old(Value()), max), (set e | e in taken), now, max)
    {
      BuryRows(order, max);
      assert outbox.Keys == old(outbox).Keys;
      taken := LeaseRows(order, locked, now, max, limit);
    }

    method SettleBatch(ps: seq<Publish>, max: nat)
      modifies this
      ensures Value() == SettledAll(old(Value()), ps, max)
    {
      for i := 0 to |ps|
        invariant Value() == SettledAll(old(Value()), ps[..i], max)
      {
        assert ps[..i + 1][..i] == ps[..i];
        var p := ps[i];
        if p.event in outbox {
          var row := outbox[p.event];
          if p.ok {
            outbox := outbox[p.event := row.(status := Dispatched, sent := true, leaseUntil := None)];
          } else if p.attempts >= max {
            outbox := outbox[p.event := row.(status := Buried, leaseUntil := None)];
            if row.report in reports && reports[row.report] == Accepted { reports := reports[row.report := Abandoned]; }
          } else {
            outbox := outbox[p.event := row.(status := Waiting, leaseUntil := None, availableAt := p.availableAt)];
          }
        }
      }
      assert ps[..|ps|] == ps;
    }

    method ClaimReport(e: EventId, r: ReportId, now: int, max: nat) returns (result: ClaimResult)
      modifies this
      ensures (Value(), result) == ClaimTx(old(Value()), e, r, now, max)
      ensures RightAnswer(old(Value()), e, r, now, max, result)
      ensures result == Mismatch || result == Duplicate || result == LeaseActive ==> Value() == old(Value())
    {
      ClaimAnswers(Value(), e, r, now, max);
      if e !in outbox || outbox[e].report != r { return Mismatch; }
      var claimable := e !in receipts
        || (((receipts[e].status == Processing && Past(receipts[e].leaseUntil, now)) || receipts[e].status == Failed) && receipts[e].attempts < max);
      if !claimable {
        var existing := receipts[e];
        if existing.status == Completed || existing.status == DeadLetter { return Duplicate; }
        if existing.status == Failed && existing.attempts >= max {
          receipts := receipts[e := existing.(status := DeadLetter)];
          if r in reports { reports := reports[r := Abandoned]; }
          return DeadLettered;
        }
        return LeaseActive;
      }
      receipts := receipts[e := Receipt(Processing, if e in receipts then receipts[e].attempts + 1 else 1, Some(now + WORKER_LEASE))];
      if r in reports && (reports[r] == Accepted || reports[r] == Abandoned) { reports := reports[r := InProgress]; }
      result := Claimed;
    }

    /** Completes report and receipt together, or nothing. Where the tables agree, that is
        exactly while the receipt is in processing; they still agree afterwards, and no
        settled receipt changes. */
    method CompleteReport(e: EventId, r: ReportId) returns (ok: bool)
      modifies this
      ensures ok == CompleteTx(old(Value()), e, r).Some?
      ensures Value() == if ok then CompleteTx(old(Value()), e, r).value else old(Value())
      ensures old(Matched(Value(), e, r)) ==>
        && ok == (old(JobOf(Value(), e)) == Some(Processing)) && TablesAgree(Value()) && FinalKept(old(Value()), Value())
        && JobOf(Value(), e) == if ok then Some(Completed) else old(JobOf(Value(), e))
    {
      ghost var t := Value();
      if Matched(t, e, r) { WriteAgrees(t, e, r, false); }
      if r !in reports || reports[r] != InProgress { return false; }
      reports := reports[r := Evaluated];
      if e in receipts { receipts := receipts[e := receipts[e].(status := Completed, leaseUntil := None)]; }
      ok := true;
    }

    /** Rewrites report and receipt without a condition. Where the tables agree they still do,
        with the receipt failed or dead-lettered; settled receipts survive exactly when this
        one was not settled or is rewritten to what it was. */
    method RecordFailure(e: EventId, r: ReportId, dead: bool)
      modifies this
      ensures Value() == FailTx(old(Value()), e, r, dead)
      ensures old(Matched(Value(), e, r)) ==>
        && TablesAgree(Value()) && JobOf(Value(), e) == Some(if dead then DeadLetter else Failed)
        && (FinalKept(old(Value()), Value()) <==> !Final(old(receipts)[e].status) || Value().receipts[e] == old(receipts)[e])
    {
      ghost var t := Value();
      if Matched(t, e, r) { WriteAgrees(t, e, r, dead); }
      if r in reports { reports := reports[r := if dead then Abandoned else Accepted]; }
      if e in receipts { receipts := receipts[e := receipts[e].(status := if dead then DeadLetter else Failed, leaseUntil := None)]; }
      if Matched(t, e, r) { JobFinality.OneReceipt(t, Value(), e, receipts[e]); }
    }
  }
}
