/** The ledger's state as the code holds it while one operation is under way: lists and
    tenant records changed in place. A failed operation leaves the stored state alone, so
    nothing is said of the draft then. */
module LedgerStore {
  import opened Options
  import opened ActionLedger

  method RelinkTenantChain(t: TenantId, surviving: seq<Entry>) returns (es: seq<Entry>)
    ensures Linked(es, t) && Contents(es) == Contents(surviving)
    ensures es == Relink(t, Contents(surviving))
  {
    var previous := Genesis(t);
    es := [];
    for i := 0 to |surviving|
      invariant |es| == i && previous == HeadOf(es, t)
      invariant es == Relink(t, Contents(surviving)[..i])
    {
      var e := MakeEntry(t, i + 1, surviving[i].content, previous);
      assert Contents(surviving)[..i + 1][..i] == Contents(surviving)[..i];
      es := es + [e];
      previous := e.hash;
    }
    assert Contents(surviving)[..|surviving|] == Contents(surviving);
    RelinkLinks(t, Contents(surviving));
  }

  /** Valid exactly when an untracked tenant or one whose count, links, hashes and head agree. */
  method VerifyTenantState(s: State, t: TenantId) returns (valid: bool)
    ensures valid <==> (FindTenant(s.tenants, t) < |s.tenants| ==> TenantOk(s.entries, s.tenants[FindTenant(s.tenants, t)]))
  {
    var i := FindTenant(s.tenants, t);
    if i == |s.tenants| { return true; }
    var es := Of(s.entries, t);
    OfElements(s.entries, t);
    if |es| != s.tenants[i].entryCount { return false; }
    var previous := Genesis(t);
    for k := 0 to |es|
      invariant previous == HeadOf(es[..k], t)
      invariant forall m :: 0 <= m < k ==> LinkOk(es, t, m)
    {
      var e := es[k];
      if e.sequence != k + 1 || e.previous != previous || e.hash != EntryHash(e.tenant, e.sequence, e.content, e.previous) {
        assert !LinkOk(es, t, k);
        return false;
      }
      previous := e.hash;
      assert es[..k + 1][k] == e;
    }
    assert es[..|es|] == es;
    valid := s.tenants[i].headHash == previous;
  }

  class Draft {
    var entries: seq<Entry>
    var tenants: seq<Tenant>

    function Value(): State
      reads this
    {
      State(entries, tenants)
    }

    constructor (s: State)
      ensures Value() == s
    {
      entries, tenants := s.entries, s.tenants;
    }

    method GetOrCreateTenant(t: TenantId) returns (ok: bool, i: nat)
      modifies this
      ensures ok == Track(old(Value()), t).Some?
      ensures ok ==> Value() == Track(old(Value()), t).value && i == FindTenant(tenants, t) < |tenants|
    {
      i := FindTenant(tenants, t);
      ok := true;
      if i == |tenants| {
        if |tenants| >= MAX_TENANTS { return false, 0; }
        tenants := tenants + [Tenant(t, 0, Genesis(t), None, false, false)];
        assert tenants[i].id == t;
      }
    }

    method RotateForRetention(now: int)
      modifies this
      ensures Value() == Rotate(old(Value()), now)
    {
      hide Of, Fresh, SortBySequence, Without, Relink, Contents, HeadOf, Linked;
      ghost var s := Value();
      for i := 0 to |tenants|
        invariant |tenants| == |s.tenants|
        invariant Value() == RotateUpTo(s, i, now)
      {
        ghost var before := Value();
        var t := tenants[i];
        if t.retentionDays.Some? && !t.legalHold {
          var mine := Of(entries, t.id);
          var surviving := Fresh(SortBySequence(mine), now - t.retentionDays.value * DAY);
          if |surviving| != |mine| {
            var rebuilt := RelinkTenantChain(t.id, surviving);
            entries := Without(entries, t.id) + rebuilt;
            tenants := tenants[i := t.(entryCount := |rebuilt|, headHash := HeadOf(rebuilt, t.id))];
          }
        }
        assert Value() == RotateTenant(before, i, now);
      }
    }

    method AppendEntry(t: TenantId, content: Content) returns (ok: bool)
      modifies this
      ensures ok == Append(old(Value()), t, content).Some?
      ensures ok ==> Value() == Append(old(Value()), t, content).value
    {
      hide FindTenant, Rotate;
      var tracked, i := GetOrCreateTenant(t);
      if !tracked { return false; }
      if |entries| >= MAX_ENTRIES {
        RotateForRetention(content.timestamp);
        if |entries| >= MAX_ENTRIES { return false; }
      }
      var tenant := tenants[i];
      var e := MakeEntry(t, tenant.entryCount + 1, content, if tenant.entryCount == 0 then Genesis(t) else tenant.headHash);
      entries := entries + [e];
      tenants := tenants[i := tenant.(entryCount := e.sequence, headHash := e.hash)];
      ok := true;
    }

    method RecordAction(t: TenantId, actionId: string, actionHash: string, notes: seq<Note>) returns (ok: bool)
      modifies this
      ensures ok == Next(old(Value()), ActionLedger.RecordAction(t, actionId, actionHash, notes)).Some?
      ensures ok ==> Value() == Next(old(Value()), ActionLedger.RecordAction(t, actionId, actionHash, notes)).value
    {
      hide Append;
      var existing := ForAction(Contents(Of(entries, t)), actionId);
      if existing != [] { return existing[0].actionHash == actionHash; }
      ghost var s := Value();
      ghost var cs := Noted(actionId, actionHash, notes);
      for k := 0 to |notes|
        invariant AppendAll(s, t, cs[..k]) == Some(Value())
      {
        assert cs[..k + 1][..k] == cs[..k];
        var appended := AppendEntry(t, Content(notes[k].timestamp, actionId, actionHash, notes[k].stage, notes[k].data));
        if !appended { FailsForGood(s, t, cs, k + 1); return false; }
      }
      assert cs[..|notes|] == cs;
      ok := true;
    }

    method ConfigureRetention(t: TenantId, days: Option<nat>, content: Content) returns (ok: bool)
      modifies this
      ensures ok == Next(old(Value()), ActionLedger.ConfigureRetention(t, days, content)).Some?
      ensures ok ==> Value() == Next(old(Value()), ActionLedger.ConfigureRetention(t, days, content)).value
    {
      hide Append, Track;
      if days.Some? && !(1 <= days.value <= 3_650) { return false; }
      var tracked, i := GetOrCreateTenant(t);
      if !tracked { return false; }
      tenants := tenants[i := tenants[i].(retentionDays := days)];
      ok := AppendEntry(t, content);
    }

    method SetLegalHold(t: TenantId, active: bool, content: Content) returns (ok: bool)
      modifies this
      ensures ok == Next(old(Value()), ActionLedger.SetLegalHold(t, active, content)).Some?
      ensures ok ==> Value() == Next(old(Value()), ActionLedger.SetLegalHold(t, active, content)).value
    {
      hide Append, Track;
      var tracked, i := GetOrCreateTenant(t);
      if !tracked { return false; }
      tenants := tenants[i := tenants[i].(legalHold := active)];
      ok := AppendEntry(t, content);
    }

    method RequestDeletion(t: TenantId, content: Content) returns (ok: bool)
      modifies this
      ensures ok == Next(old(Value()), ActionLedger.RequestDeletion(t, content)).Some?
      ensures ok ==> Value() == Next(old(Value()), ActionLedger.RequestDeletion(t, content)).value
    {
      hide Append, Track;
      var tracked, i := GetOrCreateTenant(t);
      if !tracked || tenants[i].legalHold { return false; }
      if tenants[i].deletionRequested { return true; }
      tenants := tenants[i := tenants[i].(deletionRequested := true)];
      ok := AppendEntry(t, content);
    }
  }

  /** Once one append throws, so does the whole recording. */
  lemma {:induction false} FailsForGood(s: State, t: TenantId, cs: seq<Content>, k: nat)
    requires k <= |cs| && AppendAll(s, t, cs[..k]).None?
    ensures AppendAll(s, t, cs).None?
    decreases |cs|
  {
    if k < |cs| {
      assert cs[..|cs| - 1][..k] == cs[..k];
      FailsForGood(s, t, cs[..|cs| - 1], k);
    } else {
      assert cs[..k] == cs;
    }
  }
}
