/** What whole runs of the action ledger promise beyond intact chains. */
module LedgerHistory {
  import opened Options
  import opened ActionLedger

  /** What keeps rotation from a tenant's entries. */
  datatype Shield = LegalHold | NoRetention

  predicate Shields(h: Shield, t: Tenant) { if h == LegalHold then t.legalHold else t.retentionDays.None? }

  /** Tenant u is tracked and shielded. */
  ghost predicate Shielded(s: State, u: TenantId, h: Shield) {
    exists i :: 0 <= i < |s.tenants| && s.tenants[i].id == u && Shields(h, s.tenants[i])
  }

  /** u is still shielded and has lost nothing: its very entries are a prefix of what it has now. */
  ghost predicate NothingLost(s: State, s': State, u: TenantId, h: Shield) {
    Shielded(s', u, h) && Of(s.entries, u) <= Of(s'.entries, u)
  }

  /** The operation that takes the shield away: releasing the hold, or setting a retention. */
  predicate Lifts(op: Op, u: TenantId, h: Shield) {
    if h == LegalHold then op.SetLegalHold? && op.t == u && !op.active
    else op.ConfigureRetention? && op.t == u && op.days.Some?
  }

  lemma TrackHeld(s: State, t: TenantId, u: TenantId, h: Shield)
    requires StateOk(s) && Shielded(s, u, h) && Track(s, t).Some?
    ensures NothingLost(s, Track(s, t).value, u, h)
  {
    hide StateOk, Of;
    TrackOk(s, t);
    var i :| 0 <= i < |s.tenants| && s.tenants[i].id == u && Shields(h, s.tenants[i]);
    assert Track(s, t).value.tenants[i] == s.tenants[i];
  }

  lemma RotateHeld(s: State, now: int, u: TenantId, h: Shield)
    requires StateOk(s) && Shielded(s, u, h)
    ensures NothingLost(s, Rotate(s, now), u, h)
  {
    hide StateOk, Of, Rotate;
    RotationExact(s, now);
    var i :| 0 <= i < |s.tenants| && s.tenants[i].id == u && Shields(h, s.tenants[i]);
    assert RotatedExactly(s, Rotate(s, now), i, now);
  }

  lemma PushHeld(s: State, i: nat, content: Content, u: TenantId, h: Shield)
    requires Shielded(s, u, h) && i < |s.tenants|
    ensures NothingLost(s, Push(s, i, content), u, h)
  {
    hide Of;
    PushEntries(s, i, content, u);
    var j :| 0 <= j < |s.tenants| && s.tenants[j].id == u && Shields(h, s.tenants[j]);
    var t := Push(s, i, content).tenants[j];
    assert t.id == u && Shields(h, t);
  }

  lemma AppendHeld(s: State, t: TenantId, content: Content, u: TenantId, h: Shield)
    requires StateOk(s) && Shielded(s, u, h) && Append(s, t, content).Some?
    ensures NothingLost(s, Append(s, t, content).value, u, h)
  {
    hide StateOk, Of, Rotate, Shielded, Push, Track, FindTenant;
    TrackOk(s, t);
    TrackHeld(s, t, u, h);
    var s1 := Track(s, t).value;
    RotateHeld(s1, content.timestamp, u, h);
    var s2 := if |s1.entries| >= MAX_ENTRIES then Rotate(s1, content.timestamp) else s1;
    PushHeld(s2, FindTenant(s1.tenants, t), content, u, h);
  }

  lemma {:induction false} AppendAllHeld(s: State, t: TenantId, cs: seq<Content>, u: TenantId, h: Shield)
    requires StateOk(s) && Shielded(s, u, h) && AppendAll(s, t, cs).Some?
    ensures NothingLost(s, AppendAll(s, t, cs).value, u, h)
  {
    hide StateOk, Of, Shielded, Append;
    if cs != [] {
      AppendAllOk(s, t, cs[..|cs| - 1]);
      AppendAllHeld(s, t, cs[..|cs| - 1], u, h);
      AppendHeld(AppendAll(s, t, cs[..|cs| - 1]).value, t, cs[|cs| - 1], u, h);
    }
  }

  /** New flags for one tenant, then the entry that records the change. */
  lemma GovernHeld(s: State, i: nat, t: Tenant, content: Content, u: TenantId, h: Shield)
    requires StateOk(s) && Shielded(s, u, h) && i < |s.tenants|
    requires t.id == s.tenants[i].id && t.entryCount == s.tenants[i].entryCount && t.headHash == s.tenants[i].headHash
    requires t.id == u ==> Shields(h, t) || !Shields(h, s.tenants[i])
    requires Append(s.(tenants := s.tenants[i := t]), t.id, content).Some?
    ensures NothingLost(s, Append(s.(tenants := s.tenants[i := t]), t.id, content).value, u, h)
  {
    hide Of, Append, StateOk;
    var s' := s.(tenants := s.tenants[i := t]);
    FlagsOk(s, i, t);
    var j :| 0 <= j < |s.tenants| && s.tenants[j].id == u && Shields(h, s.tenants[j]);
    assert s'.tenants[j].id == u && Shields(h, s'.tenants[j]);
    AppendHeld(s', t.id, content, u, h);
  }

  /** Any operation but the one that lifts the shield keeps everything the tenant has. */
  lemma StepHeld(s: State, op: Op, u: TenantId, h: Shield)
    requires StateOk(s) && Shielded(s, u, h)
    requires !Lifts(op, u, h)
    ensures NothingLost(s, Apply(s, op), u, h)
  {
    hide StateOk, Append, AppendAll, Track, Shielded, Of;
    if Next(s, op).Some? {
      if op.RecordAction? {
        if ForAction(Contents(Of(s.entries, op.t)), op.actionId) == [] {
          AppendAllHeld(s, op.t, Noted(op.actionId, op.actionHash, op.notes), u, h);
        }
      } else {
        TrackOk(s, op.t);
        TrackHeld(s, op.t, u, h);
        var s1 := Track(s, op.t).value;
        var i := FindTenant(s1.tenants, op.t);
        match op
        case ConfigureRetention(_, days, content) => GovernHeld(s1, i, s1.tenants[i].(retentionDays := days), content, u, h);
        case SetLegalHold(_, active, content) => GovernHeld(s1, i, s1.tenants[i].(legalHold := active), content, u, h);
        case RequestDeletion(_, content) =>
          if !s1.tenants[i].deletionRequested { GovernHeld(s1, i, s1.tenants[i].(deletionRequested := true), content, u, h); }
      }
    }
  }

  function RunFrom(s: State, ops: seq<Op>): State {
    if ops == [] then s else Apply(RunFrom(s, ops[..|ops| - 1]), ops[|ops| - 1])
  }

  /** Until its hold is released, whatever any tenant does, a held tenant's history only grows;
      so does that of a tenant without retention, until one is set. */
  lemma {:induction false} ShieldedHistoryOnlyGrows(s: State, ops: seq<Op>, u: TenantId, h: Shield)
    requires StateOk(s) && Shielded(s, u, h)
    requires forall op <- ops :: !Lifts(op, u, h)
    ensures StateOk(RunFrom(s, ops)) && NothingLost(s, RunFrom(s, ops), u, h)
  {
    hide StateOk, Apply, Of, Shielded;
    if ops != [] {
      var n := |ops| - 1;
      ShieldedHistoryOnlyGrows(s, ops[..n], u, h);
      StepOk(RunFrom(s, ops[..n]), ops[n]);
      StepHeld(RunFrom(s, ops[..n]), ops[n], u, h);
    }
  }

  // ---------------------------------------------------------------- recording twice

  /** Every content for this action carries this hash. */
  ghost predicate Agrees(cs: seq<Content>, actionId: string, actionHash: string) {
    forall c <- cs :: c.actionId == actionId ==> c.actionHash == actionHash
  }

  lemma {:induction false} FreshAgrees(cs: seq<Content>, cutoff: int, id: string, h: string)
    requires Agrees(cs, id, h)
    ensures Agrees(FreshContents(cs, cutoff), id, h)
  {
    if cs != [] { FreshAgrees(cs[..|cs| - 1], cutoff, id, h); }
  }

  lemma {:induction false} ForActionAgrees(cs: seq<Content>, id: string, h: string)
    ensures ForAction(cs, id) == [] ==> Agrees(cs, id, h)
    ensures Agrees(cs, id, h) ==> forall c <- ForAction(cs, id) :: c.actionHash == h
    ensures cs != [] && cs[|cs| - 1].actionId == id ==> ForAction(cs, id) != []
  {
    if cs != [] {
      ForActionAgrees(cs[..|cs| - 1], id, h);
      assert cs == cs[..|cs| - 1] + [cs[|cs| - 1]];
    }
  }

  /** The contents of one tenant after an append: what rotation may have left, then the new one. */
  lemma AppendAgrees(s: State, t: TenantId, content: Content, id: string, h: string)
    requires StateOk(s) && Append(s, t, content).Some?
    requires Agrees(Contents(Of(s.entries, t)), id, h) && content.actionId == id && content.actionHash == h
    ensures var cs := Contents(Of(Append(s, t, content).value.entries, t));
      Agrees(cs, id, h) && cs != [] && cs[|cs| - 1] == content
  {
    hide StateOk, Of, Rotate, Track, Push, FreshContents;
    TrackOk(s, t);
    var s1 := Track(s, t).value;
    var i := FindTenant(s1.tenants, t);
    RotationExact(s1, content.timestamp);
    var s2 := if |s1.entries| >= MAX_ENTRIES then Rotate(s1, content.timestamp) else s1;
    assert RotatedExactly(s1, Rotate(s1, content.timestamp), i, content.timestamp);
    if Rotates(s1.tenants[i]) { FreshAgrees(Contents(Of(s.entries, t)), Cutoff(s1.tenants[i], content.timestamp), id, h); }
    PushOk(s2, FindTenant(s1.tenants, t), content);
  }

  lemma {:induction false} AppendAllAgrees(s: State, t: TenantId, cs: seq<Content>, id: string, h: string)
    requires StateOk(s) && AppendAll(s, t, cs).Some? && Agrees(Contents(Of(s.entries, t)), id, h)
    requires forall c <- cs :: c.actionId == id && c.actionHash == h
    ensures var after := Contents(Of(AppendAll(s, t, cs).value.entries, t));
      Agrees(after, id, h) && (cs != [] ==> after != [] && after[|after| - 1] == cs[|cs| - 1])
  {
    hide StateOk, Of, Append, Agrees;
    if cs != [] {
      AppendAllOk(s, t, cs[..|cs| - 1]);
      AppendAllAgrees(s, t, cs[..|cs| - 1], id, h);
      AppendAgrees(AppendAll(s, t, cs[..|cs| - 1]).value, t, cs[|cs| - 1], id, h);
    }
  }

  /** Recording an action again, even when the first recording forced a rotation, leaves the
      ledger as it is; a different hash under the same id is refused. */
  lemma RecordIsIdempotent(s: State, t: TenantId, id: string, h: string, notes: seq<Note>, h': string, notes': seq<Note>)
    requires StateOk(s) && notes != [] && Next(s, RecordAction(t, id, h, notes)).Some?
    ensures var s' := Next(s, RecordAction(t, id, h, notes)).value;
      Next(s', RecordAction(t, id, h', notes')) == if h' == h then Some(s') else None
  {
    hide StateOk, Of, AppendAll, ForAction;
    var before := Contents(Of(s.entries, t));
    if ForAction(before, id) == [] {
      ForActionAgrees(before, id, h);
      AppendAllAgrees(s, t, Noted(id, h, notes), id, h);
      var s' := Next(s, RecordAction(t, id, h, notes)).value;
      ForActionAgrees(Contents(Of(s'.entries, t)), id, h);
    }
  }
}
