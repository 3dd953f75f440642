/** Exactly when each operation of the ledger goes through, and what it leaves of every
    tenant's flags and entries. */
module LedgerAnswers {
  import opened Options
  import opened ActionLedger

  // ---------------------------------------------------------------- flags

  /** The retention, hold and deletion mark of a tenant; an unknown tenant has none. */
  datatype Flags = Flags(retentionDays: Option<nat>, legalHold: bool, deletionRequested: bool)

  function FlagsOf(s: State, t: TenantId): Flags {
    var i := FindTenant(s.tenants, t);
    if i == |s.tenants| then Flags(None, false, false)
    else Flags(s.tenants[i].retentionDays, s.tenants[i].legalHold, s.tenants[i].deletionRequested)
  }

  function Tracked(s: State, t: TenantId): bool { FindTenant(s.tenants, t) < |s.tenants| }

  /** The same tenants in the same places, with the same flags. */
  ghost predicate KeepsFlags(s: State, s': State) {
    |s'.tenants| == |s.tenants| && forall j :: 0 <= j < |s.tenants| ==> SameFlags(s.tenants[j], s'.tenants[j])
  }

  lemma {:induction false} SameFind(ts: seq<Tenant>, us: seq<Tenant>, t: TenantId)
    requires |us| == |ts| && forall j :: 0 <= j < |ts| ==> us[j].id == ts[j].id
    ensures FindTenant(us, t) == FindTenant(ts, t)
  {
    var i, j := FindTenant(ts, t), FindTenant(us, t);
    assert i < |ts| ==> us[i].id == t;
    assert j < |us| ==> ts[j].id == t;
  }

  lemma FlagsStay(s: State, s': State, t: TenantId)
    requires KeepsFlags(s, s')
    ensures FlagsOf(s', t) == FlagsOf(s, t) && Tracked(s', t) == Tracked(s, t)
  {
    hide FindTenant;
    SameFind(s.tenants, s'.tenants, t);
  }

  lemma TrackFlags(s: State, t: TenantId, u: TenantId)
    requires Track(s, t).Some?
    ensures var s' := Track(s, t).value; FlagsOf(s', u) == FlagsOf(s, u) && Tracked(s', t) && (Tracked(s', u) <==> Tracked(s, u) || u == t)
  {
    hide FindTenant;
    var s' := Track(s, t).value;
    var i, j := FindTenant(s.tenants, u), FindTenant(s'.tenants, u);
    if s' != s {
      assert s'.tenants[|s.tenants|].id == t;
      assert i < |s.tenants| ==> s'.tenants[i].id == u;
      assert j < |s.tenants| ==> s.tenants[j].id == u;
    }
  }

  lemma PushFlags(s: State, i: nat, content: Content)
    requires i < |s.tenants|
    ensures KeepsFlags(s, Push(s, i, content))
  {
  }

  lemma RotateFlags(s: State, now: int)
    requires StateOk(s)
    ensures KeepsFlags(s, Rotate(s, now))
  {
    hide StateOk, Rotate, KeepsExactly, Of;
    RotationExact(s, now);
    forall j | 0 <= j < |s.tenants| ensures SameFlags(s.tenants[j], Rotate(s, now).tenants[j]) { assert RotatedExactly(s, Rotate(s, now), j, now); }
  }

  /** An appended entry changes nobody's flags. */
  lemma AppendFlags(s: State, t: TenantId, content: Content, u: TenantId)
    requires StateOk(s) && Append(s, t, content).Some?
    ensures FlagsOf(Append(s, t, content).value, u) == FlagsOf(s, u)
  {
    hide StateOk, FindTenant, Rotate, Push, Track, FlagsOf, KeepsFlags, Tracked;
    TrackOk(s, t);
    TrackFlags(s, t, u);
    var s1 := Track(s, t).value;
    RotateFlags(s1, content.timestamp);
    FlagsStay(s1, Rotate(s1, content.timestamp), u);
    var s2 := if |s1.entries| >= MAX_ENTRIES then Rotate(s1, content.timestamp) else s1;
    PushFlags(s2, FindTenant(s1.tenants, t), content);
    FlagsStay(s2, Push(s2, FindTenant(s1.tenants, t), content), u);
  }

  // ---------------------------------------------------------------- room

  /** A new tenant needs one of two hundred places. */
  ghost predicate HasPlace(s: State, t: TenantId) { Tracked(s, t) || |s.tenants| < 200 }

  /** There are fewer than two thousand entries, if need be after a rotation. */
  ghost predicate HasRoom(s: State, now: int) { |s.entries| < 2_000 || |Rotate(s, now).entries| < 2_000 }

  lemma AppendsExactly(s: State, t: TenantId, content: Content)
    requires Tracked(s, t)
    ensures Append(s, t, content).Some? <==> HasRoom(s, content.timestamp)
  {
    hide FindTenant, Rotate;
  }

  // ---------------------------------------------------------------- governance

  /** The flags that an operation asks for. */
  function Asked(f: Flags, op: Op): Flags {
    match op
    case RecordAction(_, _, _, _) => f
    case ConfigureRetention(_, days, _) => f.(retentionDays := days)
    case SetLegalHold(_, active, _) => f.(legalHold := active)
    case RequestDeletion(_, _) => f.(deletionRequested := true)
  }

  /** The state with the tenant tracked and the flags set, before the entry is appended. */
  function Flagged(s: State, op: Op): State
    requires !op.RecordAction?
  {
    if Track(s, op.t).None? then s
    else
      var s1 := Track(s, op.t).value;
      var i := FindTenant(s1.tenants, op.t);
      var t := s1.tenants[i];
      s1.(tenants := s1.tenants[i := match op
                                      case ConfigureRetention(_, days, _) => t.(retentionDays := days)
                                      case SetLegalHold(_, active, _) => t.(legalHold := active)
                                      case RequestDeletion(_, _) => t.(deletionRequested := true)])
  }

  /** A deletion that was requested before is not recorded again. */
  predicate Repeated(s: State, op: Op) { op.RequestDeletion? && FlagsOf(s, op.t).deletionRequested }

  /** Governance is refused exactly for a retention outside one day to ten years, for a deletion
      under a hold, or when there is no place for the tenant or no room for the entry. */
  lemma GovernanceDecides(s: State, op: Op)
    requires !op.RecordAction?
    ensures Next(s, op).Some? <==>
      && HasPlace(s, op.t)
      && (op.ConfigureRetention? && op.days.Some? ==> 1 <= op.days.value <= 3_650)
      && !(op.RequestDeletion? && FlagsOf(s, op.t).legalHold)
      && (Repeated(s, op) || HasRoom(Flagged(s, op), op.content.timestamp))
  {
    hide FindTenant, Append, HasRoom;
    if Track(s, op.t).Some? {
      var s1 := Track(s, op.t).value;
      TrackFlags(s, op.t, op.t);
      var i := FindTenant(s1.tenants, op.t);
      SameFind(s1.tenants, Flagged(s, op).tenants, op.t);
      AppendsExactly(Flagged(s, op), op.t, op.content);
    }
  }

  lemma FlaggedOk(s: State, op: Op)
    requires StateOk(s) && !op.RecordAction? && HasPlace(s, op.t)
    ensures StateOk(Flagged(s, op)) && Flagged(s, op).entries == s.entries
    ensures forall u :: FlagsOf(Flagged(s, op), u) == if u == op.t then Asked(FlagsOf(s, u), op) else FlagsOf(s, u)
  {
    hide StateOk, FindTenant;
    TrackOk(s, op.t);
    var s1 := Track(s, op.t).value;
    var i := FindTenant(s1.tenants, op.t);
    FlagsOk(s1, i, Flagged(s, op).tenants[i]);
    forall u ensures FlagsOf(Flagged(s, op), u) == if u == op.t then Asked(FlagsOf(s, u), op) else FlagsOf(s, u) {
      TrackFlags(s, op.t, u);
      SameFind(s1.tenants, Flagged(s, op).tenants, u);
    }
  }

  lemma NextIs(s: State, op: Op)
    requires !op.RecordAction? && Next(s, op).Some?
    ensures HasPlace(s, op.t)
    ensures Repeated(s, op) ==> Track(s, op.t).Some? && Next(s, op) == Track(s, op.t)
    ensures !Repeated(s, op) ==> Next(s, op) == Append(Flagged(s, op), op.t, op.content)
  {
    hide FindTenant, Append;
    TrackFlags(s, op.t, op.t);
  }

  /** An operation that goes through leaves the tenant with exactly the flags it asked for and
      everybody else's as they were. */
  lemma GovernanceSets(s: State, op: Op, u: TenantId)
    requires StateOk(s) && !op.RecordAction? && Next(s, op).Some?
    ensures FlagsOf(Next(s, op).value, u) == if u == op.t then Asked(FlagsOf(s, u), op) else FlagsOf(s, u)
  {
    hide StateOk, Next, Append, Track, Flagged, FlagsOf, HasPlace, Tracked;
    NextIs(s, op);
    FlaggedOk(s, op);
    if Repeated(s, op) {
      TrackFlags(s, op.t, u);
    } else {
      AppendFlags(Flagged(s, op), op.t, op.content, u);
    }
  }

  /** In particular a deletion request under a hold changes nothing. */
  lemma HoldRefusesDeletion(s: State, t: TenantId, content: Content)
    requires FlagsOf(s, t).legalHold
    ensures Next(s, RequestDeletion(t, content)) == None && Apply(s, RequestDeletion(t, content)) == s
  {
    hide FindTenant, Append, HasRoom, Flagged;
    GovernanceDecides(s, RequestDeletion(t, content));
  }

  // ---------------------------------------------------------------- entries

  lemma AppendEntries(s: State, t: TenantId, content: Content, u: TenantId)
    requires StateOk(s) && Append(s, t, content).Some? && |s.entries| < 2_000
    ensures Contents(Of(Append(s, t, content).value.entries, u)) == Contents(Of(s.entries, u)) + if u == t then [content] else []
    ensures |Append(s, t, content).value.entries| == |s.entries| + 1
  {
    hide StateOk, Of, Rotate, FindTenant, Contents;
    TrackOk(s, t);
    var s1 := Track(s, t).value;
    PushOk(s1, FindTenant(s1.tenants, t), content);
  }

  /** As long as there is room without a rotation, governance appends its one entry to the
      tenant's history and touches no other. */
  lemma GovernanceRecords(s: State, op: Op, u: TenantId)
    requires StateOk(s) && !op.RecordAction? && Next(s, op).Some? && |s.entries| < 2_000
    ensures Contents(Of(Next(s, op).value.entries, u))
      == Contents(Of(s.entries, u)) + if u == op.t && !Repeated(s, op) then [op.content] else []
  {
    hide StateOk, Of, Append, Track, Flagged, FlagsOf, HasPlace, Contents, Next;
    NextIs(s, op);
    FlaggedOk(s, op);
    if Repeated(s, op) { TrackOk(s, op.t); assert Contents(Of(s.entries, u)) + [] == Contents(Of(s.entries, u)); }
    else { AppendEntries(Flagged(s, op), op.t, op.content, u); }
  }

  lemma {:induction false} AppendAllEntries(s: State, t: TenantId, cs: seq<Content>, u: TenantId)
    requires StateOk(s) && AppendAll(s, t, cs).Some? && |s.entries| + |cs| <= 2_000
    ensures Contents(Of(AppendAll(s, t, cs).value.entries, u)) == Contents(Of(s.entries, u)) + if u == t then cs else []
    ensures |AppendAll(s, t, cs).value.entries| == |s.entries| + |cs|
  {
    hide StateOk, Of, Append, Contents;
    if cs != [] {
      var n := |cs| - 1;
      AppendAllOk(s, t, cs[..n]);
      AppendAllEntries(s, t, cs[..n], u);
      AppendEntries(AppendAll(s, t, cs[..n]).value, t, cs[n], u);
      assert cs == cs[..n] + [cs[n]];
    } else {
      assert Contents(Of(s.entries, u)) + [] == Contents(Of(s.entries, u));
    }
  }

  /** Recording an action that has no timeline appends all its stages, in order and under its
      id and hash, to the tenant's history and touches no other. */
  lemma RecordAppendsAll(s: State, t: TenantId, id: string, hash: string, notes: seq<Note>, u: TenantId)
    requires StateOk(s) && Next(s, RecordAction(t, id, hash, notes)).Some? && |s.entries| + |notes| <= 2_000
    requires forall c <- Contents(Of(s.entries, t)) :: c.actionId != id
    ensures Contents(Of(Next(s, RecordAction(t, id, hash, notes)).value.entries, u))
      == Contents(Of(s.entries, u)) + if u == t then Stages(id, hash, notes) else []
  {
    hide StateOk, Of, AppendAll, Contents;
    NoTimeline(Contents(Of(s.entries, t)), id);
    AppendAllEntries(s, t, Noted(id, hash, notes), u);
    NotedAreStages(id, hash, notes);
  }

  lemma {:induction false} NotedAreStages(id: string, hash: string, notes: seq<Note>)
    ensures Noted(id, hash, notes) == Stages(id, hash, notes)
  {
    if notes != [] {
      NotedAreStages(id, hash, notes[1..]);
      assert Noted(id, hash, notes) == [Noted(id, hash, notes)[0]] + Noted(id, hash, notes[1..]);
    }
  }

  /** One entry per stage, with its own time, under the action's id and hash. */
  ghost function Stages(id: string, hash: string, notes: seq<Note>): seq<Content> {
    if notes == [] then [] else [Content(notes[0].timestamp, id, hash, notes[0].stage, notes[0].data)] + Stages(id, hash, notes[1..])
  }

  lemma {:induction false} NoTimeline(cs: seq<Content>, id: string)
    requires forall c <- cs :: c.actionId != id
    ensures ForAction(cs, id) == []
  {
    if cs != [] { NoTimeline(cs[..|cs| - 1], id); }
  }
}
