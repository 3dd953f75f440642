/** The action ledger: one list of entries, one hash chain per tenant threaded through it,
    and a retention rotation that drops old entries and links the survivors anew. */
module ActionLedger {
  import opened Options

  type TenantId = string

  /** What an entry says, apart from its place in the chain. */
  datatype Content = Content(timestamp: int, actionId: string, actionHash: string, stage: string, data: string)

  /** SHA-256 as an injective constructor; genesis hashes differ from entry hashes. */
  datatype Digest = Genesis(tenant: TenantId) | EntryHash(tenant: TenantId, sequence: nat, content: Content, previous: Digest)

  datatype Entry = Entry(tenant: TenantId, sequence: nat, content: Content, previous: Digest, hash: Digest)

  datatype Tenant = Tenant(
    id: TenantId, entryCount: nat, headHash: Digest, retentionDays: Option<nat>, legalHold: bool, deletionRequested: bool)

  datatype State = State(entries: seq<Entry>, tenants: seq<Tenant>)

  const MAX_ENTRIES := 2_000
  const MAX_TENANTS := 200
  const DAY := 86_400_000
  const EMPTY := State([], [])

  // ---------------------------------------------------------------- one tenant's chain

  function Of(es: seq<Entry>, t: TenantId): seq<Entry> {
    if es == [] then []
    else Of(es[..|es| - 1], t) + if es[|es| - 1].tenant == t then [es[|es| - 1]] else []
  }

  function Without(es: seq<Entry>, t: TenantId): seq<Entry> {
    if es == [] then []
    else Without(es[..|es| - 1], t) + if es[|es| - 1].tenant == t then [] else [es[|es| - 1]]
  }

  function Contents(es: seq<Entry>): (cs: seq<Content>)
    ensures |cs| == |es|
  {
    seq(|es|, i requires 0 <= i < |es| => es[i].content)
  }

  function HeadOf(es: seq<Entry>, t: TenantId): Digest {
    if es == [] then Genesis(t) else es[|es| - 1].hash
  }

  predicate LinkOk(es: seq<Entry>, t: TenantId, i: nat)
    requires i < |es|
  {
    var e := es[i];
    && e.tenant == t && e.sequence == i + 1
    && e.previous == HeadOf(es[..i], t)
    && e.hash == EntryHash(t, e.sequence, e.content, e.previous)
  }

  ghost predicate Linked(es: seq<Entry>, t: TenantId) {
    forall i :: 0 <= i < |es| ==> LinkOk(es, t, i)
  }

  function FindTenant(ts: seq<Tenant>, t: TenantId): (i: nat)
    ensures i <= |ts|
    ensures i < |ts| ==> ts[i].id == t
    ensures forall j :: 0 <= j < i ==> ts[j].id != t
  {
    if ts == [] || ts[0].id == t then 0 else 1 + FindTenant(ts[1..], t)
  }

  /** What `verifyTenantState` demands of a tracked tenant. */
  ghost predicate TenantOk(es: seq<Entry>, t: Tenant) {
    && |Of(es, t.id)| == t.entryCount
    && Linked(Of(es, t.id), t.id)
    && t.headHash == HeadOf(Of(es, t.id), t.id)
  }

  ghost predicate UniqueTenants(ts: seq<Tenant>) {
    forall i, j :: 0 <= i < j < |ts| ==> ts[i].id != ts[j].id
  }

  /** Within its limits, one record per tenant, every chain intact, no orphan entry. */
  ghost predicate StateOk(s: State) {
    && |s.entries| <= MAX_ENTRIES && |s.tenants| <= MAX_TENANTS
    && UniqueTenants(s.tenants)
    && (forall i :: 0 <= i < |s.tenants| ==> TenantOk(s.entries, s.tenants[i]))
    && (forall k :: 0 <= k < |s.entries| ==> FindTenant(s.tenants, s.entries[k].tenant) < |s.tenants|)
  }

  // ---------------------------------------------------------------- operations

  function MakeEntry(t: TenantId, sequence: nat, content: Content, previous: Digest): Entry {
    Entry(t, sequence, content, previous, EntryHash(t, sequence, content, previous))
  }

  /** `relinkTenantChain` */
  function Relink(t: TenantId, cs: seq<Content>): (es: seq<Entry>)
    ensures |es| == |cs|
  {
    if cs == [] then []
    else
      var init := Relink(t, cs[..|cs| - 1]);
      init + [MakeEntry(t, |cs|, cs[|cs| - 1], HeadOf(init, t))]
  }

  function Fresh(es: seq<Entry>, cutoff: int): seq<Entry> {
    if es == [] then []
    else Fresh(es[..|es| - 1], cutoff) + if es[|es| - 1].content.timestamp >= cutoff then [es[|es| - 1]] else []
  }

  /** Stable insertion sort by sequence number. */
  function Insert(es: seq<Entry>, e: Entry): seq<Entry> {
    if es == [] || es[|es| - 1].sequence <= e.sequence then es + [e]
    else Insert(es[..|es| - 1], e) + [es[|es| - 1]]
  }

  function SortBySequence(es: seq<Entry>): seq<Entry> {
    if es == [] then [] else Insert(SortBySequence(es[..|es| - 1]), es[|es| - 1])
  }

  predicate SameTenants(s: State, s': State) {
    |s'.tenants| == |s.tenants| && forall j :: 0 <= j < |s.tenants| ==> s'.tenants[j].id == s.tenants[j].id
  }

  /** One turn of the loop in `rotateForRetention`. */
  function RotateTenant(s: State, i: nat, now: int): (s': State)
    requires i < |s.tenants|
    ensures SameTenants(s, s')
  {
    var t := s.tenants[i];
    if t.retentionDays.None? || t.legalHold then s
    else
      var surviving := Fresh(SortBySequence(Of(s.entries, t.id)), now - t.retentionDays.value * DAY);
      if |surviving| == |Of(s.entries, t.id)| then s
      else
        var rebuilt := Relink(t.id, Contents(surviving));
        State(Without(s.entries, t.id) + rebuilt,
              s.tenants[i := t.(entryCount := |rebuilt|, headHash := HeadOf(rebuilt, t.id))])
  }

  function RotateUpTo(s: State, n: nat, now: int): (s': State)
    requires n <= |s.tenants|
    ensures SameTenants(s, s')
  {
    if n == 0 then s else RotateTenant(RotateUpTo(s, n - 1, now), n - 1, now)
  }

  /** `rotateForRetention` */
  function Rotate(s: State, now: int): (s': State)
    ensures SameTenants(s, s')
  {
    RotateUpTo(s, |s.tenants|, now)
  }

  /** `getOrCreateTenant`; None when the tenant table is full. */
  function Track(s: State, t: TenantId): (r: Option<State>)
    ensures r.Some? ==> FindTenant(r.value.tenants, t) < |r.value.tenants|
  {
    if FindTenant(s.tenants, t) < |s.tenants| then Some(s)
    else if |s.tenants| >= MAX_TENANTS then None
    else
      var tenants := s.tenants + [Tenant(t, 0, Genesis(t), None, false, false)];
      assert tenants[|s.tenants|].id == t;
      Some(s.(tenants := tenants))
  }

  /** Append to a tracked tenant's chain. */
  function Push(s: State, i: nat, content: Content): State
    requires i < |s.tenants|
  {
    var t := s.tenants[i];
    var e := MakeEntry(t.id, t.entryCount + 1, content, if t.entryCount == 0 then Genesis(t.id) else t.headHash);
    State(s.entries + [e], s.tenants[i := t.(entryCount := e.sequence, headHash := e.hash)])
  }

  /** `appendEntry`: rotate when full, refuse when still full. */
  function Append(s: State, t: TenantId, content: Content): Option<State> {
    var tracked := Track(s, t);
    if tracked.None? then None
    else
      var s1 := if |tracked.value.entries| >= MAX_ENTRIES then Rotate(tracked.value, content.timestamp) else tracked.value;
      if |s1.entries| >= MAX_ENTRIES then None else Some(Push(s1, FindTenant(tracked.value.tenants, t), content))
  }

  function AppendAll(s: State, t: TenantId, cs: seq<Content>): Option<State> {
    if cs == [] then Some(s)
    else
      var init := AppendAll(s, t, cs[..|cs| - 1]);
      if init.None? then None else Append(init.value, t, cs[|cs| - 1])
  }

  /** The stages of a recorded action, each with the time it is appended at. */
  datatype Note = Note(timestamp: int, stage: string, data: string)

  function Noted(actionId: string, actionHash: string, notes: seq<Note>): (cs: seq<Content>)
    ensures |cs| == |notes|
  {
    seq(|notes|, i requires 0 <= i < |notes| => Content(notes[i].timestamp, actionId, actionHash, notes[i].stage, notes[i].data))
  }

  /** `entriesForAction`, on contents. */
  function ForAction(cs: seq<Content>, actionId: string): seq<Content> {
    if cs == [] then []
    else ForAction(cs[..|cs| - 1], actionId) + if cs[|cs| - 1].actionId == actionId then [cs[|cs| - 1]] else []
  }

  datatype Op =
    | RecordAction(t: TenantId, actionId: string, actionHash: string, notes: seq<Note>)
    | ConfigureRetention(t: TenantId, days: Option<nat>, content: Content)
    | SetLegalHold(t: TenantId, active: bool, content: Content)
    | RequestDeletion(t: TenantId, content: Content)

  /** The next state, or None when the operation throws. */
  function Next(s: State, op: Op): Option<State> {
    match op
    case RecordAction(t, id, hash, notes) =>
      var existing := ForAction(Contents(Of(s.entries, t)), id);
      if existing == [] then AppendAll(s, t, Noted(id, hash, notes))
      else if existing[0].actionHash != hash then None else Some(s)
    case ConfigureRetention(t, days, content) =>
      var tracked := Track(s, t);
      if tracked.None? || (days.Some? && !(1 <= days.value <= 3_650)) then None
      else
        var s1 := tracked.value;
        var i := FindTenant(s1.tenants, t);
        Append(s1.(tenants := s1.tenants[i := s1.tenants[i].(retentionDays := days)]), t, content)
    case SetLegalHold(t, active, content) =>
      var tracked := Track(s, t);
      if tracked.None? then None
      else
        var s1 := tracked.value;
        var i := FindTenant(s1.tenants, t);
        Append(s1.(tenants := s1.tenants[i := s1.tenants[i].(legalHold := active)]), t, content)
    case RequestDeletion(t, content) =>
      var tracked := Track(s, t);
      if tracked.None? then None
      else
        var s1 := tracked.value;
        var i := FindTenant(s1.tenants, t);
        if s1.tenants[i].legalHold then None
        else if s1.tenants[i].deletionRequested then Some(s1)
        else Append(s1.(tenants := s1.tenants[i := s1.tenants[i].(deletionRequested := true)]), t, content)
  }

  function Apply(s: State, op: Op): State { if Next(s, op).Some? then Next(s, op).value else s }

  function Run(ops: seq<Op>): State {
    if ops == [] then EMPTY else Apply(Run(ops[..|ops| - 1]), ops[|ops| - 1])
  }

  // ---------------------------------------------------------------- filters

  lemma {:induction false} OfConcat(a: seq<Entry>, b: seq<Entry>, t: TenantId)
    ensures Of(a + b, t) == Of(a, t) + Of(b, t)
  {
    if b == [] {
      assert a + b == a;
    } else {
      OfConcat(a, b[..|b| - 1], t);
      assert (a + b)[..|a + b| - 1] == a + b[..|b| - 1];
    }
  }

  lemma {:induction false} OfWithout(es: seq<Entry>, t: TenantId, u: TenantId)
    ensures Of(Without(es, t), u) == if u == t then [] else Of(es, u)
  {
    if es != [] {
      var init, e := es[..|es| - 1], es[|es| - 1];
      OfWithout(init, t, u);
      OfConcat(Without(init, t), if e.tenant == t then [] else [e], u);
      OfOne(e, u);
    }
  }

  lemma {:induction false} WithoutElements(es: seq<Entry>, t: TenantId)
    ensures |Without(es, t)| + |Of(es, t)| == |es|
    ensures forall k :: 0 <= k < |Without(es, t)| ==> Without(es, t)[k] in es
  {
    if es != [] { WithoutElements(es[..|es| - 1], t); }
  }

  lemma OfOne(e: Entry, u: TenantId)
    ensures Of([e], u) == (if e.tenant == u then [e] else []) && Of([], u) == []
  {
    assert [e][..0] == [];
  }

  lemma {:induction false} OfSame(es: seq<Entry>, t: TenantId, u: TenantId)
    requires forall k :: 0 <= k < |es| ==> es[k].tenant == t
    ensures Of(es, u) == if u == t then es else []
  {
    if es != [] { OfSame(es[..|es| - 1], t, u); }
  }

  lemma {:induction false} OfElements(es: seq<Entry>, t: TenantId)
    ensures forall k :: 0 <= k < |Of(es, t)| ==> Of(es, t)[k].tenant == t && Of(es, t)[k] in es
  {
    if es != [] { OfElements(es[..|es| - 1], t); }
  }

  // ---------------------------------------------------------------- chains

  lemma {:induction false} RelinkLinks(t: TenantId, cs: seq<Content>)
    ensures Linked(Relink(t, cs), t) && Contents(Relink(t, cs)) == cs
  {
    if cs != [] {
      var n := |cs| - 1;
      var init, es := Relink(t, cs[..n]), Relink(t, cs);
      RelinkLinks(t, cs[..n]);
      assert Contents(es) == Contents(init) + [cs[n]] == cs;
      PushLinks(init, t, es[n]);
    }
  }

  lemma PushLinks(es: seq<Entry>, t: TenantId, e: Entry)
    requires Linked(es, t) && e == MakeEntry(t, |es| + 1, e.content, HeadOf(es, t))
    ensures Linked(es + [e], t) && HeadOf(es + [e], t) == e.hash
  {
    forall i | 0 <= i < |es| + 1 ensures LinkOk(es + [e], t, i) {
      if i < |es| { assert LinkOk(es, t, i); assert (es + [e])[..i] == es[..i]; }
      else { assert (es + [e])[..i] == es; }
    }
  }

  lemma {:induction false} LinkedIsSorted(es: seq<Entry>, t: TenantId)
    requires Linked(es, t)
    ensures SortBySequence(es) == es
  {
    if es != [] {
      var n := |es| - 1;
      forall i | 0 <= i < n ensures LinkOk(es[..n], t, i) { assert LinkOk(es, t, i); assert es[..n][..i] == es[..i]; }
      LinkedIsSorted(es[..n], t);
      assert LinkOk(es, t, n) && (n > 0 ==> LinkOk(es, t, n - 1));
    }
  }

  /** A head hash commits to the whole history: equal heads mean equal entries. */
  lemma {:induction false} HeadCommits(a: seq<Entry>, b: seq<Entry>, t: TenantId)
    requires Linked(a, t) && Linked(b, t) && HeadOf(a, t) == HeadOf(b, t)
    ensures a == b
    decreases |a|
  {
    assert a != [] ==> LinkOk(a, t, |a| - 1);
    assert b != [] ==> LinkOk(b, t, |b| - 1);
    if a != [] {
      var n := |a| - 1;
      LinkedPrefix(a, t);
      LinkedPrefix(b, t);
      HeadCommits(a[..n], b[..n], t);
      assert a == a[..n] + [a[n]] && b == b[..n] + [b[n]];
    }
  }

  lemma LinkedPrefix(es: seq<Entry>, t: TenantId)
    requires es != [] && Linked(es, t)
    ensures Linked(es[..|es| - 1], t)
  {
    var n := |es| - 1;
    forall i | 0 <= i < n ensures LinkOk(es[..n], t, i) { assert LinkOk(es, t, i); assert es[..n][..i] == es[..i]; }
  }

  /** In any two verified states, a tenant with the same head hash has the same entries. */
  lemma SameHeadSameEntries(r: State, s: State, i: nat, j: nat)
    requires StateOk(r) && StateOk(s) && i < |r.tenants| && j < |s.tenants|
    requires r.tenants[i].id == s.tenants[j].id && r.tenants[i].headHash == s.tenants[j].headHash
    ensures Of(r.entries, r.tenants[i].id) == Of(s.entries, r.tenants[i].id)
  {
    assert TenantOk(r.entries, r.tenants[i]) && TenantOk(s.entries, s.tenants[j]);
    HeadCommits(Of(r.entries, r.tenants[i].id), Of(s.entries, r.tenants[i].id), r.tenants[i].id);
  }

  // ---------------------------------------------------------------- rotation

  /** The contents that are young enough, in order. */
  function FreshContents(cs: seq<Content>, cutoff: int): seq<Content> {
    if cs == [] then []
    else FreshContents(cs[..|cs| - 1], cutoff) + if cs[|cs| - 1].timestamp >= cutoff then [cs[|cs| - 1]] else []
  }

  lemma {:induction false} FreshKeeps(es: seq<Entry>, cutoff: int)
    ensures Contents(Fresh(es, cutoff)) == FreshContents(Contents(es), cutoff)
    ensures |Fresh(es, cutoff)| <= |es|
    ensures |Fresh(es, cutoff)| == |es| ==> Fresh(es, cutoff) == es
  {
    if es != [] {
      var n := |es| - 1;
      FreshKeeps(es[..n], cutoff);
      assert Contents(es)[..n] == Contents(es[..n]);
      assert es == es[..n] + [es[n]];
      var last := if es[n].content.timestamp >= cutoff then [es[n]] else [];
      assert Contents(Fresh(es[..n], cutoff) + last) == Contents(Fresh(es[..n], cutoff)) + Contents(last);
    }
  }

  /** Whether rotation looks at this tenant at all. */
  predicate Rotates(t: Tenant) { t.retentionDays.Some? && !t.legalHold }

  function Cutoff(t: Tenant, now: int): int
    requires t.retentionDays.Some?
  {
    now - t.retentionDays.value * 86_400_000
  }

  /** Retention, hold and deletion mark are as they were. */
  predicate SameFlags(t: Tenant, t': Tenant) {
    && t'.id == t.id && t'.retentionDays == t.retentionDays
    && t'.legalHold == t.legalHold && t'.deletionRequested == t.deletionRequested
  }

  /** What rotation does to a tenant's entries: exactly the contents inside its own retention
      remain, in order; without retention or under a hold the very entries remain. */
  ghost predicate KeepsExactly(t: Tenant, before: seq<Entry>, after: seq<Entry>, now: int) {
    if Rotates(t) then Contents(after) == FreshContents(Contents(before), Cutoff(t, now)) else after == before
  }

  ghost predicate RotatedExactly(s: State, s': State, j: nat, now: int)
    requires j < |s.tenants| == |s'.tenants|
  {
    && SameFlags(s.tenants[j], s'.tenants[j])
    && KeepsExactly(s.tenants[j], Of(s.entries, s.tenants[j].id), Of(s'.entries, s.tenants[j].id), now)
  }

  ghost predicate Untouched(s: State, s': State, j: nat)
    requires j < |s.tenants| == |s'.tenants|
  {
    s'.tenants[j] == s.tenants[j] && Of(s'.entries, s.tenants[j].id) == Of(s.entries, s.tenants[j].id)
  }

  lemma RebuiltEntries(es: seq<Entry>, t: TenantId, rebuilt: seq<Entry>, u: TenantId)
    requires Linked(rebuilt, t)
    ensures Of(Without(es, t) + rebuilt, u) == if u == t then rebuilt else Of(es, u)
  {
    forall k | 0 <= k < |rebuilt| ensures rebuilt[k].tenant == t { assert LinkOk(rebuilt, t, k); }
    OfConcat(Without(es, t), rebuilt, u);
    OfWithout(es, t, u);
    OfSame(rebuilt, t, u);
  }

  /** What one turn does, once the tenant's entries are known to be in sequence. */
  lemma RotateCases(s: State, i: nat, now: int)
    requires i < |s.tenants| && TenantOk(s.entries, s.tenants[i])
    ensures var t, s' := s.tenants[i], RotateTenant(s, i, now);
      var mine := Of(s.entries, t.id);
      || (!Rotates(t) && s' == s)
      || (Rotates(t) && Fresh(mine, Cutoff(t, now)) == mine && s' == s)
      || (Rotates(t) && var rebuilt := Relink(t.id, Contents(Fresh(mine, Cutoff(t, now))));
            s' == State(Without(s.entries, t.id) + rebuilt, s.tenants[i := t.(entryCount := |rebuilt|, headHash := HeadOf(rebuilt, t.id))]))
  {
    hide Relink, Fresh, Without, SortBySequence, Contents, HeadOf, Of, LinkOk;
    var t := s.tenants[i];
    var mine := Of(s.entries, t.id);
    LinkedIsSorted(mine, t.id);
    if Rotates(t) { FreshKeeps(mine, Cutoff(t, now)); }
  }

  /** The chain and the counters that one turn leaves for its own tenant. */
  lemma RotateOwn(s: State, i: nat, now: int)
    requires i < |s.tenants| && TenantOk(s.entries, s.tenants[i])
    ensures var s' := RotateTenant(s, i, now);
      RotatedExactly(s, s', i, now) && TenantOk(s'.entries, s'.tenants[i])
  {
    RotateCases(s, i, now);
    hide RotateTenant, Relink, Fresh, FreshContents, Without, Linked, Contents, HeadOf, Of;
    var t := s.tenants[i];
    var mine := Of(s.entries, t.id);
    if Rotates(t) {
      var surviving := Fresh(mine, Cutoff(t, now));
      FreshKeeps(mine, Cutoff(t, now));
      RelinkLinks(t.id, Contents(surviving));
      RebuiltEntries(s.entries, t.id, Relink(t.id, Contents(surviving)), t.id);
    }
  }

  /** The rest of the state after one turn. */
  lemma RotateOthers(s: State, i: nat, now: int)
    requires i < |s.tenants| && TenantOk(s.entries, s.tenants[i])
    ensures var s' := RotateTenant(s, i, now);
      && |s'.entries| <= |s.entries|
      && (forall u :: u != s.tenants[i].id ==> Of(s'.entries, u) == Of(s.entries, u))
      && (forall k :: 0 <= k < |s'.entries| ==> s'.entries[k].tenant == s.tenants[i].id || s'.entries[k] in s.entries)
  {
    RotateCases(s, i, now);
    hide RotateTenant, Relink, Fresh, FreshContents, Without, Contents, HeadOf, Of, LinkOk;
    var t := s.tenants[i];
    var mine := Of(s.entries, t.id);
    if Rotates(t) {
      var surviving := Fresh(mine, Cutoff(t, now));
      FreshKeeps(mine, Cutoff(t, now));
      var rebuilt := Relink(t.id, Contents(surviving));
      RelinkLinks(t.id, Contents(surviving));
      forall u ensures u != t.id ==> Of(Without(s.entries, t.id) + rebuilt, u) == Of(s.entries, u) {
        RebuiltEntries(s.entries, t.id, rebuilt, u);
      }
      LinkedTenant(rebuilt, t.id);
      WithoutElements(s.entries, t.id);
    }
  }

  lemma LinkedTenant(es: seq<Entry>, t: TenantId)
    requires Linked(es, t)
    ensures forall k :: 0 <= k < |es| ==> es[k].tenant == t
  {
    forall k | 0 <= k < |es| ensures es[k].tenant == t { assert LinkOk(es, t, k); }
  }

  /** Replacing one tenant's chain by another linked chain keeps the state intact. */
  lemma RotatedOk(s: State, s': State, i: nat)
    requires StateOk(s) && i < |s.tenants| && |s'.tenants| == |s.tenants| && |s'.entries| <= MAX_ENTRIES
    requires forall j :: 0 <= j < |s.tenants| && j != i ==> s'.tenants[j] == s.tenants[j]
    requires s'.tenants[i].id == s.tenants[i].id && TenantOk(s'.entries, s'.tenants[i])
    requires forall u :: u != s.tenants[i].id ==> Of(s'.entries, u) == Of(s.entries, u)
    requires forall k :: 0 <= k < |s'.entries| ==> s'.entries[k].tenant == s.tenants[i].id || s'.entries[k] in s.entries
    ensures StateOk(s')
  {
    hide Of, Linked, HeadOf, FindTenant;
    forall j | 0 <= j < |s'.tenants| ensures TenantOk(s'.entries, s'.tenants[j]) {
      if j != i { assert TenantOk(s.entries, s.tenants[j]); assert s.tenants[j].id != s.tenants[i].id; }
    }
    forall k | 0 <= k < |s'.entries| ensures FindTenant(s'.tenants, s'.entries[k].tenant) < |s'.tenants| {
      var t := s'.entries[k].tenant;
      if t == s.tenants[i].id {
        assert s'.tenants[i].id == t;
      } else {
        var m :| 0 <= m < |s.entries| && s.entries[m] == s'.entries[k];
        var j := FindTenant(s.tenants, s.entries[m].tenant);
        assert s'.tenants[j].id == t;
      }
    }
  }

  /** One turn of the loop, for the whole state. */
  lemma RotateTenantExact(s: State, i: nat, now: int)
    requires StateOk(s) && i < |s.tenants|
    ensures var s' := RotateTenant(s, i, now);
      && StateOk(s') && RotatedExactly(s, s', i, now)
      && (forall j :: 0 <= j < |s.tenants| && j != i ==> Untouched(s, s', j))
  {
    var s' := RotateTenant(s, i, now);
    assert TenantOk(s.entries, s.tenants[i]);
    assert forall j :: 0 <= j < |s.tenants| && j != i ==> s'.tenants[j] == s.tenants[j] && s.tenants[j].id != s.tenants[i].id;
    hide RotateTenant, TenantOk, Of, KeepsExactly, FindTenant;
    RotateOwn(s, i, now);
    RotateOthers(s, i, now);
    RotatedOk(s, s', i);
  }

  lemma {:induction false} RotateUpToExact(s: State, n: nat, now: int)
    requires StateOk(s) && n <= |s.tenants|
    ensures StateOk(RotateUpTo(s, n, now))
    ensures forall j :: 0 <= j < n ==> RotatedExactly(s, RotateUpTo(s, n, now), j, now)
    ensures forall j :: n <= j < |s.tenants| ==> Untouched(s, RotateUpTo(s, n, now), j)
  {
    hide RotateTenant, TenantOk, Of, KeepsExactly, FindTenant, StateOk;
    if n > 0 {
      var mid, s' := RotateUpTo(s, n - 1, now), RotateUpTo(s, n, now);
      RotateUpToExact(s, n - 1, now);
      RotateTenantExact(mid, n - 1, now);
      assert Untouched(s, mid, n - 1);
      forall j | 0 <= j < n ensures RotatedExactly(s, s', j, now) {
        if j < n - 1 { assert RotatedExactly(s, mid, j, now) && Untouched(mid, s', j); }
      }
      forall j | n <= j < |s.tenants| ensures Untouched(s, s', j) {
        assert Untouched(s, mid, j) && Untouched(mid, s', j);
      }
    }
  }

  /** Rotation keeps the state intact; each tenant with retention and without a hold keeps
      exactly the contents inside its own retention, in order; all others keep their very
      entries. */
  lemma RotationExact(s: State, now: int)
    requires StateOk(s)
    ensures StateOk(Rotate(s, now))
    ensures |Rotate(s, now).tenants| == |s.tenants|
    ensures forall j :: 0 <= j < |s.tenants| ==> RotatedExactly(s, Rotate(s, now), j, now)
  {
    RotateUpToExact(s, |s.tenants|, now);
  }

  // ---------------------------------------------------------------- every operation

  lemma {:induction false} OfNone(es: seq<Entry>, t: TenantId)
    requires forall k :: 0 <= k < |es| ==> es[k].tenant != t
    ensures Of(es, t) == []
  {
    if es != [] { OfNone(es[..|es| - 1], t); }
  }

  lemma TrackOk(s: State, t: TenantId)
    requires StateOk(s) && Track(s, t).Some?
    ensures StateOk(Track(s, t).value)
    ensures Track(s, t).value.entries == s.entries
  {
    hide Of, Linked;
    var s' := Track(s, t).value;
    if s' != s {
      forall k | 0 <= k < |s.entries| ensures s.entries[k].tenant != t && FindTenant(s'.tenants, s.entries[k].tenant) < |s'.tenants| {
        var j := FindTenant(s.tenants, s.entries[k].tenant);
        assert s'.tenants[j].id == s.entries[k].tenant;
      }
      OfNone(s.entries, t);
      assert Linked([], t) by { NothingLinked(t); }
      assert s'.tenants[|s.tenants|].id == t;
      forall j | 0 <= j < |s'.tenants| ensures TenantOk(s'.entries, s'.tenants[j]) {
        if j < |s.tenants| { assert TenantOk(s.entries, s.tenants[j]); }
      }
    }
  }

  lemma NothingLinked(t: TenantId)
    ensures Linked([], t)
  {}

  /** A push adds its content to one tenant and nothing to any other. */
  lemma PushEntries(s: State, i: nat, content: Content, u: TenantId)
    requires i < |s.tenants|
    ensures Of(Push(s, i, content).entries, u)
      == Of(s.entries, u) + if u == s.tenants[i].id then [Push(s, i, content).entries[|s.entries|]] else []
  {
    var s' := Push(s, i, content);
    assert s'.entries[..|s.entries|] == s.entries;
  }

  lemma PushOk(s: State, i: nat, content: Content)
    requires StateOk(s) && i < |s.tenants| && |s.entries| < MAX_ENTRIES
    ensures StateOk(Push(s, i, content))
    ensures forall u :: Contents(Of(Push(s, i, content).entries, u)) == Contents(Of(s.entries, u)) + if u == s.tenants[i].id then [content] else []
  {
    hide Of, Linked, FindTenant;
    var t, s' := s.tenants[i], Push(s, i, content);
    var e := s'.entries[|s.entries|];
    assert TenantOk(s.entries, t);
    forall u ensures Of(s'.entries, u) == Of(s.entries, u) + if u == t.id then [e] else [] {
      PushEntries(s, i, content, u);
    }
    PushLinks(Of(s.entries, t.id), t.id, e);
    RotatedOk(s, s', i);
  }

  lemma AppendOk(s: State, t: TenantId, content: Content)
    requires StateOk(s) && Append(s, t, content).Some?
    ensures StateOk(Append(s, t, content).value)
  {
    TrackOk(s, t);
    var s1 := Track(s, t).value;
    RotationExact(s1, content.timestamp);
    var s2 := if |s1.entries| >= MAX_ENTRIES then Rotate(s1, content.timestamp) else s1;
    PushOk(s2, FindTenant(s1.tenants, t), content);
  }

  lemma {:induction false} AppendAllOk(s: State, t: TenantId, cs: seq<Content>)
    requires StateOk(s) && AppendAll(s, t, cs).Some?
    ensures StateOk(AppendAll(s, t, cs).value)
  {
    if cs != [] {
      AppendAllOk(s, t, cs[..|cs| - 1]);
      AppendOk(AppendAll(s, t, cs[..|cs| - 1]).value, t, cs[|cs| - 1]);
    }
  }

  /** Changing a tenant's governance flags does not touch its chain. */
  lemma FlagsOk(s: State, i: nat, t: Tenant)
    requires StateOk(s) && i < |s.tenants|
    requires t.id == s.tenants[i].id && t.entryCount == s.tenants[i].entryCount && t.headHash == s.tenants[i].headHash
    ensures StateOk(s.(tenants := s.tenants[i := t]))
  {
    hide Of, Linked, FindTenant;
    assert TenantOk(s.entries, s.tenants[i]);
    RotatedOk(s, s.(tenants := s.tenants[i := t]), i);
  }

  /** Every operation keeps every tenant's chain verifiable. */
  lemma StepOk(s: State, op: Op)
    requires StateOk(s)
    ensures StateOk(Apply(s, op))
  {
    hide StateOk, Append, AppendAll, Track;
    if Next(s, op).Some? {
      match op
      case RecordAction(t, id, hash, notes) =>
        if ForAction(Contents(Of(s.entries, t)), id) == [] { AppendAllOk(s, t, Noted(id, hash, notes)); }
      case ConfigureRetention(t, days, content) =>
        TrackOk(s, t);
        var s1 := Track(s, t).value;
        var i := FindTenant(s1.tenants, t);
        FlagsOk(s1, i, s1.tenants[i].(retentionDays := days));
        AppendOk(s1.(tenants := s1.tenants[i := s1.tenants[i].(retentionDays := days)]), t, content);
      case SetLegalHold(t, active, content) =>
        TrackOk(s, t);
        var s1 := Track(s, t).value;
        var i := FindTenant(s1.tenants, t);
        FlagsOk(s1, i, s1.tenants[i].(legalHold := active));
        AppendOk(s1.(tenants := s1.tenants[i := s1.tenants[i].(legalHold := active)]), t, content);
      case RequestDeletion(t, content) =>
        TrackOk(s, t);
        var s1 := Track(s, t).value;
        var i := FindTenant(s1.tenants, t);
        if !s1.tenants[i].deletionRequested {
          FlagsOk(s1, i, s1.tenants[i].(deletionRequested := true));
          AppendOk(s1.(tenants := s1.tenants[i := s1.tenants[i].(deletionRequested := true)]), t, content);
        }
    }
  }

  /** Over every sequence of appends, retention changes, holds, deletion requests and the
      rotations they force, by any number of tenants, every chain verifies. */
  lemma {:induction false} RunOk(ops: seq<Op>)
    ensures StateOk(Run(ops))
  {
    hide Apply;
    if ops != [] { RunOk(ops[..|ops| - 1]); StepOk(Run(ops[..|ops| - 1]), ops[|ops| - 1]); }
  }
}
