/** The blast radius of an agent: one entry per resource that its complete paths reach, and
    one for each further resource that the tenant's providers expose. */
module BlastRadius {
  import opened AttackPaths

  datatype Entry = Entry(resource: string, sideEffects: seq<string>, pathCount: nat)

  predicate Through(p: Path, r: string) { p.complete && |p.ids| == 6 && p.ids[4] == r }

  /** How many complete paths run through resource r. */
  function CountThrough(ps: seq<Path>, r: string): nat {
    if ps == [] then 0 else CountThrough(ps[..|ps| - 1], r) + if Through(ps[|ps| - 1], r) then 1 else 0
  }

  function CountComplete(ps: seq<Path>): nat {
    if ps == [] then 0 else CountComplete(ps[..|ps| - 1]) + if ps[|ps| - 1].complete then 1 else 0
  }

  /** The side effects that complete paths have on resource r. */
  function Effects(ps: seq<Path>, r: string): set<string> {
    if ps == [] then {}
    else Effects(ps[..|ps| - 1], r) + if Through(ps[|ps| - 1], r) then {ps[|ps| - 1].ids[5]} else {}
  }

  function Total(es: seq<Entry>): nat {
    if es == [] then 0 else Total(es[..|es| - 1]) + es[|es| - 1].pathCount
  }

  lemma {:induction false} TotalUpdate(es: seq<Entry>, k: nat, e: Entry)
    requires k < |es|
    ensures Total(es[k := e]) == Total(es) - es[k].pathCount + e.pathCount
  {
    var n := |es| - 1;
    if k == n {
      assert es[k := e][..n] == es[..n];
    } else {
      assert es[k := e][..n] == es[..n][k := e];
      TotalUpdate(es[..n], k, e);
    }
  }

  lemma TotalPush(es: seq<Entry>, e: Entry)
    ensures Total(es + [e]) == Total(es) + e.pathCount
  {
    assert (es + [e])[..|es|] == es;
  }

  predicate NoDuplicates(xs: seq<string>) { forall i, j :: 0 <= i < j < |xs| ==> xs[i] != xs[j] }

  ghost predicate Distinct(es: seq<Entry>) { forall i, j :: 0 <= i < j < |es| ==> es[i].resource != es[j].resource }

  ghost predicate Covers(es: seq<Entry>, r: string) { exists k :: 0 <= k < |es| && es[k].resource == r }

  /** An entry counts its resource's complete paths and lists their side effects once each. */
  ghost predicate Counts(ps: seq<Path>, e: Entry) {
    && e.pathCount == CountThrough(ps, e.resource)
    && NoDuplicates(e.sideEffects) && (set x | x in e.sideEffects) == Effects(ps, e.resource)
  }

  /** The entries after the loop over the paths. */
  ghost predicate Summed(ps: seq<Path>, es: seq<Entry>) {
    && Distinct(es) && Total(es) == CountComplete(ps)
    && (forall k :: 0 <= k < |es| ==> Counts(ps, es[k]) && es[k].pathCount > 0)
    && (forall r :: CountThrough(ps, r) > 0 ==> Covers(es, r))
  }

  method IndexOf(es: seq<Entry>, r: string) returns (k: nat)
    ensures k <= |es| && (k < |es| ==> es[k].resource == r) && (k == |es| ==> !Covers(es, r))
  {
    k := 0;
    while k < |es| && es[k].resource != r
      invariant k <= |es| && forall j :: 0 <= j < k ==> es[j].resource != r
    {
      k := k + 1;
    }
  }

  lemma Skip(ps: seq<Path>, p: Path, es: seq<Entry>)
    requires Summed(ps, es) && !p.complete
    ensures Summed(ps + [p], es)
  {
    var qs := ps + [p];
    assert qs[..|ps|] == ps;
    forall k | 0 <= k < |es| ensures Counts(qs, es[k]) { assert Counts(ps, es[k]); }
  }

  /** What a further complete path through r adds, resource by resource. */
  lemma OneMorePath(ps: seq<Path>, p: Path, r: string)
    requires Through(p, r)
    ensures CountComplete(ps + [p]) == CountComplete(ps) + 1
    ensures forall x :: CountThrough(ps + [p], x) == CountThrough(ps, x) + if x == r then 1 else 0
    ensures forall x :: Effects(ps + [p], x) == Effects(ps, x) + if x == r then {p.ids[5]} else {}
  {
    assert (ps + [p])[..|ps|] == ps;
  }

  lemma CountOthers(ps: seq<Path>, p: Path, r: string, e: Entry)
    requires Through(p, r) && Counts(ps, e) && e.resource != r
    ensures Counts(ps + [p], e)
  {
    OneMorePath(ps, p, r);
  }

  lemma NewResource(ps: seq<Path>, p: Path, r: string, es: seq<Entry>)
    requires Summed(ps, es) && Through(p, r) && !Covers(es, r)
    ensures Summed(ps + [p], es + [Entry(r, [p.ids[5]], 1)])
  {
    var qs, e := ps + [p], Entry(r, [p.ids[5]], 1);
    OneMorePath(ps, p, r);
    TotalPush(es, e);
    NothingYet(ps, r);
    assert Counts(qs, e) by { assert (set x | x in e.sideEffects) == {p.ids[5]}; }
    forall k | 0 <= k < |es| ensures Counts(qs, es[k]) && es[k].resource != r { CountOthers(ps, p, r, es[k]); }
    forall x | CountThrough(qs, x) > 0 ensures Covers(es + [e], x) {
      if x == r { assert (es + [e])[|es|].resource == x; }
      else {
        assert Covers(es, x);
        var k :| 0 <= k < |es| && es[k].resource == x;
        assert (es + [e])[k].resource == x;
      }
    }
  }

  lemma {:induction false} NothingYet(ps: seq<Path>, r: string)
    ensures CountThrough(ps, r) == 0 ==> Effects(ps, r) == {}
  {
    if ps != [] { NothingYet(ps[..|ps| - 1], r); }
  }

  lemma CountMore(ps: seq<Path>, p: Path, was: Entry, e: Entry)
    requires Counts(ps, was) && Through(p, was.resource) && e.resource == was.resource && e.pathCount == was.pathCount + 1
    requires e.sideEffects == if p.ids[5] in was.sideEffects then was.sideEffects else was.sideEffects + [p.ids[5]]
    ensures Counts(ps + [p], e)
  {
    OneMorePath(ps, p, e.resource);
    assert (set x | x in e.sideEffects) == (set x | x in was.sideEffects) + {p.ids[5]};
  }

  lemma KnownResource(ps: seq<Path>, p: Path, es: seq<Entry>, k: nat, e: Entry)
    requires Summed(ps, es) && k < |es| && Through(p, es[k].resource)
    requires e.resource == es[k].resource && e.pathCount == es[k].pathCount + 1
    requires e.sideEffects == if p.ids[5] in es[k].sideEffects then es[k].sideEffects else es[k].sideEffects + [p.ids[5]]
    ensures Summed(ps + [p], es[k := e])
  {
    var qs, fs, r := ps + [p], es[k := e], es[k].resource;
    TotalUpdate(es, k, e);
    SameResources(es, k, e);
    CountMore(ps, p, es[k], e);
    OneMorePath(ps, p, r);
    hide Counts, Covers, CountThrough, Total, Through, Effects, CountComplete;
    forall j | 0 <= j < |fs| ensures Counts(qs, fs[j]) && fs[j].pathCount > 0 {
      if j != k { CountOthers(ps, p, r, es[j]); }
    }
    HasEntry(fs, k);
  }

  lemma SameResources(es: seq<Entry>, k: nat, e: Entry)
    requires k < |es| && e.resource == es[k].resource
    ensures forall x :: Covers(es, x) ==> Covers(es[k := e], x)
    ensures Distinct(es) ==> Distinct(es[k := e])
  {
    forall x | Covers(es, x) ensures Covers(es[k := e], x) {
      var j :| 0 <= j < |es| && es[j].resource == x;
      assert es[k := e][j].resource == x;
    }
  }

  /** The loop over the paths. */
  method SumPaths(g: Graph, q: Query, agent: string, paths: seq<Path>) returns (es: seq<Entry>)
    requires paths == AllPaths(g, q, agent)
    ensures Summed(paths, es)
  {
    hide AllPaths, Walk, EdgesAlong;
    EveryPathIsAWalk(g, q, agent);
    es := [];
    for n := 0 to |paths|
      invariant Summed(paths[..n], es)
    {
      var p := paths[n];
      assert paths[..n + 1] == paths[..n] + [p];
      assert PathOk(g, q, p);
      if !p.complete || |p.ids| < 6 {
        Skip(paths[..n], p, es);
        continue;
      }
      CompleteIsKnown(g, q, p);
      if Find(g.resources, q.tenant, p.ids[4]).None? || Find(g.sideEffects, q.tenant, p.ids[5]).None? { continue; }
      hide Summed, Find, PathOk;
      var r, s := p.ids[4], p.ids[5];
      var k := IndexOf(es, r);
      if k == |es| {
        NewResource(paths[..n], p, r, es);
        es := es + [Entry(r, [s], 1)];
      } else {
        var e := Entry(r, if s in es[k].sideEffects then es[k].sideEffects else es[k].sideEffects + [s], es[k].pathCount + 1);
        KnownResource(paths[..n], p, es, k, e);
        es := es[k := e];
      }
    }
    assert paths[..|paths|] == paths;
  }

  lemma CompleteIsKnown(g: Graph, q: Query, p: Path)
    requires PathOk(g, q, p) && p.complete
    ensures |p.ids| == 6 && Find(g.resources, q.tenant, p.ids[4]).Some? && Find(g.sideEffects, q.tenant, p.ids[5]).Some?
  {
    assert Step(g, q, p.ids, 4);
  }

  // ---------------------------------------------------------------- adjacent resources

  /** The side effects of a resource that have a record. */
  function KnownEffects(g: Graph, q: Query, ids: seq<string>): seq<string> {
    if ids == [] then []
    else KnownEffects(g, q, ids[..|ids| - 1]) + if Find(g.sideEffects, q.tenant, ids[|ids| - 1]).Some? then [ids[|ids| - 1]] else []
  }

  /** The tenant has a record of this side effect. */
  ghost predicate Recorded(g: Graph, q: Query, x: string) { exists n :: n in g.sideEffects && n.tenant == q.tenant && n.id == x }

  /** Each recorded side effect as often as it is linked, and no other. */
  lemma {:induction false} KnownEffectsExactly(g: Graph, q: Query, ids: seq<string>, x: string)
    ensures multiset(KnownEffects(g, q, ids))[x] == if Recorded(g, q, x) then multiset(ids)[x] else 0
  {
    if ids != [] {
      var n := |ids| - 1;
      assert ids == ids[..n] + [ids[n]];
      KnownEffectsExactly(g, q, ids[..n], x);
    }
  }

  /** An entry of a resource that no complete path reaches: no paths, and the recorded side
      effects that the tenant's first record of the resource links. */
  ghost predicate Unreached(g: Graph, q: Query, e: Entry) {
    e.pathCount == 0 && exists n: nat :: FirstRecord(g, q, e.resource, n) && OfRecord(g, q, e, g.resources[n])
  }

  ghost predicate OfRecord(g: Graph, q: Query, e: Entry, resource: Node) {
    forall x :: multiset(e.sideEffects)[x] == if Recorded(g, q, x) then multiset(resource.links)[x] else 0
  }

  ghost predicate FirstRecord(g: Graph, q: Query, r: string, n: nat) {
    && n < |g.resources| && g.resources[n].tenant == q.tenant && g.resources[n].id == r
    && forall m: nat :: m < n ==> !(g.resources[m].tenant == q.tenant && g.resources[m].id == r)
  }

  lemma {:induction false} FindsFirst(ns: seq<Node>, tenant: string, id: string) returns (n: nat)
    requires Find(ns, tenant, id).Some?
    ensures n < |ns| && ns[n] == Find(ns, tenant, id).value
    ensures forall m: nat :: m < n ==> !(ns[m].tenant == tenant && ns[m].id == id)
  {
    if ns[0].tenant == tenant && ns[0].id == id { n := 0; }
    else {
      var k := FindsFirst(ns[1..], tenant, id);
      n := k + 1;
      forall m: nat | m < n ensures !(ns[m].tenant == tenant && ns[m].id == id) { assert m > 0 ==> ns[m] == ns[1..][m - 1]; }
    }
  }

  lemma AdjacentIsUnreached(g: Graph, q: Query, r: string)
    requires Find(g.resources, q.tenant, r).Some?
    ensures Unreached(g, q, Adjacent(g, q, r))
  {
    hide KnownEffects, Recorded;
    var n := FindsFirst(g.resources, q.tenant, r);
    forall x ensures multiset(Adjacent(g, q, r).sideEffects)[x] == if Recorded(g, q, x) then multiset(g.resources[n].links)[x] else 0 {
      KnownEffectsExactly(g, q, g.resources[n].links, x);
    }
    assert FirstRecord(g, q, r, n) && OfRecord(g, q, Adjacent(g, q, r), g.resources[n]);
  }

  ghost predicate Exposed(g: Graph, q: Query, r: string) {
    Find(g.resources, q.tenant, r).Some? && exists p :: p in g.providers && p.tenant == q.tenant && r in p.links
  }

  /** An entry for a resource that no complete path reaches. */
  function Adjacent(g: Graph, q: Query, r: string): Entry {
    var resource := Find(g.resources, q.tenant, r);
    Entry(r, if resource.Some? then KnownEffects(g, q, resource.value.links) else [], 0)
  }

  /** The entries of the paths first, then distinct adjacent ones without paths. */
  ghost predicate Extended(g: Graph, q: Query, sums: seq<Entry>, es: seq<Entry>) {
    && sums <= es && Distinct(es) && Total(es) == Total(sums)
    && forall k :: |sums| <= k < |es| ==> es[k] == Adjacent(g, q, es[k].resource) && Exposed(g, q, es[k].resource)
  }

  lemma ExtendOne(g: Graph, q: Query, sums: seq<Entry>, es: seq<Entry>, r: string)
    requires Extended(g, q, sums, es) && !Covers(es, r) && Exposed(g, q, r)
    ensures Extended(g, q, sums, es + [Adjacent(g, q, r)]) && Covers(es + [Adjacent(g, q, r)], r)
    ensures forall x :: Covers(es, x) ==> Covers(es + [Adjacent(g, q, r)], x)
  {
    var fs := es + [Adjacent(g, q, r)];
    TotalPush(es, Adjacent(g, q, r));
    assert fs[|es|].resource == r;
    forall x | Covers(es, x) ensures Covers(fs, x) {
      var k :| 0 <= k < |es| && es[k].resource == x;
      assert fs[k].resource == x;
    }
    forall k | 0 <= k < |es| ensures fs[k] == es[k] && fs[k].resource != r {}
  }

  /** Every known resource among these ids has an entry. */
  ghost predicate Covered(g: Graph, q: Query, es: seq<Entry>, ids: seq<string>) {
    forall r <- ids :: Find(g.resources, q.tenant, r).Some? ==> Covers(es, r)
  }

  /** One provider's resources that have no entry yet. */
  method AddProvider(g: Graph, q: Query, sums: seq<Entry>, es0: seq<Entry>, p: Node) returns (es: seq<Entry>)
    requires Extended(g, q, sums, es0) && p in g.providers && p.tenant == q.tenant
    ensures Extended(g, q, sums, es) && Covered(g, q, es, p.links) && forall x :: Covers(es0, x) ==> Covers(es, x)
  {
    hide Extended, Covers, Adjacent, Find;
    es := es0;
    for n := 0 to |p.links|
      invariant Extended(g, q, sums, es) && Covered(g, q, es, p.links[..n])
      invariant forall x :: Covers(es0, x) ==> Covers(es, x)
    {
      var r := p.links[n];
      assert p.links[..n + 1] == p.links[..n] + [r];
      var k := IndexOf(es, r);
      var resource := Find(g.resources, q.tenant, r);
      if k < |es| {
        HasEntry(es, k);
      } else if resource.Some? {
        assert Exposed(g, q, r);
        ExtendOne(g, q, sums, es, r);
        es := es + [Adjacent(g, q, r)];
      }
    }
    assert p.links[..|p.links|] == p.links;
  }

  lemma HasEntry(es: seq<Entry>, k: nat)
    requires k < |es|
    ensures Covers(es, es[k].resource)
  {}

  /** Exactly one entry for each resource reached or exposed; the counts add up to the number
      of complete paths; entries of resources not reached count no path. */
  method ComputeBlastRadius(g: Graph, q: Query, agent: string) returns (paths: seq<Path>, incompletePaths: nat, es: seq<Entry>)
    ensures paths == AllPaths(g, q, agent) && incompletePaths == CountIncomplete(paths)
    ensures Distinct(es) && Total(es) == CountComplete(paths)
    ensures forall r :: Covers(es, r) <==> CountThrough(paths, r) > 0 || Exposed(g, q, r)
    ensures forall e <- es :: if CountThrough(paths, e.resource) > 0 then Counts(paths, e) else Unreached(g, q, e)
  {
    hide AllPaths;
    paths, incompletePaths := FindAttackPaths(g, q, agent);
    var sums := SumPaths(g, q, agent, paths);
    es := sums;
    assert Extended(g, q, sums, es) && forall k :: 0 <= k < |es| ==> Covers(es, es[k].resource);
    hide Extended, Covers;
    for n := 0 to |g.providers|
      invariant Extended(g, q, sums, es) && (forall x :: Covers(sums, x) ==> Covers(es, x))
      invariant forall i :: 0 <= i < n && g.providers[i].tenant == q.tenant ==> Covered(g, q, es, g.providers[i].links)
    {
      if g.providers[n].tenant == q.tenant { es := AddProvider(g, q, sums, es, g.providers[n]); }
    }
    Finished(g, q, paths, sums, es);
  }

  lemma Finished(g: Graph, q: Query, paths: seq<Path>, sums: seq<Entry>, es: seq<Entry>)
    requires Summed(paths, sums) && Extended(g, q, sums, es) && forall x :: Covers(sums, x) ==> Covers(es, x)
    requires forall i :: 0 <= i < |g.providers| && g.providers[i].tenant == q.tenant ==> Covered(g, q, es, g.providers[i].links)
    ensures Distinct(es) && Total(es) == CountComplete(paths)
    ensures forall r :: Covers(es, r) <==> CountThrough(paths, r) > 0 || Exposed(g, q, r)
    ensures forall e <- es :: if CountThrough(paths, e.resource) > 0 then Counts(paths, e) else Unreached(g, q, e)
  {
    hide CountThrough, CountComplete, Find, Total, Adjacent, NoDuplicates, Effects, Unreached;
    forall k | 0 <= k < |es| ensures
      if CountThrough(paths, es[k].resource) > 0 then Counts(paths, es[k]) else Unreached(g, q, es[k]) && Exposed(g, q, es[k].resource)
    {
      if k < |sums| { assert es[k] == sums[k]; }
      else {
        forall j | 0 <= j < |sums| ensures sums[j].resource != es[k].resource { assert sums[j] == es[j]; }
        assert !Covers(sums, es[k].resource);
        AdjacentIsUnreached(g, q, es[k].resource);
      }
    }
    forall r | Exposed(g, q, r) ensures Covers(es, r) {
      var p :| p in g.providers && p.tenant == q.tenant && r in p.links;
      var i :| 0 <= i < |g.providers| && g.providers[i] == p;
      assert Covered(g, q, es, p.links);
    }
  }
}
