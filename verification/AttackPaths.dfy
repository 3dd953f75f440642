/** Attack paths from an agent through the inventory graph, and the blast radius summed up
    from them. */
module AttackPaths {
  import opened Options

  /** An identity with its tools, a provider with its resources, a resource with its side
      effects, or a side effect. */
  datatype Node = Node(tenant: string, id: string, links: seq<string>)
  datatype Tool = Tool(tenant: string, id: string, provider: Option<string>)
  datatype Edge = Edge(tenant: string, level: nat, source: string, target: string, lastSeen: int)

  /** The store; an edge's level is the place of its source on a path, 1 for identities. */
  datatype Graph = Graph(
    agents: seq<Node>, identities: seq<Node>, tools: seq<Tool>, providers: seq<Node>, resources: seq<Node>,
    sideEffects: seq<Node>, edges: seq<Edge>)

  /** For which tenant, and since when an edge counts as fresh. */
  datatype Query = Query(tenant: string, freshSince: int)

  datatype Path = Path(ids: seq<string>, complete: bool, edges: seq<Edge>)

  // ---------------------------------------------------------------- lookups

  function Find(ns: seq<Node>, tenant: string, id: string): (n: Option<Node>)
    ensures n.Some? ==> n.value in ns && n.value.tenant == tenant && n.value.id == id
    ensures n.None? ==> forall m <- ns :: !(m.tenant == tenant && m.id == id)
  {
    if ns == [] then None
    else if ns[0].tenant == tenant && ns[0].id == id then Some(ns[0])
    else Find(ns[1..], tenant, id)
  }

  function FindTool(ts: seq<Tool>, tenant: string, id: string): (t: Option<Tool>)
    ensures t.Some? ==> t.value in ts && t.value.tenant == tenant && t.value.id == id
    ensures t.None? ==> forall m <- ts :: !(m.tenant == tenant && m.id == id)
  {
    if ts == [] then None
    else if ts[0].tenant == tenant && ts[0].id == id then Some(ts[0])
    else FindTool(ts[1..], tenant, id)
  }

  predicate Connects(e: Edge, q: Query, level: nat, source: string, target: string) {
    e.tenant == q.tenant && e.lastSeen >= q.freshSince && e.level == level && e.source == source && e.target == target
  }

  /** The first fresh edge between two steps, if any. */
  function EdgeBetween(es: seq<Edge>, q: Query, level: nat, source: string, target: string): seq<Edge> {
    if es == [] then []
    else if Connects(es[0], q, level, source, target) then [es[0]]
    else EdgeBetween(es[1..], q, level, source, target)
  }

  /** The edges along a path, from the identity on. */
  function EdgesAlong(g: Graph, q: Query, ids: seq<string>): seq<Edge> {
    if |ids| <= 2 then []
    else
      var n := |ids| - 1;
      EdgesAlong(g, q, ids[..n]) + EdgeBetween(g.edges, q, n - 1, ids[n - 1], ids[n])
  }

  function MakePath(g: Graph, q: Query, ids: seq<string>, complete: bool): Path { Path(ids, complete, EdgesAlong(g, q, ids)) }

  // ---------------------------------------------------------------- what the loops collect

  function SideEffectPaths(g: Graph, q: Query, pre: seq<string>, ids: seq<string>): seq<Path> {
    if ids == [] then []
    else
      var n := |ids| - 1;
      SideEffectPaths(g, q, pre, ids[..n]) + [MakePath(g, q, pre + [ids[n]], Find(g.sideEffects, q.tenant, ids[n]).Some?)]
  }

  function ResourcePaths(g: Graph, q: Query, pre: seq<string>, ids: seq<string>): seq<Path> {
    if ids == [] then []
    else ResourcePaths(g, q, pre, ids[..|ids| - 1]) + ThroughResource(g, q, pre, ids[|ids| - 1])
  }

  function ThroughResource(g: Graph, q: Query, pre: seq<string>, id: string): seq<Path> {
    var r := Find(g.resources, q.tenant, id);
    if r.None? then [MakePath(g, q, pre + [id], false)] else SideEffectPaths(g, q, pre + [id], r.value.links)
  }

  function ToolPaths(g: Graph, q: Query, pre: seq<string>, ids: seq<string>): seq<Path> {
    if ids == [] then []
    else ToolPaths(g, q, pre, ids[..|ids| - 1]) + ThroughTool(g, q, pre, ids[|ids| - 1])
  }

  function ThroughTool(g: Graph, q: Query, pre: seq<string>, id: string): seq<Path> {
    var t := FindTool(g.tools, q.tenant, id);
    if t.None? || t.value.provider.None? then [MakePath(g, q, pre + [id], false)]
    else
      var p := t.value.provider.value;
      var provider := Find(g.providers, q.tenant, p);
      if provider.None? then [MakePath(g, q, pre + [id, p], false)] else ResourcePaths(g, q, pre + [id, p], provider.value.links)
  }

  function IdentityPaths(g: Graph, q: Query, pre: seq<string>, ids: seq<string>): seq<Path> {
    if ids == [] then []
    else IdentityPaths(g, q, pre, ids[..|ids| - 1]) + ThroughIdentity(g, q, pre, ids[|ids| - 1])
  }

  function ThroughIdentity(g: Graph, q: Query, pre: seq<string>, id: string): seq<Path> {
    var i := Find(g.identities, q.tenant, id);
    if i.None? then [MakePath(g, q, pre + [id], false)] else ToolPaths(g, q, pre + [id], i.value.links)
  }

  function AllPaths(g: Graph, q: Query, agent: string): seq<Path> {
    var a := Find(g.agents, q.tenant, agent);
    if a.None? then [] else IdentityPaths(g, q, [agent], a.value.links)
  }

  function CountIncomplete(ps: seq<Path>): nat {
    if ps == [] then 0 else CountIncomplete(ps[..|ps| - 1]) + if ps[|ps| - 1].complete then 0 else 1
  }

  lemma PushPath(ps: seq<Path>, p: Path)
    ensures CountIncomplete(ps + [p]) == CountIncomplete(ps) + if p.complete then 0 else 1
  {
    assert (ps + [p])[..|ps|] == ps;
  }

  lemma NoPaths()
    ensures CountIncomplete([]) == 0
  {}

  /** The nested loops. */
  method FindAttackPaths(g: Graph, q: Query, agentId: string) returns (paths: seq<Path>, incompletePaths: nat)
    ensures paths == AllPaths(g, q, agentId) && incompletePaths == CountIncomplete(paths)
  {
    hide CountIncomplete, EdgesAlong, Find, ThroughIdentity;
    assert CountIncomplete([]) == 0 by { NoPaths(); }
    paths, incompletePaths := [], 0;
    var agent := Find(g.agents, q.tenant, agentId);
    if agent.None? { return; }
    var identityIds := agent.value.links;
    for i := 0 to |identityIds|
      invariant paths == IdentityPaths(g, q, [agentId], identityIds[..i]) && incompletePaths == CountIncomplete(paths)
    {
      assert identityIds[..i + 1][..i] == identityIds[..i];
      paths, incompletePaths := AddIdentity(g, q, [agentId], identityIds[i], paths, incompletePaths);
    }
    assert identityIds[..|identityIds|] == identityIds;
  }

  method AddIdentity(g: Graph, q: Query, pre: seq<string>, id: string, paths0: seq<Path>, incomplete0: nat)
    returns (paths: seq<Path>, incompletePaths: nat)
    requires incomplete0 == CountIncomplete(paths0)
    ensures paths == paths0 + ThroughIdentity(g, q, pre, id) && incompletePaths == CountIncomplete(paths)
  {
    hide CountIncomplete, EdgesAlong, Find, ThroughTool;
    paths, incompletePaths := paths0, incomplete0;
    var identity := Find(g.identities, q.tenant, id);
    if identity.None? {
      PushPath(paths, MakePath(g, q, pre + [id], false));
      paths, incompletePaths := paths + [MakePath(g, q, pre + [id], false)], incompletePaths + 1;
      return;
    }
    var toolIds := identity.value.links;
    for t := 0 to |toolIds|
      invariant paths == paths0 + ToolPaths(g, q, pre + [id], toolIds[..t]) && incompletePaths == CountIncomplete(paths)
    {
      assert toolIds[..t + 1][..t] == toolIds[..t];
      paths, incompletePaths := AddTool(g, q, pre + [id], toolIds[t], paths, incompletePaths);
    }
    assert toolIds[..|toolIds|] == toolIds;
  }

  method AddTool(g: Graph, q: Query, pre: seq<string>, id: string, paths0: seq<Path>, incomplete0: nat)
    returns (paths: seq<Path>, incompletePaths: nat)
    requires incomplete0 == CountIncomplete(paths0)
    ensures paths == paths0 + ThroughTool(g, q, pre, id) && incompletePaths == CountIncomplete(paths)
  {
    hide CountIncomplete, EdgesAlong, Find, FindTool, ThroughResource;
    paths, incompletePaths := paths0, incomplete0;
    var tool := FindTool(g.tools, q.tenant, id);
    if tool.None? || tool.value.provider.None? {
      PushPath(paths, MakePath(g, q, pre + [id], false));
      paths, incompletePaths := paths + [MakePath(g, q, pre + [id], false)], incompletePaths + 1;
      return;
    }
    var p := tool.value.provider.value;
    var provider := Find(g.providers, q.tenant, p);
    if provider.None? {
      PushPath(paths, MakePath(g, q, pre + [id, p], false));
      paths, incompletePaths := paths + [MakePath(g, q, pre + [id, p], false)], incompletePaths + 1;
      return;
    }
    var resourceIds := provider.value.links;
    for r := 0 to |resourceIds|
      invariant paths == paths0 + ResourcePaths(g, q, pre + [id, p], resourceIds[..r]) && incompletePaths == CountIncomplete(paths)
    {
      assert resourceIds[..r + 1][..r] == resourceIds[..r];
      paths, incompletePaths := AddResource(g, q, pre + [id, p], resourceIds[r], paths, incompletePaths);
    }
    assert resourceIds[..|resourceIds|] == resourceIds;
  }

  method AddResource(g: Graph, q: Query, pre: seq<string>, id: string, paths0: seq<Path>, incomplete0: nat)
    returns (paths: seq<Path>, incompletePaths: nat)
    requires incomplete0 == CountIncomplete(paths0)
    ensures paths == paths0 + ThroughResource(g, q, pre, id) && incompletePaths == CountIncomplete(paths)
  {
    hide CountIncomplete, EdgesAlong, Find, FindTool;
    paths, incompletePaths := paths0, incomplete0;
    var resource := Find(g.resources, q.tenant, id);
    if resource.None? {
      PushPath(paths, MakePath(g, q, pre + [id], false));
      paths, incompletePaths := paths + [MakePath(g, q, pre + [id], false)], incompletePaths + 1;
      return;
    }
    var sideEffectIds := resource.value.links;
    for s := 0 to |sideEffectIds|
      invariant paths == paths0 + SideEffectPaths(g, q, pre + [id], sideEffectIds[..s]) && incompletePaths == CountIncomplete(paths)
    {
      assert sideEffectIds[..s + 1][..s] == sideEffectIds[..s];
      var known := Find(g.sideEffects, q.tenant, sideEffectIds[s]).Some?;
      PushPath(paths, MakePath(g, q, pre + [id] + [sideEffectIds[s]], known));
      paths := paths + [MakePath(g, q, pre + [id] + [sideEffectIds[s]], known)];
      if !known { incompletePaths := incompletePaths + 1; }
    }
    assert sideEffectIds[..|sideEffectIds|] == sideEffectIds;
  }

  // ---------------------------------------------------------------- the reference join

  function Occurs(ids: seq<string>, id: string): nat {
    if ids == [] then 0 else Occurs(ids[..|ids| - 1], id) + if ids[|ids| - 1] == id then 1 else 0
  }

  /** How often a complete chain of steps is listed. */
  function Listed(ps: seq<Path>, ids: seq<string>): nat {
    if ps == [] then 0
    else Listed(ps[..|ps| - 1], ids) + if ps[|ps| - 1].complete && ps[|ps| - 1].ids == ids then 1 else 0
  }

  /** How often following the links from this point runs through the given ids: the product
      of their multiplicities, or zero where a record is missing. */
  function JoinSideEffect(g: Graph, q: Query, links: seq<string>, s: string): nat {
    if Find(g.sideEffects, q.tenant, s).Some? then Occurs(links, s) else 0
  }

  function JoinResource(g: Graph, q: Query, links: seq<string>, r: string, s: string): nat {
    var resource := Find(g.resources, q.tenant, r);
    if resource.None? then 0 else Occurs(links, r) * JoinSideEffect(g, q, resource.value.links, s)
  }

  function JoinTool(g: Graph, q: Query, links: seq<string>, t: string, p: string, r: string, s: string): nat {
    var tool, provider := FindTool(g.tools, q.tenant, t), Find(g.providers, q.tenant, p);
    if tool.None? || tool.value.provider != Some(p) || provider.None? then 0
    else Occurs(links, t) * JoinResource(g, q, provider.value.links, r, s)
  }

  function JoinIdentity(g: Graph, q: Query, links: seq<string>, i: string, t: string, p: string, r: string, s: string): nat {
    var identity := Find(g.identities, q.tenant, i);
    if identity.None? then 0 else Occurs(links, i) * JoinTool(g, q, identity.value.links, t, p, r, s)
  }

  function Join(g: Graph, q: Query, a: string, i: string, t: string, p: string, r: string, s: string): nat {
    var agent := Find(g.agents, q.tenant, a);
    if agent.None? then 0 else JoinIdentity(g, q, agent.value.links, i, t, p, r, s)
  }

  lemma {:induction false} ListedConcat(a: seq<Path>, b: seq<Path>, ids: seq<string>)
    ensures Listed(a + b, ids) == Listed(a, ids) + Listed(b, ids)
  {
    if b == [] { assert a + b == a; }
    else {
      ListedConcat(a, b[..|b| - 1], ids);
      assert (a + b)[..|a + b| - 1] == a + b[..|b| - 1];
    }
  }

  /** Every path starts with the steps it was reached by. */
  ghost predicate StartWith(ps: seq<Path>, pre: seq<string>) { forall k :: 0 <= k < |ps| ==> pre <= ps[k].ids }

  lemma StartWithout(ps: seq<Path>, pre: seq<string>, ids: seq<string>)
    requires StartWith(ps, pre) && !(pre <= ids)
    ensures Listed(ps, ids) == 0
  {
    if ps != [] { StartWithout(ps[..|ps| - 1], pre, ids); }
  }

  lemma StartShorter(ps: seq<Path>, pre: seq<string>, more: seq<string>)
    requires StartWith(ps, pre + more)
    ensures StartWith(ps, pre)
  {
    forall k | 0 <= k < |ps| ensures pre <= ps[k].ids { assert pre + more <= ps[k].ids; assert pre <= pre + more; }
  }

  lemma {:induction false} SideEffectStart(g: Graph, q: Query, pre: seq<string>, ids: seq<string>)
    ensures StartWith(SideEffectPaths(g, q, pre, ids), pre)
  {
    if ids != [] { SideEffectStart(g, q, pre, ids[..|ids| - 1]); }
  }

  lemma ResourceStart(g: Graph, q: Query, pre: seq<string>, id: string)
    ensures StartWith(ThroughResource(g, q, pre, id), pre + [id])
  {
    if Find(g.resources, q.tenant, id).Some? { SideEffectStart(g, q, pre + [id], Find(g.resources, q.tenant, id).value.links); }
  }

  lemma {:induction false} ResourcesStart(g: Graph, q: Query, pre: seq<string>, ids: seq<string>)
    ensures StartWith(ResourcePaths(g, q, pre, ids), pre)
  {
    if ids != [] {
      var n := |ids| - 1;
      ResourcesStart(g, q, pre, ids[..n]);
      ResourceStart(g, q, pre, ids[n]);
      StartShorter(ThroughResource(g, q, pre, ids[n]), pre, [ids[n]]);
    }
  }

  lemma ToolStart(g: Graph, q: Query, pre: seq<string>, id: string)
    ensures StartWith(ThroughTool(g, q, pre, id), pre + [id])
  {
    var t := FindTool(g.tools, q.tenant, id);
    if t.Some? && t.value.provider.Some? {
      var p := t.value.provider.value;
      assert pre + [id, p] == pre + [id] + [p];
      var provider := Find(g.providers, q.tenant, p);
      if provider.Some? {
        ResourcesStart(g, q, pre + [id, p], provider.value.links);
        StartShorter(ResourcePaths(g, q, pre + [id, p], provider.value.links), pre + [id], [p]);
      }
    }
  }

  lemma {:induction false} ToolsStart(g: Graph, q: Query, pre: seq<string>, ids: seq<string>)
    ensures StartWith(ToolPaths(g, q, pre, ids), pre)
  {
    if ids != [] {
      var n := |ids| - 1;
      ToolsStart(g, q, pre, ids[..n]);
      ToolStart(g, q, pre, ids[n]);
      StartShorter(ThroughTool(g, q, pre, ids[n]), pre, [ids[n]]);
    }
  }

  lemma IdentityStart(g: Graph, q: Query, pre: seq<string>, id: string)
    ensures StartWith(ThroughIdentity(g, q, pre, id), pre + [id])
  {
    if Find(g.identities, q.tenant, id).Some? { ToolsStart(g, q, pre + [id], Find(g.identities, q.tenant, id).value.links); }
  }

  lemma OtherHead(pre: seq<string>, x: string, y: string, rest: seq<string>)
    requires x != y
    ensures !(pre + [x] <= pre + [y] + rest)
  {
    assert (pre + [x])[|pre|] == x && (pre + [y] + rest)[|pre|] == y;
  }

  lemma {:induction false} SideEffectsListed(g: Graph, q: Query, pre: seq<string>, ids: seq<string>, s: string)
    ensures Listed(SideEffectPaths(g, q, pre, ids), pre + [s]) == JoinSideEffect(g, q, ids, s)
  {
    hide EdgesAlong;
    if ids != [] {
      var n := |ids| - 1;
      SideEffectsListed(g, q, pre, ids[..n], s);
      assert pre + [ids[n]] == pre + [s] ==> ids[n] == s by { assert (pre + [ids[n]])[|pre|] == ids[n] && (pre + [s])[|pre|] == s; }
      var ps := SideEffectPaths(g, q, pre, ids);
      assert ps[..|ps| - 1] == SideEffectPaths(g, q, pre, ids[..n]);
    }
  }

  lemma ResourceListed(g: Graph, q: Query, pre: seq<string>, id: string, r: string, s: string)
    ensures Listed(ThroughResource(g, q, pre, id), pre + [r, s]) == if id == r then JoinResource(g, q, [r], r, s) else 0
  {
    hide EdgesAlong;
    ResourceStart(g, q, pre, id);
    assert pre + [r, s] == pre + [r] + [s];
    assert Occurs([r], r) == 1 by { assert [r][..0] == []; }
    if id != r {
      OtherHead(pre, id, r, [s]);
      StartWithout(ThroughResource(g, q, pre, id), pre + [id], pre + [r, s]);
    } else {
      var resource := Find(g.resources, q.tenant, r);
      if resource.Some? { SideEffectsListed(g, q, pre + [r], resource.value.links, s); }
      else { Single(MakePath(g, q, pre + [r], false), pre + [r, s]); }
    }
  }

  lemma Single(p: Path, ids: seq<string>)
    ensures Listed([p], ids) == if p.complete && p.ids == ids then 1 else 0
  {
    assert [p][..0] == [];
  }

  lemma {:induction false} ResourcesListed(g: Graph, q: Query, pre: seq<string>, ids: seq<string>, r: string, s: string)
    ensures Listed(ResourcePaths(g, q, pre, ids), pre + [r, s]) == JoinResource(g, q, ids, r, s)
  {
    if ids != [] {
      var n := |ids| - 1;
      ResourcesListed(g, q, pre, ids[..n], r, s);
      ResourceListed(g, q, pre, ids[n], r, s);
      ListedConcat(ResourcePaths(g, q, pre, ids[..n]), ThroughResource(g, q, pre, ids[n]), pre + [r, s]);
      var resource := Find(g.resources, q.tenant, r);
      if resource.Some? { Distribute(ids, r, JoinSideEffect(g, q, resource.value.links, s)); }
    }
  }

  lemma Distribute(ids: seq<string>, x: string, k: nat)
    requires ids != []
    ensures Occurs(ids, x) * k == Occurs(ids[..|ids| - 1], x) * k + if ids[|ids| - 1] == x then Occurs([x], x) * k else 0
  {
    OccursOnce(x);
    var all, before, one := Occurs(ids, x), Occurs(ids[..|ids| - 1], x), Occurs([x], x);
    assert all == before + if ids[|ids| - 1] == x then 1 else 0;
    hide Occurs;
    OneMore(all, before, one, k, ids[|ids| - 1] == x);
  }

  lemma OccursOnce(x: string)
    ensures Occurs([x], x) == 1
  {
    assert [x][..0] == [];
  }

  lemma OneMore(all: nat, before: nat, one: nat, k: nat, here: bool)
    requires one == 1 && all == before + if here then 1 else 0
    ensures all * k == before * k + if here then one * k else 0
  {
    if here { assert (before + 1) * k == before * k + k; }
  }

  lemma ToolListed(g: Graph, q: Query, pre: seq<string>, id: string, t: string, p: string, r: string, s: string)
    ensures Listed(ThroughTool(g, q, pre, id), pre + [t, p, r, s]) == if id == t then JoinTool(g, q, [t], t, p, r, s) else 0
  {
    hide EdgesAlong;
    ToolStart(g, q, pre, id);
    var ids := pre + [t, p, r, s];
    assert ids == pre + [t] + [p, r, s];
    assert Occurs([t], t) == 1 by { assert [t][..0] == []; }
    if id != t {
      OtherHead(pre, id, t, [p, r, s]);
      StartWithout(ThroughTool(g, q, pre, id), pre + [id], ids);
    } else {
      var tool := FindTool(g.tools, q.tenant, t);
      if tool.None? || tool.value.provider.None? { Single(MakePath(g, q, pre + [t], false), ids); }
      else {
        var p' := tool.value.provider.value;
        var provider := Find(g.providers, q.tenant, p');
        if provider.None? { Single(MakePath(g, q, pre + [t, p'], false), ids); }
        else if p' == p {
          assert ids == pre + [t, p] + [r, s];
          ResourcesListed(g, q, pre + [t, p], provider.value.links, r, s);
        } else {
          ResourcesStart(g, q, pre + [t, p'], provider.value.links);
          assert pre + [t, p'] == pre + [t] + [p'] && ids == pre + [t] + [p] + [r, s];
          OtherHead(pre + [t], p', p, [r, s]);
          StartWithout(ResourcePaths(g, q, pre + [t, p'], provider.value.links), pre + [t, p'], ids);
        }
      }
    }
  }

  lemma {:induction false} ToolsListed(g: Graph, q: Query, pre: seq<string>, ids: seq<string>, t: string, p: string, r: string, s: string)
    ensures Listed(ToolPaths(g, q, pre, ids), pre + [t, p, r, s]) == JoinTool(g, q, ids, t, p, r, s)
  {
    if ids != [] {
      var n := |ids| - 1;
      ToolsListed(g, q, pre, ids[..n], t, p, r, s);
      ToolListed(g, q, pre, ids[n], t, p, r, s);
      ListedConcat(ToolPaths(g, q, pre, ids[..n]), ThroughTool(g, q, pre, ids[n]), pre + [t, p, r, s]);
      var provider := Find(g.providers, q.tenant, p);
      if provider.Some? { Distribute(ids, t, JoinResource(g, q, provider.value.links, r, s)); }
    }
  }

  lemma IdentityListed(g: Graph, q: Query, pre: seq<string>, id: string, i: string, t: string, p: string, r: string, s: string)
    ensures Listed(ThroughIdentity(g, q, pre, id), pre + [i, t, p, r, s]) == if id == i then JoinIdentity(g, q, [i], i, t, p, r, s) else 0
  {
    hide EdgesAlong, JoinTool;
    IdentityStart(g, q, pre, id);
    var ids := pre + [i, t, p, r, s];
    assert ids == pre + [i] + [t, p, r, s];
    assert Occurs([i], i) == 1 by { assert [i][..0] == []; }
    if id != i {
      OtherHead(pre, id, i, [t, p, r, s]);
      StartWithout(ThroughIdentity(g, q, pre, id), pre + [id], ids);
    } else {
      var identity := Find(g.identities, q.tenant, i);
      if identity.None? { Single(MakePath(g, q, pre + [i], false), ids); }
      else { ToolsListed(g, q, pre + [i], identity.value.links, t, p, r, s); }
    }
  }

  lemma {:induction false} IdentitiesListed(g: Graph, q: Query, pre: seq<string>, ids: seq<string>, i: string, t: string, p: string, r: string, s: string)
    ensures Listed(IdentityPaths(g, q, pre, ids), pre + [i, t, p, r, s]) == JoinIdentity(g, q, ids, i, t, p, r, s)
  {
    if ids != [] {
      var n := |ids| - 1;
      IdentitiesListed(g, q, pre, ids[..n], i, t, p, r, s);
      IdentityListed(g, q, pre, ids[n], i, t, p, r, s);
      ListedConcat(IdentityPaths(g, q, pre, ids[..n]), ThroughIdentity(g, q, pre, ids[n]), pre + [i, t, p, r, s]);
      var identity := Find(g.identities, q.tenant, i);
      if identity.Some? { Distribute(ids, i, JoinTool(g, q, identity.value.links, t, p, r, s)); }
    }
  }

  /** Each six-step chain is listed as complete exactly as often as the reference join of the
      stored links has it. */
  lemma CompletePathsAreTheJoin(g: Graph, q: Query, a: string, i: string, t: string, p: string, r: string, s: string)
    ensures Listed(AllPaths(g, q, a), [a, i, t, p, r, s]) == Join(g, q, a, i, t, p, r, s)
  {
    var agent := Find(g.agents, q.tenant, a);
    if agent.Some? {
      IdentitiesListed(g, q, [a], agent.value.links, i, t, p, r, s);
      assert [a] + [i, t, p, r, s] == [a, i, t, p, r, s];
    }
  }

  // ---------------------------------------------------------------- the shape of every path

  /** The record behind a step is there, and for a tool it names a provider. */
  predicate Continues(g: Graph, q: Query, level: nat, id: string) {
    match level
    case 0 => Find(g.agents, q.tenant, id).Some?
    case 1 => Find(g.identities, q.tenant, id).Some?
    case 2 => FindTool(g.tools, q.tenant, id).Some? && FindTool(g.tools, q.tenant, id).value.provider.Some?
    case 3 => Find(g.providers, q.tenant, id).Some?
    case 4 => Find(g.resources, q.tenant, id).Some?
    case 5 => Find(g.sideEffects, q.tenant, id).Some?
    case _ => false
  }

  /** The record behind x names y. */
  predicate Follows(g: Graph, q: Query, level: nat, x: string, y: string)
    requires Continues(g, q, level, x)
  {
    match level
    case 0 => y in Find(g.agents, q.tenant, x).value.links
    case 1 => y in Find(g.identities, q.tenant, x).value.links
    case 2 => FindTool(g.tools, q.tenant, x).value.provider == Some(y)
    case 3 => y in Find(g.providers, q.tenant, x).value.links
    case 4 => y in Find(g.resources, q.tenant, x).value.links
    case _ => false
  }

  ghost predicate Step(g: Graph, q: Query, ids: seq<string>, k: nat)
    requires k + 1 < |ids|
  {
    Continues(g, q, k, ids[k]) && Follows(g, q, k, ids[k], ids[k + 1])
  }

  ghost predicate Walk(g: Graph, q: Query, ids: seq<string>) {
    1 <= |ids| <= 6 && forall k :: 0 <= k < |ids| - 1 ==> Step(g, q, ids, k)
  }

  /** A walk through the stored links; complete exactly when it reaches a known side effect,
      otherwise it ends where the record is missing; its edges are those along it. */
  ghost predicate PathOk(g: Graph, q: Query, p: Path) {
    && Walk(g, q, p.ids) && p.edges == EdgesAlong(g, q, p.ids)
    && (p.complete <==> |p.ids| == 6 && Continues(g, q, 5, p.ids[5]))
    && (p.complete || !Continues(g, q, |p.ids| - 1, p.ids[|p.ids| - 1]))
  }

  ghost predicate AllOk(g: Graph, q: Query, ps: seq<Path>) { forall k :: 0 <= k < |ps| ==> PathOk(g, q, ps[k]) }

  lemma WalkOn(g: Graph, q: Query, ids: seq<string>, y: string)
    requires Walk(g, q, ids) && |ids| < 6
    requires Continues(g, q, |ids| - 1, ids[|ids| - 1]) && Follows(g, q, |ids| - 1, ids[|ids| - 1], y)
    ensures Walk(g, q, ids + [y])
  {
    hide Continues, Follows;
    var more := ids + [y];
    forall k | 0 <= k < |more| - 1 ensures Step(g, q, more, k) { assert k < |ids| - 1 ==> Step(g, q, ids, k); }
  }

  lemma {:induction false} SideEffectsOk(g: Graph, q: Query, pre: seq<string>, ids: seq<string>)
    requires Walk(g, q, pre) && |pre| == 5 && Continues(g, q, 4, pre[4]) && forall x <- ids :: Follows(g, q, 4, pre[4], x)
    ensures AllOk(g, q, SideEffectPaths(g, q, pre, ids))
  {
    hide EdgesAlong, Walk, Follows;
    if ids != [] {
      SideEffectsOk(g, q, pre, ids[..|ids| - 1]);
      WalkOn(g, q, pre, ids[|ids| - 1]);
    }
  }

  lemma {:induction false} ResourcesOk(g: Graph, q: Query, pre: seq<string>, ids: seq<string>)
    requires Walk(g, q, pre) && |pre| == 4 && Continues(g, q, 3, pre[3]) && forall x <- ids :: Follows(g, q, 3, pre[3], x)
    ensures AllOk(g, q, ResourcePaths(g, q, pre, ids))
  {
    hide EdgesAlong, Walk;
    if ids != [] {
      var r := ids[|ids| - 1];
      ResourcesOk(g, q, pre, ids[..|ids| - 1]);
      WalkOn(g, q, pre, r);
      if Find(g.resources, q.tenant, r).Some? { SideEffectsOk(g, q, pre + [r], Find(g.resources, q.tenant, r).value.links); }
    }
  }

  lemma ThroughToolOk(g: Graph, q: Query, pre: seq<string>, id: string)
    requires Walk(g, q, pre + [id]) && |pre| == 2
    ensures AllOk(g, q, ThroughTool(g, q, pre, id))
  {
    hide EdgesAlong, Walk, ResourcePaths, Find, FindTool;
    if Continues(g, q, 2, id) {
      var p := FindTool(g.tools, q.tenant, id).value.provider.value;
      WalkOn(g, q, pre + [id], p);
      assert pre + [id, p] == pre + [id] + [p];
      var provider := Find(g.providers, q.tenant, p);
      if provider.Some? { ResourcesOk(g, q, pre + [id, p], provider.value.links); }
    }
  }

  lemma {:induction false} ToolsOk(g: Graph, q: Query, pre: seq<string>, ids: seq<string>)
    requires Walk(g, q, pre) && |pre| == 2 && Continues(g, q, 1, pre[1]) && forall x <- ids :: Follows(g, q, 1, pre[1], x)
    ensures AllOk(g, q, ToolPaths(g, q, pre, ids))
  {
    hide EdgesAlong, Walk, ThroughTool, PathOk;
    if ids != [] {
      ToolsOk(g, q, pre, ids[..|ids| - 1]);
      WalkOn(g, q, pre, ids[|ids| - 1]);
      ThroughToolOk(g, q, pre, ids[|ids| - 1]);
    }
  }

  lemma {:induction false} IdentitiesOk(g: Graph, q: Query, pre: seq<string>, ids: seq<string>)
    requires Walk(g, q, pre) && |pre| == 1 && Continues(g, q, 0, pre[0]) && forall x <- ids :: Follows(g, q, 0, pre[0], x)
    ensures AllOk(g, q, IdentityPaths(g, q, pre, ids))
  {
    hide EdgesAlong, Walk, ThroughIdentity, PathOk;
    if ids != [] {
      IdentitiesOk(g, q, pre, ids[..|ids| - 1]);
      WalkOn(g, q, pre, ids[|ids| - 1]);
      ThroughIdentityOk(g, q, pre, ids[|ids| - 1]);
    }
  }

  lemma ThroughIdentityOk(g: Graph, q: Query, pre: seq<string>, id: string)
    requires Walk(g, q, pre + [id]) && |pre| == 1
    ensures AllOk(g, q, ThroughIdentity(g, q, pre, id))
  {
    hide EdgesAlong, Walk, ToolPaths, Find, FindTool;
    if Continues(g, q, 1, id) { ToolsOk(g, q, pre + [id], Find(g.identities, q.tenant, id).value.links); }
  }

  /** Every path found is a walk of the agent, complete exactly when it arrives, and the rest
      end at a missing record. */
  lemma EveryPathIsAWalk(g: Graph, q: Query, agent: string)
    ensures AllOk(g, q, AllPaths(g, q, agent))
    ensures forall p <- AllPaths(g, q, agent) :: p.ids[..1] == [agent]
  {
    var a := Find(g.agents, q.tenant, agent);
    if a.Some? {
      IdentitiesOk(g, q, [agent], a.value.links);
      IdentitiesStart(g, q, [agent], a.value.links);
      forall p | p in AllPaths(g, q, agent) ensures p.ids[..1] == [agent] {
        var k :| 0 <= k < |AllPaths(g, q, agent)| && AllPaths(g, q, agent)[k] == p;
        assert [agent] <= p.ids;
      }
    }
  }

  lemma {:induction false} IdentitiesStart(g: Graph, q: Query, pre: seq<string>, ids: seq<string>)
    ensures StartWith(IdentityPaths(g, q, pre, ids), pre)
  {
    if ids != [] {
      var n := |ids| - 1;
      IdentitiesStart(g, q, pre, ids[..n]);
      IdentityStart(g, q, pre, ids[n]);
      StartShorter(ThroughIdentity(g, q, pre, ids[n]), pre, [ids[n]]);
    }
  }
}
