/** The edges that a path carries, said of the stored edges themselves. */
module PathEdges {
  import opened Options
  import opened AttackPaths

  /** An edge of the tenant, seen recently enough, from one named record to the next. */
  predicate Joins(e: Edge, q: Query, level: nat, x: string, y: string) {
    e.tenant == q.tenant && q.freshSince <= e.lastSeen && e.level == level && e.source == x && e.target == y
  }

  /** A stored edge joins step k of the path to the next. */
  ghost predicate LiesAlong(g: Graph, q: Query, ids: seq<string>, k: nat, e: Edge) {
    k + 1 < |ids| && e in g.edges && Joins(e, q, k, ids[k], ids[k + 1])
  }

  /** No edge stored before e joins the same two steps. */
  ghost predicate Foremost(es: seq<Edge>, q: Query, level: nat, x: string, y: string, e: Edge) {
    exists i: nat :: i < |es| && es[i] == e && forall j: nat :: j < i ==> !Joins(es[j], q, level, x, y)
  }

  ghost predicate FirstAlong(g: Graph, q: Query, ids: seq<string>, k: nat, e: Edge) {
    LiesAlong(g, q, ids, k, e) && Foremost(g.edges, q, k, ids[k], ids[k + 1], e)
  }

  ghost predicate Connected(g: Graph, q: Query, ids: seq<string>, k: nat) { exists e :: LiesAlong(g, q, ids, k, e) }

  lemma {:induction false} FirstBetween(es: seq<Edge>, q: Query, level: nat, x: string, y: string)
    ensures var found := EdgeBetween(es, q, level, x, y);
      && |found| <= 1
      && (found == [] <==> !exists e :: e in es && Joins(e, q, level, x, y))
      && (found != [] ==> found[0] in es && Joins(found[0], q, level, x, y) && Foremost(es, q, level, x, y, found[0]))
  {
    if es != [] {
      FirstBetween(es[1..], q, level, x, y);
      assert Connects(es[0], q, level, x, y) == Joins(es[0], q, level, x, y);
      assert forall e :: e in es <==> e == es[0] || e in es[1..];
      var found := EdgeBetween(es, q, level, x, y);
      if Joins(es[0], q, level, x, y) {
        assert es[0] == found[0];
      } else if found != [] {
        var i: nat :| i < |es[1..]| && es[1..][i] == found[0] && forall j: nat :: j < i ==> !Joins(es[1..][j], q, level, x, y);
        assert es[i + 1] == found[0];
        forall j: nat | j < i + 1 ensures !Joins(es[j], q, level, x, y) { assert j > 0 ==> es[j] == es[1..][j - 1]; }
      }
    }
  }

  lemma LastStep(g: Graph, q: Query, ids: seq<string>) returns (last: seq<Edge>)
    requires |ids| > 2
    ensures EdgesAlong(g, q, ids) == EdgesAlong(g, q, ids[..|ids| - 1]) + last && |last| <= 1
    ensures last != [] <==> Connected(g, q, ids, |ids| - 2)
    ensures last != [] ==> FirstAlong(g, q, ids, |ids| - 2, last[0])
  {
    var n := |ids| - 1;
    last := EdgeBetween(g.edges, q, n - 1, ids[n - 1], ids[n]);
    FirstBetween(g.edges, q, n - 1, ids[n - 1], ids[n]);
    if last != [] { assert LiesAlong(g, q, ids, n - 1, last[0]); }
  }

  lemma Shorter(g: Graph, q: Query, ids: seq<string>, k: nat)
    requires k + 2 < |ids|
    ensures forall e :: LiesAlong(g, q, ids, k, e) <==> LiesAlong(g, q, ids[..|ids| - 1], k, e)
    ensures Connected(g, q, ids, k) <==> Connected(g, q, ids[..|ids| - 1], k)
  {
    var init := ids[..|ids| - 1];
    assert forall e :: LiesAlong(g, q, ids, k, e) <==> LiesAlong(g, q, init, k, e);
    if e :| LiesAlong(g, q, init, k, e) { assert LiesAlong(g, q, ids, k, e); }
  }

  /** A path carries only edges between its consecutive steps from the identity on, at most one
      for each two steps, the first one stored, and in their order. */
  lemma {:induction false} EdgesLieAlong(g: Graph, q: Query, ids: seq<string>)
    ensures forall e <- EdgesAlong(g, q, ids) :: e.level >= 1 && FirstAlong(g, q, ids, e.level, e)
    ensures var es := EdgesAlong(g, q, ids); forall i, j :: 0 <= i < j < |es| ==> es[i].level < es[j].level
  {
    hide EdgesAlong;
    if |ids| > 2 {
      var init := ids[..|ids| - 1];
      EdgesLieAlong(g, q, init);
      var last := LastStep(g, q, ids);
      forall e | e in EdgesAlong(g, q, init) ensures FirstAlong(g, q, ids, e.level, e) && e.level < |ids| - 2 {
        Shorter(g, q, ids, e.level);
      }
    } else {
      NoEdges(g, q, ids);
    }
  }

  lemma NoEdges(g: Graph, q: Query, ids: seq<string>)
    requires |ids| <= 2
    ensures EdgesAlong(g, q, ids) == []
  {
  }

  /** Two consecutive steps have an edge on the path exactly when a fresh stored edge joins them. */
  lemma {:induction false} EdgesExactly(g: Graph, q: Query, ids: seq<string>, k: nat)
    requires 1 <= k && k + 1 < |ids|
    ensures (exists e <- EdgesAlong(g, q, ids) :: e.level == k) <==> Connected(g, q, ids, k)
  {
    hide EdgesAlong;
    var init := ids[..|ids| - 1];
    var last := LastStep(g, q, ids);
    if k == |ids| - 2 {
      EdgesLieAlong(g, q, init);
    } else {
      EdgesExactly(g, q, init, k);
      Shorter(g, q, ids, k);
    }
  }
}
