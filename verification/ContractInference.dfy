/** Folding recorded interactions into one contract. */
module ContractInference {
  import opened Options
  import opened Schemas

  /** Method and path without its query string. */
  type Key = (string, string)

  datatype Interaction = Interaction(key: Key, request: Value, status: nat, response: Value)

  datatype Operation = Operation(request: Option<Schema>, responses: map<nat, Option<Schema>>)

  type Contract = map<Key, Operation>

  /** One turn of the loop; None once some body cannot be described. */
  function Observe(acc: Option<Contract>, it: Interaction): Option<Contract> {
    var request, response := Infer(it.request, 0), Infer(it.response, 0);
    if acc.None? || request.None? || response.None? then None
    else
      var ops := acc.value;
      if it.key !in ops then
        Some(ops[it.key := Operation(request, map[it.status := response])])
      else
        var op := ops[it.key];
        var known := if it.status in op.responses then op.responses[it.status] else None;
        Some(ops[it.key := Operation(Merge(op.request, request), op.responses[it.status := Merge(known, response)])])
  }

  function Fold(its: seq<Interaction>): Option<Contract> {
    if its == [] then Some(map[]) else Observe(Fold(its[..|its| - 1]), its[|its| - 1])
  }

  /** `contractFromScenarioBundle`, up to the final sort and validation. */
  method ContractFromScenario(its: seq<Interaction>) returns (contract: Option<Contract>)
    ensures contract == Fold(its)
  {
    var operations: Contract := map[];
    var i := 0;
    while i < |its|
      invariant 0 <= i <= |its|
      invariant Fold(its[..i]) == Some(operations)
    {
      var it := its[i];
      assert its[..i + 1][..i] == its[..i];
      var response := Infer(it.response, 0);
      var request := Infer(it.request, 0);
      if response.None? || request.None? {
        FoldFails(its, i + 1);
        return None;
      }
      if it.key !in operations {
        operations := operations[it.key := Operation(request, map[it.status := response])];
      } else {
        var existing := operations[it.key];
        var known := if it.status in existing.responses then existing.responses[it.status] else None;
        existing := existing.(responses := existing.responses[it.status := Merge(known, response)]);
        existing := existing.(request := Merge(existing.request, request));
        operations := operations[it.key := existing];
      }
      i := i + 1;
    }
    assert its[..|its|] == its;
    return Some(operations);
  }

  lemma {:induction false} FoldFails(its: seq<Interaction>, i: nat)
    requires i <= |its| && Fold(its[..i]).None?
    ensures Fold(its).None?
    decreases |its|
  {
    if i == |its| {
      assert its[..i] == its;
    } else {
      var init := its[..|its| - 1];
      assert init[..i] == its[..i];
      FoldFails(init, i);
    }
  }

  // ---------------------------------------------------------------- soundness

  /** A schema that is there, has the inferred shape, and describes the value. */
  ghost predicate Describes(s: Option<Schema>, v: Value) {
    s.Some? && Inferred(s.value) && Conforms(v, s.value, true)
  }

  ghost predicate Covers(c: Contract, it: Interaction) {
    && it.key in c
    && Describes(c[it.key].request, it.request)
    && it.status in c[it.key].responses
    && Describes(c[it.key].responses[it.status], it.response)
  }

  ghost predicate InferredContract(c: Contract) {
    forall k :: k in c ==>
      && c[k].request.Some? && Inferred(c[k].request.value)
      && forall st :: st in c[k].responses ==> c[k].responses[st].Some? && Inferred(c[k].responses[st].value)
  }

  lemma MergeDescribes(s: Option<Schema>, t: Option<Schema>, v: Value)
    requires s.Some? ==> Inferred(s.value)
    requires t.Some? ==> Inferred(t.value)
    ensures Describes(s, v) || Describes(t, v) ==> Describes(Merge(s, t), v)
    ensures s.Some? || t.Some? ==> Merge(s, t).Some? && Inferred(Merge(s, t).value)
  {
    if s.Some? && t.Some? {
      MergeInferred(s.value, t.value);
      if Describes(s, v) || Describes(t, v) { MergeUpperBound(v, s.value, t.value); }
    }
  }

  lemma ObserveKeeps(c: Contract, it: Interaction, seen: Interaction)
    requires InferredContract(c) && Observe(Some(c), it).Some?
    requires seen == it || Covers(c, seen)
    ensures InferredContract(Observe(Some(c), it).value) && Covers(Observe(Some(c), it).value, seen)
  {
    hide Inferred, Conforms, Infer, Merge;
    var request, response := Infer(it.request, 0), Infer(it.response, 0);
    InferSound(it.request, 0);
    InferSound(it.response, 0);
    if it.key in c {
      var op := c[it.key];
      MergeDescribes(op.request, request, seen.request);
      var known := if it.status in op.responses then op.responses[it.status] else None;
      MergeDescribes(known, response, seen.response);
    }
  }

  /** Main result: every observed request and response body conforms to the schema that the
      finished contract holds for its operation and status. */
  lemma {:induction false} FoldSound(its: seq<Interaction>)
    requires Fold(its).Some?
    ensures InferredContract(Fold(its).value)
    ensures forall i :: 0 <= i < |its| ==> Covers(Fold(its).value, its[i])
  {
    hide Observe, Covers, InferredContract;
    if its != [] {
      var n := |its| - 1;
      var init := its[..n];
      assert Fold(init).Some? by { ObserveNone(its[n]); }
      FoldSound(init);
      ObserveKeeps(Fold(init).value, its[n], its[n]);
      forall i | 0 <= i < n ensures Covers(Fold(its).value, its[i]) {
        assert init[i] == its[i];
        ObserveKeeps(Fold(init).value, its[n], its[i]);
      }
    } else {
      EmptyInferred();
    }
  }

  lemma ObserveNone(it: Interaction)
    ensures Observe(None, it).None?
  {
  }

  lemma EmptyInferred()
    ensures InferredContract(map[])
  {
  }

  /** Nothing is invented: operations and statuses are exactly the observed ones. */
  lemma {:induction false} FoldExact(its: seq<Interaction>, k: Key, st: nat)
    requires Fold(its).Some?
    ensures k in Fold(its).value <==> exists i :: 0 <= i < |its| && its[i].key == k
    ensures (k in Fold(its).value && st in Fold(its).value[k].responses)
       <==> exists i :: 0 <= i < |its| && its[i].key == k && its[i].status == st
  {
    hide Infer, Merge;
    if its != [] {
      var n := |its| - 1;
      var init := its[..n];
      FoldExact(init, k, st);
      forall i | 0 <= i < |its| ensures i < n ==> its[i] == init[i] {}
      if exists i :: 0 <= i < |its| && its[i].key == k {
        var i :| 0 <= i < |its| && its[i].key == k;
        if i < n { assert init[i].key == k; }
      }
      if exists i :: 0 <= i < |its| && its[i].key == k && its[i].status == st {
        var i :| 0 <= i < |its| && its[i].key == k && its[i].status == st;
        if i < n { assert init[i].key == k && init[i].status == st; }
      }
      if exists i :: 0 <= i < |init| && init[i].key == k {
        var i :| 0 <= i < |init| && init[i].key == k;
        assert its[i].key == k;
      }
      if exists i :: 0 <= i < |init| && init[i].key == k && init[i].status == st {
        var i :| 0 <= i < |init| && init[i].key == k && init[i].status == st;
        assert its[i].key == k && its[i].status == st;
      }
    }
  }

  // ---------------------------------------------------------------- order does not matter

  lemma MergeSwaps(s: Option<Schema>, a: Option<Schema>, b: Option<Schema>)
    requires (s.Some? ==> Inferred(s.value)) && (a.Some? ==> Inferred(a.value)) && (b.Some? ==> Inferred(b.value))
    ensures Merge(Merge(s, a), b) == Merge(Merge(s, b), a)
  {
    if a.Some? && b.Some? { MergeCommutes(a.value, b.value); }
    if s.Some? && a.Some? && b.Some? {
      MergeAssociates(s.value, a.value, b.value);
      MergeAssociates(s.value, b.value, a.value);
    }
  }

  lemma ObserveSwaps(c: Contract, x: Interaction, y: Interaction)
    requires InferredContract(c)
    ensures Observe(Observe(Some(c), x), y) == Observe(Observe(Some(c), y), x)
  {
    hide Infer, Merge, Inferred;
    var rx, sx, ry, sy := Infer(x.request, 0), Infer(x.response, 0), Infer(y.request, 0), Infer(y.response, 0);
    if rx.Some? && sx.Some? && ry.Some? && sy.Some? {
      InferSound(x.request, 0); InferSound(x.response, 0); InferSound(y.request, 0); InferSound(y.response, 0);
      if x.key == y.key {
        var op := if x.key in c then c[x.key] else Operation(None, map[]);
        MergeSwaps(op.request, rx, ry);
        if x.status == y.status {
          MergeSwaps(if x.status in op.responses then op.responses[x.status] else None, sx, sy);
        }
        SameOperation(c, x, y, op);
      } else {
        assert Observe(Observe(Some(c), x), y).value == Observe(Observe(Some(c), y), x).value;
      }
    }
  }

  /** Two observations of one operation, written out field by field. */
  lemma SameOperation(c: Contract, x: Interaction, y: Interaction, op: Operation)
    requires x.key == y.key && op == if x.key in c then c[x.key] else Operation(None, map[])
    requires x.key in c ==> op.request.Some?
    requires Infer(x.request, 0).Some? && Infer(x.response, 0).Some? && Infer(y.request, 0).Some? && Infer(y.response, 0).Some?
    requires Merge(Merge(op.request, Infer(x.request, 0)), Infer(y.request, 0)) == Merge(Merge(op.request, Infer(y.request, 0)), Infer(x.request, 0))
    requires x.status == y.status ==>
      var known := if x.status in op.responses then op.responses[x.status] else None;
      Merge(Merge(known, Infer(x.response, 0)), Infer(y.response, 0)) == Merge(Merge(known, Infer(y.response, 0)), Infer(x.response, 0))
    ensures Observe(Observe(Some(c), x), y) == Observe(Observe(Some(c), y), x)
  {
    hide Infer, MergeSchemas;
    var xy, yx := Observe(Observe(Some(c), x), y).value, Observe(Observe(Some(c), y), x).value;
    assert xy[x.key].request == yx[x.key].request;
    assert xy[x.key].responses == yx[x.key].responses;
    assert xy == yx;
  }

  /** An interaction may be observed last instead of in the middle. */
  lemma {:induction false} ObserveLast(p: seq<Interaction>, x: Interaction, q: seq<Interaction>)
    ensures Fold(p + [x] + q) == Fold(p + q + [x])
    decreases |q|
  {
    hide Observe;
    if q == [] {
      assert p + [x] + q == p + q + [x];
    } else {
      var y, q' := q[|q| - 1], q[..|q| - 1];
      assert (p + [x] + q)[..|p + [x] + q| - 1] == p + [x] + q';
      assert (p + q + [x])[..|p + q|] == p + q;
      assert (p + q)[..|p + q| - 1] == p + q';
      assert (p + q' + [x])[..|p + q'|] == p + q';
      ObserveLast(p, x, q');
      var base := Fold(p + q');
      if base.Some? {
        FoldSound(p + q');
        ObserveSwaps(base.value, x, y);
      } else {
        ObserveNone(x); ObserveNone(y);
      }
    }
  }

  /** The contract, or the failure, is the same for every order of the interactions. */
  lemma {:induction false} FoldIgnoresOrder(a: seq<Interaction>, b: seq<Interaction>)
    requires multiset(a) == multiset(b)
    ensures Fold(a) == Fold(b)
    decreases |a|
  {
    hide Observe, Fold;
    assert |a| == |multiset(a)| == |multiset(b)| == |b|;
    if a != [] {
      var n := |a| - 1;
      var x := a[n];
      var p, q := TakeOut(a, b);
      FoldIgnoresOrder(a[..n], p + q);
      ObserveLast(p, x, q);
      FoldLast(p + q, x);
      FoldLast(a[..n], x);
      assert a == a[..n] + [x];
    }
  }

  lemma FoldLast(s: seq<Interaction>, x: Interaction)
    ensures Fold(s + [x]) == Observe(Fold(s), x)
  {
    hide Observe;
    assert (s + [x])[..|s|] == s;
  }

  /** Where the last of a stands in its permutation b. */
  lemma TakeOut(a: seq<Interaction>, b: seq<Interaction>) returns (p: seq<Interaction>, q: seq<Interaction>)
    requires a != [] && multiset(a) == multiset(b)
    ensures b == p + [a[|a| - 1]] + q && multiset(a[..|a| - 1]) == multiset(p + q)
  {
    var n := |a| - 1;
    var x := a[n];
    assert x in multiset(b);
    var j :| 0 <= j < |b| && b[j] == x;
    p, q := b[..j], b[j + 1..];
    assert b == p + [x] + q && a == a[..n] + [x] + [];
    WithoutOne(p, x, q);
    WithoutOne(a[..n], x, []);
    assert a[..n] + [] == a[..n];
    Cancel(multiset(a[..n]), multiset(p + q), x);
  }

  lemma WithoutOne(p: seq<Interaction>, x: Interaction, q: seq<Interaction>)
    ensures multiset(p + [x] + q) == multiset(p + q) + multiset{x}
  {
    assert multiset(p + [x] + q) == multiset(p) + multiset{x} + multiset(q);
    assert multiset(p + q) == multiset(p) + multiset(q);
  }

  lemma Cancel(m: multiset<Interaction>, n: multiset<Interaction>, x: Interaction)
    requires m + multiset{x} == n + multiset{x}
    ensures m == n
  {
    forall y ensures m[y] == n[y] { assert (m + multiset{x})[y] == (n + multiset{x})[y]; }
  }
}
