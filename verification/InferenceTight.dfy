/** Inference says as much as was observed and no more: the schema of a list of bodies,
    described from the bodies alone. */
module InferenceTight {
  import opened Options
  import opened Schemas
  import opened ContractInference

  function TypeOf(v: Value): Type {
    match v
    case Null => TNull
    case Bool(_) => TBoolean
    case Num(n) => if n.Floor as real == n then TInteger else TNumber
    case Str(_) => TString
    case Arr(_) => TArray
    case Obj(_) => TObject
  }

  ghost predicate OneType(vs: seq<Value>) { forall i, j :: 0 <= i < |vs| && 0 <= j < |vs| ==> TypeOf(vs[i]) == TypeOf(vs[j]) }

  ghost predicate AllOf(vs: seq<Value>, t: Type) { forall i :: 0 <= i < |vs| ==> TypeOf(vs[i]) == t }

  /** Every one of these objects has the field. */
  ghost predicate AllHave(vs: seq<Value>, k: string) { forall i :: 0 <= i < |vs| ==> vs[i].Obj? && k in vs[i].fields }

  /** What these objects hold under k. */
  ghost function FieldOf(vs: seq<Value>, k: string): (fs: seq<Value>)
    requires AllHave(vs, k)
    ensures |fs| == |vs| && forall i :: 0 <= i < |vs| ==> fs[i] == vs[i].fields[k]
  {
    seq(|vs|, i requires 0 <= i < |vs| => vs[i].fields[k])
  }

  /** The elements of all these arrays, in order. */
  ghost function Elements(vs: seq<Value>): seq<Value> {
    if vs == [] then [] else Elements(vs[..|vs| - 1]) + if vs[|vs| - 1].Arr? then vs[|vs| - 1].elements else []
  }

  /** A type is stated exactly when all bodies share it. Of objects exactly the fields that
      every one of them has are declared, and all those are required; of arrays the items
      describe all their elements together. The same holds below. */
  ghost predicate Tight(vs: seq<Value>, s: Schema)
    decreases s
  {
    && vs != [] && s.enum == None
    && (s.typ.Some? <==> OneType(vs)) && (s.typ.Some? ==> AllOf(vs, s.typ.value))
    && (s.typ == Some(TObject) ==>
          && s.required == s.properties.Keys
          && (forall k :: k in s.properties <==> AllHave(vs, k))
          && forall k :: k in s.properties ==> Tight(FieldOf(vs, k), s.properties[k]))
    && (s.typ != Some(TObject) ==> s.required == {} && s.properties == map[])
    && (s.typ == Some(TArray) ==>
          && (s.items.None? <==> Elements(vs) == [])
          && (s.items.Some? ==> Tight(Elements(vs), s.items.value)))
    && (s.typ != Some(TArray) ==> s.items == None)
  }

  // ---------------------------------------------------------------- what a tight schema accepts

  /** w looks like these bodies: where they have one type it has it too, an integer passing for
      a number; it has every field that all of them have, and its elements look like theirs. */
  ghost predicate Resembles(w: Value, vs: seq<Value>)
    requires vs != []
    decreases w
  {
    OneType(vs) ==>
      && (TypeOf(w) == TypeOf(vs[0]) || (TypeOf(vs[0]) == TNumber && w.Num?))
      && (w.Obj? ==> forall k :: AllHave(vs, k) ==> k in w.fields && Resembles(w.fields[k], FieldOf(vs, k)))
      && (w.Arr? ==> if Elements(vs) == [] then w.elements == []
                     else forall i :: 0 <= i < |w.elements| ==> Resembles(w.elements[i], Elements(vs)))
  }

  /** The tight schema of some bodies accepts exactly the values that look like them. */
  lemma {:induction false} AcceptsExactly(w: Value, vs: seq<Value>, s: Schema)
    requires Tight(vs, s)
    ensures Conforms(w, s, true) <==> Resembles(w, vs)
    decreases w
  {
    if OneType(vs) {
      assert TypeOf(vs[0]) == s.typ.value;
      if w.Obj? && s.typ == Some(TObject) {
        forall k | k in w.fields && AllHave(vs, k)
          ensures Conforms(w.fields[k], s.properties[k], true) <==> Resembles(w.fields[k], FieldOf(vs, k))
        {
          AcceptsExactly(w.fields[k], FieldOf(vs, k), s.properties[k]);
        }
      }
      if w.Arr? && s.items.Some? {
        forall i | 0 <= i < |w.elements| ensures Conforms(w.elements[i], s.items.value, true) <==> Resembles(w.elements[i], Elements(vs)) {
          AcceptsExactly(w.elements[i], Elements(vs), s.items.value);
        }
      }
    }
  }

  // ---------------------------------------------------------------- merging

  lemma {:induction false} ElementsConcat(vs: seq<Value>, ws: seq<Value>)
    ensures Elements(vs + ws) == Elements(vs) + Elements(ws)
  {
    if ws == [] {
      assert vs + ws == vs;
    } else {
      ElementsConcat(vs, ws[..|ws| - 1]);
      assert (vs + ws)[..|vs + ws| - 1] == vs + ws[..|ws| - 1];
    }
  }

  lemma TypesConcat(vs: seq<Value>, ws: seq<Value>, s: Schema, t: Schema)
    requires Tight(vs, s) && Tight(ws, t)
    ensures OneType(vs + ws) <==> s.typ.Some? && s.typ == t.typ
    ensures s.typ.Some? && s.typ == t.typ ==> AllOf(vs + ws, s.typ.value)
  {
    hide TypeOf, Elements, FieldOf;
    var us := vs + ws;
    assert us[0] == vs[0] && us[|vs|] == ws[0];
    if OneType(us) {
      forall i, j | 0 <= i < |vs| && 0 <= j < |vs| ensures TypeOf(vs[i]) == TypeOf(vs[j]) { assert us[i] == vs[i] && us[j] == vs[j]; }
      forall i, j | 0 <= i < |ws| && 0 <= j < |ws| ensures TypeOf(ws[i]) == TypeOf(ws[j]) { assert us[|vs| + i] == ws[i] && us[|vs| + j] == ws[j]; }
    }
  }

  lemma HaveConcat(vs: seq<Value>, ws: seq<Value>, k: string)
    ensures AllHave(vs + ws, k) <==> AllHave(vs, k) && AllHave(ws, k)
    ensures AllHave(vs + ws, k) ==> FieldOf(vs + ws, k) == FieldOf(vs, k) + FieldOf(ws, k)
  {
    var us := vs + ws;
    if AllHave(us, k) {
      forall i | 0 <= i < |vs| ensures vs[i].Obj? && k in vs[i].fields { assert us[i] == vs[i]; }
      forall i | 0 <= i < |ws| ensures ws[i].Obj? && k in ws[i].fields { assert us[|vs| + i] == ws[i]; }
    }
  }

  /** Merging tight schemas of two lists gives the tight schema of both together. */
  lemma {:induction false} MergeTight(vs: seq<Value>, ws: seq<Value>, s: Schema, t: Schema)
    requires Tight(vs, s) && Tight(ws, t)
    ensures Tight(vs + ws, MergeSchemas(s, t))
    decreases s
  {
    TypesConcat(vs, ws, s, t);
    if s.typ == t.typ == Some(TObject) {
      MergeObjects(vs, ws, s, t);
    } else if s.typ == t.typ == Some(TArray) {
      MergeArrays(vs, ws, s, t);
    }
    hide OneType, AllOf, AllHave, Elements;
  }

  lemma {:induction false} MergeObjects(vs: seq<Value>, ws: seq<Value>, s: Schema, t: Schema)
    requires Tight(vs, s) && Tight(ws, t) && s.typ == t.typ == Some(TObject)
    ensures Tight(vs + ws, MergeSchemas(s, t))
    decreases s, 0
  {
    hide Tight, OneType, AllOf, AllHave, Elements;
    var m := MergeSchemas(s, t);
    TypesConcat(vs, ws, s, t);
    ObjectFacts(vs, s);
    ObjectFacts(ws, t);
    forall k ensures k in m.properties <==> AllHave(vs + ws, k) { HaveConcat(vs, ws, k); }
    forall k | k in m.properties ensures AllHave(vs + ws, k) && Tight(FieldOf(vs + ws, k), m.properties[k]) {
      HaveConcat(vs, ws, k);
      MergeTight(FieldOf(vs, k), FieldOf(ws, k), s.properties[k], t.properties[k]);
    }
    assert m.required == m.properties.Keys;
    ObjectIsTight(vs + ws, m);
  }

  lemma ObjectFacts(vs: seq<Value>, s: Schema)
    requires Tight(vs, s) && s.typ == Some(TObject)
    ensures vs != [] && s.enum == None && s.required == s.properties.Keys && OneType(vs)
    ensures forall k :: k in s.properties <==> AllHave(vs, k)
    ensures forall k :: k in s.properties ==> Tight(FieldOf(vs, k), s.properties[k])
  {
    hide OneType, AllOf, AllHave, Elements;
  }

  lemma ObjectIsTight(vs: seq<Value>, s: Schema)
    requires vs != [] && s.typ == Some(TObject) && s.enum == None && s.items == None && s.required == s.properties.Keys
    requires OneType(vs) && AllOf(vs, TObject) && forall k :: k in s.properties <==> AllHave(vs, k)
    requires forall k :: k in s.properties ==> Tight(FieldOf(vs, k), s.properties[k])
    ensures Tight(vs, s)
  {
    hide OneType, AllOf, AllHave, Elements;
  }

  lemma {:induction false} MergeArrays(vs: seq<Value>, ws: seq<Value>, s: Schema, t: Schema)
    requires Tight(vs, s) && Tight(ws, t) && s.typ == t.typ == Some(TArray)
    ensures Tight(vs + ws, MergeSchemas(s, t))
    decreases s, 0
  {
    TypesConcat(vs, ws, s, t);
    ElementsConcat(vs, ws);
    hide OneType, AllOf, AllHave, Elements;
    if s.items.Some? && t.items.Some? { MergeTight(Elements(vs), Elements(ws), s.items.value, t.items.value); }
    assert Elements(vs) + [] == Elements(vs) && [] + Elements(ws) == Elements(ws);
  }

  // ---------------------------------------------------------------- inference

  /** The schema inferred from one body is the tight one. */
  lemma {:induction false} InferTight(v: Value, depth: nat)
    requires Infer(v, depth).Some?
    ensures Tight([v], Infer(v, depth).value)
    decreases v
  {
    match v
    case Arr(es) =>
      assert Elements([v]) == es by { assert [v][..0] == []; }
      if es != [] { InferElementsTight(es, depth + 1); }
    case Obj(_) => InferObjectTight(v, depth);
    case _ =>
  }

  lemma {:induction false} InferObjectTight(v: Value, depth: nat)
    requires Infer(v, depth).Some? && v.Obj?
    ensures Tight([v], Infer(v, depth).value)
    decreases v, 0
  {
    var s := Infer(v, depth).value;
    assert OneType([v]) && AllOf([v], TObject);
    hide Tight, OneType, AllOf, AllHave;
    forall k ensures k in v.fields <==> AllHave([v], k) { OneHas(v, k); }
    forall k | k in v.fields ensures AllHave([v], k) && Tight(FieldOf([v], k), s.properties[k]) {
      OneHas(v, k);
      InferTight(v.fields[k], depth + 1);
    }
    ObjectIsTight([v], s);
  }

  lemma OneHas(v: Value, k: string)
    requires v.Obj?
    ensures AllHave([v], k) <==> k in v.fields
    ensures k in v.fields ==> FieldOf([v], k) == [v.fields[k]]
  {
    assert AllHave([v], k) ==> [v][0].Obj? && k in [v][0].fields;
  }

  lemma {:induction false} InferElementsTight(es: seq<Value>, depth: nat)
    requires es != [] && InferElements(es, depth).Some?
    ensures Tight(es, InferElements(es, depth).value)
    decreases es
  {
    hide Tight;
    var n := |es| - 1;
    InferTight(es[n], depth);
    if n > 0 {
      InferElementsTight(es[..n], depth);
      MergeTight(es[..n], [es[n]], InferElements(es[..n], depth).value, Infer(es[n], depth).value);
      assert es == es[..n] + [es[n]];
    } else {
      assert es == [es[n]];
    }
  }

  /** Nested at most this deep, and no object with more than a hundred fields. */
  ghost predicate Fits(v: Value, room: int)
    decreases v
  {
    && room >= 0
    && (v.Arr? ==> forall i :: 0 <= i < |v.elements| ==> Fits(v.elements[i], room - 1))
    && (v.Obj? ==> |v.fields| <= 100 && forall k :: k in v.fields ==> Fits(v.fields[k], room - 1))
  }

  /** Inference refuses exactly the bodies that are too deep or too wide. */
  lemma {:induction false} InferRefusesExactly(v: Value, depth: nat)
    ensures Infer(v, depth).Some? <==> Fits(v, 20 - depth)
    decreases v
  {
    if depth <= 20 {
      match v
      case Arr(es) => if es != [] { ElementsRefuseExactly(es, depth + 1); }
      case Obj(fields) =>
        forall k | k in fields ensures Infer(fields[k], depth + 1).Some? <==> Fits(fields[k], 20 - (depth + 1)) {
          InferRefusesExactly(fields[k], depth + 1);
        }
      case _ =>
    }
  }

  lemma {:induction false} ElementsRefuseExactly(es: seq<Value>, depth: nat)
    requires es != []
    ensures InferElements(es, depth).Some? <==> forall i :: 0 <= i < |es| ==> Fits(es[i], 20 - depth)
    decreases es
  {
    hide Fits, Infer;
    var n := |es| - 1;
    InferRefusesExactly(es[n], depth);
    if n > 0 {
      ElementsRefuseExactly(es[..n], depth);
      assert forall i :: 0 <= i < n ==> es[..n][i] == es[i];
    }
  }

  // ---------------------------------------------------------------- the contract

  /** The request bodies observed for an operation. */
  ghost function Requests(its: seq<Interaction>, k: Key): seq<Value> {
    if its == [] then []
    else Requests(its[..|its| - 1], k) + if its[|its| - 1].key == k then [its[|its| - 1].request] else []
  }

  /** The response bodies observed for an operation and a status. */
  ghost function Responses(its: seq<Interaction>, k: Key, status: nat): seq<Value> {
    if its == [] then []
    else
      var it := its[|its| - 1];
      Responses(its[..|its| - 1], k, status) + if it.key == k && it.status == status then [it.response] else []
  }

  /** Missing exactly when nothing was observed, and otherwise tight. */
  ghost predicate TightIfAny(vs: seq<Value>, s: Option<Schema>) { if vs == [] then s.None? else s.Some? && Tight(vs, s.value) }

  lemma MergeTightIfAny(vs: seq<Value>, v: Value, s: Option<Schema>, t: Option<Schema>)
    requires TightIfAny(vs, s) && t.Some? && Tight([v], t.value)
    ensures TightIfAny(vs + [v], Merge(s, t))
  {
    hide Tight;
    if vs != [] { MergeTight(vs, [v], s.value, t.value); } else { assert vs + [v] == [v]; }
  }

  ghost function RequestOf(c: Contract, k: Key): Option<Schema> { if k in c then c[k].request else None }

  ghost function ResponseOf(c: Contract, k: Key, status: nat): Option<Schema> {
    if k in c && status in c[k].responses then c[k].responses[status] else None
  }

  lemma ObserveTight(c: Contract, it: Interaction, k: Key, status: nat)
    requires Observe(Some(c), it).Some?
    ensures var c' := Observe(Some(c), it).value;
      && Infer(it.request, 0).Some? && Infer(it.response, 0).Some?
      && RequestOf(c', k) == (if k == it.key then Merge(RequestOf(c, k), Infer(it.request, 0)) else RequestOf(c, k))
      && ResponseOf(c', k, status) ==
           (if k == it.key && status == it.status then Merge(ResponseOf(c, k, status), Infer(it.response, 0)) else ResponseOf(c, k, status))
  {
    hide Infer, MergeSchemas;
  }

  /** For every operation and status, the finished contract says exactly what all the bodies
      observed there have in common. */
  lemma {:induction false} FoldTight(its: seq<Interaction>, k: Key, status: nat)
    requires Fold(its).Some?
    ensures TightIfAny(Requests(its, k), RequestOf(Fold(its).value, k))
    ensures TightIfAny(Responses(its, k, status), ResponseOf(Fold(its).value, k, status))
  {
    hide Observe, Tight, Infer, Merge, RequestOf, ResponseOf, TightIfAny;
    if its != [] {
      var n := |its| - 1;
      var it := its[n];
      assert Fold(its[..n]).Some? by { ObserveNone(it); }
      var c := Fold(its[..n]).value;
      FoldTight(its[..n], k, status);
      ObserveTight(c, it, k, status);
      InferTight(it.request, 0);
      InferTight(it.response, 0);
      if k == it.key { MergeTightIfAny(Requests(its[..n], k), it.request, RequestOf(c, k), Infer(it.request, 0)); }
      else { assert Requests(its, k) == Requests(its[..n], k); }
      if k == it.key && status == it.status {
        MergeTightIfAny(Responses(its[..n], k, status), it.response, ResponseOf(c, k, status), Infer(it.response, 0));
      } else {
        assert Responses(its, k, status) == Responses(its[..n], k, status);
      }
    } else {
      NothingObserved(k, status);
    }
  }

  lemma NothingObserved(k: Key, status: nat)
    ensures TightIfAny([], RequestOf(map[], k)) && TightIfAny([], ResponseOf(map[], k, status))
  {
  }

  /** So a body conforms to the finished contract exactly when it looks like those observed for
      the same operation, or for the same status. */
  lemma ContractAcceptsExactly(its: seq<Interaction>, k: Key, status: nat, w: Value)
    requires Fold(its).Some?
    ensures Requests(its, k) != [] ==>
      RequestOf(Fold(its).value, k).Some? && (Conforms(w, RequestOf(Fold(its).value, k).value, true) <==> Resembles(w, Requests(its, k)))
    ensures Responses(its, k, status) != [] ==>
      && ResponseOf(Fold(its).value, k, status).Some?
      && (Conforms(w, ResponseOf(Fold(its).value, k, status).value, true) <==> Resembles(w, Responses(its, k, status)))
  {
    hide Tight, Fold, Conforms, Resembles;
    FoldTight(its, k, status);
    if Requests(its, k) != [] { AcceptsExactly(w, Requests(its, k), RequestOf(Fold(its).value, k).value); }
    if Responses(its, k, status) != [] { AcceptsExactly(w, Responses(its, k, status), ResponseOf(Fold(its).value, k, status).value); }
  }

  /** The fold fails exactly when some body is too deep or too wide. */
  lemma {:induction false} FoldRefusesExactly(its: seq<Interaction>)
    ensures Fold(its).Some? <==> forall i :: 0 <= i < |its| ==> Fits(its[i].request, 20) && Fits(its[i].response, 20)
  {
    hide Fits, Infer, Merge;
    if its != [] {
      var n := |its| - 1;
      FoldRefusesExactly(its[..n]);
      InferRefusesExactly(its[n].request, 0);
      InferRefusesExactly(its[n].response, 0);
      assert forall i :: 0 <= i < n ==> its[..n][i] == its[i];
    }
  }
}
