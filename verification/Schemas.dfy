/** Contract schemas: a conformance relation, inference from observed bodies, and the merge
    that joins two observations. */
module Schemas {
  import opened Options

  datatype Value =
    | Null
    | Bool(b: bool)
    | Num(n: real)
    | Str(s: string)
    | Arr(elements: seq<Value>)
    | Obj(fields: map<string, Value>)

  datatype Type = TString | TNumber | TInteger | TBoolean | TArray | TObject | TNull

  /** Field order is dropped, and an absent `required` or `properties` is an empty one, as
      the code reads it everywhere. */
  datatype Schema = Schema(
    typ: Option<Type>, enum: Option<seq<Value>>, required: set<string>,
    properties: map<string, Schema>, items: Option<Schema>)

  const ANY := Schema(None, None, {}, map[], None)
  const MAX_SCHEMA_DEPTH := 20
  const MAX_PROPERTIES := 100

  function OfType(t: Type): Schema { Schema(Some(t), None, {}, map[], None) }

  // ---------------------------------------------------------------- conformance

  predicate HasType(v: Value, t: Type) {
    match t
    case TString => v.Str?
    case TNumber => v.Num?
    case TInteger => v.Num? && v.n == v.n.Floor as real
    case TBoolean => v.Bool?
    case TArray => v.Arr?
    case TObject => v.Obj?
    case TNull => v.Null?
  }

  /** v is described by s.  An array schema without `items` has seen only empty arrays; the
      strict reading takes it at its word, the lax one lets it accept any array. */
  predicate Conforms(v: Value, s: Schema, strict: bool)
    decreases v
  {
    && (s.typ.Some? ==> HasType(v, s.typ.value))
    && (s.enum.Some? ==> v in s.enum.value)
    && (s.typ == Some(TObject) && v.Obj? ==>
          && s.required <= v.fields.Keys
          && forall k :: k in v.fields && k in s.properties ==> Conforms(v.fields[k], s.properties[k], strict))
    && (s.typ == Some(TArray) && v.Arr? ==>
          if s.items.None? then strict ==> v.elements == []
          else forall i :: 0 <= i < |v.elements| ==> Conforms(v.elements[i], s.items.value, strict))
  }

  /** The strict reading is the stronger one. */
  lemma {:induction false} StrictImpliesLax(v: Value, s: Schema)
    requires Conforms(v, s, true)
    ensures Conforms(v, s, false)
    decreases v
  {
    if s.typ == Some(TObject) {
      forall k | k in v.fields && k in s.properties ensures Conforms(v.fields[k], s.properties[k], false) {
        StrictImpliesLax(v.fields[k], s.properties[k]);
      }
    } else if s.typ == Some(TArray) && s.items.Some? {
      forall i | 0 <= i < |v.elements| ensures Conforms(v.elements[i], s.items.value, false) {
        StrictImpliesLax(v.elements[i], s.items.value);
      }
    }
  }

  // ---------------------------------------------------------------- merge and inference

  /** `mergeSchemas` on two schemas that are both there. */
  function MergeSchemas(l: Schema, r: Schema): Schema
    decreases l
  {
    if l.typ != r.typ then ANY
    else
      var enum := if l.enum.Some? && r.enum.Some? then Common(l.enum.value, r.enum.value) else [];
      Schema(l.typ,
             if enum == [] then None else Some(enum),
             if l.typ == Some(TObject) then l.required * r.required * l.properties.Keys * r.properties.Keys else {},
             if l.typ == Some(TObject)
             then map k | k in l.properties && k in r.properties :: MergeSchemas(l.properties[k], r.properties[k]) else map[],
             if l.typ != Some(TArray) then None
             else if l.items.None? then r.items
             else if r.items.None? then l.items
             else Some(MergeSchemas(l.items.value, r.items.value)))
  }

  /** `mergeSchemas`, where either side may be missing. */
  function Merge(l: Option<Schema>, r: Option<Schema>): Option<Schema> {
    if l.None? then r else if r.None? then l else Some(MergeSchemas(l.value, r.value))
  }

  /** The entries of `xs` that also occur in `ys`, in the order of `xs`. */
  function Common(xs: seq<Value>, ys: seq<Value>): (r: seq<Value>)
    ensures forall v :: v in r <==> v in xs && v in ys
  {
    if xs == [] then []
    else (if xs[0] in ys then [xs[0]] else []) + Common(xs[1..], ys)
  }

  /** `inferSchema`; None when the body is nested too deeply or too wide. */
  function Infer(v: Value, depth: nat): Option<Schema>
    decreases v
  {
    if depth > MAX_SCHEMA_DEPTH then None
    else
      match v
      case Null => Some(OfType(TNull))
      case Str(_) => Some(OfType(TString))
      case Bool(_) => Some(OfType(TBoolean))
      case Num(n) => Some(OfType(if n == n.Floor as real then TInteger else TNumber))
      case Arr(es) =>
        if es == [] then Some(OfType(TArray))
        else
          var items := InferElements(es, depth + 1);
          if items.None? then None else Some(OfType(TArray).(items := items))
      case Obj(fields) =>
        if |fields| > MAX_PROPERTIES || exists k :: k in fields && Infer(fields[k], depth + 1).None? then None
        else Some(OfType(TObject).(required := fields.Keys,
                                   properties := map k | k in fields :: Infer(fields[k], depth + 1).value))
  }

  /** The left fold over an array's elements. */
  function InferElements(es: seq<Value>, depth: nat): Option<Schema>
    requires es != []
    decreases es
  {
    var last := Infer(es[|es| - 1], depth);
    if |es| == 1 then last
    else
      var init := InferElements(es[..|es| - 1], depth);
      if init.None? || last.None? then None else Some(MergeSchemas(init.value, last.value))
  }

  // ---------------------------------------------------------------- what inference produces

  /** The shape of inferred schemas: no enums, and each keyword only where it belongs. */
  ghost predicate Inferred(s: Schema) {
    && s.enum.None?
    && (s.typ != Some(TObject) ==> s.properties == map[])
    && s.required <= s.properties.Keys
    && (s.items.Some? ==> s.typ == Some(TArray) && Inferred(s.items.value))
    && forall k :: k in s.properties ==> Inferred(s.properties[k])
  }

  lemma {:induction false} MergeInferred(l: Schema, r: Schema)
    requires Inferred(l) && Inferred(r)
    ensures Inferred(MergeSchemas(l, r))
    decreases l
  {
    if l.typ == r.typ {
      var m := MergeSchemas(l, r);
      forall k | k in m.properties ensures Inferred(m.properties[k]) {
        MergeInferred(l.properties[k], r.properties[k]);
      }
      if l.items.Some? && r.items.Some? { MergeInferred(l.items.value, r.items.value); }
    }
  }

  /** Merge is an upper bound at every depth: what either side describes, the merge does. */
  lemma {:induction false} MergeUpperBound(v: Value, l: Schema, r: Schema)
    requires Inferred(l) && Inferred(r)
    requires Conforms(v, l, true) || Conforms(v, r, true)
    ensures Conforms(v, MergeSchemas(l, r), true)
    decreases v
  {
    if l.typ == r.typ {
      var m := MergeSchemas(l, r);
      if l.typ == Some(TObject) {
        forall k | k in v.fields && k in m.properties ensures Conforms(v.fields[k], m.properties[k], true) {
          MergeUpperBound(v.fields[k], l.properties[k], r.properties[k]);
        }
      } else if l.typ == Some(TArray) && l.items.Some? && r.items.Some? {
        forall i | 0 <= i < |v.elements| ensures Conforms(v.elements[i], m.items.value, true) {
          MergeUpperBound(v.elements[i], l.items.value, r.items.value);
        }
      }
    }
  }

  /** Inference is sound: a body conforms to the schema inferred from it. */
  lemma {:induction false} InferSound(v: Value, depth: nat)
    requires Infer(v, depth).Some?
    ensures Inferred(Infer(v, depth).value)
    ensures Conforms(v, Infer(v, depth).value, true)
    decreases v
  {
    match v
    case Arr(es) =>
      if es != [] {
        InferElementsSound(es, depth + 1);
      }
    case Obj(fields) =>
      forall k | k in fields
        ensures Inferred(Infer(fields[k], depth + 1).value) && Conforms(fields[k], Infer(fields[k], depth + 1).value, true)
      {
        InferSound(fields[k], depth + 1);
      }
    case _ =>
  }

  lemma {:induction false} InferElementsSound(es: seq<Value>, depth: nat)
    requires es != [] && InferElements(es, depth).Some?
    ensures Inferred(InferElements(es, depth).value)
    ensures forall i :: 0 <= i < |es| ==> Conforms(es[i], InferElements(es, depth).value, true)
    decreases es
  {
    var n := |es| - 1;
    InferSound(es[n], depth);
    if n > 0 {
      InferElementsSound(es[..n], depth);
      var init, last := InferElements(es[..n], depth).value, Infer(es[n], depth).value;
      MergeInferred(init, last);
      forall i | 0 <= i < |es| ensures Conforms(es[i], MergeSchemas(init, last), true) {
        assert i < n ==> Conforms(es[..n][i], init, true);
        MergeUpperBound(es[i], init, last);
      }
    }
  }

  // ---------------------------------------------------------------- the algebra of merge

  lemma {:induction false} MergeIdempotent(s: Schema)
    requires Inferred(s)
    ensures MergeSchemas(s, s) == s
  {
    var m := MergeSchemas(s, s);
    forall k | k in s.properties ensures MergeSchemas(s.properties[k], s.properties[k]) == s.properties[k] {
      MergeIdempotent(s.properties[k]);
    }
    if s.items.Some? { MergeIdempotent(s.items.value); }
    assert m.properties == s.properties;
  }

  lemma {:induction false} MergeCommutes(l: Schema, r: Schema)
    requires Inferred(l) && Inferred(r)
    ensures MergeSchemas(l, r) == MergeSchemas(r, l)
    decreases l
  {
    if l.typ == r.typ {
      var lr, rl := MergeSchemas(l, r), MergeSchemas(r, l);
      forall k | k in l.properties && k in r.properties
        ensures MergeSchemas(l.properties[k], r.properties[k]) == MergeSchemas(r.properties[k], l.properties[k])
      {
        MergeCommutes(l.properties[k], r.properties[k]);
      }
      if l.items.Some? && r.items.Some? { MergeCommutes(l.items.value, r.items.value); }
      assert lr.properties == rl.properties;
    }
  }

  lemma {:induction false} MergeAssociates(a: Schema, b: Schema, c: Schema)
    requires Inferred(a) && Inferred(b) && Inferred(c)
    ensures MergeSchemas(MergeSchemas(a, b), c) == MergeSchemas(a, MergeSchemas(b, c))
    decreases a
  {
    if a.typ == b.typ == c.typ {
      var ab, bc := MergeSchemas(a, b), MergeSchemas(b, c);
      var pa, pb, pc := a.properties, b.properties, c.properties;
      forall k | k in pa && k in pb && k in pc
        ensures MergeSchemas(MergeSchemas(pa[k], pb[k]), pc[k]) == MergeSchemas(pa[k], MergeSchemas(pb[k], pc[k]))
      {
        MergeAssociates(pa[k], pb[k], pc[k]);
      }
      if a.items.Some? && b.items.Some? && c.items.Some? { MergeAssociates(a.items.value, b.items.value, c.items.value); }
      var x, y := MergeSchemas(ab, c), MergeSchemas(a, bc);
      assert x.properties == y.properties;
      assert x.items == y.items;
    }
  }

  // ---------------------------------------------------------------- why inference avoids enums

  /** Wherever both schemas list values and have some in common, both list v's part there. */
  predicate EnumsAgree(v: Value, l: Schema, r: Schema)
    decreases v
  {
    l.typ == r.typ ==>
      && (l.enum.Some? && r.enum.Some? && Common(l.enum.value, r.enum.value) != [] ==> v in l.enum.value && v in r.enum.value)
      && (l.typ == Some(TObject) && v.Obj? ==>
            forall k :: k in v.fields && k in l.properties && k in r.properties ==> EnumsAgree(v.fields[k], l.properties[k], r.properties[k]))
      && (l.typ == Some(TArray) && v.Arr? && l.items.Some? && r.items.Some? ==>
            forall i :: 0 <= i < |v.elements| ==> EnumsAgree(v.elements[i], l.items.value, r.items.value))
  }

  /** For all schemas, enums included, at any depth: what one side describes is described by
      the merge exactly when it is in every intersection of enums it meets. */
  lemma {:induction false} MergeOfEnumsExact(v: Value, l: Schema, r: Schema)
    requires Conforms(v, l, true) || Conforms(v, r, true)
    ensures Conforms(v, MergeSchemas(l, r), true) <==> EnumsAgree(v, l, r)
    decreases v
  {
    if l.typ == r.typ {
      var m := MergeSchemas(l, r);
      if l.typ == Some(TObject) {
        forall k | k in v.fields && k in m.properties
          ensures Conforms(v.fields[k], m.properties[k], true) <==> EnumsAgree(v.fields[k], l.properties[k], r.properties[k])
        {
          MergeOfEnumsExact(v.fields[k], l.properties[k], r.properties[k]);
        }
      } else if l.typ == Some(TArray) && l.items.Some? && r.items.Some? {
        forall i | 0 <= i < |v.elements|
          ensures Conforms(v.elements[i], m.items.value, true) <==> EnumsAgree(v.elements[i], l.items.value, r.items.value)
        {
          MergeOfEnumsExact(v.elements[i], l.items.value, r.items.value);
        }
      }
    }
  }

  /** Merging the values a and b with b and c leaves a schema that rejects a. Inferred schemas
      have no enums, so folding observations never gets here. */
  lemma MergeOfEnumsLosesValues()
    ensures var ab := OfType(TString).(enum := Some([Str("a"), Str("b")]));
            var bc := OfType(TString).(enum := Some([Str("b"), Str("c")]));
            Conforms(Str("a"), ab, true) && !Conforms(Str("a"), MergeSchemas(ab, bc), true)
  {
    var ab := OfType(TString).(enum := Some([Str("a"), Str("b")]));
    var bc := OfType(TString).(enum := Some([Str("b"), Str("c")]));
    assert Str("b") in Common(ab.enum.value, bc.enum.value);
    assert Str("a") !in bc.enum.value;
  }
}
