/** Where a contract diff reports what: the findings said location by location, from the two
    contracts alone. */
module DiffLocations {
  import opened Options
  import opened Schemas
  import opened ContractInference
  import opened ContractDiff
  import opened DiffSeverity

  /** The change of this kind that a node reports at p, a location relative to it. */
  ghost predicate Here(b: Schema, a: Schema, kind: Kind, p: seq<Step>) {
    if kind == SchemaTypeChanged then p == [] && b.typ != a.typ else b.typ == a.typ && InNode(b, a, kind, p)
  }

  ghost predicate InNode(b: Schema, a: Schema, kind: Kind, p: seq<Step>) {
    match kind
    case SchemaPresenceChanged => p == [Element] && b.items.None? != a.items.None?
    case EnumPresenceChanged => p == [] && b.enum.None? != a.enum.None?
    case EnumValueRemoved => |p| == 1 && p[0].EnumValue? && ValueLost(b.enum, a.enum, p[0].value)
    case EnumValueAdded => |p| == 1 && p[0].EnumValue? && ValueLost(a.enum, b.enum, p[0].value)
    case RequiredFieldAdded => |p| == 1 && p[0].Field? && p[0].name in a.required && p[0].name !in b.required
    case RequiredFieldRemoved => |p| == 1 && p[0].Field? && p[0].name in b.required && p[0].name !in a.required
    case PropertyRemoved => |p| == 1 && p[0].Field? && p[0].name in b.properties && p[0].name !in a.properties
    case PropertyAdded => |p| == 1 && p[0].Field? && p[0].name in a.properties && p[0].name !in b.properties
    case _ => false
  }

  predicate ValueLost(from: Option<seq<Value>>, to: Option<seq<Value>>, v: Value) {
    from.Some? && to.Some? && v in from.value && v !in to.value
  }

  /** The change is at p: here, or further down through shared properties and items of nodes
      whose types agree. */
  ghost predicate Reports(b: Schema, a: Schema, kind: Kind, p: seq<Step>)
    decreases |p|
  {
    Here(b, a, kind, p) || (b.typ == a.typ && p != [] && (InField(b, a, kind, p) || InElement(b, a, kind, p)))
  }

  ghost predicate InField(b: Schema, a: Schema, kind: Kind, p: seq<Step>)
    requires p != []
    decreases |p|, 0
  {
    p[0].Field? && p[0].name in b.properties && p[0].name in a.properties
    && Reports(b.properties[p[0].name], a.properties[p[0].name], kind, p[1..])
  }

  ghost predicate InElement(b: Schema, a: Schema, kind: Kind, p: seq<Step>)
    requires p != []
    decreases |p|, 0
  {
    p[0] == Element && b.items.Some? && a.items.Some? && Reports(b.items.value, a.items.value, kind, p[1..])
  }

  ghost predicate At(f: Finding, loc: seq<Step>, d: Direction) { loc <= f.location && f.severity == Weight(f.kind, d) }

  lemma PerFieldLocates(fields: set<string>, kind: Kind, loc: seq<Step>, severity: Severity, f: Finding)
    ensures f in PerField(fields, kind, loc, severity) <==>
      f.kind == kind && f.severity == severity && loc <= f.location
      && |f.location| == |loc| + 1 && f.location[|loc|].Field? && f.location[|loc|].name in fields
  {
    if loc <= f.location && |f.location| == |loc| + 1 { assert f.location == loc + [f.location[|loc|]]; }
  }

  lemma EnumLocates(b: Schema, a: Schema, loc: seq<Step>, d: Direction, f: Finding)
    requires b.typ == a.typ
    ensures f in DiffEnum(b.enum, a.enum, loc, d) <==>
      f.kind in {EnumPresenceChanged, EnumValueRemoved, EnumValueAdded} && At(f, loc, d) && Here(b, a, f.kind, f.location[|loc|..])
  {
    if loc <= f.location {
      var p := f.location[|loc|..];
      assert f.location == loc + p;
      if |p| == 1 { assert f.location == loc + [p[0]]; }
    }
    assert f.location == loc <==> loc <= f.location && f.location[|loc|..] == [];
    assert forall v :: f.location == loc + [EnumValue(v)] ==> f.location[|loc|..] == [EnumValue(v)];
  }

  lemma OwnLocates(b: Schema, a: Schema, loc: seq<Step>, d: Direction, f: Finding)
    requires b.typ == a.typ
    ensures f in OwnFindings(b, a, loc, d) <==> f.kind != SchemaPresenceChanged && At(f, loc, d) && Here(b, a, f.kind, f.location[|loc|..])
  {
    hide PerField, DiffEnum;
    EnumLocates(b, a, loc, d, f);
    PerFieldLocates(a.required - b.required, RequiredFieldAdded, loc, if d == Request then Breaking else Uncertain, f);
    PerFieldLocates(b.required - a.required, RequiredFieldRemoved, loc, if d == Response then Breaking else NonBreaking, f);
    PerFieldLocates(b.properties.Keys - a.properties.Keys, PropertyRemoved, loc, if d == Response then Breaking else Uncertain, f);
    PerFieldLocates(a.properties.Keys - b.properties.Keys, PropertyAdded, loc, if d == Request then NonBreaking else Uncertain, f);
  }

  lemma FieldsLocate(b: Schema, a: Schema, loc: seq<Step>, d: Direction, f: Finding)
    requires forall k :: k in b.properties && k in a.properties ==> Located(b.properties[k], a.properties[k], loc + [Field(k)], d, f)
    ensures f in InFields(b, a, loc, d) <==> At(f, loc, d) && |f.location| > |loc| && InField(b, a, f.kind, f.location[|loc|..])
  {
    hide DiffSchemas, Reports;
    if f in InFields(b, a, loc, d) {
      var k :| k in b.properties && k in a.properties && f in DiffSchemas(b.properties[k], a.properties[k], loc + [Field(k)], d);
      Deeper(loc, Field(k), f);
    }
    if At(f, loc, d) && |f.location| > |loc| && f.location[|loc|].Field? { Deeper(loc, f.location[|loc|], f); }
  }

  lemma ItemsLocate(b: Schema, a: Schema, loc: seq<Step>, d: Direction, f: Finding)
    requires b.typ == a.typ
    requires b.items.Some? && a.items.Some? ==> Located(b.items.value, a.items.value, loc + [Element], d, f)
    ensures f in InItems(b, a, loc, d) <==> At(f, loc, d) && |f.location| > |loc| && OfItems(b, a, f.kind, f.location[|loc|..])
  {
    hide DiffSchemas, Reports;
    Deeper(loc, Element, f);
  }

  ghost predicate OfItems(b: Schema, a: Schema, kind: Kind, p: seq<Step>)
    requires p != []
  {
    InElement(b, a, kind, p) || (kind == SchemaPresenceChanged && Here(b, a, kind, p))
  }

  /** One step more. */
  lemma Deeper(loc: seq<Step>, s: Step, f: Finding)
    ensures loc + [s] <= f.location <==> loc <= f.location && |f.location| > |loc| && f.location[|loc|] == s
    ensures loc + [s] <= f.location ==> f.location[|loc + [s]|..] == f.location[|loc|..][1..]
    ensures f.location == loc + [s] <==> loc <= f.location && f.location[|loc|..] == [s]
  {
    if loc <= f.location {
      assert f.location == loc + f.location[|loc|..];
      if |f.location| > |loc| { assert f.location[|loc|..] == [f.location[|loc|]] + f.location[|loc| + 1..]; }
    }
  }

  ghost predicate Located(b: Schema, a: Schema, loc: seq<Step>, d: Direction, f: Finding) {
    f in DiffSchemas(b, a, loc, d) <==> At(f, loc, d) && Reports(b, a, f.kind, f.location[|loc|..])
  }

  /** The findings of a comparison are exactly the changes of the two schemas, each at its own
      location and with the weight it has for requests or responses. */
  lemma {:induction false} DiffLocates(b: Schema, a: Schema, loc: seq<Step>, d: Direction, f: Finding)
    ensures f in DiffSchemas(b, a, loc, d) <==> At(f, loc, d) && Reports(b, a, f.kind, f.location[|loc|..])
    decreases b
  {
    if b.typ == a.typ {
      forall k | k in b.properties && k in a.properties ensures Located(b.properties[k], a.properties[k], loc + [Field(k)], d, f) {
        DiffLocates(b.properties[k], a.properties[k], loc + [Field(k)], d, f);
      }
      if b.items.Some? && a.items.Some? { DiffLocates(b.items.value, a.items.value, loc + [Element], d, f); }
      NodeLocates(b, a, loc, d, f);
    } else {
      assert f.location == loc <==> loc <= f.location && f.location[|loc|..] == [];
    }
  }

  lemma NodeLocates(b: Schema, a: Schema, loc: seq<Step>, d: Direction, f: Finding)
    requires b.typ == a.typ
    requires forall k :: k in b.properties && k in a.properties ==> Located(b.properties[k], a.properties[k], loc + [Field(k)], d, f)
    requires b.items.Some? && a.items.Some? ==> Located(b.items.value, a.items.value, loc + [Element], d, f)
    ensures Located(b, a, loc, d, f)
  {
    DiffIs(b, a, loc, d);
    OwnLocates(b, a, loc, d, f);
    FieldsLocate(b, a, loc, d, f);
    ItemsLocate(b, a, loc, d, f);
    hide DiffSchemas, OwnFindings, InFields, InItems, InField, InElement;
  }

  // ---------------------------------------------------------------- whole contracts

  /** A body that only one side has is reported as such; two bodies are compared. */
  ghost predicate BodyReports(b: Option<Schema>, a: Option<Schema>, kind: Kind, p: seq<Step>) {
    || (b.None? != a.None? && kind == SchemaPresenceChanged && p == [])
    || (b.Some? && a.Some? && Reports(b.value, a.value, kind, p))
  }

  lemma BodyLocates(b: Option<Schema>, a: Option<Schema>, loc: seq<Step>, d: Direction, f: Finding)
    ensures f in DiffSchema(b, a, loc, d) <==> At(f, loc, d) && BodyReports(b, a, f.kind, f.location[|loc|..])
  {
    hide DiffSchemas, Reports;
    if b.Some? && a.Some? { DiffLocates(b.value, a.value, loc, d, f); }
    assert f.location == loc <==> loc <= f.location && f.location[|loc|..] == [];
  }

  ghost predicate OperationReports(b: Operation, a: Operation, f: Finding)
    requires |f.location| >= 2
  {
    match f.location[1]
    case RequestBody => f.severity == Weight(f.kind, Request) && BodyReports(b.request, a.request, f.kind, f.location[2..])
    case Status(st) =>
      if st in b.responses && st in a.responses then
        f.severity == Weight(f.kind, Response) && BodyReports(b.responses[st], a.responses[st], f.kind, f.location[2..])
      else
        && |f.location| == 2
        && (|| (st in b.responses && f.kind == StatusRemoved && f.severity == Breaking)
            || (st in a.responses && f.kind == StatusAdded && f.severity == Uncertain))
    case _ => false
  }

  lemma OperationLocates(key: Key, b: Operation, a: Operation, f: Finding)
    ensures f in DiffOperations(key, b, a) <==> |f.location| >= 2 && f.location[0] == Endpoint(key) && OperationReports(b, a, f)
  {
    hide DiffSchema, BodyReports;
    BodyLocates(b.request, a.request, [Endpoint(key), RequestBody], Request, f);
    forall st | st in b.responses && st in a.responses
      ensures f in DiffSchema(b.responses[st], a.responses[st], [Endpoint(key), Status(st)], Response) <==>
        At(f, [Endpoint(key), Status(st)], Response) && BodyReports(b.responses[st], a.responses[st], f.kind, f.location[2..])
    {
      BodyLocates(b.responses[st], a.responses[st], [Endpoint(key), Status(st)], Response, f);
    }
    if |f.location| >= 2 {
      assert f.location == [f.location[0], f.location[1]] + f.location[2..];
      if |f.location| == 2 { assert f.location == [f.location[0], f.location[1]]; }
    }
  }

  ghost predicate EndpointReports(b: Contract, a: Contract, k: Key, f: Finding) {
    if k in b && k in a then |f.location| >= 2 && OperationReports(b[k], a[k], f)
    else
      && |f.location| == 1
      && (|| (k in b && f.kind == EndpointRemoved && f.severity == Breaking)
          || (k in a && f.kind == EndpointAdded && f.severity == NonBreaking))
  }

  /** The findings about two contracts are exactly their changes: endpoints and statuses on one
      side only, and the changes of every shared request and response schema, each at its own
      location and with its own severity. */
  lemma ContractLocates(b: Contract, a: Contract, f: Finding)
    ensures f in DiffContracts(b, a) <==> f.location != [] && f.location[0].Endpoint? && EndpointReports(b, a, f.location[0].key, f)
  {
    hide DiffOperations, OperationReports;
    forall k | k in b && k in a
      ensures f in DiffOperations(k, b[k], a[k]) <==> |f.location| >= 2 && f.location[0] == Endpoint(k) && OperationReports(b[k], a[k], f)
    {
      OperationLocates(k, b[k], a[k], f);
    }
    if |f.location| == 1 { assert f.location == [f.location[0]]; }
  }
}
