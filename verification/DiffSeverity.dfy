/** Which findings a comparison yields, kind by kind and severity by severity, said of the
    two schemas and the two contracts alone. */
module DiffSeverity {
  import opened Options
  import opened Schemas
  import opened ContractInference
  import opened ContractDiff

  /** No finding of this kind and severity. */
  ghost predicate Lacks(fs: set<Finding>, kind: Kind, severity: Severity) {
    forall f :: f in fs ==> !(f.kind == kind && f.severity == severity)
  }

  ghost predicate LacksSeverity(fs: set<Finding>, severity: Severity) { forall f :: f in fs ==> f.severity != severity }

  lemma LacksUnion(x: set<Finding>, y: set<Finding>, kind: Kind, severity: Severity)
    ensures Lacks(x + y, kind, severity) <==> Lacks(x, kind, severity) && Lacks(y, kind, severity)
  {
  }

  lemma LacksAll(fs: set<Finding>, severity: Severity)
    ensures LacksSeverity(fs, severity) <==> forall kind :: Lacks(fs, kind, severity)
  {
    if forall kind :: Lacks(fs, kind, severity) {
      forall f | f in fs ensures f.severity != severity { assert Lacks(fs, f.kind, severity); }
    }
  }

  // ---------------------------------------------------------------- one schema node

  /** How serious each change of a node is for requests and for responses. */
  function Weight(kind: Kind, d: Direction): Severity {
    match kind
    case SchemaTypeChanged => Breaking
    case SchemaPresenceChanged => Uncertain
    case EnumPresenceChanged => Uncertain
    case EnumValueRemoved => Breaking
    case EnumValueAdded => if d == Request then NonBreaking else Uncertain
    case RequiredFieldAdded => if d == Request then Breaking else Uncertain
    case RequiredFieldRemoved => if d == Request then NonBreaking else Breaking
    case PropertyRemoved => if d == Request then Uncertain else Breaking
    case PropertyAdded => if d == Request then NonBreaking else Uncertain
    case EndpointRemoved => Breaking
    case EndpointAdded => NonBreaking
    case StatusRemoved => Breaking
    case StatusAdded => Uncertain
  }

  /** The change that a kind of finding reports is not there between these two nodes. */
  ghost predicate Unchanged(b: Schema, a: Schema, kind: Kind) {
    match kind
    case SchemaTypeChanged => b.typ == a.typ
    case SchemaPresenceChanged => b.items.None? == a.items.None?
    case EnumPresenceChanged => b.enum.None? == a.enum.None?
    case EnumValueRemoved => b.enum.Some? && a.enum.Some? ==> forall v :: v in b.enum.value ==> v in a.enum.value
    case EnumValueAdded => b.enum.Some? && a.enum.Some? ==> forall v :: v in a.enum.value ==> v in b.enum.value
    case RequiredFieldAdded => forall k :: k in a.required ==> k in b.required
    case RequiredFieldRemoved => forall k :: k in b.required ==> k in a.required
    case PropertyRemoved => forall k :: k in b.properties ==> k in a.properties
    case PropertyAdded => forall k :: k in a.properties ==> k in b.properties
    case _ => true
  }

  lemma PerFieldLacks(fields: set<string>, own: Kind, loc: seq<Step>, sev: Severity, kind: Kind, severity: Severity)
    ensures Lacks(PerField(fields, own, loc, sev), kind, severity) <==> (own == kind && sev == severity ==> fields == {})
  {
    PerFieldAlike(fields, own, loc, sev);
    hide PerField;
    AlikeLack(PerField(fields, own, loc, sev), own, sev, kind, severity);
  }

  ghost predicate Alike(fs: set<Finding>, kind: Kind, severity: Severity) { forall f :: f in fs ==> f.kind == kind && f.severity == severity }

  lemma PerFieldAlike(fields: set<string>, own: Kind, loc: seq<Step>, sev: Severity)
    ensures Alike(PerField(fields, own, loc, sev), own, sev)
    ensures PerField(fields, own, loc, sev) == {} <==> fields == {}
  {
    if fields != {} {
      var k :| k in fields;
      assert Finding(own, loc + [Field(k)], sev) in PerField(fields, own, loc, sev);
    }
  }

  lemma AlikeLack(fs: set<Finding>, own: Kind, sev: Severity, kind: Kind, severity: Severity)
    requires Alike(fs, own, sev)
    ensures Lacks(fs, kind, severity) <==> (own == kind && sev == severity ==> fs == {})
  {
    if fs != {} {
      var f :| f in fs;
    }
  }

  lemma EnumLacks(b: Schema, a: Schema, loc: seq<Step>, d: Direction, kind: Kind, severity: Severity)
    ensures Lacks(DiffEnum(b.enum, a.enum, loc, d), kind, severity) <==>
      (severity == Weight(kind, d) && kind in {EnumPresenceChanged, EnumValueRemoved, EnumValueAdded} ==> Unchanged(b, a, kind))
  {
    var fs := DiffEnum(b.enum, a.enum, loc, d);
    if b.enum.Some? && a.enum.Some? {
      forall v | v in b.enum.value && v !in a.enum.value ensures Finding(EnumValueRemoved, loc + [EnumValue(v)], Breaking) in fs {}
      forall v | v in a.enum.value && v !in b.enum.value
        ensures Finding(EnumValueAdded, loc + [EnumValue(v)], if d == Request then NonBreaking else Uncertain) in fs {}
    } else if b.enum.Some? || a.enum.Some? {
      assert Finding(EnumPresenceChanged, loc, Uncertain) in fs;
    }
  }

  /** The findings about one node itself. */
  lemma OwnLacks(b: Schema, a: Schema, loc: seq<Step>, d: Direction, kind: Kind, severity: Severity)
    ensures Lacks(OwnFindings(b, a, loc, d), kind, severity) <==>
      (severity == Weight(kind, d) && kind != SchemaTypeChanged && kind != SchemaPresenceChanged ==> Unchanged(b, a, kind))
  {
    hide DiffEnum, PerField, Lacks;
    var e := DiffEnum(b.enum, a.enum, loc, d);
    var s0, s1 := if d == Request then Breaking else Uncertain, if d == Response then Breaking else NonBreaking;
    var s2, s3 := if d == Response then Breaking else Uncertain, if d == Request then NonBreaking else Uncertain;
    var f0, f1 := a.required - b.required, b.required - a.required;
    var f2, f3 := b.properties.Keys - a.properties.Keys, a.properties.Keys - b.properties.Keys;
    var p0, p1 := PerField(f0, RequiredFieldAdded, loc, s0), PerField(f1, RequiredFieldRemoved, loc, s1);
    var p2, p3 := PerField(f2, PropertyRemoved, loc, s2), PerField(f3, PropertyAdded, loc, s3);
    EnumLacks(b, a, loc, d, kind, severity);
    PerFieldLacks(f0, RequiredFieldAdded, loc, s0, kind, severity);
    PerFieldLacks(f1, RequiredFieldRemoved, loc, s1, kind, severity);
    PerFieldLacks(f2, PropertyRemoved, loc, s2, kind, severity);
    PerFieldLacks(f3, PropertyAdded, loc, s3, kind, severity);
    LacksUnion(e, p0, kind, severity);
    LacksUnion(e + p0, p1, kind, severity);
    LacksUnion(e + p0 + p1, p2, kind, severity);
    LacksUnion(e + p0 + p1 + p2, p3, kind, severity);
    NoneAdded(f0, a.required, b.required);
    NoneAdded(f1, b.required, a.required);
    NoneAdded(f2, b.properties.Keys, a.properties.Keys);
    NoneAdded(f3, a.properties.Keys, b.properties.Keys);
  }

  lemma NoneAdded(d: set<string>, x: set<string>, y: set<string>)
    requires d == x - y
    ensures d == {} <==> forall k :: k in x ==> k in y
  {
    assert d != {} ==> exists k :: k in d;
    forall k | k in x ensures k in y || k in d {}
  }

  // ---------------------------------------------------------------- whole schemas

  /** The change is nowhere: not here and, where the types agree, not below in a shared
      property or in the items. */
  ghost predicate Nowhere(b: Schema, a: Schema, kind: Kind)
    decreases b
  {
    if b.typ != a.typ then kind != SchemaTypeChanged
    else
      && Unchanged(b, a, kind)
      && (forall k :: k in b.properties && k in a.properties ==> Nowhere(b.properties[k], a.properties[k], kind))
      && (b.items.Some? && a.items.Some? ==> Nowhere(b.items.value, a.items.value, kind))
  }

  /** The findings in shared properties. */
  function InFields(b: Schema, a: Schema, loc: seq<Step>, d: Direction): set<Finding> {
    set k, f | k in b.properties && k in a.properties && f in DiffSchemas(b.properties[k], a.properties[k], loc + [Field(k)], d) :: f
  }

  /** The findings in the items. */
  function InItems(b: Schema, a: Schema, loc: seq<Step>, d: Direction): set<Finding> {
    if b.items.None? && a.items.None? then {}
    else if b.items.None? || a.items.None? then {Finding(SchemaPresenceChanged, loc + [Element], Uncertain)}
    else DiffSchemas(b.items.value, a.items.value, loc + [Element], d)
  }

  lemma DiffIs(b: Schema, a: Schema, loc: seq<Step>, d: Direction)
    requires b.typ == a.typ
    ensures DiffSchemas(b, a, loc, d) == OwnFindings(b, a, loc, d) + InFields(b, a, loc, d) + InItems(b, a, loc, d)
  {
    hide OwnFindings;
  }

  lemma FieldsLack(b: Schema, a: Schema, loc: seq<Step>, d: Direction, kind: Kind, severity: Severity)
    ensures Lacks(InFields(b, a, loc, d), kind, severity) <==>
      forall k :: k in b.properties && k in a.properties ==> Lacks(DiffSchemas(b.properties[k], a.properties[k], loc + [Field(k)], d), kind, severity)
  {
    hide DiffSchemas;
    var fs := InFields(b, a, loc, d);
    if Lacks(fs, kind, severity) {
      forall k | k in b.properties && k in a.properties ensures Lacks(DiffSchemas(b.properties[k], a.properties[k], loc + [Field(k)], d), kind, severity) {
        forall f | f in DiffSchemas(b.properties[k], a.properties[k], loc + [Field(k)], d) ensures f in fs {}
      }
    }
  }

  lemma ItemsLack(b: Schema, a: Schema, loc: seq<Step>, d: Direction, kind: Kind, severity: Severity)
    ensures Lacks(InItems(b, a, loc, d), kind, severity) <==>
      && (b.items.Some? && a.items.Some? ==> Lacks(DiffSchemas(b.items.value, a.items.value, loc + [Element], d), kind, severity))
      && (kind == SchemaPresenceChanged && severity == Uncertain ==> b.items.None? == a.items.None?)
  {
    hide DiffSchemas;
    var f := Finding(SchemaPresenceChanged, loc + [Element], Uncertain);
    assert b.items.None? != a.items.None? ==> InItems(b, a, loc, d) == {f} && f in {f};
  }

  /** A comparison yields a finding of a kind with its weight exactly when that change is
      somewhere in the schemas, and never with another severity. */
  lemma {:induction false} DiffExactly(b: Schema, a: Schema, loc: seq<Step>, d: Direction, kind: Kind, severity: Severity)
    ensures Lacks(DiffSchemas(b, a, loc, d), kind, severity) <==> severity != Weight(kind, d) || Nowhere(b, a, kind)
    decreases b
  {
    hide DiffSchemas, Lacks, Weight, Nowhere;
    if b.typ != a.typ {
      TypeExactly(b, a, loc, d, kind, severity);
    } else {
      forall k | k in b.properties && k in a.properties
        ensures Lacks(DiffSchemas(b.properties[k], a.properties[k], loc + [Field(k)], d), kind, severity)
           <==> severity != Weight(kind, d) || Nowhere(b.properties[k], a.properties[k], kind)
      {
        DiffExactly(b.properties[k], a.properties[k], loc + [Field(k)], d, kind, severity);
      }
      if b.items.Some? && a.items.Some? { DiffExactly(b.items.value, a.items.value, loc + [Element], d, kind, severity); }
      NodeExactly(b, a, loc, d, kind, severity);
    }
  }

  lemma TypeExactly(b: Schema, a: Schema, loc: seq<Step>, d: Direction, kind: Kind, severity: Severity)
    requires b.typ != a.typ
    ensures Lacks(DiffSchemas(b, a, loc, d), kind, severity) <==> severity != Weight(kind, d) || Nowhere(b, a, kind)
  {
    var f := Finding(SchemaTypeChanged, loc, Breaking);
    assert DiffSchemas(b, a, loc, d) == {f};
    assert f in {f};
  }

  lemma NodeExactly(b: Schema, a: Schema, loc: seq<Step>, d: Direction, kind: Kind, severity: Severity)
    requires b.typ == a.typ
    requires forall k :: k in b.properties && k in a.properties ==>
      (Lacks(DiffSchemas(b.properties[k], a.properties[k], loc + [Field(k)], d), kind, severity)
       <==> severity != Weight(kind, d) || Nowhere(b.properties[k], a.properties[k], kind))
    requires b.items.Some? && a.items.Some? ==>
      (Lacks(DiffSchemas(b.items.value, a.items.value, loc + [Element], d), kind, severity)
       <==> severity != Weight(kind, d) || Nowhere(b.items.value, a.items.value, kind))
    ensures Lacks(DiffSchemas(b, a, loc, d), kind, severity) <==> severity != Weight(kind, d) || Nowhere(b, a, kind)
  {
    hide DiffSchemas, OwnFindings, InFields, InItems, Lacks, Unchanged, Weight, Nowhere;
    DiffIs(b, a, loc, d);
    LacksUnion(OwnFindings(b, a, loc, d), InFields(b, a, loc, d), kind, severity);
    LacksUnion(OwnFindings(b, a, loc, d) + InFields(b, a, loc, d), InItems(b, a, loc, d), kind, severity);
    OwnLacks(b, a, loc, d, kind, severity);
    FieldsLack(b, a, loc, d, kind, severity);
    ItemsLack(b, a, loc, d, kind, severity);
    NowhereIs(b, a, kind);
    PresenceIs(b, a, d, kind);
  }

  lemma NowhereIs(b: Schema, a: Schema, kind: Kind)
    requires b.typ == a.typ
    ensures Nowhere(b, a, kind) <==>
      && Unchanged(b, a, kind)
      && (forall k :: k in b.properties && k in a.properties ==> Nowhere(b.properties[k], a.properties[k], kind))
      && (b.items.Some? && a.items.Some? ==> Nowhere(b.items.value, a.items.value, kind))
  {
    hide Unchanged;
  }

  /** The two kinds that are not about a node's own keywords. */
  lemma PresenceIs(b: Schema, a: Schema, d: Direction, kind: Kind)
    requires b.typ == a.typ
    ensures kind == SchemaTypeChanged ==> Unchanged(b, a, kind)
    ensures kind == SchemaPresenceChanged ==> (Unchanged(b, a, kind) <==> b.items.None? == a.items.None?) && Weight(kind, d) == Uncertain
  {
  }

  /** Nothing that existing callers rely on is taken away: types agree, no enum value is lost,
      no field becomes required in requests or stops being so in responses, no property goes
      from responses, and so on below. */
  ghost predicate Unbroken(b: Schema, a: Schema, d: Direction)
    decreases b
  {
    && b.typ == a.typ
    && (b.enum.Some? && a.enum.Some? ==> forall v :: v in b.enum.value ==> v in a.enum.value)
    && (d == Request ==> a.required <= b.required)
    && (d == Response ==> b.required <= a.required && b.properties.Keys <= a.properties.Keys)
    && (forall k :: k in b.properties && k in a.properties ==> Unbroken(b.properties[k], a.properties[k], d))
    && (b.items.Some? && a.items.Some? ==> Unbroken(b.items.value, a.items.value, d))
  }

  lemma {:induction false} UnbrokenKinds(b: Schema, a: Schema, d: Direction)
    ensures Unbroken(b, a, d) <==> forall kind :: Weight(kind, d) == Breaking ==> Nowhere(b, a, kind)
    decreases b
  {
    if b.typ == a.typ {
      forall k | k in b.properties && k in a.properties
        ensures Unbroken(b.properties[k], a.properties[k], d) <==> forall kind :: Weight(kind, d) == Breaking ==> Nowhere(b.properties[k], a.properties[k], kind)
      {
        UnbrokenKinds(b.properties[k], a.properties[k], d);
      }
      if b.items.Some? && a.items.Some? { UnbrokenKinds(b.items.value, a.items.value, d); }
      NodeKinds(b, a, d);
      hide Unchanged, Weight;
    } else {
      assert Weight(SchemaTypeChanged, d) == Breaking && !Nowhere(b, a, SchemaTypeChanged);
    }
  }

  /** The part of Unbroken about one node. */
  lemma NodeKinds(b: Schema, a: Schema, d: Direction)
    requires b.typ == a.typ
    ensures (forall kind :: Weight(kind, d) == Breaking ==> Unchanged(b, a, kind)) <==>
      && (b.enum.Some? && a.enum.Some? ==> forall v :: v in b.enum.value ==> v in a.enum.value)
      && (d == Request ==> a.required <= b.required)
      && (d == Response ==> b.required <= a.required && b.properties.Keys <= a.properties.Keys)
  {
    if forall kind :: Weight(kind, d) == Breaking ==> Unchanged(b, a, kind) {
      assert Unchanged(b, a, EnumValueRemoved);
      if d == Request { assert Unchanged(b, a, RequiredFieldAdded); }
      else { assert Unchanged(b, a, RequiredFieldRemoved) && Unchanged(b, a, PropertyRemoved); }
    }
  }

  /** A comparison has no breaking finding exactly when nothing is taken away. */
  lemma NoBreakingExactly(b: Schema, a: Schema, loc: seq<Step>, d: Direction)
    ensures LacksSeverity(DiffSchemas(b, a, loc, d), Breaking) <==> Unbroken(b, a, d)
  {
    hide DiffSchemas, Lacks, LacksSeverity, Unbroken, Nowhere, Weight;
    LacksAll(DiffSchemas(b, a, loc, d), Breaking);
    UnbrokenKinds(b, a, d);
    forall kind ensures Lacks(DiffSchemas(b, a, loc, d), kind, Breaking) <==> Breaking != Weight(kind, d) || Nowhere(b, a, kind) {
      DiffExactly(b, a, loc, d, kind, Breaking);
    }
  }

  // ---------------------------------------------------------------- whole contracts

  ghost predicate UnbrokenIfBoth(b: Option<Schema>, a: Option<Schema>, d: Direction) { b.Some? && a.Some? ==> Unbroken(b.value, a.value, d) }

  lemma SchemaUnbroken(b: Option<Schema>, a: Option<Schema>, loc: seq<Step>, d: Direction)
    ensures LacksSeverity(DiffSchema(b, a, loc, d), Breaking) <==> UnbrokenIfBoth(b, a, d)
  {
    hide DiffSchemas, Unbroken;
    if b.Some? && a.Some? { NoBreakingExactly(b.value, a.value, loc, d); }
  }

  ghost predicate UnbrokenOperation(b: Operation, a: Operation) {
    && UnbrokenIfBoth(b.request, a.request, Request)
    && (forall st :: st in b.responses ==> st in a.responses && UnbrokenIfBoth(b.responses[st], a.responses[st], Response))
  }

  lemma OperationUnbroken(key: Key, b: Operation, a: Operation)
    ensures LacksSeverity(DiffOperations(key, b, a), Breaking) <==> UnbrokenOperation(b, a)
  {
    hide DiffSchema, UnbrokenIfBoth;
    var fs := DiffOperations(key, b, a);
    SchemaUnbroken(b.request, a.request, [Endpoint(key), RequestBody], Request);
    forall f | f in DiffSchema(b.request, a.request, [Endpoint(key), RequestBody], Request) ensures f in fs {}
    forall st | st in b.responses && st !in a.responses ensures Finding(StatusRemoved, [Endpoint(key), Status(st)], Breaking) in fs {}
    forall st | st in b.responses && st in a.responses
      ensures LacksSeverity(DiffSchema(b.responses[st], a.responses[st], [Endpoint(key), Status(st)], Response), Breaking)
         <==> UnbrokenIfBoth(b.responses[st], a.responses[st], Response)
    {
      SchemaUnbroken(b.responses[st], a.responses[st], [Endpoint(key), Status(st)], Response);
    }
    forall st, f | st in b.responses && st in a.responses && f in DiffSchema(b.responses[st], a.responses[st], [Endpoint(key), Status(st)], Response)
      ensures f in fs {}
  }

  /** Comparing two contracts yields no breaking finding exactly when every endpoint and every
      status is still there and nothing is taken away from any shared schema. */
  lemma ContractUnbrokenExactly(b: Contract, a: Contract)
    ensures LacksSeverity(DiffContracts(b, a), Breaking) <==> forall k :: k in b ==> k in a && UnbrokenOperation(b[k], a[k])
  {
    hide DiffOperations, UnbrokenOperation;
    var fs := DiffContracts(b, a);
    forall k | k in b && k !in a ensures Finding(EndpointRemoved, [Endpoint(k)], Breaking) in fs {}
    forall k | k in b && k in a ensures LacksSeverity(DiffOperations(k, b[k], a[k]), Breaking) <==> UnbrokenOperation(b[k], a[k]) {
      OperationUnbroken(k, b[k], a[k]);
    }
    forall k, f | k in b && k in a && f in DiffOperations(k, b[k], a[k]) ensures f in fs {}
  }
}
