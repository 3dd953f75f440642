/** The compatibility checker: comparing two schemas, and two contracts, finding by finding.
    Findings form a set here; the code sorts them by id before it returns them. */
module ContractDiff {
  import opened Options
  import opened Schemas
  import opened ContractInference

  datatype Severity = Breaking | NonBreaking | Uncertain

  datatype Direction = Request | Response

  datatype Kind =
    | SchemaPresenceChanged | SchemaTypeChanged | RequiredFieldAdded | RequiredFieldRemoved
    | PropertyRemoved | PropertyAdded | EnumPresenceChanged | EnumValueRemoved | EnumValueAdded
    | EndpointRemoved | EndpointAdded | StatusRemoved | StatusAdded

  datatype Step =
    | Endpoint(key: Key) | RequestBody | Status(status: nat)
    | Field(name: string) | Element | EnumValue(value: Value)

  datatype Finding = Finding(kind: Kind, location: seq<Step>, severity: Severity)

  // ---------------------------------------------------------------- the findings

  function PerField(fields: set<string>, kind: Kind, loc: seq<Step>, severity: Severity): set<Finding> {
    set k | k in fields :: Finding(kind, loc + [Field(k)], severity)
  }

  function DiffEnum(b: Option<seq<Value>>, a: Option<seq<Value>>, loc: seq<Step>, d: Direction): set<Finding> {
    if b.None? || a.None? then
      if b.None? && a.None? then {} else {Finding(EnumPresenceChanged, loc, Uncertain)}
    else
      (set v | v in b.value && v !in a.value :: Finding(EnumValueRemoved, loc + [EnumValue(v)], Breaking))
      + (set v | v in a.value && v !in b.value ::
           Finding(EnumValueAdded, loc + [EnumValue(v)], if d == Request then NonBreaking else Uncertain))
  }

  /** The findings about one schema node itself. */
  function OwnFindings(b: Schema, a: Schema, loc: seq<Step>, d: Direction): set<Finding> {
    DiffEnum(b.enum, a.enum, loc, d)
    + PerField(a.required - b.required, RequiredFieldAdded, loc, if d == Request then Breaking else Uncertain)
    + PerField(b.required - a.required, RequiredFieldRemoved, loc, if d == Response then Breaking else NonBreaking)
    + PerField(b.properties.Keys - a.properties.Keys, PropertyRemoved, loc, if d == Response then Breaking else Uncertain)
    + PerField(a.properties.Keys - b.properties.Keys, PropertyAdded, loc, if d == Request then NonBreaking else Uncertain)
  }

  /** `diffSchema` on two schemas that are both there. */
  function DiffSchemas(b: Schema, a: Schema, loc: seq<Step>, d: Direction): set<Finding>
    decreases b
  {
    if b.typ != a.typ then {Finding(SchemaTypeChanged, loc, Breaking)}
    else
      OwnFindings(b, a, loc, d)
      + (set k, f | k in b.properties && k in a.properties
                    && f in DiffSchemas(b.properties[k], a.properties[k], loc + [Field(k)], d) :: f)
      + (if b.items.None? && a.items.None? then {}
         else if b.items.None? || a.items.None? then {Finding(SchemaPresenceChanged, loc + [Element], Uncertain)}
         else DiffSchemas(b.items.value, a.items.value, loc + [Element], d))
  }

  /** `diffSchema`, where either side may be missing. */
  function DiffSchema(b: Option<Schema>, a: Option<Schema>, loc: seq<Step>, d: Direction): set<Finding> {
    if b.None? && a.None? then {}
    else if b.None? || a.None? then {Finding(SchemaPresenceChanged, loc, Uncertain)}
    else DiffSchemas(b.value, a.value, loc, d)
  }

  /** No breaking and no uncertain finding. */
  ghost predicate Clean(fs: set<Finding>) {
    forall f :: f in fs ==> f.severity == NonBreaking
  }

  // ---------------------------------------------------------------- what a clean diff says

  ghost predicate CleanFacts(b: Schema, a: Schema, d: Direction) {
    && b.typ == a.typ
    && b.enum.None? == a.enum.None?
    && (b.enum.Some? ==> forall v :: v in b.enum.value ==> v in a.enum.value)
    && (b.enum.Some? && d == Response ==> forall v :: v in a.enum.value ==> v in b.enum.value)
    && a.required <= b.required && (d == Response ==> b.required <= a.required)
    && b.properties.Keys <= a.properties.Keys && (d == Response ==> a.properties.Keys <= b.properties.Keys)
    && b.items.None? == a.items.None?
  }

  lemma PerFieldClean(fields: set<string>, kind: Kind, loc: seq<Step>, severity: Severity)
    ensures Clean(PerField(fields, kind, loc, severity)) <==> severity == NonBreaking || fields == {}
  {
    if fields != {} {
      var k :| k in fields;
      assert Finding(kind, loc + [Field(k)], severity) in PerField(fields, kind, loc, severity);
    }
  }

  lemma EnumClean(b: Option<seq<Value>>, a: Option<seq<Value>>, loc: seq<Step>, d: Direction)
    ensures Clean(DiffEnum(b, a, loc, d)) <==>
      && b.None? == a.None?
      && (b.Some? ==> forall v :: v in b.value ==> v in a.value)
      && (b.Some? && d == Response ==> forall v :: v in a.value ==> v in b.value)
  {
    var fs := DiffEnum(b, a, loc, d);
    if b.Some? && a.Some? {
      forall v | v in b.value && v !in a.value ensures !Clean(fs) {
        assert Finding(EnumValueRemoved, loc + [EnumValue(v)], Breaking) in fs;
      }
      forall v | d == Response && v in a.value && v !in b.value ensures !Clean(fs) {
        assert Finding(EnumValueAdded, loc + [EnumValue(v)], Uncertain) in fs;
      }
    } else if b.Some? || a.Some? {
      assert Finding(EnumPresenceChanged, loc, Uncertain) in fs;
    }
  }

  /** A diff is clean exactly when nothing changed for the worse here, in any shared
      property, and in the items. */
  lemma CleanUnfolds(b: Schema, a: Schema, loc: seq<Step>, d: Direction)
    ensures Clean(DiffSchemas(b, a, loc, d)) <==>
      && CleanFacts(b, a, d)
      && (forall k :: k in b.properties && k in a.properties ==>
            Clean(DiffSchemas(b.properties[k], a.properties[k], loc + [Field(k)], d)))
      && (b.items.Some? ==> Clean(DiffSchemas(b.items.value, a.items.value, loc + [Element], d)))
  {
    hide OwnFindings;
    var fs := DiffSchemas(b, a, loc, d);
    if b.typ != a.typ {
      assert Finding(SchemaTypeChanged, loc, Breaking) in fs;
    } else {
      OwnClean(b, a, loc, d);
      var own := OwnFindings(b, a, loc, d);
      assert b.items.None? != a.items.None? ==> Finding(SchemaPresenceChanged, loc + [Element], Uncertain) in fs;
      if Clean(fs) {
        SubsetClean(own, fs);
        forall k | k in b.properties && k in a.properties
          ensures Clean(DiffSchemas(b.properties[k], a.properties[k], loc + [Field(k)], d))
        {
          SubsetClean(DiffSchemas(b.properties[k], a.properties[k], loc + [Field(k)], d), fs);
        }
        if b.items.Some? { SubsetClean(DiffSchemas(b.items.value, a.items.value, loc + [Element], d), fs); }
      } else {
        var f :| f in fs && f.severity != NonBreaking;
        if f !in own && !(b.items.Some? && a.items.Some? && f in DiffSchemas(b.items.value, a.items.value, loc + [Element], d))
           && b.items.None? == a.items.None? {
          var k :| k in b.properties && k in a.properties && f in DiffSchemas(b.properties[k], a.properties[k], loc + [Field(k)], d);
        }
      }
    }
  }

  lemma SubsetClean(x: set<Finding>, y: set<Finding>)
    requires x <= y && Clean(y)
    ensures Clean(x)
  {
  }

  lemma UnionClean(x: set<Finding>, y: set<Finding>, z: set<Finding>)
    ensures Clean(x + y + z) <==> Clean(x) && Clean(y) && Clean(z)
  {
    if Clean(x + y + z) { SubsetClean(x, x + y + z); SubsetClean(y, x + y + z); SubsetClean(z, x + y + z); }
  }

  lemma EmptyDifference(x: set<string>, y: set<string>)
    ensures x - y == {} <==> x <= y
  {
    if x <= y { assert x - y == {}; } else { var e :| e in x && e !in y; assert e in x - y; }
  }

  lemma OwnClean(b: Schema, a: Schema, loc: seq<Step>, d: Direction)
    requires b.typ == a.typ
    ensures Clean(OwnFindings(b, a, loc, d)) && b.items.None? == a.items.None? <==> CleanFacts(b, a, d)
  {
    hide DiffEnum, PerField;
    var e := DiffEnum(b.enum, a.enum, loc, d);
    var c0, c1 := if d == Request then Breaking else Uncertain, if d == Response then Breaking else NonBreaking;
    var c2, c3 := if d == Response then Breaking else Uncertain, if d == Request then NonBreaking else Uncertain;
    var p0 := PerField(a.required - b.required, RequiredFieldAdded, loc, c0);
    var p1 := PerField(b.required - a.required, RequiredFieldRemoved, loc, c1);
    var p2 := PerField(b.properties.Keys - a.properties.Keys, PropertyRemoved, loc, c2);
    var p3 := PerField(a.properties.Keys - b.properties.Keys, PropertyAdded, loc, c3);
    EnumClean(b.enum, a.enum, loc, d);
    PerFieldClean(a.required - b.required, RequiredFieldAdded, loc, c0);
    PerFieldClean(b.required - a.required, RequiredFieldRemoved, loc, c1);
    PerFieldClean(b.properties.Keys - a.properties.Keys, PropertyRemoved, loc, c2);
    PerFieldClean(a.properties.Keys - b.properties.Keys, PropertyAdded, loc, c3);
    UnionClean(e, p0, p1);
    UnionClean(e + p0 + p1, p2, p3);
    EmptyDifference(a.required, b.required);
    EmptyDifference(b.required, a.required);
    EmptyDifference(b.properties.Keys, a.properties.Keys);
    EmptyDifference(a.properties.Keys, b.properties.Keys);
  }

  // ---------------------------------------------------------------- requests

  /** Only declared fields occur in v, at every depth that the schema describes. */
  predicate OnlyDeclared(v: Value, s: Schema)
    decreases v
  {
    && (s.typ == Some(TObject) && v.Obj? ==>
          v.fields.Keys <= s.properties.Keys && forall k :: k in v.fields && k in s.properties ==> OnlyDeclared(v.fields[k], s.properties[k]))
    && (s.typ == Some(TArray) && v.Arr? && s.items.Some? ==>
          forall i :: 0 <= i < |v.elements| ==> OnlyDeclared(v.elements[i], s.items.value))
  }

  /** Where the new schema declares a field that the old one did not, v has no such field or
      one that fits, at every depth that both schemas describe. */
  predicate NewFieldsFit(v: Value, b: Schema, a: Schema, strict: bool)
    decreases v
  {
    && (b.typ == Some(TObject) && v.Obj? ==>
          forall k :: k in v.fields && k in a.properties ==>
            if k in b.properties then NewFieldsFit(v.fields[k], b.properties[k], a.properties[k], strict)
            else Conforms(v.fields[k], a.properties[k], strict))
    && (b.typ == Some(TArray) && v.Arr? && b.items.Some? && a.items.Some? ==>
          forall i :: 0 <= i < |v.elements| ==> NewFieldsFit(v.elements[i], b.items.value, a.items.value, strict))
  }

  /** A clean request diff: a value accepted before is accepted after exactly when its fields
      that are newly declared fit, at any depth and under both readings of item-less arrays. */
  lemma {:induction false} CleanRequestExact(v: Value, b: Schema, a: Schema, loc: seq<Step>, strict: bool)
    requires Clean(DiffSchemas(b, a, loc, Request)) && Conforms(v, b, strict)
    ensures Conforms(v, a, strict) <==> NewFieldsFit(v, b, a, strict)
    decreases v
  {
    hide DiffSchemas, Clean;
    CleanUnfolds(b, a, loc, Request);
    if b.typ == Some(TObject) {
      forall k | k in v.fields && k in b.properties
        ensures Conforms(v.fields[k], a.properties[k], strict) <==> NewFieldsFit(v.fields[k], b.properties[k], a.properties[k], strict)
      {
        CleanRequestExact(v.fields[k], b.properties[k], a.properties[k], loc + [Field(k)], strict);
      }
    } else if b.typ == Some(TArray) && b.items.Some? {
      forall i | 0 <= i < |v.elements|
        ensures Conforms(v.elements[i], a.items.value, strict) <==> NewFieldsFit(v.elements[i], b.items.value, a.items.value, strict)
      {
        CleanRequestExact(v.elements[i], b.items.value, a.items.value, loc + [Element], strict);
      }
    }
  }

  /** Where only declared fields occur there is nothing newly declared to fit. */
  lemma {:induction false} DeclaredFieldsFit(v: Value, b: Schema, a: Schema, loc: seq<Step>, strict: bool)
    requires Clean(DiffSchemas(b, a, loc, Request)) && OnlyDeclared(v, b)
    ensures NewFieldsFit(v, b, a, strict) && OnlyDeclared(v, a)
    decreases v
  {
    hide DiffSchemas, Clean;
    CleanUnfolds(b, a, loc, Request);
    if b.typ == Some(TObject) && v.Obj? {
      forall k | k in v.fields
        ensures NewFieldsFit(v.fields[k], b.properties[k], a.properties[k], strict) && OnlyDeclared(v.fields[k], a.properties[k])
      {
        DeclaredFieldsFit(v.fields[k], b.properties[k], a.properties[k], loc + [Field(k)], strict);
      }
    } else if b.typ == Some(TArray) && v.Arr? && b.items.Some? {
      forall i | 0 <= i < |v.elements|
        ensures NewFieldsFit(v.elements[i], b.items.value, a.items.value, strict) && OnlyDeclared(v.elements[i], a.items.value)
      {
        DeclaredFieldsFit(v.elements[i], b.items.value, a.items.value, loc + [Element], strict);
      }
    }
  }

  /** In particular every value with declared fields only that was accepted before is accepted
      after, and still has declared fields only. */
  lemma CleanRequestAccepts(v: Value, b: Schema, a: Schema, loc: seq<Step>, strict: bool)
    requires Clean(DiffSchemas(b, a, loc, Request))
    requires Conforms(v, b, strict) && OnlyDeclared(v, b)
    ensures Conforms(v, a, strict) && OnlyDeclared(v, a)
  {
    hide DiffSchemas, Clean, Conforms, OnlyDeclared, NewFieldsFit;
    CleanRequestExact(v, b, a, loc, strict);
    DeclaredFieldsFit(v, b, a, loc, strict);
  }

  /** Undeclared fields do matter: declaring one is a clean change, yet a value that already
      carried it with another type is no longer accepted. */
  lemma CleanRequestNeedsDeclaredFields()
    ensures var b := OfType(TObject);
            var a := b.(properties := map["x" := OfType(TString)]);
            var v := Obj(map["x" := Null]);
            Clean(DiffSchemas(b, a, [], Request)) && Conforms(v, b, true) && !Conforms(v, a, true)
  {
    var b := OfType(TObject);
    var a := b.(properties := map["x" := OfType(TString)]);
    var v := Obj(map["x" := Null]);
    CleanUnfolds(b, a, [], Request);
    assert !Conforms(v.fields["x"], a.properties["x"], true);
  }

  // ---------------------------------------------------------------- responses

  /** A schema up to the order of enum values. */
  datatype Normal = Normal(
    typ: Option<Type>, enum: Option<set<Value>>, required: set<string>, properties: map<string, Normal>, items: Option<Normal>)

  function NormalOf(s: Schema): Normal {
    Normal(s.typ, if s.enum.None? then None else Some(set v | v in s.enum.value), s.required,
           map k | k in s.properties :: NormalOf(s.properties[k]),
           if s.items.None? then None else Some(NormalOf(s.items.value)))
  }

  /** A response diff is clean exactly when both schemas have the same normal form. */
  lemma {:induction false} CleanResponseExact(b: Schema, a: Schema, loc: seq<Step>)
    ensures Clean(DiffSchemas(b, a, loc, Response)) <==> NormalOf(b) == NormalOf(a)
    decreases b
  {
    hide DiffSchemas, Clean;
    CleanUnfolds(b, a, loc, Response);
    forall k | k in b.properties && k in a.properties
      ensures Clean(DiffSchemas(b.properties[k], a.properties[k], loc + [Field(k)], Response))
         <==> NormalOf(b.properties[k]) == NormalOf(a.properties[k])
    {
      CleanResponseExact(b.properties[k], a.properties[k], loc + [Field(k)]);
    }
    if b.items.Some? && a.items.Some? { CleanResponseExact(b.items.value, a.items.value, loc + [Element]); }
    SameNormal(b, a);
  }

  /** Equal normal forms, one level at a time. */
  lemma SameNormal(b: Schema, a: Schema)
    ensures NormalOf(b) == NormalOf(a) <==>
      && CleanFacts(b, a, Response)
      && (forall k :: k in b.properties && k in a.properties ==> NormalOf(b.properties[k]) == NormalOf(a.properties[k]))
      && (b.items.Some? ==> NormalOf(b.items.value) == NormalOf(a.items.value))
  {
    var nb, na := NormalOf(b), NormalOf(a);
    assert nb.properties.Keys == b.properties.Keys && na.properties.Keys == a.properties.Keys;
    if nb == na {
      forall k | k in b.properties && k in a.properties ensures NormalOf(b.properties[k]) == NormalOf(a.properties[k]) {
        assert nb.properties[k] == na.properties[k];
      }
      if b.enum.Some? {
        assert forall v :: v in b.enum.value <==> v in nb.enum.value;
        assert forall v :: v in a.enum.value <==> v in na.enum.value;
      }
    }
    if CleanFacts(b, a, Response)
       && (forall k :: k in b.properties && k in a.properties ==> NormalOf(b.properties[k]) == NormalOf(a.properties[k]))
       && (b.items.Some? ==> NormalOf(b.items.value) == NormalOf(a.items.value)) {
      assert nb.properties == na.properties;
      assert b.enum.Some? ==> nb.enum.value == na.enum.value;
    }
  }

  /** Schemas with one normal form accept exactly the same values. */
  lemma {:induction false} SameNormalSameValues(v: Value, b: Schema, a: Schema, strict: bool)
    requires NormalOf(b) == NormalOf(a)
    ensures Conforms(v, b, strict) <==> Conforms(v, a, strict)
    decreases v
  {
    hide NormalOf;
    SameNormal(b, a);
    if b.typ == Some(TObject) && v.Obj? {
      forall k | k in v.fields && k in b.properties
        ensures Conforms(v.fields[k], b.properties[k], strict) <==> Conforms(v.fields[k], a.properties[k], strict)
      {
        SameNormalSameValues(v.fields[k], b.properties[k], a.properties[k], strict);
      }
    } else if b.typ == Some(TArray) && v.Arr? && b.items.Some? {
      forall i | 0 <= i < |v.elements|
        ensures Conforms(v.elements[i], b.items.value, strict) <==> Conforms(v.elements[i], a.items.value, strict)
      {
        SameNormalSameValues(v.elements[i], b.items.value, a.items.value, strict);
      }
    }
  }

  /** A clean response diff: both schemas accept exactly the same values. */
  lemma CleanResponseSame(v: Value, b: Schema, a: Schema, loc: seq<Step>, strict: bool)
    requires Clean(DiffSchemas(b, a, loc, Response))
    ensures Conforms(v, b, strict) <==> Conforms(v, a, strict)
  {
    CleanResponseExact(b, a, loc);
    SameNormalSameValues(v, b, a, strict);
  }

  // ---------------------------------------------------------------- whole contracts

  function DiffOperations(key: Key, b: Operation, a: Operation): set<Finding> {
    DiffSchema(b.request, a.request, [Endpoint(key), RequestBody], Request)
    + (set st | st in b.responses && st !in a.responses :: Finding(StatusRemoved, [Endpoint(key), Status(st)], Breaking))
    + (set st | st in a.responses && st !in b.responses :: Finding(StatusAdded, [Endpoint(key), Status(st)], Uncertain))
    + (set st, f | st in b.responses && st in a.responses
                   && f in DiffSchema(b.responses[st], a.responses[st], [Endpoint(key), Status(st)], Response) :: f)
  }

  /** `diffContracts`, without the provider capability section. */
  function DiffContracts(b: Contract, a: Contract): set<Finding> {
    (set k | k in b && k !in a :: Finding(EndpointRemoved, [Endpoint(k)], Breaking))
    + (set k | k in a && k !in b :: Finding(EndpointAdded, [Endpoint(k)], NonBreaking))
    + (set k, f | k in b && k in a && f in DiffOperations(k, b[k], a[k]) :: f)
  }

  lemma CleanOperations(b: Contract, a: Contract, k: Key)
    requires Clean(DiffContracts(b, a)) && k in b
    ensures k in a && Clean(DiffOperations(k, b[k], a[k]))
  {
    hide DiffOperations;
    assert k !in a ==> Finding(EndpointRemoved, [Endpoint(k)], Breaking) in DiffContracts(b, a);
    forall f | f in DiffOperations(k, b[k], a[k]) ensures f in DiffContracts(b, a) {}
    SubsetClean(DiffOperations(k, b[k], a[k]), DiffContracts(b, a));
  }

  lemma CleanOperation(key: Key, b: Operation, a: Operation)
    requires Clean(DiffOperations(key, b, a))
    ensures Clean(DiffSchema(b.request, a.request, [Endpoint(key), RequestBody], Request))
    ensures b.responses.Keys == a.responses.Keys
    ensures forall st :: st in b.responses ==>
      Clean(DiffSchema(b.responses[st], a.responses[st], [Endpoint(key), Status(st)], Response))
  {
    hide DiffSchema;
    var fs := DiffOperations(key, b, a);
    SubsetClean(DiffSchema(b.request, a.request, [Endpoint(key), RequestBody], Request), fs);
    forall st | st in b.responses ensures st in a.responses {
      assert st !in a.responses ==> Finding(StatusRemoved, [Endpoint(key), Status(st)], Breaking) in fs;
    }
    forall st | st in a.responses ensures st in b.responses {
      assert st !in b.responses ==> Finding(StatusAdded, [Endpoint(key), Status(st)], Uncertain) in fs;
    }
    forall st | st in b.responses ensures Clean(DiffSchema(b.responses[st], a.responses[st], [Endpoint(key), Status(st)], Response)) {
      SubsetClean(DiffSchema(b.responses[st], a.responses[st], [Endpoint(key), Status(st)], Response), fs);
    }
  }

  /** Main result: if comparing two contracts yields no breaking and no uncertain finding,
      every endpoint is still there with the same statuses; a request body accepted before
      stays accepted exactly when its newly declared fields fit, in particular when it has
      declared fields only; and response bodies are accepted exactly as before. */
  lemma CleanContractsCompatible(b: Contract, a: Contract, k: Key, strict: bool)
    requires Clean(DiffContracts(b, a)) && k in b
    ensures k in a && b[k].responses.Keys == a[k].responses.Keys
    ensures b[k].request.Some? <==> a[k].request.Some?
    ensures b[k].request.Some? ==> forall v :: Conforms(v, b[k].request.value, strict) ==>
      && (Conforms(v, a[k].request.value, strict) <==> NewFieldsFit(v, b[k].request.value, a[k].request.value, strict))
      && (OnlyDeclared(v, b[k].request.value) ==> Conforms(v, a[k].request.value, strict))
    ensures forall st :: st in b[k].responses ==>
      && (b[k].responses[st].Some? <==> a[k].responses[st].Some?)
      && (b[k].responses[st].Some? ==>
            forall v :: Conforms(v, b[k].responses[st].value, strict) <==> Conforms(v, a[k].responses[st].value, strict))
  {
    hide DiffContracts, DiffOperations, Conforms, OnlyDeclared, NewFieldsFit, DiffSchemas;
    CleanOperations(b, a, k);
    CleanOperation(k, b[k], a[k]);
    var loc := [Endpoint(k), RequestBody];
    assert b[k].request.Some? <==> a[k].request.Some? by { PresenceClean(b[k].request, a[k].request, loc, Request); }
    if b[k].request.Some? {
      var sb, sa := b[k].request.value, a[k].request.value;
      forall v | Conforms(v, sb, strict)
        ensures (Conforms(v, sa, strict) <==> NewFieldsFit(v, sb, sa, strict)) && (OnlyDeclared(v, sb) ==> Conforms(v, sa, strict))
      {
        CleanRequestExact(v, sb, sa, loc, strict);
        if OnlyDeclared(v, sb) { CleanRequestAccepts(v, sb, sa, loc, strict); }
      }
    }
    forall st | st in b[k].responses
      ensures b[k].responses[st].Some? <==> a[k].responses[st].Some?
      ensures b[k].responses[st].Some? ==>
        forall v :: Conforms(v, b[k].responses[st].value, strict) <==> Conforms(v, a[k].responses[st].value, strict)
    {
      var sb, sa := b[k].responses[st], a[k].responses[st];
      PresenceClean(sb, sa, [Endpoint(k), Status(st)], Response);
      if sb.Some? {
        forall v ensures Conforms(v, sb.value, strict) <==> Conforms(v, sa.value, strict) {
          CleanResponseSame(v, sb.value, sa.value, [Endpoint(k), Status(st)], strict);
        }
      }
    }
  }

  lemma PresenceClean(b: Option<Schema>, a: Option<Schema>, loc: seq<Step>, d: Direction)
    requires Clean(DiffSchema(b, a, loc, d))
    ensures b.Some? <==> a.Some?
  {
    hide DiffSchemas;
    assert b.Some? != a.Some? ==> Finding(SchemaPresenceChanged, loc, Uncertain) in DiffSchema(b, a, loc, d);
  }

  // ---------------------------------------------------------------- the shared findings list

  function AsSet(fs: seq<Finding>): set<Finding> { set f | f in fs }

  lemma AsSetAppend(fs: seq<Finding>, f: Finding)
    ensures AsSet(fs + [f]) == AsSet(fs) + {f}
  {
  }

  lemma PerFieldEmpty(kind: Kind, loc: seq<Step>, severity: Severity)
    ensures PerField({}, kind, loc, severity) == {}
  {
  }

  lemma PerFieldGrows(fields: set<string>, k: string, kind: Kind, loc: seq<Step>, severity: Severity)
    ensures PerField(fields + {k}, kind, loc, severity) == PerField(fields, kind, loc, severity) + {Finding(kind, loc + [Field(k)], severity)}
  {
  }

  /** One of the loops that push a finding per field; the field order is left open because
      the finished list is sorted by id. */
  method PushPerField(fields: set<string>, kind: Kind, loc: seq<Step>, severity: Severity, findings: seq<Finding>)
    returns (out: seq<Finding>)
    ensures AsSet(out) == AsSet(findings) + PerField(fields, kind, loc, severity)
  {
    hide PerField, AsSet;
    out := findings;
    var rest := fields;
    PerFieldEmpty(kind, loc, severity);
    assert fields - rest == {};
    while rest != {}
      invariant rest <= fields
      invariant AsSet(out) == AsSet(findings) + PerField(fields - rest, kind, loc, severity)
      decreases rest
    {
      var k :| k in rest;
      assert fields - (rest - {k}) == (fields - rest) + {k};
      var f := Finding(kind, loc + [Field(k)], severity);
      PerFieldGrows(fields - rest, k, kind, loc, severity);
      AsSetAppend(out, f);
      out := out + [Finding(kind, loc + [Field(k)], severity)];
      rest := rest - {k};
    }
    assert fields - {} == fields;
  }

  /** Findings for the enum values that occur in `xs` but not in `ys`. */
  function MissingValues(xs: seq<Value>, ys: seq<Value>, kind: Kind, loc: seq<Step>, severity: Severity): set<Finding> {
    set v | v in xs && v !in ys :: Finding(kind, loc + [EnumValue(v)], severity)
  }

  lemma NoneMissing(ys: seq<Value>, kind: Kind, loc: seq<Step>, severity: Severity)
    ensures MissingValues([], ys, kind, loc, severity) == {}
  {
  }

  lemma MissingGrows(xs: seq<Value>, x: Value, ys: seq<Value>, kind: Kind, loc: seq<Step>, severity: Severity)
    ensures MissingValues(xs + [x], ys, kind, loc, severity)
      == MissingValues(xs, ys, kind, loc, severity) + if x in ys then {} else {Finding(kind, loc + [EnumValue(x)], severity)}
  {
  }

  method PushMissing(xs: seq<Value>, ys: seq<Value>, kind: Kind, loc: seq<Step>, severity: Severity, findings: seq<Finding>)
    returns (out: seq<Finding>)
    ensures AsSet(out) == AsSet(findings) + MissingValues(xs, ys, kind, loc, severity)
  {
    hide MissingValues;
    assert MissingValues(xs[..0], ys, kind, loc, severity) == {} by { NoneMissing(ys, kind, loc, severity); }
    out := findings;
    for i := 0 to |xs|
      invariant AsSet(out) == AsSet(findings) + MissingValues(xs[..i], ys, kind, loc, severity)
    {
      assert xs[..i + 1] == xs[..i] + [xs[i]];
      var f := Finding(kind, loc + [EnumValue(xs[i])], severity);
      MissingGrows(xs[..i], xs[i], ys, kind, loc, severity);
      AsSetAppend(out, f);
      if xs[i] !in ys && f !in out { out := out + [f]; }
    }
    assert xs[..|xs|] == xs;
  }

  method PushEnum(b: Option<seq<Value>>, a: Option<seq<Value>>, loc: seq<Step>, d: Direction, findings: seq<Finding>)
    returns (out: seq<Finding>)
    ensures AsSet(out) == AsSet(findings) + DiffEnum(b, a, loc, d)
  {
    out := findings;
    if b.None? || a.None? {
      if b.Some? || a.Some? { out := out + [Finding(EnumPresenceChanged, loc, Uncertain)]; }
      return;
    }
    out := PushMissing(b.value, a.value, EnumValueRemoved, loc, Breaking, out);
    out := PushMissing(a.value, b.value, EnumValueAdded, loc, if d == Request then NonBreaking else Uncertain, out);
  }

  /** `diffSchema` in its own form: a recursive walk that pushes into one list. */
  method PushSchemas(b: Schema, a: Schema, loc: seq<Step>, d: Direction, findings: seq<Finding>) returns (out: seq<Finding>)
    ensures AsSet(out) == AsSet(findings) + DiffSchemas(b, a, loc, d)
    decreases b
  {
    hide DiffSchemas, NestedFindings, OwnFindings, AsSet;
    if b.typ != a.typ {
      TypeChanged(b, a, loc, d);
      AsSetAppend(findings, Finding(SchemaTypeChanged, loc, Breaking));
      return findings + [Finding(SchemaTypeChanged, loc, Breaking)];
    }
    DiffIsNested(b, a, loc, d);
    out := PushOwn(b, a, loc, d, findings);
    ghost var own := AsSet(out);
    var shared := b.properties.Keys * a.properties.Keys;
    var rest := shared;
    NestedEmpty(b, a, loc, d);
    assert shared - rest == {};
    while rest != {}
      invariant rest <= shared
      invariant AsSet(out) == own + NestedFindings(b, a, shared - rest, loc, d)
      decreases rest
    {
      var k :| k in rest;
      NestedGrows(b, a, shared - rest, k, loc, d);
      assert shared - (rest - {k}) == (shared - rest) + {k};
      out := PushSchemas(b.properties[k], a.properties[k], loc + [Field(k)], d, out);
      rest := rest - {k};
    }
    assert shared - {} == shared;
    if b.items.Some? && a.items.Some? {
      out := PushSchemas(b.items.value, a.items.value, loc + [Element], d, out);
    } else if b.items.Some? || a.items.Some? {
      AsSetAppend(out, Finding(SchemaPresenceChanged, loc + [Element], Uncertain));
      out := out + [Finding(SchemaPresenceChanged, loc + [Element], Uncertain)];
    }
  }

  method PushOwn(b: Schema, a: Schema, loc: seq<Step>, d: Direction, findings: seq<Finding>) returns (out: seq<Finding>)
    ensures AsSet(out) == AsSet(findings) + OwnFindings(b, a, loc, d)
  {
    hide DiffEnum, PerField;
    out := PushEnum(b.enum, a.enum, loc, d, findings);
    out := PushPerField(a.required - b.required, RequiredFieldAdded, loc, if d == Request then Breaking else Uncertain, out);
    out := PushPerField(b.required - a.required, RequiredFieldRemoved, loc, if d == Response then Breaking else NonBreaking, out);
    out := PushPerField(b.properties.Keys - a.properties.Keys, PropertyRemoved, loc, if d == Response then Breaking else Uncertain, out);
    out := PushPerField(a.properties.Keys - b.properties.Keys, PropertyAdded, loc, if d == Request then NonBreaking else Uncertain, out);
  }

  lemma TypeChanged(b: Schema, a: Schema, loc: seq<Step>, d: Direction)
    requires b.typ != a.typ
    ensures DiffSchemas(b, a, loc, d) == {Finding(SchemaTypeChanged, loc, Breaking)}
  {
  }

  lemma NestedEmpty(b: Schema, a: Schema, loc: seq<Step>, d: Direction)
    ensures NestedFindings(b, a, {}, loc, d) == {}
  {
  }

  ghost function NestedFindings(b: Schema, a: Schema, fields: set<string>, loc: seq<Step>, d: Direction): set<Finding>
    requires fields <= b.properties.Keys * a.properties.Keys
  {
    set k, f | k in fields && f in DiffSchemas(b.properties[k], a.properties[k], loc + [Field(k)], d) :: f
  }

  lemma NestedGrows(b: Schema, a: Schema, fields: set<string>, k: string, loc: seq<Step>, d: Direction)
    requires fields <= b.properties.Keys * a.properties.Keys && k in b.properties && k in a.properties
    ensures NestedFindings(b, a, fields + {k}, loc, d)
         == NestedFindings(b, a, fields, loc, d) + DiffSchemas(b.properties[k], a.properties[k], loc + [Field(k)], d)
  {
    hide DiffSchemas;
  }

  lemma DiffIsNested(b: Schema, a: Schema, loc: seq<Step>, d: Direction)
    requires b.typ == a.typ
    ensures DiffSchemas(b, a, loc, d)
      == OwnFindings(b, a, loc, d) + NestedFindings(b, a, b.properties.Keys * a.properties.Keys, loc, d)
       + (if b.items.None? && a.items.None? then {}
          else if b.items.None? || a.items.None? then {Finding(SchemaPresenceChanged, loc + [Element], Uncertain)}
          else DiffSchemas(b.items.value, a.items.value, loc + [Element], d))
  {
    hide OwnFindings;
  }
}
