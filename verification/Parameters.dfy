/** Parameter types of prepared statements, and the decoding of parameters under them
    (crates/proxy/src/lib.rs, crates/proxy/src/parameters.rs). */
module Parameters {
  import opened Common
  import opened Decimal
  import opened Paths
  import opened Documents
  import opened Plans
  import opened Profiles
  import opened TypePolicy
  import opened Lowering
  import opened Binding
  import BindingTheorems

  /** The PostgreSQL types the proxy knows; every other one is `OtherType`. */
  datatype WireType =
    | Bool | Int2 | Int4 | Int8 | Float4 | Float8 | Text | Varchar | Bpchar
    | UnknownType | OtherType(oid: nat)

  function InferFieldParameterType(path: FieldPath, schema: SchemaProfile): Result<WireType>
  {
    match Field(schema, path)
    case None => Err(InvalidInput)
    case Some(field) =>
      if field.collision || field.shapes != {ScalarShape} || |NonNullTypes(field)| != 1 then Err(InvalidInput)
      else
        match Only(NonNullTypes(field))
        case BooleanType => Ok(Bool)
        case IntegerType => Ok(Int8)
        case FloatingPointType => Ok(Float8)
        case StringType => Ok(Text)
        case _ => Err(InvalidInput)
  }

  /** The type offered for a field: a field that was seen as one kind of scalar beside null, without
      collision, takes the widest type of that kind; every other field is refused. */
  lemma InferredTypeExact(path: FieldPath, schema: SchemaProfile, t: WireType)
    ensures InferFieldParameterType(path, schema) == Ok(t) <==>
            && Field(schema, path).Some?
            && var field := Field(schema, path).value;
               && field.shapes == {ScalarShape}
               && match t
                  case Bool => Decided(field, BooleanType)
                  case Int8 => Decided(field, IntegerType)
                  case Float8 => Decided(field, FloatingPointType)
                  case Text => Decided(field, StringType)
                  case _ => false
    ensures InferFieldParameterType(path, schema).Err? ==> InferFieldParameterType(path, schema).kind == InvalidInput
  {
    if Field(schema, path).Some? {
      var field := Field(schema, path).value;
      OneType(field, BooleanType);
      OneType(field, IntegerType);
      OneType(field, FloatingPointType);
      OneType(field, StringType);
      if |NonNullTypes(field)| == 1 {
        assert NonNullTypes(field) == {Only(NonNullTypes(field))};
      }
    }
  }

  // ---------------------------------------------------------------------------
  // Type inference
  // ---------------------------------------------------------------------------

  /** The table of inferred types, indexed by parameter number. */
  class TypeTable {
    var types: map<nat, WireType>

    constructor ()
      ensures types == map[]
    {
      types := map[];
    }
  }

  /** Placeholder `s` is typed by `types`. */
  ghost predicate SiteTyped(s: Site, schema: SchemaProfile, types: map<nat, WireType>)
  {
    s.value.SqlPlaceholder? ==>
      && PlaceholderIndex(s.value).Ok?
      && PlaceholderIndex(s.value).value in types
      && InferFieldParameterType(s.path, schema) == Ok(types[PlaceholderIndex(s.value).value])
  }

  function IndexesAt(sites: set<Site>): set<nat>
  {
    set s | s in sites && s.value.SqlPlaceholder? && PlaceholderIndex(s.value).Ok? :: PlaceholderIndex(s.value).value
  }

  /** `after` extends `before` by exactly the types of the placeholders at `sites`. */
  ghost predicate Collects(
    before: map<nat, WireType>, sites: set<Site>, schema: SchemaProfile, after: map<nat, WireType>)
  {
    && after.Keys == before.Keys + IndexesAt(sites)
    && (forall k :: k in before ==> after[k] == before[k])
    && (forall s :: s in sites ==> SiteTyped(s, schema, after))
  }

  ghost predicate TypesAll(
    before: map<nat, WireType>, sites: set<Site>, schema: SchemaProfile, after: map<nat, WireType>)
  {
    && (forall k :: k in before ==> k in after && after[k] == before[k])
    && (forall s :: s in sites ==> SiteTyped(s, schema, after))
  }

  /** The placeholders at `sites` can be typed consistently with `before`. */
  ghost predicate Typable(before: map<nat, WireType>, sites: set<Site>, schema: SchemaProfile)
  {
    exists after :: TypesAll(before, sites, schema, after)
  }

  /** What a collecting step promises: success means the table was extended exactly, failure that
      it cannot be. */
  ghost predicate CollectOutcome(
    before: map<nat, WireType>, sites: set<Site>, schema: SchemaProfile, result: Result<Unit>,
    after: map<nat, WireType>)
  {
    && (result.Ok? ==> Collects(before, sites, schema, after))
    && (result.Err? ==> result.kind == InvalidInput && !Typable(before, sites, schema))
  }

  lemma IndexesOfUnion(a: set<Site>, b: set<Site>)
    ensures IndexesAt(a + b) == IndexesAt(a) + IndexesAt(b)
  {
  }

  lemma SiteTypedTransfers(s: Site, schema: SchemaProfile, types: map<nat, WireType>, types': map<nat, WireType>)
    requires SiteTyped(s, schema, types)
    requires s.value.SqlPlaceholder? ==>
               var k := PlaceholderIndex(s.value).value; k in types' && types'[k] == types[k]
    ensures SiteTyped(s, schema, types')
  {
  }

  lemma CollectsCompose(
    before: map<nat, WireType>, a: set<Site>, middle: map<nat, WireType>, b: set<Site>, after: map<nat, WireType>,
    schema: SchemaProfile)
    requires Collects(before, a, schema, middle) && Collects(middle, b, schema, after)
    ensures Collects(before, a + b, schema, after)
  {
    IndexesOfUnion(a, b);
    forall s | s in a + b ensures SiteTyped(s, schema, after) {
      if s in a {
        SiteTypedTransfers(s, schema, middle, after);
      }
    }
  }

  /** A typing of all sites agrees with the table collected from some of them. */
  lemma TypableContinues(
    before: map<nat, WireType>, a: set<Site>, middle: map<nat, WireType>, b: set<Site>, schema: SchemaProfile)
    requires Collects(before, a, schema, middle) && Typable(before, a + b, schema)
    ensures Typable(middle, b, schema)
  {
    var after :| TypesAll(before, a + b, schema, after);
    forall k | k in middle ensures k in after && after[k] == middle[k] {
      if k !in before {
        var s :| s in a && s.value.SqlPlaceholder? && PlaceholderIndex(s.value) == Ok(k);
        assert SiteTyped(s, schema, middle) && SiteTyped(s, schema, after);
      }
    }
    assert TypesAll(middle, b, schema, after);
  }

  /** `collect_value_parameter_type`. */
  method CollectValue(
    table: TypeTable, path: FieldPath, value: SqlValue, ghost nullAllowed: bool, schema: SchemaProfile)
    returns (result: Result<Unit>)
    modifies table
    ensures CollectOutcome(old(table.types), {Site(path, value, nullAllowed)}, schema, result, table.types)
  {
    ghost var before, s := table.types, Site(path, value, nullAllowed);
    if !value.SqlPlaceholder? {
      assert IndexesAt({s}) == {};
      return Ok(Unit.Unit);
    }
    var index := ParsePlaceholderIndex(value.name);
    if index.Err? {
      forall after ensures !TypesAll(before, {s}, schema, after) {
        assert !SiteTyped(s, schema, after);
      }
      return Err(index.kind);
    }
    var parameterType := InferFieldParameterType(path, schema);
    if parameterType.Err? {
      forall after ensures !TypesAll(before, {s}, schema, after) {
        assert !SiteTyped(s, schema, after);
      }
      return Err(InvalidInput);
    }
    var existing := if index.value in table.types then Some(table.types[index.value]) else None;
    table.types := table.types[index.value := parameterType.value];
    if existing.Some? && existing.value != parameterType.value {
      forall after ensures !TypesAll(before, {s}, schema, after) {
        assert SiteTyped(s, schema, after) ==> after[index.value] == parameterType.value;
      }
      return Err(InvalidInput);
    }
    assert IndexesAt({s}) == {index.value} by {
      assert PlaceholderIndex(s.value) == index;
    }
    return Ok(Unit.Unit);
  }

  /** One more step in a loop over sites: continue or give up for good. */
  lemma CollectStep(
    before: map<nat, WireType>, done: set<Site>, middle: map<nat, WireType>, next: set<Site>, whole: set<Site>,
    schema: SchemaProfile, result: Result<Unit>, after: map<nat, WireType>)
    requires Collects(before, done, schema, middle) && CollectOutcome(middle, next, schema, result, after)
    requires done + next <= whole
    ensures result.Ok? ==> Collects(before, done + next, schema, after)
    ensures result.Err? ==> !Typable(before, whole, schema)
  {
    if result.Ok? {
      CollectsCompose(before, done, middle, next, after, schema);
    } else if Typable(before, whole, schema) {
      var all :| TypesAll(before, whole, schema, all);
      assert TypesAll(before, done + next, schema, all);
      TypableContinues(before, done, middle, next, schema);
    }
  }

  /** `collect_predicate_parameter_types`. */
  method CollectPredicate(table: TypeTable, p: Predicate, schema: SchemaProfile) returns (result: Result<Unit>)
    modifies table
    ensures CollectOutcome(old(table.types), PredicateSites(p), schema, result, table.types)
    decreases p
  {
    match p {
      case Compare(path, _, value) =>
        result := CollectValue(table, path, value, false, schema);
      case In(path, values, _) =>
        ghost var before, done: set<Site> := table.types, {};
        assert Collects(before, done, schema, table.types);
        for i := 0 to |values|
          invariant done == set v | v in values[..i] :: Site(path, v, false)
          invariant Collects(before, done, schema, table.types)
        {
          ghost var middle, s := table.types, Site(path, values[i], false);
          assert values[..i + 1] == values[..i] + [values[i]];
          assert s in PredicateSites(p) && done <= PredicateSites(p);
          result := CollectValue(table, path, values[i], false, schema);
          CollectStep(before, done, middle, {s}, PredicateSites(p), schema, result, table.types);
          if result.Err? { return; }
          done := done + {s};
        }
        assert values[..|values|] == values;
        return Ok(Unit.Unit);
      case IsNull(_, _) =>
        assert Collects(table.types, {}, schema, table.types);
        return Ok(Unit.Unit);
      case And(predicates) =>
        result := CollectPredicates(table, p, schema);
      case Or(predicates) =>
        result := CollectPredicates(table, p, schema);
    }
  }

  function SitesOfAll(predicates: seq<Predicate>): set<Site>
  {
    set q, s | q in predicates && s in PredicateSites(q) :: s
  }

  method CollectPredicates(table: TypeTable, p: Predicate, schema: SchemaProfile) returns (result: Result<Unit>)
    requires p.And? || p.Or?
    modifies table
    ensures CollectOutcome(old(table.types), PredicateSites(p), schema, result, table.types)
    decreases p, 0
  {
    var predicates := p.predicates;
    ghost var before := table.types;
    assert Collects(before, {}, schema, table.types) && SitesOfAll(predicates[..0]) == {};
    for i := 0 to |predicates|
      invariant Collects(before, SitesOfAll(predicates[..i]), schema, table.types)
    {
      ghost var middle := table.types;
      assert SitesOfAll(predicates[..i + 1]) == SitesOfAll(predicates[..i]) + PredicateSites(predicates[i]) by {
        assert predicates[..i + 1] == predicates[..i] + [predicates[i]];
      }
      assert SitesOfAll(predicates[..i + 1]) <= PredicateSites(p);
      result := CollectPredicate(table, predicates[i], schema);
      CollectStep(before, SitesOfAll(predicates[..i]), middle, PredicateSites(predicates[i]), PredicateSites(p),
                  schema, result, table.types);
      if result.Err? { return; }
    }
    assert predicates[..|predicates|] == predicates;
    return Ok(Unit.Unit);
  }

  /** The types inferred for a plan: one per index up to the largest, each the type of every
      field the placeholder is used with. */
  ghost predicate InferredTypes(plan: StatementPlan, schema: SchemaProfile, inferred: seq<WireType>)
  {
    && (forall s :: s in PlanSites(plan) && s.value.SqlPlaceholder? ==>
          && PlaceholderIndex(s.value).Ok? && PlaceholderIndex(s.value).value <= |inferred|
          && InferFieldParameterType(s.path, schema) == Ok(inferred[PlaceholderIndex(s.value).value - 1]))
    && (forall k :: 1 <= k <= |inferred| ==> k in IndexesAt(PlanSites(plan)))
  }

  method CollectPlan(table: TypeTable, plan: StatementPlan, schema: SchemaProfile) returns (result: Result<Unit>)
    modifies table
    ensures CollectOutcome(old(table.types), PlanSites(plan), schema, result, table.types)
  {
    ghost var before := table.types;
    assert Collects(before, {}, schema, table.types);
    match plan {
      case Select(_, _, where, _) =>
        if where.Some? {
          result := CollectPredicate(table, where.value, schema);
        } else {
          return Ok(Unit.Unit);
        }
      case Insert(_, columns, rows) =>
        ghost var done: set<Site> := {};
        for i := 0 to |rows|
          invariant done == set row, s | row in rows[..i] && s in RowSites(columns, row) :: s
          invariant Collects(before, done, schema, table.types)
        {
          ghost var middle := table.types;
          assert rows[..i + 1] == rows[..i] + [rows[i]];
          assert RowSites(columns, rows[i]) <= PlanSites(plan) && done <= PlanSites(plan);
          result := CollectRow(table, columns, rows[i], schema);
          CollectStep(before, done, middle, RowSites(columns, rows[i]), PlanSites(plan), schema, result, table.types);
          if result.Err? { return; }
          done := done + RowSites(columns, rows[i]);
        }
        assert rows[..|rows|] == rows;
        return Ok(Unit.Unit);
      case Update(_, assignments, filter) =>
        ghost var done: set<Site> := {};
        for i := 0 to |assignments|
          invariant done == set a | a in assignments[..i] :: Site(a.path, a.value, true)
          invariant Collects(before, done, schema, table.types)
        {
          ghost var middle, s := table.types, Site(assignments[i].path, assignments[i].value, true);
          assert assignments[..i + 1] == assignments[..i] + [assignments[i]];
          assert s in PlanSites(plan) && done <= PlanSites(plan);
          result := CollectValue(table, assignments[i].path, assignments[i].value, true, schema);
          CollectStep(before, done, middle, {s}, PlanSites(plan), schema, result, table.types);
          if result.Err? { return; }
          done := done + {s};
        }
        assert assignments[..|assignments|] == assignments;
        ghost var middle := table.types;
        result := CollectPredicate(table, filter, schema);
        CollectStep(before, done, middle, PredicateSites(filter), PlanSites(plan), schema, result, table.types);
      case Delete(_, filter) =>
        result := CollectPredicate(table, filter, schema);
    }
  }

  method CollectRow(table: TypeTable, columns: seq<FieldPath>, row: seq<SqlValue>, schema: SchemaProfile)
    returns (result: Result<Unit>)
    modifies table
    ensures CollectOutcome(old(table.types), RowSites(columns, row), schema, result, table.types)
  {
    ghost var before, done: set<Site> := table.types, {};
    assert Collects(before, {}, schema, table.types);
    var j := 0;
    while j < |columns| && j < |row|
      invariant 0 <= j <= |columns| && j <= |row|
      invariant done == set i | 0 <= i < j :: Site(columns[i], row[i], true)
      invariant Collects(before, done, schema, table.types)
    {
      ghost var middle, s := table.types, Site(columns[j], row[j], true);
      assert s in RowSites(columns, row) && done <= RowSites(columns, row);
      result := CollectValue(table, columns[j], row[j], true, schema);
      CollectStep(before, done, middle, {s}, RowSites(columns, row), schema, result, table.types);
      if result.Err? { return; }
      done := done + {s};
      j := j + 1;
    }
    assert done == RowSites(columns, row);
    return Ok(Unit.Unit);
  }

  /** The last key of the table, or 0. */
  method LastKey(types: map<nat, WireType>) returns (maximum: nat)
    ensures forall k :: k in types ==> k <= maximum
    ensures maximum == 0 || maximum in types
  {
    maximum := 0;
    var keys := types.Keys;
    while keys != {}
      invariant keys <= types.Keys
      invariant forall k :: k in types && k !in keys ==> k <= maximum
      invariant maximum == 0 || maximum in types
      decreases |keys|
    {
      var k :| k in keys;
      maximum := Max(maximum, k);
      keys := keys - {k};
    }
  }

  /** `list` holds the types at 1, 2, ... and no index is larger. */
  ghost predicate Lists(types: map<nat, WireType>, list: seq<WireType>)
  {
    && (forall k :: k in types ==> k <= |list|)
    && (forall k :: 1 <= k <= |list| ==> k in types && list[k - 1] == types[k])
  }

  ghost predicate HasGap(types: map<nat, WireType>)
  {
    exists gap: nat, k :: 1 <= gap <= k && gap !in types && k in types
  }

  /** The types at 1, 2, ... up to `maximum`, or nothing if one of them is absent. */
  method Contiguous(types: map<nat, WireType>, maximum: nat) returns (list: Option<seq<WireType>>)
    requires forall k :: k in types ==> k <= maximum
    requires maximum == 0 || maximum in types
    ensures list.Some? ==> Lists(types, list.value)
    ensures list.None? ==> HasGap(types)
  {
    var inferred: seq<WireType> := [];
    while |inferred| < maximum
      invariant |inferred| <= maximum
      invariant forall k :: 1 <= k <= |inferred| ==> k in types && inferred[k - 1] == types[k]
    {
      var index := |inferred| + 1;
      if index !in types {
        return None;
      }
      inferred := inferred + [types[index]];
    }
    return Some(inferred);
  }

  /** `infer_parameter_types`: succeeds exactly when some type list fits the plan, and returns it. */
  method InferParameterTypes(plan: StatementPlan, schema: SchemaProfile) returns (result: Result<seq<WireType>>)
    ensures result.Ok? ==> InferredTypes(plan, schema, result.value)
    ensures result.Err? ==> result.kind == InvalidInput && forall inferred :: !InferredTypes(plan, schema, inferred)
  {
    var table := new TypeTable();
    var collected := CollectPlan(table, plan, schema);
    if collected.Err? {
      forall inferred ensures !InferredTypes(plan, schema, inferred) {
        if InferredTypes(plan, schema, inferred) {
          InferredIsTypable(plan, schema, inferred);
        }
      }
      return Err(collected.kind);
    }
    var types := table.types;
    assert Collects(map[], PlanSites(plan), schema, types);
    result := ContiguousTypes(plan, schema, types);
  }

  method ContiguousTypes(ghost plan: StatementPlan, ghost schema: SchemaProfile, types: map<nat, WireType>)
    returns (result: Result<seq<WireType>>)
    requires Collects(map[], PlanSites(plan), schema, types)
    ensures result.Ok? ==> InferredTypes(plan, schema, result.value)
    ensures result.Err? ==> result.kind == InvalidInput && forall inferred :: !InferredTypes(plan, schema, inferred)
  {
    var maximum := LastKey(types);
    var list := Contiguous(types, maximum);
    if list.None? {
      forall inferred ensures !InferredTypes(plan, schema, inferred) {
        GapRefutesTypes(plan, schema, types, inferred);
      }
      return Err(InvalidInput);
    }
    CollectedAreInferred(plan, schema, types, list.value);
    return Ok(list.value);
  }

  lemma GapRefutesTypes(plan: StatementPlan, schema: SchemaProfile, types: map<nat, WireType>, inferred: seq<WireType>)
    requires Collects(map[], PlanSites(plan), schema, types) && HasGap(types)
    ensures !InferredTypes(plan, schema, inferred)
  {
    var gap: nat, k :| 1 <= gap <= k && gap !in types && k in types;
    assert types.Keys == IndexesAt(PlanSites(plan));
    assert k in IndexesAt(PlanSites(plan)) && gap !in IndexesAt(PlanSites(plan));
  }

  lemma CollectedAreInferred(
    plan: StatementPlan, schema: SchemaProfile, types: map<nat, WireType>, inferred: seq<WireType>)
    requires Collects(map[], PlanSites(plan), schema, types) && Lists(types, inferred)
    ensures InferredTypes(plan, schema, inferred)
  {
    assert types.Keys == IndexesAt(PlanSites(plan));
    forall s | s in PlanSites(plan) && s.value.SqlPlaceholder?
      ensures PlaceholderIndex(s.value).Ok? && PlaceholderIndex(s.value).value <= |inferred|
      ensures InferFieldParameterType(s.path, schema) == Ok(inferred[PlaceholderIndex(s.value).value - 1])
    {
      assert SiteTyped(s, schema, types);
    }
  }

  lemma InferredIsTypable(plan: StatementPlan, schema: SchemaProfile, inferred: seq<WireType>)
    requires InferredTypes(plan, schema, inferred)
    ensures Typable(map[], PlanSites(plan), schema)
  {
    var after: map<nat, WireType> := map k | k in IndexesAt(PlanSites(plan)) && 1 <= k <= |inferred| :: inferred[k - 1];
    forall s | s in PlanSites(plan) ensures SiteTyped(s, schema, after) {
    }
    assert TypesAll(map[], PlanSites(plan), schema, after);
  }

  // ---------------------------------------------------------------------------
  // Requested types
  // ---------------------------------------------------------------------------

  predicate CompatibleParameterType(requested: WireType, inferred: WireType)
  {
    match inferred
    case Bool => requested == Bool
    case Int8 => requested == Int2 || requested == Int4 || requested == Int8
    case Float8 => requested == Float4 || requested == Float8
    case Text => requested == Text || requested == Varchar || requested == Bpchar
    case _ => requested == inferred
  }

  /** `reconcile_parameter_types`. */
  function ReconcileParameterTypes(requested: seq<WireType>, inferred: seq<WireType>): Result<seq<WireType>>
  {
    if requested == [] then Ok(inferred)
    else if |requested| != |inferred| then Err(InvalidInput)
    else ReconcileEach(requested, inferred)
  }

  function ReconcileEach(requested: seq<WireType>, inferred: seq<WireType>): Result<seq<WireType>>
    requires |requested| == |inferred|
  {
    if requested == [] then Ok([])
    else if requested[0] != UnknownType && !CompatibleParameterType(requested[0], inferred[0]) then Err(InvalidInput)
    else
      var rest :- ReconcileEach(requested[1..], inferred[1..]);
      Ok([if requested[0] == UnknownType then inferred[0] else requested[0]] + rest)
  }

  predicate Reconcilable(requested: WireType, inferred: WireType)
  {
    requested == UnknownType || CompatibleParameterType(requested, inferred)
  }

  /** Which declared types may stand for an inferred one: narrower widths of the same kind. */
  lemma CompatibilityExact(requested: WireType)
    ensures CompatibleParameterType(requested, Bool) <==> requested in {Bool}
    ensures CompatibleParameterType(requested, Int8) <==> requested in {Int2, Int4, Int8}
    ensures CompatibleParameterType(requested, Float8) <==> requested in {Float4, Float8}
    ensures CompatibleParameterType(requested, Text) <==> requested in {Text, Varchar, Bpchar}
  {
  }

  lemma {:induction false} ReconcileEachExact(requested: seq<WireType>, inferred: seq<WireType>)
    requires |requested| == |inferred|
    ensures ReconcileEach(requested, inferred).Ok? <==>
            forall i :: 0 <= i < |inferred| ==> Reconcilable(requested[i], inferred[i])
    ensures ReconcileEach(requested, inferred).Ok? ==>
            var types := ReconcileEach(requested, inferred).value;
            && |types| == |inferred|
            && forall i :: 0 <= i < |types| ==>
                 types[i] == if requested[i] == UnknownType then inferred[i] else requested[i]
  {
    if requested != [] {
      ReconcileEachExact(requested[1..], inferred[1..]);
      assert forall i :: 0 < i < |inferred| ==>
             inferred[i] == inferred[1..][i - 1] && requested[i] == requested[1..][i - 1];
    }
  }

  /** Reconciliation succeeds exactly when the client declares no types at all, or one per parameter,
      each left open or compatible with the inferred one. Each type is the declared one unless it was
      left open, so in any case it is the inferred one or compatible with it. */
  lemma ReconciledTypesCompatible(requested: seq<WireType>, inferred: seq<WireType>)
    ensures ReconcileParameterTypes(requested, inferred).Ok? <==>
            || requested == []
            || (&& |requested| == |inferred|
                && forall i :: 0 <= i < |inferred| ==> Reconcilable(requested[i], inferred[i]))
    ensures ReconcileParameterTypes(requested, inferred).Ok? ==>
            var types := ReconcileParameterTypes(requested, inferred).value;
            && |types| == |inferred|
            && (forall i :: 0 <= i < |types| ==>
                  types[i] == if requested == [] || requested[i] == UnknownType then inferred[i] else requested[i])
            && (forall i :: 0 <= i < |types| ==>
                types[i] == inferred[i] || CompatibleParameterType(types[i], inferred[i]))
  {
    if |requested| == |inferred| {
      ReconcileEachExact(requested, inferred);
    }
  }

  // ---------------------------------------------------------------------------
  // Decoding
  // ---------------------------------------------------------------------------

  type Byte = b: int | 0 <= b < 256

  /** Text decoding and IEEE conversions, which this model takes as given. */
  datatype Codec = Codec(
    utf8: seq<Byte> -> Option<string>,
    parseFloat4: string -> Option<Float64>,
    parseFloat8: string -> Option<Float64>,
    float4: seq<Byte> -> Float64,
    float8: seq<Byte> -> Float64)

  function Power256(width: nat): nat { if width == 0 then 1 else 256 * Power256(width - 1) }

  function UnsignedBigEndian(bytes: seq<Byte>): nat
  {
    if bytes == [] then 0 else UnsignedBigEndian(bytes[..|bytes| - 1]) * 256 + bytes[|bytes| - 1]
  }

  /** `from_be_bytes` for a signed type of this width. */
  function SignedBigEndian(bytes: seq<Byte>): int
  {
    var n := UnsignedBigEndian(bytes);
    if 2 * n < Power256(|bytes|) then n else n - Power256(|bytes|)
  }

  predicate FitsWidth(n: int, width: nat) { 0 <= 2 * n + Power256(width) < 2 * Power256(width) }

  lemma {:induction false} UnsignedBound(bytes: seq<Byte>)
    ensures UnsignedBigEndian(bytes) < Power256(|bytes|)
  {
    if bytes != [] {
      UnsignedBound(bytes[..|bytes| - 1]);
    }
  }

  lemma SignedFitsWidth(bytes: seq<Byte>)
    ensures FitsWidth(SignedBigEndian(bytes), |bytes|)
  {
    UnsignedBound(bytes);
  }

  lemma WidthsAreIntegerTypes(n: int)
    ensures FitsWidth(n, 2) <==> -0x8000 <= n < 0x8000
    ensures FitsWidth(n, 4) <==> -0x8000_0000 <= n < 0x8000_0000
    ensures FitsWidth(n, 8) <==> -0x8000_0000_0000_0000 <= n < 0x8000_0000_0000_0000
  {
    assert Power256(2) == 0x1_0000;
    assert Power256(4) == 256 * (256 * Power256(2));
    assert Power256(8) == 256 * (256 * (256 * (256 * Power256(4))));
  }

  function FixedBinary(value: seq<Byte>, width: nat): Result<SqlValue>
    requires width == 2 || width == 4 || width == 8
  {
    if |value| != width then Err(InvalidInput)
    else
      SignedFitsWidth(value);
      WidthsAreIntegerTypes(SignedBigEndian(value));
      Ok(SqlInteger(SignedBigEndian(value)))
  }

  function FiniteFloat(x: Float64): Result<SqlValue>
  {
    if IsFinite(x) then Ok(SqlFloat(x)) else Err(InvalidInput)
  }

  function DecodeBinary(value: seq<Byte>, t: WireType, codec: Codec): Result<SqlValue>
  {
    match t
    case Bool =>
      if value == [0] then Ok(SqlBoolean(false)) else if value == [1] then Ok(SqlBoolean(true)) else Err(InvalidInput)
    case Int2 => FixedBinary(value, 2)
    case Int4 => FixedBinary(value, 4)
    case Int8 => FixedBinary(value, 8)
    case Float4 => if |value| != 4 then Err(InvalidInput) else FiniteFloat(codec.float4(value))
    case Float8 => if |value| != 8 then Err(InvalidInput) else FiniteFloat(codec.float8(value))
    case UnknownType => Err(FeatureNotSupported)
    case OtherType(_) => Err(FeatureNotSupported)
    case _ =>
      match codec.utf8(value) case None => Err(InvalidInput) case Some(text) => Ok(SqlString(text))
  }

  /** `str::parse` for a signed type: an `i64` within the type's range. */
  function ParseWithin(text: string, minimum: int, maximum: int): Result<SqlValue>
  {
    match ParseI64(text)
    case None => Err(InvalidInput)
    case Some(n) => if minimum <= n <= maximum then Ok(SqlInteger(n)) else Err(InvalidInput)
  }

  function DecodeText(value: seq<Byte>, t: WireType, codec: Codec): Result<SqlValue>
  {
    match codec.utf8(value)
    case None => Err(InvalidInput)
    case Some(text) =>
      match t
      case Bool =>
        if text == "t" || text == "true" || text == "1" then Ok(SqlBoolean(true))
        else if text == "f" || text == "false" || text == "0" then Ok(SqlBoolean(false))
        else Err(InvalidInput)
      case Int2 => ParseWithin(text, -0x8000, 0x7FFF)
      case Int4 => ParseWithin(text, -0x8000_0000, 0x7FFF_FFFF)
      case Int8 => ParseWithin(text, -0x8000_0000_0000_0000, 0x7FFF_FFFF_FFFF_FFFF)
      case Float4 => (match codec.parseFloat4(text) case None => Err(InvalidInput) case Some(x) => FiniteFloat(x))
      case Float8 => (match codec.parseFloat8(text) case None => Err(InvalidInput) case Some(x) => FiniteFloat(x))
      case UnknownType => Err(FeatureNotSupported)
      case OtherType(_) => Err(FeatureNotSupported)
      case _ => Ok(SqlString(text))
  }

  /** `decode_parameter`: an absent value is SQL NULL. */
  function DecodeParameter(value: Option<seq<Byte>>, t: WireType, binary: bool, codec: Codec): Result<SqlValue>
  {
    if value.None? then Ok(SqlNull)
    else if binary then DecodeBinary(value.value, t, codec)
    else DecodeText(value.value, t, codec)
  }

  /** The big-endian bytes of an unsigned number. */
  function BigEndianBytes(n: nat, width: nat): (bytes: seq<Byte>)
    ensures |bytes| == width
  {
    if width == 0 then [] else BigEndianBytes(n / 256, width - 1) + [n % 256]
  }

  /** Two's complement in big-endian order, as a PostgreSQL client sends an integer. */
  function EncodeInteger(n: int, width: nat): (bytes: seq<Byte>)
    requires FitsWidth(n, width)
    ensures |bytes| == width
  {
    BigEndianBytes(if n < 0 then n + Power256(width) else n, width)
  }

  lemma {:induction false} UnsignedOfBytes(n: nat, width: nat)
    requires n < Power256(width)
    ensures UnsignedBigEndian(BigEndianBytes(n, width)) == n
  {
    if width > 0 {
      UnsignedOfBytes(n / 256, width - 1);
      var bytes := BigEndianBytes(n, width);
      assert bytes[..width - 1] == BigEndianBytes(n / 256, width - 1);
    }
  }

  lemma {:induction false} BytesOfUnsigned(bytes: seq<Byte>)
    ensures BigEndianBytes(UnsignedBigEndian(bytes), |bytes|) == bytes
  {
    if bytes != [] {
      var k := |bytes| - 1;
      BytesOfUnsigned(bytes[..k]);
      assert UnsignedBigEndian(bytes) / 256 == UnsignedBigEndian(bytes[..k]);
      assert UnsignedBigEndian(bytes) % 256 == bytes[k];
      assert bytes == bytes[..k] + [bytes[k]];
    }
  }

  /** Decoding inverts the client's encoding of every integer of the width. */
  lemma BinaryIntegerRoundTrip(n: int, width: nat)
    requires (width == 2 || width == 4 || width == 8) && FitsWidth(n, width)
    ensures FixedBinary(EncodeInteger(n, width), width).Ok?
    ensures FixedBinary(EncodeInteger(n, width), width).value.SqlInteger?
    ensures FixedBinary(EncodeInteger(n, width), width).value.i == n
  {
    UnsignedOfBytes(if n < 0 then n + Power256(width) else n, width);
  }

  /** Every byte string of the right length is the encoding of the integer it decodes to; every
      other length is refused. */
  lemma BinaryIntegerDecodingExact(bytes: seq<Byte>, width: nat)
    requires width == 2 || width == 4 || width == 8
    ensures FixedBinary(bytes, width).Ok? <==> |bytes| == width
    ensures FixedBinary(bytes, width).Ok? ==>
            && FixedBinary(bytes, width).value.SqlInteger?
            && FitsWidth(FixedBinary(bytes, width).value.i, width)
            && EncodeInteger(FixedBinary(bytes, width).value.i, width) == bytes
  {
    if |bytes| == width {
      SignedFitsWidth(bytes);
      UnsignedBound(bytes);
      BytesOfUnsigned(bytes);
    }
  }

  /** The integer types, by width in bytes. */
  function WidthOf(t: WireType): nat
    requires t == Int2 || t == Int4 || t == Int8
  {
    if t == Int2 then 2 else if t == Int4 then 4 else 8
  }

  /** Binary decoding, type by type. */
  lemma BinaryDecodingExact(value: seq<Byte>, t: WireType, codec: Codec, result: SqlValue)
    ensures DecodeBinary(value, t, codec) == Ok(result) <==>
            match t
            case Bool => (value == [0] && result == SqlBoolean(false)) || (value == [1] && result == SqlBoolean(true))
            case Int2 => result.SqlInteger? && FitsWidth(result.i, 2) && value == EncodeInteger(result.i, 2)
            case Int4 => result.SqlInteger? && FitsWidth(result.i, 4) && value == EncodeInteger(result.i, 4)
            case Int8 => result.SqlInteger? && FitsWidth(result.i, 8) && value == EncodeInteger(result.i, 8)
            case Float4 => |value| == 4 && IsFinite(codec.float4(value)) && result == SqlFloat(codec.float4(value))
            case Float8 => |value| == 8 && IsFinite(codec.float8(value)) && result == SqlFloat(codec.float8(value))
            case Text => codec.utf8(value).Some? && result == SqlString(codec.utf8(value).value)
            case Varchar => codec.utf8(value).Some? && result == SqlString(codec.utf8(value).value)
            case Bpchar => codec.utf8(value).Some? && result == SqlString(codec.utf8(value).value)
            case _ => false
  {
    match t
    case Int2 => IntegerBytesExact(value, 2, result);
    case Int4 => IntegerBytesExact(value, 4, result);
    case Int8 => IntegerBytesExact(value, 8, result);
    case _ =>
  }

  lemma IntegerBytesExact(value: seq<Byte>, width: nat, result: SqlValue)
    requires width == 2 || width == 4 || width == 8
    ensures FixedBinary(value, width) == Ok(result) <==>
            result.SqlInteger? && FitsWidth(result.i, width) && value == EncodeInteger(result.i, width)
  {
    BinaryIntegerDecodingExact(value, width);
    if result.SqlInteger? && FitsWidth(result.i, width) && value == EncodeInteger(result.i, width) {
      BinaryIntegerRoundTrip(result.i, width);
    }
  }

  /** The number as text: an optional sign and digits. */
  ghost predicate Spells(text: string, n: int)
  {
    (n >= 0 && (Signed(text, "", n) || Signed(text, "+", n))) || (n <= 0 && Signed(text, "-", 0 - n))
  }

  lemma IntegerTextExact(text: string, width: nat, minimum: int, maximum: int, result: SqlValue)
    requires minimum >= -0x8000_0000_0000_0000 && maximum <= 0x7FFF_FFFF_FFFF_FFFF
    requires forall n :: FitsWidth(n, width) <==> minimum <= n <= maximum
    ensures ParseWithin(text, minimum, maximum) == Ok(result) <==>
            result.SqlInteger? && FitsWidth(result.i, width) && Spells(text, result.i)
  {
    if result.SqlInteger? {
      SignedIntegerExact(text, result.i);
    }
  }

  /** Text decoding, type by type. */
  lemma TextDecodingExact(value: seq<Byte>, t: WireType, codec: Codec, text: string, result: SqlValue)
    requires codec.utf8(value) == Some(text)
    ensures DecodeText(value, t, codec) == Ok(result) <==>
            match t
            case Bool =>
              (text in {"t", "true", "1"} && result == SqlBoolean(true))
              || (text in {"f", "false", "0"} && result == SqlBoolean(false))
            case Int2 => result.SqlInteger? && FitsWidth(result.i, 2) && Spells(text, result.i)
            case Int4 => result.SqlInteger? && FitsWidth(result.i, 4) && Spells(text, result.i)
            case Int8 => result.SqlInteger? && FitsWidth(result.i, 8) && Spells(text, result.i)
            case Float4 => FiniteText(codec.parseFloat4(text), result)
            case Float8 => FiniteText(codec.parseFloat8(text), result)
            case Text => result == SqlString(text)
            case Varchar => result == SqlString(text)
            case Bpchar => result == SqlString(text)
            case _ => false
  {
    forall n
      ensures FitsWidth(n, 2) <==> -0x8000 <= n <= 0x7FFF
      ensures FitsWidth(n, 4) <==> -0x8000_0000 <= n <= 0x7FFF_FFFF
      ensures FitsWidth(n, 8) <==> -0x8000_0000_0000_0000 <= n <= 0x7FFF_FFFF_FFFF_FFFF
    {
      WidthsAreIntegerTypes(n);
    }
    match t
    case Int2 => IntegerTextExact(text, 2, -0x8000, 0x7FFF, result);
    case Int4 => IntegerTextExact(text, 4, -0x8000_0000, 0x7FFF_FFFF, result);
    case Int8 => IntegerTextExact(text, 8, -0x8000_0000_0000_0000, 0x7FFF_FFFF_FFFF_FFFF, result);
    case _ =>
  }

  predicate FiniteText(parsed: Option<Float64>, result: SqlValue)
  {
    parsed.Some? && (parsed.value.Finite? || parsed.value.NegativeZero?) && result == SqlFloat(parsed.value)
  }

  /** Decoding as a whole: no bytes mean NULL, the format code chooses the table, text that is not UTF-8 is
      refused, and types without a row in the tables are not supported. */
  lemma DecodingExact(value: Option<seq<Byte>>, t: WireType, binary: bool, codec: Codec)
    ensures var decoded := DecodeParameter(value, t, binary, codec);
            && (value.None? ==> decoded == Ok(SqlNull))
            && (value.Some? && binary ==> decoded == DecodeBinary(value.value, t, codec))
            && (value.Some? && !binary ==> decoded == DecodeText(value.value, t, codec))
            && (value.Some? && !binary && codec.utf8(value.value).None? ==> decoded == Err(InvalidInput))
            && (value.Some? && decoded.Err? ==>
                  decoded.kind == if (t.UnknownType? || t.OtherType?) && (binary || codec.utf8(value.value).Some?)
                                  then FeatureNotSupported else InvalidInput)
  {
  }

  // ---------------------------------------------------------------------------
  // Prepare, decode, bind
  // ---------------------------------------------------------------------------

  /** The values a parameter of this type may take. */
  predicate HasType(value: SqlValue, t: WireType)
  {
    match value
    case SqlNull => true
    case SqlBoolean(_) => t == Bool
    case SqlInteger(_) => t == Int2 || t == Int4 || t == Int8
    case SqlFloat(_) => t == Float4 || t == Float8
    case SqlString(_) => t == Text || t == Varchar || t == Bpchar
    case SqlPlaceholder(_) => false
  }

  lemma DecodedHasType(value: Option<seq<Byte>>, t: WireType, binary: bool, codec: Codec)
    requires DecodeParameter(value, t, binary, codec).Ok?
    ensures HasType(DecodeParameter(value, t, binary, codec).value, t)
    ensures DecodeParameter(value, t, binary, codec).value.SqlNull? <==> value.None?
  {
  }

  /** The parameter is used where NULL is refused. */
  ghost predicate ComparedWith(plan: StatementPlan, index: nat)
  {
    exists s :: s in PlanSites(plan) && s.value.SqlPlaceholder? && !s.nullAllowed
      && PlaceholderIndex(s.value) == Ok(index)
  }

  lemma TypedValueIsValid(s: Site, value: SqlValue, t: WireType, inferred: WireType, schema: SchemaProfile)
    requires InferFieldParameterType(s.path, schema) == Ok(inferred)
    requires t == inferred || CompatibleParameterType(t, inferred)
    requires HasType(value, t)
    ensures ValidateValue(s.path, value, schema, s.nullAllowed).Ok? <==> (value.SqlNull? ==> s.nullAllowed)
  {
  }

  /** The type list accepted at prepare time has one entry per parameter that binding requires. */
  lemma PreparedCountMatches(plan: StatementPlan, schema: SchemaProfile, inferred: seq<WireType>)
    requires RowsMatchColumns(plan) && InferredTypes(plan, schema, inferred)
    ensures PlanMaximum(plan) == Ok(|inferred|)
    ensures IsLargestIndex(ValuesAt(PlanSites(plan)), 0, Ok(|inferred|))
  {
    ParameterCountExact(plan);
    if |inferred| > 0 {
      assert |inferred| in IndexesAt(PlanSites(plan));
    }
    LargestFromSites(PlanSites(plan), |inferred|);
    BindingTheorems.LargestIndexUnique(ValuesAt(PlanSites(plan)), PlanMaximum(plan), |inferred|);
  }

  lemma LargestFromSites(sites: set<Site>, n: nat)
    requires forall s :: s in sites ==> PlaceholderIndex(s.value).Ok? && PlaceholderIndex(s.value).value <= n
    requires n > 0 ==> n in IndexesAt(sites)
    ensures IsLargestIndex(ValuesAt(sites), 0, Ok(n))
  {
    if n > 0 {
      var s :| s in sites && s.value.SqlPlaceholder? && PlaceholderIndex(s.value) == Ok(n);
      assert s.value in ValuesAt(sites);
    }
  }

  /** Prepare-then-bind: once a lowered plan's types are inferred and reconciled, parameters decoded
      under them bind if and only if no NULL is passed where a comparison needs a value. */
  lemma PrepareThenBind(
    plan: StatementPlan, schema: SchemaProfile, inferred: seq<WireType>, requested: seq<WireType>,
    parameters: seq<SqlValue>)
    requires Lowered(plan, schema) && InferredTypes(plan, schema, inferred)
    requires ReconcileParameterTypes(requested, inferred).Ok?
    requires var types := ReconcileParameterTypes(requested, inferred).value;
             |parameters| == |types| && forall i :: 0 <= i < |types| ==> HasType(parameters[i], types[i])
    ensures BindParameters(plan, parameters, schema).Ok? <==> NoNullCompared(plan, parameters)
  {
    var types := ReconcileParameterTypes(requested, inferred).value;
    ReconciledTypesCompatible(requested, inferred);
    PreparedCountMatches(plan, schema, inferred);
    BindingTheorems.BindSucceedsExactly(plan, parameters, schema);
    TypedParametersValid(plan, schema, inferred, types, parameters);
    TypedParametersAreLiterals(parameters, types);
  }

  lemma TypedParametersAreLiterals(parameters: seq<SqlValue>, types: seq<WireType>)
    requires |parameters| == |types| && forall i :: 0 <= i < |types| ==> HasType(parameters[i], types[i])
    ensures forall v :: v in parameters ==> !v.SqlPlaceholder?
  {
    forall v | v in parameters ensures !v.SqlPlaceholder? {
      var i :| 0 <= i < |parameters| && parameters[i] == v;
      assert HasType(parameters[i], types[i]);
    }
  }

  ghost predicate NoNullCompared(plan: StatementPlan, parameters: seq<SqlValue>)
  {
    forall i :: 0 <= i < |parameters| && parameters[i].SqlNull? ==> !ComparedWith(plan, i + 1)
  }

  lemma TypedParametersValid(
    plan: StatementPlan, schema: SchemaProfile, inferred: seq<WireType>, types: seq<WireType>,
    parameters: seq<SqlValue>)
    requires ValidSites(PlanSites(plan), schema) && InferredTypes(plan, schema, inferred)
    requires |parameters| == |types| == |inferred|
    requires forall i :: 0 <= i < |types| ==> HasType(parameters[i], types[i])
    requires forall i :: 0 <= i < |types| ==> types[i] == inferred[i] || CompatibleParameterType(types[i], inferred[i])
    ensures ValidSites(ResolveSites(PlanSites(plan), parameters), schema) <==> NoNullCompared(plan, parameters)
  {
    forall s | s in PlanSites(plan)
      ensures ValidateValue(s.path, Resolve(s.value, parameters), schema, s.nullAllowed).Ok? <==>
              !(NullParameter(s, parameters) && !s.nullAllowed)
    {
      ResolvedSiteValid(s, parameters, types, inferred, schema);
    }
    if NoNullCompared(plan, parameters) {
      AcceptedParameters(plan, schema, parameters);
    } else {
      RefusedParameters(plan, schema, parameters);
    }
  }

  /** Each value is valid unless it is a NULL in a comparison. */
  ghost predicate OnlyNullsRefused(plan: StatementPlan, schema: SchemaProfile, parameters: seq<SqlValue>)
  {
    forall s :: s in PlanSites(plan) ==>
      (ValidateValue(s.path, Resolve(s.value, parameters), schema, s.nullAllowed).Ok? <==>
       !(NullParameter(s, parameters) && !s.nullAllowed))
  }

  lemma AcceptedParameters(plan: StatementPlan, schema: SchemaProfile, parameters: seq<SqlValue>)
    requires OnlyNullsRefused(plan, schema, parameters) && NoNullCompared(plan, parameters)
    ensures ValidSites(ResolveSites(PlanSites(plan), parameters), schema)
  {
    forall s | s in ResolveSites(PlanSites(plan), parameters)
      ensures ValidateValue(s.path, s.value, schema, s.nullAllowed).Ok?
    {
      var t :| t in PlanSites(plan) && s == ResolveSite(t, parameters);
      if NullParameter(t, parameters) && !t.nullAllowed {
        assert ComparedWith(plan, PlaceholderIndex(t.value).value);
      }
    }
  }

  lemma RefusedParameters(plan: StatementPlan, schema: SchemaProfile, parameters: seq<SqlValue>)
    requires OnlyNullsRefused(plan, schema, parameters) && !NoNullCompared(plan, parameters)
    ensures !ValidSites(ResolveSites(PlanSites(plan), parameters), schema)
  {
    var i :| 0 <= i < |parameters| && parameters[i].SqlNull? && ComparedWith(plan, i + 1);
    var s :| s in PlanSites(plan) && s.value.SqlPlaceholder? && !s.nullAllowed
      && PlaceholderIndex(s.value) == Ok(i + 1);
    NullRefused(PlanSites(plan), s, schema, parameters);
  }

  /** One refused site makes the resolved sites invalid. */
  lemma NullRefused(sites: set<Site>, s: Site, schema: SchemaProfile, parameters: seq<SqlValue>)
    requires s in sites && ValidateValue(s.path, Resolve(s.value, parameters), schema, s.nullAllowed).Err?
    ensures !ValidSites(ResolveSites(sites, parameters), schema)
  {
    assert ResolveSite(s, parameters) in ResolveSites(sites, parameters);
  }

  predicate NullParameter(s: Site, parameters: seq<SqlValue>)
  {
    s.value.SqlPlaceholder? && Bindable(s.value, parameters) && parameters[PlaceholderIndex(s.value).value - 1].SqlNull?
  }

  /** A parameter of the prepared type is refused only as a NULL in a comparison. */
  lemma ResolvedSiteValid(
    s: Site, parameters: seq<SqlValue>, types: seq<WireType>, inferred: seq<WireType>, schema: SchemaProfile)
    requires ValidateValue(s.path, s.value, schema, s.nullAllowed).Ok?
    requires |parameters| == |types| == |inferred|
    requires s.value.SqlPlaceholder? ==>
               && PlaceholderIndex(s.value).Ok? && PlaceholderIndex(s.value).value <= |inferred|
               && var i := PlaceholderIndex(s.value).value - 1;
                  && InferFieldParameterType(s.path, schema) == Ok(inferred[i])
                  && HasType(parameters[i], types[i])
                  && (types[i] == inferred[i] || CompatibleParameterType(types[i], inferred[i]))
    ensures ValidateValue(s.path, Resolve(s.value, parameters), schema, s.nullAllowed).Ok? <==>
            !(NullParameter(s, parameters) && !s.nullAllowed)
  {
    if s.value.SqlPlaceholder? {
      var i := PlaceholderIndex(s.value).value - 1;
      TypedValueIsValid(s, parameters[i], types[i], inferred[i], schema);
    }
  }
}
