/** End to end: what a prepared statement, once bound and let through the gate, does to a stored
    document, said in terms of the statement as it was prepared. */
module StatementMeaning {
  import opened Common
  import opened Paths
  import opened Documents
  import opened Assignments
  import opened Plans
  import opened Profiles
  import opened TypePolicy
  import opened Lowering
  import opened Filters
  import opened SqlTruth
  import opened FilterMeaning
  import opened Binding
  import opened BindingTheorems
  import opened Executor
  import opened AmbiguityPolicy
  import opened Gate
  import opened Runs
  import MongoMatching
  import Ordering
  import WriteTyping

  /** Every path is readable and no conjunction or disjunction is empty; values do not matter. */
  ghost predicate NamesReadable(p: Predicate)
    decreases p
  {
    match p
    case Compare(path, _, _) => PathReadable(path)
    case In(path, _, _) => PathReadable(path)
    case IsNull(path, _) => PathReadable(path)
    case And(predicates) => predicates != [] && forall q :: q in predicates ==> NamesReadable(q)
    case Or(predicates) => predicates != [] && forall q :: q in predicates ==> NamesReadable(q)
  }

  lemma {:induction false} ShapesEach(ps: seq<Predicate>)
    ensures |PredicateShapes(ps)| == |ps|
    ensures forall i :: 0 <= i < |ps| ==> PredicateShapes(ps)[i] == PredicateShape(ps[i])
  {
    if ps != [] {
      ShapesEach(ps[1..]);
      assert forall i :: 0 < i < |ps| ==> ps[i] == ps[1..][i - 1];
    }
  }

  /** Whether the names are readable, and whether a document settles all leaves, is a matter of shape. */
  lemma {:induction false} ShapeDecidesNames(p: Predicate)
    ensures NamesReadable(PredicateShape(p)) <==> NamesReadable(p)
    decreases p
  {
    if p.And? || p.Or? {
      ShapesEach(p.predicates);
      forall i | 0 <= i < |p.predicates|
        ensures NamesReadable(PredicateShapes(p.predicates)[i]) <==> NamesReadable(p.predicates[i])
      {
        ShapeDecidesNames(p.predicates[i]);
      }
    }
  }

  lemma {:induction false} ShapeDecidesExtra(p: Predicate, d: Doc)
    ensures NoExtraMatch(PredicateShape(p), d) <==> NoExtraMatch(p, d)
    decreases p
  {
    if p.And? || p.Or? {
      ShapesEach(p.predicates);
      forall i | 0 <= i < |p.predicates|
        ensures NoExtraMatch(PredicateShapes(p.predicates)[i], d) <==> NoExtraMatch(p.predicates[i], d)
      {
        ShapeDecidesExtra(p.predicates[i], d);
      }
    }
  }

  lemma {:induction false} ShapeDecidesMissed(p: Predicate, d: Doc)
    ensures NoMissedMatch(PredicateShape(p), d) <==> NoMissedMatch(p, d)
    decreases p
  {
    if p.And? || p.Or? {
      ShapesEach(p.predicates);
      forall i | 0 <= i < |p.predicates|
        ensures NoMissedMatch(PredicateShapes(p.predicates)[i], d) <==> NoMissedMatch(p.predicates[i], d)
      {
        ShapeDecidesMissed(p.predicates[i], d);
      }
    }
  }

  lemma SameShapeSameNames(p: Predicate, q: Predicate, d: Doc)
    requires PredicateShape(p) == PredicateShape(q)
    ensures NamesReadable(p) <==> NamesReadable(q)
    ensures NoExtraMatch(p, d) <==> NoExtraMatch(q, d)
    ensures NoMissedMatch(p, d) <==> NoMissedMatch(q, d)
  {
    ShapeDecidesNames(p);
    ShapeDecidesNames(q);
    ShapeDecidesExtra(p, d);
    ShapeDecidesExtra(q, d);
    ShapeDecidesMissed(p, d);
    ShapeDecidesMissed(q, d);
  }

  /** What validation and binding leave in a filter: neither NULL nor placeholders. */
  ghost predicate LiteralSites(sites: set<Site>)
  {
    forall s :: s in sites ==> !s.value.SqlNull? && !s.value.SqlPlaceholder?
  }

  /** A filter with readable names and such values always compiles. */
  lemma {:induction false} FilterCompiles(p: Predicate)
    requires NamesReadable(p) && LiteralSites(PredicateSites(p))
    ensures Readable(p) && PredicateDocument(p).Ok?
    decreases p
  {
    match p
    case Compare(path, _, value) =>
      assert Site(path, value, false) in PredicateSites(p);
    case In(path, values, _) =>
      forall v | v in values ensures !v.SqlNull? && !v.SqlPlaceholder? {
        assert Site(path, v, false) in PredicateSites(p);
      }
      BsonValuesEach(values);
    case IsNull(_, _) =>
    case And(predicates) => FiltersCompile(p, predicates);
    case Or(predicates) => FiltersCompile(p, predicates);
  }

  lemma {:induction false} FiltersCompile(p: Predicate, predicates: seq<Predicate>)
    requires (p.And? || p.Or?) && p.predicates == predicates
    requires NamesReadable(p) && LiteralSites(PredicateSites(p))
    ensures forall q :: q in predicates ==> Readable(q)
    ensures PredicateDocuments(predicates).Ok? && PredicateDocuments(predicates).value != []
    decreases p, 0
  {
    forall q | q in predicates ensures Readable(q) && PredicateDocument(q).Ok? {
      assert forall s :: s in PredicateSites(q) ==> s in PredicateSites(p);
      FilterCompiles(q);
    }
    PredicateDocumentsEach(predicates);
  }

  /** The filter of a lowered plan without placeholders compares with no NULL. */
  lemma LoweredFilterLiteral(plan: StatementPlan, schema: SchemaProfile)
    requires ConditionOf(plan).Some? && Lowered(plan, schema) && PlaceholderFree(plan)
    ensures LiteralSites(PredicateSites(ConditionOf(plan).value))
  {
    var filter := ConditionOf(plan).value;
    forall s | s in PredicateSites(filter) ensures !s.value.SqlNull? && !s.value.SqlPlaceholder? {
      assert s in PlanSites(plan);
      WriteTyping.FilterSitesRefuseNull(filter, s);
      assert ValidateValue(s.path, s.value, schema, s.nullAllowed).Ok?;
    }
  }

  /** The condition of the prepared statement holds of a document under the parameters. */
  ghost predicate Holds(plan: StatementPlan, parameters: seq<SqlValue>, d: Doc)
    requires ConditionOf(plan).Some?
  {
    Sql(ConditionOf(plan).value, ParameterEnv(parameters, LiteralEnv), d) == True
  }

  /** MongoDB matches the document with the compiled condition of the plan. */
  ghost predicate Matched(plan: StatementPlan, d: Doc)
    requires ConditionOf(plan).Some?
  {
    var filter := PredicateDocument(ConditionOf(plan).value);
    filter.Ok? && MongoMatching.Matches(filter.value, d)
  }

  /** The condition of a bound statement, of any kind, always compiles. Without a negated leaf on a
      null or missing field MongoDB matches only documents of which the prepared condition is true
      under the parameters, and without an `IS NULL` on a missing field it matches all of them. */
  lemma PreparedFilterMeaning(plan: StatementPlan, parameters: seq<SqlValue>, schema: SchemaProfile, d: Doc)
    requires ConditionOf(plan).Some? && Lowered(plan, schema)
    requires BindParameters(plan, parameters, schema).Ok? && NamesReadable(ConditionOf(plan).value)
    ensures var bound, filter := BindParameters(plan, parameters, schema).value, ConditionOf(plan).value;
            && ConditionOf(bound).Some? && PredicateDocument(ConditionOf(bound).value).Ok?
            && (NoExtraMatch(filter, d) && Matched(bound, d) ==> Holds(plan, parameters, d))
            && (NoMissedMatch(filter, d) && Holds(plan, parameters, d) ==> Matched(bound, d))
  {
    var bound := BindParameters(plan, parameters, schema).value;
    BindKeepsLowered(plan, parameters, schema);
    BoundFilterMeaning(plan, parameters, schema, LiteralEnv, d);
    SameShapeSameNames(ConditionOf(plan).value, ConditionOf(bound).value, d);
    LoweredFilterLiteral(bound, schema);
    FilterCompiles(ConditionOf(bound).value);
    CompiledFilterContained(ConditionOf(bound).value, d);
  }

  // ---------------------------------------------------------------------------
  // Through the gate
  // ---------------------------------------------------------------------------

  /** The resolver had the value of the one assignment retagged. */
  predicate Retags(write: ResolvedWrite)
  {
    && write.context.Some?
    && (write.context.value.selected == ParseInteger || write.context.value.selected == FormatIntegerAsString)
  }

  /** The executed plan is the bound one, except that a retagging resolver choice replaces the value
      of the only assignment losslessly. */
  ghost predicate SameStatement(bound: StatementPlan, write: ResolvedWrite)
  {
    && (!Retags(write) ==> write.plan == bound)
    && (Retags(write) ==> exists path :: RetaggedAt(bound, write.plan, path))
  }

  /** Whatever the resolver answers, the gate hands on the statement it was given. */
  lemma GateKeepsStatement(
    config: Config, bound: StatementPlan, resolver: ResolverRequest -> Answer, write: ResolvedWrite)
    requires !bound.Select? && Passage(config, bound, resolver).0 == Ok(write)
    ensures SameStatement(bound, write)
  {
    match OpenGate(config, bound) {
      case Ask(ambiguity) =>
        var answer := resolver(RequestFor(config, bound, ambiguity));
        ApprovalIsAllowed(config, bound, ambiguity, answer);
        ApplyAfterValidation(bound, ambiguity, write.context.value.selected);
      case _ =>
    }
  }

  /** The lowered statement is bound with the parameters, and the gate lets the bound plan through as `write`. */
  ghost predicate Executes(
    config: Config, plan: StatementPlan, parameters: seq<SqlValue>, bound: StatementPlan,
    resolver: ResolverRequest -> Answer, write: ResolvedWrite)
  {
    && Lowered(plan, config.schema) && BindParameters(plan, parameters, config.schema) == Ok(bound)
    && !bound.Select? && Passage(config, bound, resolver).0 == Ok(write)
  }

  lemma DeleteOfStatement(
    plan: StatementPlan, parameters: seq<SqlValue>, schema: SchemaProfile, bound: StatementPlan, d: Doc)
    requires plan.Delete? && Lowered(plan, schema) && BindParameters(plan, parameters, schema) == Ok(bound)
    requires NamesReadable(plan.filter)
    ensures bound.Delete?
    ensures NoExtraMatch(plan.filter, d) && DeletesDocument(bound, d) ==> Holds(plan, parameters, d)
    ensures NoMissedMatch(plan.filter, d) && Holds(plan, parameters, d) ==> DeletesDocument(bound, d)
  {
    PreparedFilterMeaning(plan, parameters, schema, d);
  }

  /** A prepared DELETE that passed the gate removes a document exactly when its condition holds of it. */
  lemma PreparedDeleteMeaning(
    config: Config, plan: StatementPlan, parameters: seq<SqlValue>, bound: StatementPlan,
    resolver: ResolverRequest -> Answer, write: ResolvedWrite, d: Doc)
    requires plan.Delete? && Executes(config, plan, parameters, bound, resolver, write)
    requires NamesReadable(plan.filter)
    ensures write.plan.Delete?
    ensures NoExtraMatch(plan.filter, d) && DeletesDocument(write.plan, d) ==> Holds(plan, parameters, d)
    ensures NoMissedMatch(plan.filter, d) && Holds(plan, parameters, d) ==> DeletesDocument(write.plan, d)
  {
    GateKeepsStatement(config, bound, resolver, write);
    DeleteOfStatement(plan, parameters, config.schema, bound, d);
  }

  /** The targets can be assigned, whatever the values. */
  ghost predicate TargetsAssignable(plan: StatementPlan)
    requires plan.Update?
  {
    Assignable(PlanShape(plan).assignments) && DotFreeAssignments(plan.assignments)
  }

  lemma BoundAssignment(plan: StatementPlan, parameters: seq<SqlValue>, schema: SchemaProfile, i: nat)
    requires plan.Update? && Lowered(plan, schema) && BindParameters(plan, parameters, schema).Ok?
    requires i < |plan.assignments|
    ensures var bound := BindParameters(plan, parameters, schema).value;
            && bound.Update? && |bound.assignments| == |plan.assignments|
            && bound.assignments[i]
               == AssignmentPlan(plan.assignments[i].path, Resolve(plan.assignments[i].value, parameters))
            && !bound.assignments[i].value.SqlPlaceholder?
  {
    var bound := BindParameters(plan, parameters, schema).value;
    BindKeepsLowered(plan, parameters, schema);
    BindAssignmentsEach(plan.assignments, parameters);
    assert bound.assignments[i] in bound.assignments;
    assert Site(bound.assignments[i].path, bound.assignments[i].value, true) in PlanSites(bound);
  }

  lemma SamePathsAssignable(a: seq<AssignmentPlan>, b: seq<AssignmentPlan>)
    requires Assignable(a) && |a| == |b|
    requires forall i :: 0 <= i < |a| ==> a[i].path == b[i].path && !b[i].value.SqlPlaceholder?
    ensures Assignable(b)
  {
  }

  /** The executed assignments: the prepared targets with the resolved values, each possibly
      retagged losslessly if the resolver chose so. */
  ghost predicate AssignsThrough(
    plan: StatementPlan, parameters: seq<SqlValue>, write: ResolvedWrite, xs: seq<Setting>)
    requires plan.Update?
  {
    && write.plan.Update? && |xs| == |write.plan.assignments| == |plan.assignments|
    && forall i :: 0 <= i < |xs| ==>
         var intended, value := Resolve(plan.assignments[i].value, parameters), write.plan.assignments[i].value;
         && !value.SqlPlaceholder? && xs[i] == (plan.assignments[i].path, Literal(value))
         && (value == intended || (Retags(write) && LosslesslyRetagged(intended, value)))
  }

  /** The gate keeps each target, and its value up to retagging. */
  lemma ExecutedAssignment(
    plan: StatementPlan, parameters: seq<SqlValue>, schema: SchemaProfile, bound: StatementPlan,
    write: ResolvedWrite, i: nat)
    requires plan.Update? && Lowered(plan, schema) && BindParameters(plan, parameters, schema) == Ok(bound)
    requires SameStatement(bound, write) && i < |plan.assignments|
    ensures var intended := Resolve(plan.assignments[i].value, parameters);
            && write.plan.Update? && |write.plan.assignments| == |plan.assignments|
            && write.plan.assignments[i].path == plan.assignments[i].path
            && var value := write.plan.assignments[i].value;
               !value.SqlPlaceholder? && (value == intended || (Retags(write) && LosslesslyRetagged(intended, value)))
  {
    BoundAssignment(plan, parameters, schema, i);
    if Retags(write) {
      var path :| RetaggedAt(bound, write.plan, path);
      assert i == 0;
    }
  }

  lemma ExecutedAssignments(
    plan: StatementPlan, parameters: seq<SqlValue>, schema: SchemaProfile, bound: StatementPlan, write: ResolvedWrite)
    returns (xs: seq<Setting>)
    requires plan.Update? && Lowered(plan, schema) && BindParameters(plan, parameters, schema) == Ok(bound)
    requires SameStatement(bound, write) && TargetsAssignable(plan)
    ensures AssignsThrough(plan, parameters, write, xs)
    ensures Assignable(write.plan.assignments) && DotFreeAssignments(write.plan.assignments)
    ensures xs == AssignmentSettings(write.plan.assignments)
  {
    ExecutedAssignment(plan, parameters, schema, bound, write, 0);
    var shapes := PlanShape(plan).assignments;
    forall i | 0 <= i < |plan.assignments|
      ensures shapes[i].path == plan.assignments[i].path == write.plan.assignments[i].path
      ensures !write.plan.assignments[i].value.SqlPlaceholder?
    {
      ExecutedAssignment(plan, parameters, schema, bound, write, i);
    }
    SamePathsAssignable(shapes, write.plan.assignments);
    xs := AssignmentSettings(write.plan.assignments);
    forall i | 0 <= i < |xs|
      ensures var intended, value := Resolve(plan.assignments[i].value, parameters), write.plan.assignments[i].value;
              && !value.SqlPlaceholder? && xs[i] == (plan.assignments[i].path, Literal(value))
              && (value == intended || (Retags(write) && LosslesslyRetagged(intended, value)))
    {
      ExecutedAssignment(plan, parameters, schema, bound, write, i);
    }
  }

  /** All targets can be set, each on its own. */
  ghost predicate AllSettable(d: Doc, xs: seq<Setting>)
  {
    forall i :: 0 <= i < |xs| ==> SetPath(d, xs[i].0, xs[i].1).Some?
  }

  lemma UpdateOfStatement(
    plan: StatementPlan, parameters: seq<SqlValue>, schema: SchemaProfile, bound: StatementPlan, write: ResolvedWrite,
    d: Doc)
    returns (xs: seq<Setting>)
    requires plan.Update? && Lowered(plan, schema) && BindParameters(plan, parameters, schema) == Ok(bound)
    requires SameStatement(bound, write) && NamesReadable(plan.filter) && TargetsAssignable(plan)
    ensures AssignsThrough(plan, parameters, write, xs)
    ensures NoExtraMatch(plan.filter, d) && UpdatedDocument(write.plan, d).Some? ==> Holds(plan, parameters, d)
    ensures NoMissedMatch(plan.filter, d) && Holds(plan, parameters, d) && AllSettable(d, xs) ==>
            UpdatedDocument(write.plan, d).Some?
    ensures UpdatedDocument(write.plan, d).Some? ==>
            AllSettable(d, xs) && Simultaneous(d, xs, UpdatedDocument(write.plan, d).value)
  {
    ExecutedFilter(plan, parameters, schema, bound, write, d);
    xs := ExecutedAssignments(plan, parameters, schema, bound, write);
    UpdatedWhenMatched(write.plan, d);
  }

  lemma ExecutedFilter(
    plan: StatementPlan, parameters: seq<SqlValue>, schema: SchemaProfile, bound: StatementPlan, write: ResolvedWrite,
    d: Doc)
    requires plan.Update? && Lowered(plan, schema) && BindParameters(plan, parameters, schema) == Ok(bound)
    requires SameStatement(bound, write) && NamesReadable(plan.filter)
    ensures write.plan.Update? && PredicateDocument(write.plan.filter).Ok?
    ensures NoExtraMatch(plan.filter, d) && Matched(write.plan, d) ==> Holds(plan, parameters, d)
    ensures NoMissedMatch(plan.filter, d) && Holds(plan, parameters, d) ==> Matched(write.plan, d)
  {
    PreparedFilterMeaning(plan, parameters, schema, d);
    SameFilter(bound, write);
  }

  lemma UpdatedWhenMatched(plan: StatementPlan, d: Doc)
    requires plan.Update? && PredicateDocument(plan.filter).Ok?
    requires Assignable(plan.assignments) && DotFreeAssignments(plan.assignments)
    ensures var xs := AssignmentSettings(plan.assignments);
            && (UpdatedDocument(plan, d).Some? <==> Matched(plan, d) && AllSettable(d, xs))
            && (UpdatedDocument(plan, d).Some? ==> Simultaneous(d, xs, UpdatedDocument(plan, d).value))
  {
    AppliedAtOnce(plan.assignments, d);
    UpdatedIsApplied(plan, d);
  }

  lemma UpdatedIsApplied(plan: StatementPlan, d: Doc)
    requires plan.Update? && PredicateDocument(plan.filter).Ok? && UpdateFields(plan.assignments).Ok?
    ensures UpdatedDocument(plan, d)
            == if Matched(plan, d) then ApplySet(d, UpdateFields(plan.assignments).value) else None
  {
  }

  /** A prepared UPDATE that passed the gate changes a document exactly when its condition holds of it
      and every target has only documents above it; then it assigns all resolved values at once, up to
      a lossless retagging the resolver chose, and leaves every other path as it was. */
  lemma {:induction false} PreparedUpdateMeaning(
    config: Config, plan: StatementPlan, parameters: seq<SqlValue>, bound: StatementPlan,
    resolver: ResolverRequest -> Answer, write: ResolvedWrite, d: Doc)
    returns (xs: seq<Setting>)
    requires plan.Update? && Executes(config, plan, parameters, bound, resolver, write)
    requires NamesReadable(plan.filter) && TargetsAssignable(plan)
    ensures AssignsThrough(plan, parameters, write, xs)
    ensures NoExtraMatch(plan.filter, d) && UpdatedDocument(write.plan, d).Some? ==> Holds(plan, parameters, d)
    ensures NoMissedMatch(plan.filter, d) && Holds(plan, parameters, d) && AllSettable(d, xs) ==>
            UpdatedDocument(write.plan, d).Some?
    ensures UpdatedDocument(write.plan, d).Some? ==>
            AllSettable(d, xs) && Simultaneous(d, xs, UpdatedDocument(write.plan, d).value)
  {
    GateKeepsStatement(config, bound, resolver, write);
    xs := UpdateOfStatement(plan, parameters, config.schema, bound, write, d);
  }

  lemma SameFilter(bound: StatementPlan, write: ResolvedWrite)
    requires bound.Update? && SameStatement(bound, write)
    ensures write.plan.Update? && write.plan.filter == bound.filter
  {
  }

  lemma AppliedAtOnce(assignments: seq<AssignmentPlan>, d: Doc)
    requires Assignable(assignments) && DotFreeAssignments(assignments)
    ensures UpdateFields(assignments).Ok?
    ensures var xs, after := AssignmentSettings(assignments), ApplySet(d, UpdateFields(assignments).value);
            && (after.Some? <==> AllSettable(d, xs))
            && (after.Some? ==> Simultaneous(d, xs, after.value))
  {
    UpdateAccepts(assignments);
    var keys := Ordering.SortedStrings(SetFields(assignments).Keys);
    Ordering.StringOrder();
    UpdateIsSimultaneous(assignments, d, keys);
  }

  /** The columns can be inserted together, whatever the values. */
  ghost predicate ColumnsInsertable(columns: seq<FieldPath>)
  {
    && (forall c :: c in columns ==> c != [] && !IsLiteralDottedKey(c))
    && PairwiseDisjoint(columns)
  }

  lemma BoundRow(plan: StatementPlan, parameters: seq<SqlValue>, schema: SchemaProfile, r: nat, j: nat)
    requires plan.Insert? && Lowered(plan, schema) && BindParameters(plan, parameters, schema).Ok?
    requires r < |plan.rows| && j < |plan.columns|
    ensures var bound := BindParameters(plan, parameters, schema).value;
            && bound.Insert? && bound.columns == plan.columns && |bound.rows| == |plan.rows|
            && plan.rows[r] in plan.rows && |bound.rows[r]| == |plan.columns|
            && bound.rows[r][j] == Resolve(plan.rows[r][j], parameters) && !bound.rows[r][j].SqlPlaceholder?
  {
    var bound := BindParameters(plan, parameters, schema).value;
    BindKeepsLowered(plan, parameters, schema);
    BindRowsEach(plan.rows, parameters);
    BindValuesEach(plan.rows[r], parameters);
    assert plan.rows[r] in plan.rows && bound.rows[r] in bound.rows;
    var s := Site(plan.columns[j], bound.rows[r][j], true);
    assert s in RowSites(bound.columns, bound.rows[r]);
    assert s in PlanSites(bound);
  }

  /** The row is built: each resolved value lies at its column, and nothing but documents elsewhere. */
  ghost predicate BuildsRow(
    columns: seq<FieldPath>, prepared: seq<SqlValue>, parameters: seq<SqlValue>, built: Result<Doc>)
  {
    && |prepared| == |columns| && built.Ok?
    && (forall j :: 0 <= j < |columns| ==>
          var value := Resolve(prepared[j], parameters);
          !value.SqlPlaceholder? && ValueAtPath(built.value, columns[j]) == Some(Literal(value)))
    && (forall q :: Lookup(built.value, q).Some? && !Lookup(built.value, q).value.Document? <==> q in columns)
  }

  lemma RowOfStatement(
    plan: StatementPlan, parameters: seq<SqlValue>, schema: SchemaProfile, bound: StatementPlan, r: nat)
    requires plan.Insert? && Lowered(plan, schema) && BindParameters(plan, parameters, schema) == Ok(bound)
    requires ColumnsInsertable(plan.columns) && r < |plan.rows| && plan.columns != []
    ensures bound.Insert? && bound.columns == plan.columns && |bound.rows| == |plan.rows|
    ensures BuildsRow(plan.columns, plan.rows[r], parameters, BuiltDocument(plan.columns, bound.rows[r]))
  {
    assert plan.rows[r] in plan.rows;
    BoundRow(plan, parameters, schema, r, 0);
    forall j | 0 <= j < |plan.columns|
      ensures bound.rows[r][j] == Resolve(plan.rows[r][j], parameters) && !bound.rows[r][j].SqlPlaceholder?
    {
      BoundRow(plan, parameters, schema, r, j);
    }
    BuilderAccepts(bound.columns, bound.rows[r]);
    BuilderContents(bound.columns, bound.rows[r]);
  }

  /** A prepared INSERT that passed the gate builds every row from its resolved values. */
  lemma PreparedInsertMeaning(
    config: Config, plan: StatementPlan, parameters: seq<SqlValue>, bound: StatementPlan,
    resolver: ResolverRequest -> Answer, write: ResolvedWrite, r: nat)
    requires plan.Insert? && Executes(config, plan, parameters, bound, resolver, write)
    requires ColumnsInsertable(plan.columns) && r < |plan.rows| && plan.columns != []
    ensures write.plan.Insert? && write.plan.columns == plan.columns && |write.plan.rows| == |plan.rows|
    ensures BuildsRow(plan.columns, plan.rows[r], parameters, BuiltDocument(plan.columns, write.plan.rows[r]))
  {
    GateKeepsStatement(config, bound, resolver, write);
    RowOfStatement(plan, parameters, config.schema, bound, r);
  }
}
