/** What binding a whole plan does, and exactly when it succeeds. */
module BindingTheorems {
  import opened Common
  import opened Paths
  import opened Documents
  import opened Plans
  import opened Profiles
  import opened Lowering
  import opened Binding
  import opened SqlTruth

  // ---------------------------------------------------------------------------
  // Shape
  // ---------------------------------------------------------------------------

  /** A predicate with its values blanked out. */
  function PredicateShape(p: Predicate): Predicate
    decreases p
  {
    match p
    case Compare(path, operator, _) => Compare(path, operator, SqlNull)
    case In(path, values, negated) => In(path, seq(|values|, i => SqlNull), negated)
    case IsNull(_, _) => p
    case And(predicates) => And(PredicateShapes(predicates))
    case Or(predicates) => Or(PredicateShapes(predicates))
  }

  function PredicateShapes(predicates: seq<Predicate>): seq<Predicate>
    decreases predicates
  {
    if predicates == [] then [] else [PredicateShape(predicates[0])] + PredicateShapes(predicates[1..])
  }

  function PlanShape(plan: StatementPlan): StatementPlan
  {
    match plan
    case Select(collection, projection, where, limit) =>
      Select(collection, projection, if where.Some? then Some(PredicateShape(where.value)) else None, limit)
    case Insert(collection, columns, rows) =>
      Insert(collection, columns, seq(|rows|, i requires 0 <= i < |rows| => seq(|rows[i]|, j => SqlNull)))
    case Update(collection, assignments, filter) =>
      Update(collection,
             seq(|assignments|, i requires 0 <= i < |assignments| => AssignmentPlan(assignments[i].path, SqlNull)),
             PredicateShape(filter))
    case Delete(collection, filter) => Delete(collection, PredicateShape(filter))
  }

  lemma {:induction false} BindKeepsPredicateShape(p: Predicate, parameters: seq<SqlValue>)
    requires BindPredicate(p, parameters).Ok?
    ensures PredicateShape(BindPredicate(p, parameters).value) == PredicateShape(p)
    decreases p
  {
    match p
    case Compare(_, _, _) =>
    case In(_, values, _) => BindValuesEach(values, parameters);
    case IsNull(_, _) =>
    case And(ps) => BindKeepsShapes(ps, parameters);
    case Or(ps) => BindKeepsShapes(ps, parameters);
  }

  lemma {:induction false} BindKeepsShapes(ps: seq<Predicate>, parameters: seq<SqlValue>)
    requires BindPredicates(ps, parameters).Ok?
    ensures PredicateShapes(BindPredicates(ps, parameters).value) == PredicateShapes(ps)
    decreases ps
  {
    if ps != [] {
      BindKeepsPredicateShape(ps[0], parameters);
      BindKeepsShapes(ps[1..], parameters);
      assert BindPredicates(ps, parameters).value[1..] == BindPredicates(ps[1..], parameters).value;
    }
  }

  lemma {:induction false} BindRowsEach(rows: seq<seq<SqlValue>>, parameters: seq<SqlValue>)
    ensures BindRows(rows, parameters).Ok? <==> forall i :: 0 <= i < |rows| ==> BindValues(rows[i], parameters).Ok?
    ensures BindRows(rows, parameters).Ok? ==>
            && |BindRows(rows, parameters).value| == |rows|
            && forall i :: 0 <= i < |rows| ==>
                BindRows(rows, parameters).value[i] == BindValues(rows[i], parameters).value
  {
    if rows != [] {
      BindRowsEach(rows[1..], parameters);
      assert forall i :: 0 < i < |rows| ==> rows[i] == rows[1..][i - 1];
    }
  }

  lemma {:induction false} BindAssignmentsEach(assignments: seq<AssignmentPlan>, parameters: seq<SqlValue>)
    ensures BindAssignments(assignments, parameters).Ok? <==>
            forall i :: 0 <= i < |assignments| ==> Bindable(assignments[i].value, parameters)
    ensures BindAssignments(assignments, parameters).Ok? ==>
            && |BindAssignments(assignments, parameters).value| == |assignments|
            && forall i :: 0 <= i < |assignments| ==>
                 BindAssignments(assignments, parameters).value[i]
                 == AssignmentPlan(assignments[i].path, Resolve(assignments[i].value, parameters))
  {
    if assignments != [] {
      BindAssignmentsEach(assignments[1..], parameters);
      assert forall i :: 0 < i < |assignments| ==> assignments[i] == assignments[1..][i - 1];
    }
  }

  // ---------------------------------------------------------------------------
  // The values of a bound plan
  // ---------------------------------------------------------------------------

  /** The bound plan differs from the original in the placeholders only. */
  ghost predicate IsSubstitution(plan: StatementPlan, bound: StatementPlan, parameters: seq<SqlValue>)
  {
    && PlanShape(bound) == PlanShape(plan)
    && PlanSites(bound) == ResolveSites(PlanSites(plan), parameters)
    && PlanNullTests(bound) == PlanNullTests(plan)
  }

  lemma SubstituteInsert(
    collection: string, columns: seq<FieldPath>, rows: seq<seq<SqlValue>>, parameters: seq<SqlValue>)
    requires forall row :: row in rows ==> |row| == |columns|
    ensures var plan := Insert(collection, columns, rows);
            && (SubstitutePlan(plan, parameters).Ok? <==> AllBindable(PlanSites(plan), parameters))
            && (SubstitutePlan(plan, parameters).Ok? ==>
                  && IsSubstitution(plan, SubstitutePlan(plan, parameters).value, parameters)
                  && RowsMatchColumns(SubstitutePlan(plan, parameters).value))
  {
    var plan := Insert(collection, columns, rows);
    BindRowsEach(rows, parameters);
    forall i | 0 <= i < |rows|
      ensures BindValues(rows[i], parameters).Ok? <==> AllBindable(RowSites(columns, rows[i]), parameters)
      ensures BindValues(rows[i], parameters).Ok? ==>
              && |BindValues(rows[i], parameters).value| == |columns|
              && RowSites(columns, BindValues(rows[i], parameters).value)
                 == ResolveSites(RowSites(columns, rows[i]), parameters)
    {
      assert rows[i] in rows;
      BindRowSites(columns, rows[i], parameters);
    }
    forall s | s in PlanSites(plan) ensures exists i :: 0 <= i < |rows| && s in RowSites(columns, rows[i]) {
      var row :| row in rows && s in RowSites(columns, row);
      var i :| 0 <= i < |rows| && rows[i] == row;
    }
    forall i, s | 0 <= i < |rows| && s in RowSites(columns, rows[i]) ensures s in PlanSites(plan) {
      assert rows[i] in rows;
    }
    if SubstitutePlan(plan, parameters).Ok? {
      var bound := BindRows(rows, parameters).value;
      var plan' := Insert(collection, columns, bound);
      forall s ensures s in PlanSites(plan') <==> s in ResolveSites(PlanSites(plan), parameters) {
        if s in PlanSites(plan') {
          var row :| row in bound && s in RowSites(columns, row);
          var i :| 0 <= i < |bound| && bound[i] == row;
          var t :| t in RowSites(columns, rows[i]) && s == ResolveSite(t, parameters);
        }
        if s in ResolveSites(PlanSites(plan), parameters) {
          var t :| t in PlanSites(plan) && s == ResolveSite(t, parameters);
          var i :| 0 <= i < |rows| && t in RowSites(columns, rows[i]);
          assert s in RowSites(columns, bound[i]) && bound[i] in bound;
        }
      }
      assert PlanShape(plan').rows == PlanShape(plan).rows by {
        forall i | 0 <= i < |rows| ensures |bound[i]| == |rows[i]| {
          BindValuesEach(rows[i], parameters);
        }
      }
    }
  }

  lemma BindRowSites(columns: seq<FieldPath>, row: seq<SqlValue>, parameters: seq<SqlValue>)
    requires |row| == |columns|
    ensures BindValues(row, parameters).Ok? <==> AllBindable(RowSites(columns, row), parameters)
    ensures BindValues(row, parameters).Ok? ==>
            && |BindValues(row, parameters).value| == |row|
            && RowSites(columns, BindValues(row, parameters).value) == ResolveSites(RowSites(columns, row), parameters)
  {
    BindValuesEach(row, parameters);
    assert forall j :: 0 <= j < |row| ==> Site(columns[j], row[j], true) in RowSites(columns, row);
    if BindValues(row, parameters).Ok? {
      var bound := BindValues(row, parameters).value;
      forall s ensures s in RowSites(columns, bound) <==> s in ResolveSites(RowSites(columns, row), parameters) {
        if s in RowSites(columns, bound) {
          var j :| 0 <= j < |columns| && j < |bound| && s == Site(columns[j], bound[j], true);
          assert s == ResolveSite(Site(columns[j], row[j], true), parameters);
        }
        if s in ResolveSites(RowSites(columns, row), parameters) {
          var t :| t in RowSites(columns, row) && s == ResolveSite(t, parameters);
          var j :| 0 <= j < |columns| && j < |row| && t == Site(columns[j], row[j], true);
          assert s == Site(columns[j], bound[j], true);
        }
      }
    }
  }

  function AssignmentSites(assignments: seq<AssignmentPlan>): set<Site>
  {
    set a | a in assignments :: Site(a.path, a.value, true)
  }

  lemma BindAssignmentSites(assignments: seq<AssignmentPlan>, parameters: seq<SqlValue>)
    ensures BindAssignments(assignments, parameters).Ok? <==> AllBindable(AssignmentSites(assignments), parameters)
    ensures BindAssignments(assignments, parameters).Ok? ==>
            AssignmentSites(BindAssignments(assignments, parameters).value)
            == ResolveSites(AssignmentSites(assignments), parameters)
  {
    BindAssignmentsEach(assignments, parameters);
    forall i | 0 <= i < |assignments|
      ensures Site(assignments[i].path, assignments[i].value, true) in AssignmentSites(assignments)
    {
      assert assignments[i] in assignments;
    }
    if BindAssignments(assignments, parameters).Ok? {
      var bound := BindAssignments(assignments, parameters).value;
      forall s ensures s in AssignmentSites(bound) <==> s in ResolveSites(AssignmentSites(assignments), parameters) {
        if s in AssignmentSites(bound) {
          var b :| b in bound && s == Site(b.path, b.value, true);
          var i :| 0 <= i < |bound| && bound[i] == b;
          assert s == ResolveSite(Site(assignments[i].path, assignments[i].value, true), parameters);
        }
        if s in ResolveSites(AssignmentSites(assignments), parameters) {
          var t :| t in AssignmentSites(assignments) && s == ResolveSite(t, parameters);
          var a :| a in assignments && t == Site(a.path, a.value, true);
          var i :| 0 <= i < |assignments| && assignments[i] == a;
          assert bound[i] in bound;
        }
      }
    }
  }

  lemma UnionResolves(a: set<Site>, b: set<Site>, parameters: seq<SqlValue>)
    ensures ResolveSites(a + b, parameters) == ResolveSites(a, parameters) + ResolveSites(b, parameters)
    ensures AllBindable(a + b, parameters) <==> AllBindable(a, parameters) && AllBindable(b, parameters)
  {
  }

  /** Substitution succeeds exactly when every placeholder has a parameter, and then it changes
      nothing but the placeholders. */
  lemma SubstitutionExact(plan: StatementPlan, parameters: seq<SqlValue>)
    requires RowsMatchColumns(plan)
    ensures SubstitutePlan(plan, parameters).Ok? <==> AllBindable(PlanSites(plan), parameters)
    ensures SubstitutePlan(plan, parameters).Ok? ==>
            && IsSubstitution(plan, SubstitutePlan(plan, parameters).value, parameters)
            && RowsMatchColumns(SubstitutePlan(plan, parameters).value)
  {
    match plan
    case Select(_, _, where, _) =>
      if where.Some? {
        BindPredicateSites(where.value, parameters);
        if BindPredicate(where.value, parameters).Ok? {
          BindKeepsPredicateShape(where.value, parameters);
        }
      }
    case Insert(collection, columns, rows) =>
      SubstituteInsert(collection, columns, rows, parameters);
    case Update(_, assignments, filter) =>
      BindAssignmentsEach(assignments, parameters);
      BindAssignmentSites(assignments, parameters);
      BindPredicateSites(filter, parameters);
      UnionResolves(AssignmentSites(assignments), PredicateSites(filter), parameters);
      if SubstitutePlan(plan, parameters).Ok? {
        BindKeepsPredicateShape(filter, parameters);
        var plan' := SubstitutePlan(plan, parameters).value;
        assert PlanSites(plan') == AssignmentSites(plan'.assignments) + PredicateSites(plan'.filter);
        assert PlanShape(plan').assignments == PlanShape(plan).assignments;
      }
    case Delete(_, filter) =>
      BindPredicateSites(filter, parameters);
      if BindPredicate(filter, parameters).Ok? {
        BindKeepsPredicateShape(filter, parameters);
      }
  }

  // ---------------------------------------------------------------------------
  // Validation of a bound plan
  // ---------------------------------------------------------------------------

  lemma {:induction false} ValidateRowExact(columns: seq<FieldPath>, row: seq<SqlValue>, schema: SchemaProfile)
    ensures ValidateRow(columns, row, schema).Ok? <==> ValidSites(RowSites(columns, row), schema)
  {
    if columns == [] || row == [] {
      assert RowSites(columns, row) == {};
    } else {
      ValidateRowExact(columns[1..], row[1..], schema);
      var first, rest := Site(columns[0], row[0], true), RowSites(columns[1..], row[1..]);
      assert RowSites(columns, row) == {first} + rest by {
        forall s | s in RowSites(columns, row) ensures s == first || s in rest {
          var j :| 0 <= j < |columns| && j < |row| && s == Site(columns[j], row[j], true);
          if j > 0 {
            assert s == Site(columns[1..][j - 1], row[1..][j - 1], true);
          }
        }
        forall s | s in rest ensures s in RowSites(columns, row) {
          var j :| 0 <= j < |columns| - 1 && j < |row| - 1 && s == Site(columns[1..][j], row[1..][j], true);
          assert s == Site(columns[j + 1], row[j + 1], true);
        }
      }
    }
  }

  lemma {:induction false} ValidateRowsExact(columns: seq<FieldPath>, rows: seq<seq<SqlValue>>, schema: SchemaProfile)
    ensures ValidateRows(columns, rows, schema).Ok? <==>
            forall row :: row in rows ==> ValidSites(RowSites(columns, row), schema)
  {
    if rows != [] {
      ValidateRowExact(columns, rows[0], schema);
      ValidateRowsExact(columns, rows[1..], schema);
      assert forall row :: row in rows <==> row == rows[0] || row in rows[1..];
    }
  }

  lemma {:induction false} ValidateAssignmentsExact(assignments: seq<AssignmentPlan>, schema: SchemaProfile)
    ensures ValidateAssignments(assignments, schema).Ok? <==> ValidSites(AssignmentSites(assignments), schema)
  {
    if assignments != [] {
      ValidateAssignmentsExact(assignments[1..], schema);
      assert assignments == [assignments[0]] + assignments[1..];
      assert AssignmentSites(assignments)
          == {Site(assignments[0].path, assignments[0].value, true)} + AssignmentSites(assignments[1..]);
    }
  }

  lemma ValidateBoundPlanExact(plan: StatementPlan, schema: SchemaProfile)
    ensures ValidateBoundPlan(plan, schema).Ok? <==>
            ValidSites(PlanSites(plan), schema) && Profiled(PlanNullTests(plan), schema)
  {
    match plan
    case Select(_, _, where, _) =>
      if where.Some? {
        ValidatePredicateExact(where.value, schema);
      }
    case Insert(_, columns, rows) =>
      ValidateRowsExact(columns, rows, schema);
      assert forall row, s :: row in rows && s in RowSites(columns, row) ==> s in PlanSites(plan);
    case Update(_, assignments, filter) =>
      ValidateAssignmentsExact(assignments, schema);
      ValidatePredicateExact(filter, schema);
      assert PlanSites(plan) == AssignmentSites(assignments) + PredicateSites(filter);
    case Delete(_, filter) =>
      ValidatePredicateExact(filter, schema);
  }

  // ---------------------------------------------------------------------------
  // Binding as a whole
  // ---------------------------------------------------------------------------

  /** Binding accepts exactly the parameter lists of literals whose length is the largest index
      used and whose values are valid at every field they reach. */
  lemma BindSucceedsExactly(plan: StatementPlan, parameters: seq<SqlValue>, schema: SchemaProfile)
    requires RowsMatchColumns(plan)
    ensures BindParameters(plan, parameters, schema).Ok? <==>
            && (forall v :: v in parameters ==> !v.SqlPlaceholder?)
            && IsLargestIndex(ValuesAt(PlanSites(plan)), 0, Ok(|parameters|))
            && ValidSites(ResolveSites(PlanSites(plan), parameters), schema)
            && Profiled(PlanNullTests(plan), schema)
  {
    ParameterCountExact(plan);
    SubstitutionExact(plan, parameters);
    if IsLargestIndex(ValuesAt(PlanSites(plan)), 0, Ok(|parameters|)) {
      LargestIndexUnique(ValuesAt(PlanSites(plan)), PlanMaximum(plan), |parameters|);
      EverythingBindable(plan, parameters);
    }
    if SubstitutePlan(plan, parameters).Ok? {
      ValidateBoundPlanExact(SubstitutePlan(plan, parameters).value, schema);
    }
  }

  lemma LargestIndexNotAbove(values: set<SqlValue>, a: nat, b: nat)
    requires IsLargestIndex(values, 0, Ok(a)) && IsLargestIndex(values, 0, Ok(b))
    ensures a <= b
  {
    if a != 0 {
      var v :| v in values && PlaceholderIndex(v).value == a;
    }
  }

  lemma LargestIndexExists(values: set<SqlValue>, a: Result<nat>, n: nat)
    requires IsLargestIndex(values, 0, a) && IsLargestIndex(values, 0, Ok(n))
    ensures a.Ok?
  {
  }

  lemma LargestIndexUnique(values: set<SqlValue>, a: Result<nat>, n: nat)
    requires IsLargestIndex(values, 0, a) && IsLargestIndex(values, 0, Ok(n))
    ensures a == Ok(n)
  {
    LargestIndexExists(values, a, n);
    assert IsLargestIndex(values, 0, Ok(a.value));
    SameLargestIndex(values, a.value, n);
  }

  lemma SameLargestIndex(values: set<SqlValue>, a: nat, b: nat)
    requires IsLargestIndex(values, 0, Ok(a)) && IsLargestIndex(values, 0, Ok(b))
    ensures a == b
  {
    assert a <= b by { LargestIndexNotAbove(values, a, b); }
    assert b <= a by { LargestIndexNotAbove(values, b, a); }
  }

  /** With as many parameters as the largest index, no placeholder is left without one. */
  lemma EverythingBindable(plan: StatementPlan, parameters: seq<SqlValue>)
    requires IsLargestIndex(ValuesAt(PlanSites(plan)), 0, Ok(|parameters|))
    ensures AllBindable(PlanSites(plan), parameters)
  {
    forall s | s in PlanSites(plan) ensures Bindable(s.value, parameters) {
      assert s.value in ValuesAt(PlanSites(plan));
    }
  }

  /** A bound plan has no placeholder left, is the original with its placeholders replaced, and
      still satisfies everything lowering had checked. */
  lemma BindKeepsLowered(plan: StatementPlan, parameters: seq<SqlValue>, schema: SchemaProfile)
    requires Lowered(plan, schema) && BindParameters(plan, parameters, schema).Ok?
    ensures var bound := BindParameters(plan, parameters, schema).value;
            && Lowered(bound, schema) && PlaceholderFree(bound)
            && IsSubstitution(plan, bound, parameters)
  {
    var bound := BindParameters(plan, parameters, schema).value;
    BindSucceedsExactly(plan, parameters, schema);
    SubstitutionExact(plan, parameters);
    EverythingBindable(plan, parameters);
    forall s | s in PlanSites(bound)
      ensures !s.value.SqlPlaceholder? && Field(schema, s.path).Some?
    {
      var t :| t in PlanSites(plan) && s == ResolveSite(t, parameters);
      assert Bindable(t.value, parameters);
      assert t.path in (set u | u in PlanSites(plan) :: u.path);
      if t.value.SqlPlaceholder? {
        assert s.value in parameters;
      }
    }
    assert plan.Insert? ==> bound.columns == plan.columns;
  }

  /** Filters keep their meaning: the bound filter says of a document what the original says
      under its parameters. */
  lemma BoundFilterMeaning(
    plan: StatementPlan, parameters: seq<SqlValue>, schema: SchemaProfile, env: Environment, d: Doc)
    requires ConditionOf(plan).Some? && BindParameters(plan, parameters, schema).Ok?
    ensures var bound := BindParameters(plan, parameters, schema).value;
            && ConditionOf(bound).Some?
            && Sql(ConditionOf(bound).value, env, d) == Sql(ConditionOf(plan).value, ParameterEnv(parameters, env), d)
  {
    BoundMeaning(ConditionOf(plan).value, parameters, env, d);
  }
}
