/** Where a plan holds values, and what lowering guarantees about them
    (crates/sql-engine/src/lowering.rs). */
module Lowering {
  import opened Paths
  import opened Plans
  import opened Profiles
  import opened TypePolicy

  /** One value of a plan, with the field it is compared with or assigned to. */
  datatype Site = Site(path: FieldPath, value: SqlValue, nullAllowed: bool)

  function PredicateSites(p: Predicate): set<Site>
    decreases p
  {
    match p
    case Compare(path, _, value) => {Site(path, value, false)}
    case In(path, values, _) => set v | v in values :: Site(path, v, false)
    case IsNull(_, _) => {}
    case And(predicates) => set q, s | q in predicates && s in PredicateSites(q) :: s
    case Or(predicates) => set q, s | q in predicates && s in PredicateSites(q) :: s
  }

  /** The fields tested for NULL. */
  function NullTests(p: Predicate): set<FieldPath>
    decreases p
  {
    match p
    case Compare(_, _, _) => {}
    case In(_, _, _) => {}
    case IsNull(path, _) => {path}
    case And(predicates) => set q, t | q in predicates && t in NullTests(q) :: t
    case Or(predicates) => set q, t | q in predicates && t in NullTests(q) :: t
  }

  function RowSites(columns: seq<FieldPath>, row: seq<SqlValue>): set<Site>
  {
    set j | 0 <= j < |columns| && j < |row| :: Site(columns[j], row[j], true)
  }

  function PlanSites(plan: StatementPlan): set<Site>
  {
    match plan
    case Select(_, _, where, _) => if where.Some? then PredicateSites(where.value) else {}
    case Insert(_, columns, rows) => set row, s | row in rows && s in RowSites(columns, row) :: s
    case Update(_, assignments, filter) =>
      (set a | a in assignments :: Site(a.path, a.value, true)) + PredicateSites(filter)
    case Delete(_, filter) => PredicateSites(filter)
  }

  function PlanNullTests(plan: StatementPlan): set<FieldPath>
  {
    match plan
    case Select(_, _, where, _) => if where.Some? then NullTests(where.value) else {}
    case Insert(_, _, _) => {}
    case Update(_, _, filter) => NullTests(filter)
    case Delete(_, filter) => NullTests(filter)
  }

  predicate RowsMatchColumns(plan: StatementPlan)
  {
    plan.Insert? ==> forall row :: row in plan.rows ==> |row| == |plan.columns|
  }

  ghost predicate ValidSites(sites: set<Site>, schema: SchemaProfile)
  {
    forall s :: s in sites ==> ValidateValue(s.path, s.value, schema, s.nullAllowed).Ok?
  }

  ghost predicate Profiled(paths: set<FieldPath>, schema: SchemaProfile)
  {
    forall p :: p in paths ==> Field(schema, p).Some?
  }

  /** What lowering has checked about a plan: every field is profiled, every literal is valid for
      its field, and every row has one value per column. */
  ghost predicate Lowered(plan: StatementPlan, schema: SchemaProfile)
  {
    && Profiled((set s | s in PlanSites(plan) :: s.path), schema)
    && Profiled(PlanNullTests(plan), schema)
    && ValidSites(PlanSites(plan), schema)
    && RowsMatchColumns(plan)
    && (plan.Insert? ==> Profiled((set c | c in plan.columns), schema))
  }

  predicate PlaceholderFree(plan: StatementPlan)
  {
    forall s :: s in PlanSites(plan) ==> !s.value.SqlPlaceholder?
  }

  lemma {:induction false} ValidateValuesExact(path: FieldPath, values: seq<SqlValue>, schema: SchemaProfile)
    ensures ValidateValues(path, values, schema).Ok? <==>
            forall v :: v in values ==> ValidateValue(path, v, schema, false).Ok?
  {
    if values != [] {
      ValidateValuesExact(path, values[1..], schema);
      assert forall v :: v in values <==> v == values[0] || v in values[1..];
    }
  }

  lemma {:induction false} ValidatePredicatesExact(predicates: seq<Predicate>, schema: SchemaProfile)
    ensures ValidatePredicates(predicates, schema).Ok? <==>
            forall q :: q in predicates ==> ValidatePredicate(q, schema).Ok?
  {
    if predicates != [] {
      ValidatePredicatesExact(predicates[1..], schema);
      assert ValidatePredicates(predicates, schema).Ok? <==>
             ValidatePredicate(predicates[0], schema).Ok? && ValidatePredicates(predicates[1..], schema).Ok?;
      if ValidatePredicates(predicates, schema).Ok? {
        forall q | q in predicates ensures ValidatePredicate(q, schema).Ok? {
          assert q == predicates[0] || q in predicates[1..];
        }
      } else if ValidatePredicate(predicates[0], schema).Ok? {
        var q :| q in predicates[1..] && ValidatePredicate(q, schema).Err?;
        assert q in predicates;
      } else {
        assert predicates[0] in predicates;
      }
    }
  }

  /** The recursive validator accepts exactly the predicates all of whose values are valid and
      whose NULL tests name profiled fields. */
  lemma {:induction false} ValidatePredicateExact(p: Predicate, schema: SchemaProfile)
    ensures ValidatePredicate(p, schema).Ok? <==>
            ValidSites(PredicateSites(p), schema) && Profiled(NullTests(p), schema)
    decreases p
  {
    match p
    case Compare(path, _, value) =>
      assert Site(path, value, false) in PredicateSites(p);
    case In(path, values, _) =>
      ValidateValuesExact(path, values, schema);
      assert forall v :: v in values ==> Site(path, v, false) in PredicateSites(p);
    case IsNull(path, _) =>
    case And(_) => ValidateLogicalExact(p, schema);
    case Or(_) => ValidateLogicalExact(p, schema);
  }

  lemma {:induction false} ValidateLogicalExact(p: Predicate, schema: SchemaProfile)
    requires p.And? || p.Or?
    ensures ValidatePredicate(p, schema).Ok? <==>
            ValidSites(PredicateSites(p), schema) && Profiled(NullTests(p), schema)
    decreases p, 0
  {
    ValidatePredicatesExact(p.predicates, schema);
    forall q | q in p.predicates
      ensures ValidatePredicate(q, schema).Ok? <==>
              ValidSites(PredicateSites(q), schema) && Profiled(NullTests(q), schema)
    {
      ValidatePredicateExact(q, schema);
    }
    assert forall q, s :: q in p.predicates && s in PredicateSites(q) ==> s in PredicateSites(p);
    assert forall q, t :: q in p.predicates && t in NullTests(q) ==> t in NullTests(p);
  }
}

/** Binding of positional parameters (crates/sql-engine/src/binding.rs). */
module Binding {
  import opened Common
  import opened Decimal
  import opened Paths
  import opened Documents
  import opened Plans
  import opened Profiles
  import opened TypePolicy
  import opened Lowering
  import opened SqlTruth

  function ParsePlaceholderIndex(name: string): (index: Result<nat>)
    ensures index.Ok? ==> index.value >= 1
    ensures index.Err? ==> index.kind == InvalidInput
  {
    if name == "" || name[0] != '$' then Err(InvalidInput)
    else
      match ParseUnsigned(name[1..], MAX_USIZE)
      case None => Err(InvalidInput)
      case Some(n) => if n == 0 then Err(InvalidInput) else Ok(n)
  }

  /** `$n` denotes `n`. */
  lemma PlaceholderOfFormat(n: nat)
    requires 1 <= n <= MAX_USIZE
    ensures ParsePlaceholderIndex("$" + FormatNat(n)) == Ok(n)
  {
    var name := "$" + FormatNat(n);
    assert name[1..] == FormatNat(n);
    ValueOfFormat(n);
  }

  /** An index is read only from a dollar sign, an optional plus sign and digits worth that index; zero
      and numbers that do not fit a machine word are refused. */
  lemma PlaceholderExact(name: string, n: nat)
    ensures ParsePlaceholderIndex(name) == Ok(n) <==>
            1 <= n <= MAX_USIZE && (Signed(name, "$", n) || Signed(name, "$+", n))
  {
    assert "$+" <= name ==> name[0] == '$' && name[1] == '+';
    if "$" <= name {
      UnsignedExact(name[1..], MAX_USIZE, n);
      SignedExact(name, "$", n);
      assert name[1..][0..] == name[1..];
      SignedExact(name[1..], "", n);
      if "+" <= name[1..] {
        assert "$+" <= name && name[2..] == name[1..][1..];
        SignedExact(name, "$+", n);
        SignedExact(name[1..], "+", n);
      } else {
        assert "$+" <= name ==> name[1..][0] == '+';
      }
    }
  }

  /** The one-based index of a placeholder; literals count as 0. */
  function PlaceholderIndex(value: SqlValue): (index: Result<nat>)
    ensures index.Err? ==> index.kind == InvalidInput
    ensures index.Ok? ==> (index.value == 0 <==> !value.SqlPlaceholder?)
  {
    if value.SqlPlaceholder? then ParsePlaceholderIndex(value.name) else Ok(0)
  }

  function Max(a: nat, b: nat): nat { if a < b then b else a }

  // ---------------------------------------------------------------------------
  // The number of parameters
  // ---------------------------------------------------------------------------

  function FoldValues(values: seq<SqlValue>, maximum: nat): Result<nat>
  {
    if values == [] then Ok(maximum)
    else
      var index :- PlaceholderIndex(values[0]);
      FoldValues(values[1..], Max(maximum, index))
  }

  function MaximumPredicateIndex(p: Predicate): Result<nat>
    decreases p
  {
    match p
    case Compare(_, _, value) => PlaceholderIndex(value)
    case In(_, values, _) => FoldValues(values, 0)
    case IsNull(_, _) => Ok(0)
    case And(predicates) => FoldPredicates(predicates, 0)
    case Or(predicates) => FoldPredicates(predicates, 0)
  }

  function FoldPredicates(predicates: seq<Predicate>, maximum: nat): Result<nat>
    decreases predicates
  {
    if predicates == [] then Ok(maximum)
    else
      var index :- MaximumPredicateIndex(predicates[0]);
      FoldPredicates(predicates[1..], Max(maximum, index))
  }

  function FoldRows(rows: seq<seq<SqlValue>>, maximum: nat): Result<nat>
  {
    if rows == [] then Ok(maximum)
    else
      var next :- FoldValues(rows[0], maximum);
      FoldRows(rows[1..], next)
  }

  function AssignedValues(assignments: seq<AssignmentPlan>): (values: seq<SqlValue>)
    ensures |values| == |assignments| && forall i :: 0 <= i < |values| ==> values[i] == assignments[i].value
  {
    seq(|assignments|, i requires 0 <= i < |assignments| => assignments[i].value)
  }

  function PlanMaximum(plan: StatementPlan): Result<nat>
  {
    match plan
    case Select(_, _, where, _) => if where.Some? then MaximumPredicateIndex(where.value) else Ok(0)
    case Insert(_, _, rows) => FoldRows(rows, 0)
    case Update(_, assignments, filter) =>
      var maximum :- FoldValues(AssignedValues(assignments), 0);
      var inFilter :- MaximumPredicateIndex(filter);
      Ok(Max(maximum, inFilter))
    case Delete(_, filter) => MaximumPredicateIndex(filter)
  }

  /** `maximum_placeholder_index`: nested loops over a running maximum. */
  method MaximumPlaceholderIndex(plan: StatementPlan) returns (result: Result<nat>)
    ensures result == PlanMaximum(plan)
  {
    var maximum := 0;
    match plan {
      case Select(_, _, where, _) =>
        if where.Some? {
          var inFilter := MaximumPredicateIndex(where.value);
          if inFilter.Err? { return inFilter; }
          maximum := Max(maximum, inFilter.value);
        }
      case Insert(_, _, rows) =>
        var i := 0;
        while i < |rows|
          invariant 0 <= i <= |rows|
          invariant FoldRows(rows, 0) == FoldRows(rows[i..], maximum)
        {
          var row, j := rows[i], 0;
          ghost var before := maximum;
          while j < |row|
            invariant 0 <= j <= |row|
            invariant FoldValues(row, before) == FoldValues(row[j..], maximum)
          {
            var index := PlaceholderIndex(row[j]);
            assert row[j..][0] == row[j] && row[j..][1..] == row[j + 1..];
            if index.Err? {
              assert FoldValues(row, before) == index;
              assert rows[i..][0] == row;
              return index;
            }
            maximum := Max(maximum, index.value);
            j := j + 1;
          }
          assert row[j..] == [];
          assert rows[i..][0] == row && rows[i..][1..] == rows[i + 1..];
          i := i + 1;
        }
        assert rows[i..] == [];
      case Update(_, assignments, filter) =>
        var values, i := AssignedValues(assignments), 0;
        while i < |assignments|
          invariant 0 <= i <= |assignments|
          invariant FoldValues(values, 0) == FoldValues(values[i..], maximum)
        {
          var index := PlaceholderIndex(assignments[i].value);
          assert values[i..][0] == assignments[i].value && values[i..][1..] == values[i + 1..];
          if index.Err? { return index; }
          maximum := Max(maximum, index.value);
          i := i + 1;
        }
        assert values[i..] == [];
        var inFilter := MaximumPredicateIndex(filter);
        if inFilter.Err? { return inFilter; }
        maximum := Max(maximum, inFilter.value);
      case Delete(_, filter) =>
        return MaximumPredicateIndex(filter);
    }
    return Ok(maximum);
  }

  /** `result` is the largest index among `values`, or fails because some placeholder is malformed. */
  ghost predicate IsLargestIndex(values: set<SqlValue>, atLeast: nat, result: Result<nat>)
  {
    && (result.Ok? <==> forall v :: v in values ==> PlaceholderIndex(v).Ok?)
    && (result.Err? ==> result.kind == InvalidInput)
    && (result.Ok? ==>
          && atLeast <= result.value
          && (forall v :: v in values ==> PlaceholderIndex(v).value <= result.value)
          && (result.value == atLeast || exists v :: v in values && PlaceholderIndex(v).value == result.value))
  }

  function ValuesAt(sites: set<Site>): set<SqlValue> { set s | s in sites :: s.value }

  /** Continuing with further values from the largest index so far. */
  lemma LargestThen(first: set<SqlValue>, rest: set<SqlValue>, atLeast: nat, next: nat, result: Result<nat>)
    requires IsLargestIndex(first, atLeast, Ok(next)) && IsLargestIndex(rest, next, result)
    ensures IsLargestIndex(first + rest, atLeast, result)
  {
  }

  lemma MalformedThen(first: set<SqlValue>, rest: set<SqlValue>, atLeast: nat, result: Result<nat>)
    requires result.Err? && IsLargestIndex(first, atLeast, result)
    ensures IsLargestIndex(first + rest, atLeast, result)
  {
  }

  lemma LargestFrom(values: set<SqlValue>, atLeast: nat, result: Result<nat>)
    requires IsLargestIndex(values, 0, result)
    ensures IsLargestIndex(values, atLeast,
                           match result case Err(_) => result case Ok(index) => Ok(Max(atLeast, index)))
  {
  }

  lemma LargestOfOne(value: SqlValue)
    ensures IsLargestIndex({value}, 0, PlaceholderIndex(value))
  {
    assert value in {value};
  }

  lemma {:induction false} FoldValuesLargest(values: seq<SqlValue>, maximum: nat)
    ensures IsLargestIndex((set v | v in values), maximum, FoldValues(values, maximum))
  {
    if values != [] {
      var index, rest := PlaceholderIndex(values[0]), set v | v in values[1..];
      assert (set v | v in values) == {values[0]} + rest;
      LargestOfOne(values[0]);
      LargestFrom({values[0]}, maximum, index);
      if index.Ok? {
        FoldValuesLargest(values[1..], Max(maximum, index.value));
        LargestThen({values[0]}, rest, maximum, Max(maximum, index.value), FoldValues(values, maximum));
      } else {
        MalformedThen({values[0]}, rest, maximum, index);
      }
    }
  }

  lemma {:induction false} FoldPredicatesLargest(predicates: seq<Predicate>, maximum: nat)
    ensures IsLargestIndex(ValuesAt(set q, s | q in predicates && s in PredicateSites(q) :: s), maximum,
                           FoldPredicates(predicates, maximum))
    decreases predicates, 1
  {
    if predicates != [] {
      var head, tail := predicates[0], predicates[1..];
      var index, first := MaximumPredicateIndex(head), ValuesAt(PredicateSites(head));
      var rest := ValuesAt(set q, s | q in tail && s in PredicateSites(q) :: s);
      var all := ValuesAt(set q, s | q in predicates && s in PredicateSites(q) :: s);
      assert all == first + rest by {
        assert forall q :: q in predicates <==> q == head || q in tail;
      }
      PredicateIndexLargest(head);
      LargestFrom(first, maximum, index);
      if index.Ok? {
        FoldPredicatesLargest(tail, Max(maximum, index.value));
        LargestThen(first, rest, maximum, Max(maximum, index.value), FoldPredicates(predicates, maximum));
      } else {
        MalformedThen(first, rest, maximum, index);
      }
    }
  }

  lemma {:induction false} PredicateIndexLargest(p: Predicate)
    ensures IsLargestIndex(ValuesAt(PredicateSites(p)), 0, MaximumPredicateIndex(p))
    decreases p, 0
  {
    match p
    case Compare(path, _, value) =>
      assert ValuesAt(PredicateSites(p)) == {value};
    case In(path, values, _) =>
      FoldValuesLargest(values, 0);
      assert forall v :: v in values ==> Site(path, v, false) in PredicateSites(p);
      assert ValuesAt(PredicateSites(p)) == set v | v in values;
    case IsNull(_, _) =>
    case And(predicates) => FoldPredicatesLargest(predicates, 0);
    case Or(predicates) => FoldPredicatesLargest(predicates, 0);
  }

  lemma {:induction false} FoldRowsLargest(rows: seq<seq<SqlValue>>, maximum: nat)
    ensures IsLargestIndex((set row, v | row in rows && v in row :: v), maximum, FoldRows(rows, maximum))
  {
    if rows != [] {
      FoldValuesLargest(rows[0], maximum);
      var all, first := set row, v | row in rows && v in row :: v, set v | v in rows[0];
      var rest := set row, v | row in rows[1..] && v in row :: v;
      assert all == first + rest by {
        assert forall row :: row in rows <==> row == rows[0] || row in rows[1..];
      }
      if FoldValues(rows[0], maximum).Ok? {
        var next := FoldValues(rows[0], maximum).value;
        FoldRowsLargest(rows[1..], next);
        LargestThen(first, rest, maximum, next, FoldRows(rows, maximum));
      } else {
        MalformedThen(first, rest, maximum, FoldValues(rows[0], maximum));
      }
    }
  }

  /** The parameter count is exactly the largest index any value of the plan uses. */
  lemma ParameterCountExact(plan: StatementPlan)
    requires RowsMatchColumns(plan)
    ensures IsLargestIndex(ValuesAt(PlanSites(plan)), 0, PlanMaximum(plan))
  {
    match plan
    case Select(_, _, where, _) =>
      if where.Some? {
        PredicateIndexLargest(where.value);
      }
    case Insert(_, columns, rows) =>
      FoldRowsLargest(rows, 0);
      assert ValuesAt(PlanSites(plan)) == (set row, v | row in rows && v in row :: v) by {
        forall row, v | row in rows && v in row ensures v in ValuesAt(PlanSites(plan)) {
          var j :| 0 <= j < |row| && row[j] == v;
          var s := Site(columns[j], row[j], true);
          assert s in RowSites(columns, row);
          assert s in PlanSites(plan);
        }
        forall v | v in ValuesAt(PlanSites(plan)) ensures exists row :: row in rows && v in row {
          var s :| s in PlanSites(plan) && s.value == v;
          var row :| row in rows && s in RowSites(columns, row);
        }
      }
    case Update(_, assignments, filter) =>
      var values := AssignedValues(assignments);
      FoldValuesLargest(values, 0);
      PredicateIndexLargest(filter);
      assert ValuesAt(PlanSites(plan)) == (set v | v in values) + ValuesAt(PredicateSites(filter)) by {
        forall v | v in values ensures v in ValuesAt(PlanSites(plan)) {
          var i :| 0 <= i < |values| && values[i] == v;
          assert assignments[i] in assignments;
          assert Site(assignments[i].path, v, true) in PlanSites(plan);
        }
        forall s | s in PredicateSites(filter) ensures s.value in ValuesAt(PlanSites(plan)) {
          assert s in PlanSites(plan);
        }
        forall a | a in assignments ensures a.value in values {
          var i :| 0 <= i < |assignments| && assignments[i] == a;
          assert values[i] == a.value;
        }
      }
    case Delete(_, filter) => PredicateIndexLargest(filter);
  }

  // ---------------------------------------------------------------------------
  // Substitution
  // ---------------------------------------------------------------------------

  function BindValue(value: SqlValue, parameters: seq<SqlValue>): Result<SqlValue>
  {
    if !value.SqlPlaceholder? then Ok(value)
    else
      var index :- ParsePlaceholderIndex(value.name);
      if index - 1 < |parameters| then Ok(parameters[index - 1]) else Err(InvalidInput)
  }

  function BindValues(values: seq<SqlValue>, parameters: seq<SqlValue>): Result<seq<SqlValue>>
  {
    if values == [] then Ok([])
    else
      var first :- BindValue(values[0], parameters);
      var rest :- BindValues(values[1..], parameters);
      Ok([first] + rest)
  }

  function BindPredicate(p: Predicate, parameters: seq<SqlValue>): Result<Predicate>
    decreases p
  {
    match p
    case Compare(path, operator, value) =>
      var bound :- BindValue(value, parameters);
      Ok(Compare(path, operator, bound))
    case In(path, values, negated) =>
      var bound :- BindValues(values, parameters);
      Ok(In(path, bound, negated))
    case IsNull(path, negated) => Ok(IsNull(path, negated))
    case And(predicates) =>
      var bound :- BindPredicates(predicates, parameters);
      Ok(And(bound))
    case Or(predicates) =>
      var bound :- BindPredicates(predicates, parameters);
      Ok(Or(bound))
  }

  function BindPredicates(predicates: seq<Predicate>, parameters: seq<SqlValue>): Result<seq<Predicate>>
    decreases predicates
  {
    if predicates == [] then Ok([])
    else
      var first :- BindPredicate(predicates[0], parameters);
      var rest :- BindPredicates(predicates[1..], parameters);
      Ok([first] + rest)
  }

  function BindRows(rows: seq<seq<SqlValue>>, parameters: seq<SqlValue>): Result<seq<seq<SqlValue>>>
  {
    if rows == [] then Ok([])
    else
      var first :- BindValues(rows[0], parameters);
      var rest :- BindRows(rows[1..], parameters);
      Ok([first] + rest)
  }

  function BindAssignments(assignments: seq<AssignmentPlan>, parameters: seq<SqlValue>): Result<seq<AssignmentPlan>>
  {
    if assignments == [] then Ok([])
    else
      var value :- BindValue(assignments[0].value, parameters);
      var rest :- BindAssignments(assignments[1..], parameters);
      Ok([AssignmentPlan(assignments[0].path, value)] + rest)
  }

  function SubstitutePlan(plan: StatementPlan, parameters: seq<SqlValue>): Result<StatementPlan>
  {
    match plan
    case Select(collection, projection, where, limit) =>
      if where.None? then Ok(plan)
      else
        var bound :- BindPredicate(where.value, parameters);
        Ok(Select(collection, projection, Some(bound), limit))
    case Insert(collection, columns, rows) =>
      var bound :- BindRows(rows, parameters);
      Ok(Insert(collection, columns, bound))
    case Update(collection, assignments, filter) =>
      var bound :- BindAssignments(assignments, parameters);
      var boundFilter :- BindPredicate(filter, parameters);
      Ok(Update(collection, bound, boundFilter))
    case Delete(collection, filter) =>
      var boundFilter :- BindPredicate(filter, parameters);
      Ok(Delete(collection, boundFilter))
  }

  function ValidateRow(columns: seq<FieldPath>, row: seq<SqlValue>, schema: SchemaProfile): Result<Unit>
  {
    if columns == [] || row == [] then Ok(Unit.Unit)
    else
      var _ :- ValidateValue(columns[0], row[0], schema, true);
      ValidateRow(columns[1..], row[1..], schema)
  }

  function ValidateRows(columns: seq<FieldPath>, rows: seq<seq<SqlValue>>, schema: SchemaProfile): Result<Unit>
  {
    if rows == [] then Ok(Unit.Unit)
    else
      var _ :- ValidateRow(columns, rows[0], schema);
      ValidateRows(columns, rows[1..], schema)
  }

  function ValidateAssignments(assignments: seq<AssignmentPlan>, schema: SchemaProfile): Result<Unit>
  {
    if assignments == [] then Ok(Unit.Unit)
    else
      var _ :- ValidateValue(assignments[0].path, assignments[0].value, schema, true);
      ValidateAssignments(assignments[1..], schema)
  }

  function ValidateBoundPlan(plan: StatementPlan, schema: SchemaProfile): Result<Unit>
  {
    match plan
    case Select(_, _, where, _) => if where.Some? then ValidatePredicate(where.value, schema) else Ok(Unit.Unit)
    case Insert(_, columns, rows) => ValidateRows(columns, rows, schema)
    case Update(_, assignments, filter) =>
      var _ :- ValidateAssignments(assignments, schema);
      ValidatePredicate(filter, schema)
    case Delete(_, filter) => ValidatePredicate(filter, schema)
  }

  /** `bind_parameters`. */
  function BindParameters(plan: StatementPlan, parameters: seq<SqlValue>, schema: SchemaProfile): Result<StatementPlan>
  {
    if exists v :: v in parameters && v.SqlPlaceholder? then Err(InvalidInput)
    else
      var required :- PlanMaximum(plan);
      if required != |parameters| then Err(InvalidInput)
      else
        var bound :- SubstitutePlan(plan, parameters);
        var _ :- ValidateBoundPlan(bound, schema);
        Ok(bound)
  }

  // ---------------------------------------------------------------------------
  // Binding is substitution
  // ---------------------------------------------------------------------------

  /** The value stands for itself or for one of the parameters. */
  predicate Bindable(value: SqlValue, parameters: seq<SqlValue>)
  {
    PlaceholderIndex(value).Ok? && PlaceholderIndex(value).value <= |parameters|
  }

  function Resolve(value: SqlValue, parameters: seq<SqlValue>): SqlValue
  {
    if value.SqlPlaceholder? && Bindable(value, parameters) then parameters[PlaceholderIndex(value).value - 1]
    else value
  }

  function ResolveSite(s: Site, parameters: seq<SqlValue>): Site
  {
    Site(s.path, Resolve(s.value, parameters), s.nullAllowed)
  }

  ghost predicate AllBindable(sites: set<Site>, parameters: seq<SqlValue>)
  {
    forall s :: s in sites ==> Bindable(s.value, parameters)
  }

  function ResolveSites(sites: set<Site>, parameters: seq<SqlValue>): set<Site>
  {
    set s | s in sites :: ResolveSite(s, parameters)
  }

  /** The environment that reads `$n` from the parameters; `inner` reads the literals. */
  function ParameterEnv(parameters: seq<SqlValue>, inner: Environment): Environment
  {
    value => inner(Resolve(value, parameters))
  }

  lemma {:induction false} BindValuesEach(values: seq<SqlValue>, parameters: seq<SqlValue>)
    ensures BindValues(values, parameters).Ok? <==> forall i :: 0 <= i < |values| ==> Bindable(values[i], parameters)
    ensures BindValues(values, parameters).Ok? ==>
            && |BindValues(values, parameters).value| == |values|
            && forall i :: 0 <= i < |values| ==>
                BindValues(values, parameters).value[i] == Resolve(values[i], parameters)
  {
    if values != [] {
      BindValuesEach(values[1..], parameters);
      assert forall i :: 0 < i < |values| ==> values[i] == values[1..][i - 1];
    }
  }

  /** The placeholders `$1`, `$2`, ... in order. */
  function Positional(count: nat): (values: seq<SqlValue>)
    ensures |values| == count && forall i :: 0 <= i < count ==> values[i] == SqlPlaceholder("$" + FormatNat(i + 1))
  {
    seq(count, i requires 0 <= i < count => SqlPlaceholder("$" + FormatNat(i + 1)))
  }

  lemma PositionalResolves(parameters: seq<SqlValue>, i: nat)
    requires i < |parameters| <= MAX_USIZE
    ensures Bindable(SqlPlaceholder("$" + FormatNat(i + 1)), parameters)
    ensures Resolve(SqlPlaceholder("$" + FormatNat(i + 1)), parameters) == parameters[i]
  {
    PlaceholderOfFormat(i + 1);
  }

  /** Values that resolve to the parameters one by one bind to the parameter list. */
  lemma BindOneByOne(values: seq<SqlValue>, parameters: seq<SqlValue>)
    requires |values| == |parameters|
    requires forall i :: 0 <= i < |values| ==>
               Bindable(values[i], parameters) && Resolve(values[i], parameters) == parameters[i]
    ensures BindValues(values, parameters) == Ok(parameters)
  {
    BindValuesEach(values, parameters);
    var bound := BindValues(values, parameters).value;
    assert forall i :: 0 <= i < |bound| ==> bound[i] == parameters[i];
    assert bound == parameters;
  }

  /** Binding `$1`, ..., `$k` to a list of `k` parameters yields exactly that list. */
  lemma PositionalBinding(parameters: seq<SqlValue>)
    requires |parameters| <= MAX_USIZE
    ensures BindValues(Positional(|parameters|), parameters) == Ok(parameters)
  {
    var values := Positional(|parameters|);
    forall i | 0 <= i < |values|
      ensures Bindable(values[i], parameters) && Resolve(values[i], parameters) == parameters[i]
    {
      PositionalResolves(parameters, i);
    }
    BindOneByOne(values, parameters);
  }

  lemma {:induction false} BindPredicatesEach(predicates: seq<Predicate>, parameters: seq<SqlValue>)
    ensures BindPredicates(predicates, parameters).Ok? <==>
            forall i :: 0 <= i < |predicates| ==> BindPredicate(predicates[i], parameters).Ok?
    ensures BindPredicates(predicates, parameters).Ok? ==>
            && |BindPredicates(predicates, parameters).value| == |predicates|
            && forall i :: 0 <= i < |predicates| ==>
                 BindPredicates(predicates, parameters).value[i] == BindPredicate(predicates[i], parameters).value
  {
    if predicates != [] {
      BindPredicatesEach(predicates[1..], parameters);
      assert forall i :: 0 < i < |predicates| ==> predicates[i] == predicates[1..][i - 1];
    }
  }

  /** The values under a list of predicates are those under its members, bound or not. */
  lemma SitesOfBoundList(ps: seq<Predicate>, qs: seq<Predicate>, parameters: seq<SqlValue>)
    requires |ps| == |qs|
    requires forall i :: 0 <= i < |ps| ==> PredicateSites(qs[i]) == ResolveSites(PredicateSites(ps[i]), parameters)
    requires forall i :: 0 <= i < |ps| ==> NullTests(qs[i]) == NullTests(ps[i])
    ensures PredicateSites(And(qs)) == ResolveSites(PredicateSites(And(ps)), parameters)
    ensures NullTests(And(qs)) == NullTests(And(ps))
  {
    forall s | s in PredicateSites(And(qs)) ensures s in ResolveSites(PredicateSites(And(ps)), parameters) {
      var q :| q in qs && s in PredicateSites(q);
      var i :| 0 <= i < |qs| && qs[i] == q;
      var t :| t in PredicateSites(ps[i]) && s == ResolveSite(t, parameters);
      assert t in PredicateSites(And(ps));
    }
    forall s | s in ResolveSites(PredicateSites(And(ps)), parameters) ensures s in PredicateSites(And(qs)) {
      var t :| t in PredicateSites(And(ps)) && s == ResolveSite(t, parameters);
      var p :| p in ps && t in PredicateSites(p);
      var i :| 0 <= i < |ps| && ps[i] == p;
      assert s in PredicateSites(qs[i]) && qs[i] in qs;
    }
    forall t ensures t in NullTests(And(qs)) <==> t in NullTests(And(ps)) {
      if t in NullTests(And(qs)) {
        var q :| q in qs && t in NullTests(q);
        var i :| 0 <= i < |qs| && qs[i] == q;
        assert ps[i] in ps;
      }
      if t in NullTests(And(ps)) {
        var p :| p in ps && t in NullTests(p);
        var i :| 0 <= i < |ps| && ps[i] == p;
        assert qs[i] in qs;
      }
    }
  }

  lemma LogicalSitesAgree(ps: seq<Predicate>)
    ensures PredicateSites(Or(ps)) == PredicateSites(And(ps)) && NullTests(Or(ps)) == NullTests(And(ps))
  {
  }

  /** Binding succeeds when every placeholder has a parameter; the bound predicate holds the
      resolved values at the same fields and tests the same fields for NULL. */
  lemma {:induction false} BindPredicateSites(p: Predicate, parameters: seq<SqlValue>)
    ensures BindPredicate(p, parameters).Ok? <==> AllBindable(PredicateSites(p), parameters)
    ensures BindPredicate(p, parameters).Ok? ==>
            && PredicateSites(BindPredicate(p, parameters).value) == ResolveSites(PredicateSites(p), parameters)
            && NullTests(BindPredicate(p, parameters).value) == NullTests(p)
    decreases p
  {
    match p
    case Compare(path, _, value) =>
      assert Site(path, value, false) in PredicateSites(p);
    case In(path, values, negated) =>
      BindInSites(path, values, negated, parameters);
    case IsNull(_, _) =>
    case And(ps) =>
      BindLogicalSites(ps, parameters, p);
    case Or(ps) =>
      LogicalSitesAgree(ps);
      BindLogicalSites(ps, parameters, p);
      if BindPredicates(ps, parameters).Ok? {
        LogicalSitesAgree(BindPredicates(ps, parameters).value);
      }
  }

  lemma BindInSites(path: FieldPath, values: seq<SqlValue>, negated: bool, parameters: seq<SqlValue>)
    ensures var p := In(path, values, negated);
            && (BindPredicate(p, parameters).Ok? <==> AllBindable(PredicateSites(p), parameters))
            && (BindPredicate(p, parameters).Ok? ==>
                  PredicateSites(BindPredicate(p, parameters).value) == ResolveSites(PredicateSites(p), parameters))
  {
    var p := In(path, values, negated);
    BindValuesEach(values, parameters);
    forall i | 0 <= i < |values| ensures Site(path, values[i], false) in PredicateSites(p) {
      assert values[i] in values;
    }
    if BindValues(values, parameters).Ok? {
      var bound := BindValues(values, parameters).value;
      forall s ensures s in PredicateSites(In(path, bound, negated)) <==>
          s in ResolveSites(PredicateSites(p), parameters) {
        if s in PredicateSites(In(path, bound, negated)) {
          var i :| 0 <= i < |bound| && s == Site(path, bound[i], false);
          assert s == ResolveSite(Site(path, values[i], false), parameters);
        }
        if s in ResolveSites(PredicateSites(p), parameters) {
          var t :| t in PredicateSites(p) && s == ResolveSite(t, parameters);
          var i :| 0 <= i < |values| && t.value == values[i];
          assert bound[i] in bound;
        }
      }
    }
  }

  lemma {:induction false} BindLogicalSites(ps: seq<Predicate>, parameters: seq<SqlValue>, whole: Predicate)
    requires whole == And(ps) || whole == Or(ps)
    ensures BindPredicates(ps, parameters).Ok? <==> AllBindable(PredicateSites(And(ps)), parameters)
    ensures BindPredicates(ps, parameters).Ok? ==>
            && PredicateSites(And(BindPredicates(ps, parameters).value))
              == ResolveSites(PredicateSites(And(ps)), parameters)
            && NullTests(And(BindPredicates(ps, parameters).value)) == NullTests(And(ps))
    decreases whole, 0
  {
    BindPredicatesEach(ps, parameters);
    forall i | 0 <= i < |ps|
      ensures BindPredicate(ps[i], parameters).Ok? <==> AllBindable(PredicateSites(ps[i]), parameters)
      ensures BindPredicate(ps[i], parameters).Ok? ==>
              && PredicateSites(BindPredicate(ps[i], parameters).value)
                == ResolveSites(PredicateSites(ps[i]), parameters)
              && NullTests(BindPredicate(ps[i], parameters).value) == NullTests(ps[i])
    {
      assert ps[i] in ps;
      BindPredicateSites(ps[i], parameters);
    }
    if BindPredicates(ps, parameters).Ok? {
      SitesOfBoundList(ps, BindPredicates(ps, parameters).value, parameters);
      forall s | s in PredicateSites(And(ps)) ensures Bindable(s.value, parameters) {
        var q :| q in ps && s in PredicateSites(q);
        var i :| 0 <= i < |ps| && ps[i] == q;
      }
    } else {
      var i :| 0 <= i < |ps| && BindPredicate(ps[i], parameters).Err?;
      var s :| s in PredicateSites(ps[i]) && !Bindable(s.value, parameters);
      assert ps[i] in ps && s in PredicateSites(And(ps));
    }
  }

  /** Evaluating the bound predicate is evaluating the original under its parameters. */
  lemma {:induction false} BoundMeaning(p: Predicate, parameters: seq<SqlValue>, env: Environment, d: Doc)
    requires BindPredicate(p, parameters).Ok?
    ensures Sql(BindPredicate(p, parameters).value, env, d) == Sql(p, ParameterEnv(parameters, env), d)
    decreases p
  {
    match p
    case Compare(_, _, value) =>
      assert BindValue(value, parameters).value == Resolve(value, parameters);
      assert ParameterEnv(parameters, env)(value) == env(Resolve(value, parameters));
    case In(path, values, _) =>
      BoundInMeaning(Column(d, path), values, parameters, env);
    case IsNull(_, _) =>
    case And(ps) => BoundListMeaning(ps, parameters, env, d);
    case Or(ps) => BoundListMeaning(ps, parameters, env, d);
  }

  lemma {:induction false} BoundInMeaning(
    column: Bson, values: seq<SqlValue>, parameters: seq<SqlValue>, env: Environment)
    requires BindValues(values, parameters).Ok?
    ensures InSql(column, BindValues(values, parameters).value, env)
            == InSql(column, values, ParameterEnv(parameters, env))
  {
    if values != [] {
      BoundInMeaning(column, values[1..], parameters, env);
      assert BindValue(values[0], parameters).value == Resolve(values[0], parameters);
      assert ParameterEnv(parameters, env)(values[0]) == env(Resolve(values[0], parameters));
      assert BindValues(values, parameters).value[1..] == BindValues(values[1..], parameters).value;
    }
  }

  lemma {:induction false} BoundListMeaning(ps: seq<Predicate>, parameters: seq<SqlValue>, env: Environment, d: Doc)
    requires BindPredicates(ps, parameters).Ok?
    ensures AllSql(BindPredicates(ps, parameters).value, env, d) == AllSql(ps, ParameterEnv(parameters, env), d)
    ensures AnySql(BindPredicates(ps, parameters).value, env, d) == AnySql(ps, ParameterEnv(parameters, env), d)
    decreases ps
  {
    if ps != [] {
      BoundMeaning(ps[0], parameters, env, d);
      BoundListMeaning(ps[1..], parameters, env, d);
      assert BindPredicates(ps, parameters).value[1..] == BindPredicates(ps[1..], parameters).value;
    }
  }
}
