/** Which values an approved write can put where: type validation and ambiguity policy together. */
module WriteTyping {
  import opened Common
  import opened Paths
  import opened Documents
  import opened Plans
  import opened Profiles
  import opened TypePolicy
  import opened Lowering
  import opened AmbiguityPolicy

  /** Every field was observed in some shape, as is the case for inferred profiles. */
  ghost predicate ShapesObserved(schema: SchemaProfile)
  {
    forall f :: f in schema.fields ==> f.shapes != {}
  }

  /** The values a plan writes. */
  function WriteSites(plan: StatementPlan): set<Site>
  {
    set s | s in PlanSites(plan) && s.nullAllowed
  }

  /** The value is NULL, or of an observed type, or the field was only ever null. */
  predicate WellTypedValue(path: FieldPath, value: SqlValue, schema: SchemaProfile)
  {
    value.SqlNull? || value.SqlPlaceholder? ||
    (Field(schema, path).Some?
     && (NonNullTypes(Field(schema, path).value) == {} || TypeOf(Literal(value)) in Field(schema, path).value.types))
  }

  ghost predicate WellTypedWrites(plan: StatementPlan, schema: SchemaProfile)
  {
    forall s :: s in WriteSites(plan) ==> WellTypedValue(s.path, s.value, schema)
  }

  lemma {:induction false} FilterSitesRefuseNull(p: Predicate, s: Site)
    requires s in PredicateSites(p)
    ensures !s.nullAllowed
    decreases p
  {
    match p
    case And(predicates) =>
      var q :| q in predicates && s in PredicateSites(q);
      FilterSitesRefuseNull(q, s);
    case Or(predicates) =>
      var q :| q in predicates && s in PredicateSites(q);
      FilterSitesRefuseNull(q, s);
    case _ =>
  }

  /** A written path is one of the paths detection looks at. */
  lemma WrittenPathsDetected(plan: StatementPlan, s: Site)
    requires s in WriteSites(plan)
    ensures s.path in WritePaths(plan)
  {
    match plan
    case Select(_, _, where, _) => FilterSitesRefuseNull(where.value, s);
    case Insert(_, columns, rows) =>
      var row :| row in rows && s in RowSites(columns, row);
    case Update(_, assignments, filter) =>
      if s in PredicateSites(filter) {
        FilterSitesRefuseNull(filter, s);
      }
    case Delete(_, filter) => FilterSitesRefuseNull(filter, s);
  }

  /** On a field that exhibits at most missing documents, a validated value has the one observed type. */
  lemma UnambiguousFieldTyped(path: FieldPath, value: SqlValue, schema: SchemaProfile)
    requires ShapesObserved(schema) && Field(schema, path).Some?
    requires KindsOf(Field(schema, path).value) <= {MissingFromSampledDocuments}
    requires !value.SqlNull? && !value.SqlPlaceholder? && ValidateValue(path, value, schema, true).Ok?
    ensures var types := NonNullTypes(Field(schema, path).value);
            types == {} || types == {TypeOf(Literal(value))}
  {
    var field := Field(schema, path).value;
    assert !Exhibits(field, MixedBsonTypes) && !Exhibits(field, MixedShapes)
           && !Exhibits(field, DottedPathCollision) by {
      assert MixedBsonTypes !in KindsOf(field) && MixedShapes !in KindsOf(field)
             && DottedPathCollision !in KindsOf(field);
    }
    assert |field.shapes| == 1 by {
      assert field.shapes != {};
    }
    if NonNullTypes(field) != {} {
      assert |NonNullTypes(field)| == 1;
    }
  }

  /** A clear write is well typed: each non-null value has the only non-null type observed for its
      field, unless the field was only ever null. */
  lemma ClearWriteWellTyped(plan: StatementPlan, schema: SchemaProfile, s: Site)
    requires ShapesObserved(schema) && Lowered(plan, schema)
    requires Detect(plan, schema) == Ok([])
    requires s in WriteSites(plan) && !s.value.SqlNull? && !s.value.SqlPlaceholder?
    ensures Field(schema, s.path).Some?
    ensures var types := NonNullTypes(Field(schema, s.path).value);
            types == {} || types == {TypeOf(Literal(s.value))}
  {
    WrittenPathsDetected(plan, s);
    ClearPath(plan, schema, [], s.path);
    UnambiguousFieldTyped(s.path, s.value, schema);
  }

  /** A path of the plan that is not reported exhibits no ambiguity. */
  lemma ClearPath(plan: StatementPlan, schema: SchemaProfile, reported: seq<WriteAmbiguity>, path: FieldPath)
    requires Detect(plan, schema) == Ok(reported) && path in WritePaths(plan)
    requires forall a :: a in reported ==> a.path != path
    ensures Field(schema, path).Some? && KindsOf(Field(schema, path).value) == {}
  {
    DetectionExact(plan, schema);
    var field := Field(schema, path).value;
    assert KindsOf(field) != {} ==>
        WriteAmbiguity(path, KindsOf(field), field.types, field.shapes, field.missing) in reported;
  }

  lemma SubsetStaysTyped(path: FieldPath, value: SqlValue, schema: SchemaProfile)
    requires Field(schema, path).Some? && !value.SqlNull? && !value.SqlPlaceholder?
    requires NonNullTypes(Field(schema, path).value) == {TypeOf(Literal(value))}
    ensures WellTypedValue(path, value, schema)
  {
    assert TypeOf(Literal(value)) in NonNullTypes(Field(schema, path).value);
  }

  lemma ClearPlanWellTyped(plan: StatementPlan, schema: SchemaProfile)
    requires ShapesObserved(schema) && Lowered(plan, schema) && Detect(plan, schema) == Ok([])
    ensures WellTypedWrites(plan, schema)
  {
    forall s | s in WriteSites(plan) ensures WellTypedValue(s.path, s.value, schema) {
      if !s.value.SqlNull? && !s.value.SqlPlaceholder? {
        ClearWriteWellTyped(plan, schema, s);
        if NonNullTypes(Field(schema, s.path).value) != {} {
          SubsetStaysTyped(s.path, s.value, schema);
        }
      }
    }
  }

  /** The write sites of a plan with a single assignment. */
  lemma SingleAssignmentSites(plan: StatementPlan, s: Site)
    requires plan.Update? && |plan.assignments| == 1 && s in WriteSites(plan)
    ensures s == Site(plan.assignments[0].path, plan.assignments[0].value, true)
  {
    if s in PredicateSites(plan.filter) {
      FilterSitesRefuseNull(plan.filter, s);
    }
  }

  /** The mixed-type candidates only ever write an integer or a string to a field that holds both. */
  lemma MixedTypeWriteTyped(plan: StatementPlan, plan': StatementPlan, schema: SchemaProfile, ambiguity: WriteAmbiguity)
    requires Field(schema, ambiguity.path).Some? && Field(schema, ambiguity.path).value.types == ambiguity.types
    requires MixedTypeAssignmentValue(plan, ambiguity).Some?
    requires plan'.Update? && |plan'.assignments| == 1 && plan'.assignments[0].path == ambiguity.path
    requires plan'.assignments[0].value.SqlString? || plan'.assignments[0].value.SqlInteger?
    ensures WellTypedWrites(plan', schema)
  {
    forall s | s in WriteSites(plan') ensures WellTypedValue(s.path, s.value, schema) {
      SingleAssignmentSites(plan', s);
    }
  }

  /** What the resolver's validated answers can make of an ambiguous write is well typed too. */
  lemma ResolvedPlanWellTyped(
    plan: StatementPlan, schema: SchemaProfile, ambiguity: WriteAmbiguity, candidate: ResolutionCandidate)
    requires ShapesObserved(schema) && Lowered(plan, schema) && Detect(plan, schema) == Ok([ambiguity])
    requires ValidateResolution(plan, ambiguity, candidate).Ok?
    requires ApplyResolution(plan, ValidatedResolution(ambiguity.path, candidate)).Ok?
    ensures WellTypedWrites(ApplyResolution(plan, ValidatedResolution(ambiguity.path, candidate)).value, schema)
  {
    var plan' := ApplyResolution(plan, ValidatedResolution(ambiguity.path, candidate)).value;
    ApplyAfterValidation(plan, ambiguity, candidate);
    DetectionExact(plan, schema);
    assert ambiguity in [ambiguity];
    if candidate == UseNestedPath {
      forall s | s in WriteSites(plan) ensures WellTypedValue(s.path, s.value, schema) {
        NestedWriteTyped(plan, schema, ambiguity, s);
      }
    } else {
      MixedTypeWriteTyped(plan, plan', schema, ambiguity);
    }
  }

  lemma NestedWriteTyped(plan: StatementPlan, schema: SchemaProfile, ambiguity: WriteAmbiguity, s: Site)
    requires ShapesObserved(schema) && Lowered(plan, schema) && Detect(plan, schema) == Ok([ambiguity])
    requires ambiguity.kinds == {MissingFromSampledDocuments} && s in WriteSites(plan)
    ensures WellTypedValue(s.path, s.value, schema)
  {
    if !s.value.SqlNull? && !s.value.SqlPlaceholder? {
      WrittenPathsDetected(plan, s);
      AtMostMissing(plan, schema, ambiguity, s.path);
      UnambiguousFieldTyped(s.path, s.value, schema);
      if NonNullTypes(Field(schema, s.path).value) != {} {
        SubsetStaysTyped(s.path, s.value, schema);
      }
    }
  }

  /** If the only ambiguity is a missing field, every path of the plan exhibits at most that. */
  lemma AtMostMissing(plan: StatementPlan, schema: SchemaProfile, ambiguity: WriteAmbiguity, path: FieldPath)
    requires Detect(plan, schema) == Ok([ambiguity]) && path in WritePaths(plan)
    requires ambiguity.kinds == {MissingFromSampledDocuments}
    ensures Field(schema, path).Some? && KindsOf(Field(schema, path).value) <= {MissingFromSampledDocuments}
  {
    DetectionExact(plan, schema);
    assert ambiguity in [ambiguity];
    if path != ambiguity.path {
      ClearPath(plan, schema, [ambiguity], path);
    }
  }
}
