/** The capstone: whatever the resolver answers and however attempts interleave or stop half-way,
    stored documents stay inside the discovered schema. */
module Conformance {
  import opened Common
  import opened Paths
  import opened Documents
  import opened Plans
  import opened Profiles
  import opened Lowering
  import opened AmbiguityPolicy
  import opened WriteTyping
  import opened Gate
  import opened Runs
  import opened Assignments
  import Executor
  import Ordering
  import Discovery
  import Binding
  import BindingTheorems

  /** The value fits what was discovered about its path: a known type, or null, or any type at all
      if the field was only ever null. A generated identifier is exempt. */
  predicate Fits(path: FieldPath, value: Bson, schema: SchemaProfile)
  {
    || (path == ["_id"] && value.ObjectId?)
    || (Field(schema, path).Some?
        && (value == Null || NonNullTypes(Field(schema, path).value) == {}
            || TypeOf(value) in Field(schema, path).value.types))
  }

  ghost predicate Conforms(d: Doc, schema: SchemaProfile)
  {
    forall p :: Lookup(d, p).Some? ==> Fits(p, Lookup(d, p).value, schema)
  }

  ghost predicate AllConform(documents: map<nat, Doc>, schema: SchemaProfile)
  {
    forall id :: id in documents ==> Conforms(documents[id], schema)
  }

  /** Every parent of a profiled path is profiled as a document. */
  ghost predicate ParentsKnown(schema: SchemaProfile)
  {
    forall parent, path :: parent != [] && ProperPrefix(parent, path) && Field(schema, path).Some? ==>
      Field(schema, parent).Some? && DocumentType in Field(schema, parent).value.types
  }

  /** The target paths of an UPDATE have no dot inside a segment. */
  ghost predicate DotFreeTargets(plan: StatementPlan)
  {
    plan.Update? ==> Executor.DotFreeAssignments(plan.assignments)
  }

  /** What passing the gate guarantees about the writes of a plan: values of known types, at profiled
      paths that share their display name with no other path. */
  ghost predicate ApprovedWrites(plan: StatementPlan, schema: SchemaProfile)
  {
    && WellTypedWrites(plan, schema)
    && (plan.Update? ==> forall i :: 0 <= i < |plan.assignments| ==> Unflagged(plan.assignments[i].path, schema))
    && (plan.Insert? ==> forall c :: c in plan.columns ==> Field(schema, c).Some?)
  }

  predicate Unflagged(path: FieldPath, schema: SchemaProfile)
  {
    Field(schema, path).Some? && !Field(schema, path).value.collision
  }

  /** What makes the writes of a plan safe. */
  ghost predicate SafeWrites(plan: StatementPlan, schema: SchemaProfile)
  {
    ApprovedWrites(plan, schema) && DotFreeTargets(plan)
  }

  // ---------------------------------------------------------------------------
  // Single writes
  // ---------------------------------------------------------------------------

  lemma LiteralFits(path: FieldPath, value: SqlValue, schema: SchemaProfile)
    requires WellTypedValue(path, value, schema) && !value.SqlPlaceholder? && Field(schema, path).Some?
    ensures Fits(path, Literal(value), schema)
  {
  }

  lemma DocumentFits(path: FieldPath, below: FieldPath, value: Bson, schema: SchemaProfile)
    requires ParentsKnown(schema) && path != [] && ProperPrefix(path, below) && Field(schema, below).Some?
             && value.Document?
    ensures Fits(path, value, schema)
  {
  }

  /** Each assigned value fits the path it is assigned to. */
  lemma AssignmentsTyped(plan: StatementPlan, schema: SchemaProfile, i: nat)
    requires plan.Update? && SafeWrites(plan, schema) && i < |plan.assignments|
    ensures WellTypedValue(plan.assignments[i].path, plan.assignments[i].value, schema)
  {
    assert plan.assignments[i] in plan.assignments;
    assert Site(plan.assignments[i].path, plan.assignments[i].value, true) in WriteSites(plan);
  }

  lemma UpdateAssignsAtOnce(assignments: seq<AssignmentPlan>, d: Doc, fields: Doc)
    requires Executor.UpdateFields(assignments) == Ok(fields) && Executor.DotFreeAssignments(assignments)
    requires Executor.ApplySet(d, fields).Some?
    ensures forall i :: 0 <= i < |assignments| ==> !assignments[i].value.SqlPlaceholder?
    ensures Simultaneous(d, Executor.AssignmentSettings(assignments), Executor.ApplySet(d, fields).value)
  {
    Executor.UpdateAccepts(assignments);
    var keys := Ordering.SortedStrings(Executor.SetFields(assignments).Keys);
    Ordering.StringOrder();
    Executor.UpdateIsSimultaneous(assignments, d, keys);
  }

  /** An `UPDATE` keeps a conforming document conforming, created parents included. */
  lemma UpdateConforms(plan: StatementPlan, schema: SchemaProfile, d: Doc)
    requires plan.Update? && ParentsKnown(schema) && SafeWrites(plan, schema) && Conforms(d, schema)
    requires Executor.UpdateFields(plan.assignments).Ok?
    requires Executor.ApplySet(d, Executor.UpdateFields(plan.assignments).value).Some?
    ensures Conforms(Executor.ApplySet(d, Executor.UpdateFields(plan.assignments).value).value, schema)
  {
    var fields := Executor.UpdateFields(plan.assignments).value;
    var after := Executor.ApplySet(d, fields).value;
    UpdateAssignsAtOnce(plan.assignments, d, fields);
    var xs := Executor.AssignmentSettings(plan.assignments);
    forall i | 0 <= i < |xs| ensures WellTypedValue(xs[i].0, plan.assignments[i].value, schema) {
      AssignmentsTyped(plan, schema, i);
    }
    forall p | Lookup(after, p).Some? ensures Fits(p, Lookup(after, p).value, schema) {
      SettingFits(plan.assignments, xs, schema, d, after, p);
    }
  }

  lemma SettingFits(
    assignments: seq<AssignmentPlan>, xs: seq<Setting>, schema: SchemaProfile, d: Doc, after: Doc, p: FieldPath)
    requires ParentsKnown(schema) && Conforms(d, schema)
    requires |xs| == |assignments|
    requires forall i :: 0 <= i < |xs| ==>
               && !assignments[i].value.SqlPlaceholder? && xs[i] == (assignments[i].path, Literal(assignments[i].value))
               && WellTypedValue(xs[i].0, assignments[i].value, schema) && Field(schema, xs[i].0).Some?
    requires Simultaneous(d, xs, after) && Lookup(after, p).Some?
    ensures Fits(p, Lookup(after, p).value, schema)
  {
    if i :| 0 <= i < |xs| && PathsOverlap(xs[i].0, p) {
      OverlapIsPrefix(xs[i].0, p);
      if xs[i].0 <= p {
        assert Lookup(after, p) == LookupIn(xs[i].1, p[|xs[i].0|..]);
        assert p == xs[i].0;
        LiteralFits(p, assignments[i].value, schema);
      } else {
        assert ProperPrefix(p, xs[i].0);
        DocumentFits(p, xs[i].0, Lookup(after, p).value, schema);
      }
    } else {
      assert Lookup(after, p) == Lookup(d, p);
    }
  }

  /** An inserted document conforms, whatever identifier is generated for it. */
  lemma InsertConforms(plan: StatementPlan, schema: SchemaProfile, row: seq<SqlValue>, generatedId: string)
    requires plan.Insert? && row in plan.rows && ParentsKnown(schema) && SafeWrites(plan, schema)
    requires Executor.BuiltDocument(plan.columns, row).Ok?
    ensures Conforms(Stored(Executor.BuiltDocument(plan.columns, row).value, generatedId), schema)
  {
    var columns, d := plan.columns, Executor.BuiltDocument(plan.columns, row).value;
    Executor.BuilderContents(columns, row);
    var stored := Stored(d, generatedId);
    forall p | Lookup(stored, p).Some? ensures Fits(p, Lookup(stored, p).value, schema) {
      if p[0] == "_id" && "_id" !in d {
        assert p[1..] == [];
        assert p == ["_id"];
      } else {
        assert Lookup(stored, p) == Lookup(d, p);
        BuiltValueFits(plan, schema, row, p);
      }
    }
  }

  lemma BuiltValueFits(plan: StatementPlan, schema: SchemaProfile, row: seq<SqlValue>, p: FieldPath)
    requires plan.Insert? && row in plan.rows && ParentsKnown(schema) && SafeWrites(plan, schema)
    requires Executor.BuiltDocument(plan.columns, row).Ok?
    requires Lookup(Executor.BuiltDocument(plan.columns, row).value, p).Some?
    ensures Fits(p, Lookup(Executor.BuiltDocument(plan.columns, row).value, p).value, schema)
  {
    var columns, d := plan.columns, Executor.BuiltDocument(plan.columns, row).value;
    Executor.BuilderContents(columns, row);
    var i :| 0 <= i < |columns| && p <= columns[i];
    assert columns[i] in columns;
    if p == columns[i] {
      ValueAtPathIsLookup(d, p);
      assert Lookup(d, p) == Some(Literal(row[i]));
      assert Site(p, row[i], true) in RowSites(columns, row);
      assert Site(p, row[i], true) in WriteSites(plan);
      LiteralFits(p, row[i], schema);
    } else {
      assert p !in columns by {
        forall j | 0 <= j < |columns| ensures p != columns[j] {
          OverlapIsPrefix(columns[i], columns[j]);
          if i != j {
            assert !PathsOverlap(columns[if i < j then i else j], columns[if i < j then j else i]);
            OverlapIsPrefix(columns[j], columns[i]);
          }
        }
      }
      DocumentFits(p, columns[i], Lookup(d, p).value, schema);
    }
  }

  // ---------------------------------------------------------------------------
  // What passes the gate is safe
  // ---------------------------------------------------------------------------

  /** The plan may be started: lowering has checked it, and an UPDATE has dot-free targets. */
  ghost predicate Admissible(config: Config, plan: StatementPlan)
  {
    Lowered(plan, config.schema) && DotFreeTargets(plan)
  }

  ghost predicate AdmissibleEvents(config: Config, events: seq<Event>)
  {
    forall k :: 0 <= k < |events| && events[k].Begin? ==> Admissible(config, events[k].plan)
  }

  /** Waiting attempts keep the plan and the ambiguity they were detected with; running ones are safe. */
  ghost predicate PhaseSafe(config: Config, p: Phase)
  {
    && (p.Awaiting? ==> Admissible(config, p.plan) && Detect(p.plan, config.schema) == Ok([p.ambiguity]))
    && (p.Running? ==> SafeWrites(p.plan, config.schema))
  }

  lemma LoweredTargetsProfiled(plan: StatementPlan, schema: SchemaProfile)
    requires Lowered(plan, schema)
    ensures plan.Update? ==> forall i :: 0 <= i < |plan.assignments| ==> Field(schema, plan.assignments[i].path).Some?
    ensures plan.Insert? ==> forall c :: c in plan.columns ==> Field(schema, c).Some?
  {
    if plan.Update? {
      forall i | 0 <= i < |plan.assignments| ensures Field(schema, plan.assignments[i].path).Some? {
        assert plan.assignments[i] in plan.assignments;
        var s := Site(plan.assignments[i].path, plan.assignments[i].value, true);
        assert s in PlanSites(plan);
        assert s.path in (set t | t in PlanSites(plan) :: t.path);
      }
    }
    if plan.Insert? {
      forall c | c in plan.columns ensures Field(schema, c).Some? {
        assert c in (set x | x in plan.columns);
      }
    }
  }

  lemma AssignedPathDetected(plan: StatementPlan, i: nat)
    requires plan.Update? && i < |plan.assignments|
    ensures plan.assignments[i].path in WritePaths(plan)
  {
    assert plan.assignments[i] in plan.assignments;
  }

  lemma CollisionReported(config: Config, plan: StatementPlan, reported: seq<WriteAmbiguity>, path: FieldPath)
    requires Detect(plan, config.schema) == Ok(reported) && path in WritePaths(plan)
    ensures Field(config.schema, path).Some?
    ensures Field(config.schema, path).value.collision ==> exists a :: a in reported && DottedPathCollision in a.kinds
  {
    DetectionExact(plan, config.schema);
    var field := Field(config.schema, path).value;
    if field.collision {
      assert Exhibits(field, DottedPathCollision);
      assert WriteAmbiguity(path, KindsOf(field), field.types, field.shapes, field.missing) in reported;
    }
  }

  /** Detection that reports no collision leaves only unflagged targets. */
  lemma TargetsUnflagged(config: Config, plan: StatementPlan, reported: seq<WriteAmbiguity>)
    requires Detect(plan, config.schema) == Ok(reported) && plan.Update?
    requires forall a :: a in reported ==> DottedPathCollision !in a.kinds
    ensures forall i :: 0 <= i < |plan.assignments| ==> Unflagged(plan.assignments[i].path, config.schema)
  {
    forall i | 0 <= i < |plan.assignments| ensures Unflagged(plan.assignments[i].path, config.schema) {
      AssignedPathDetected(plan, i);
      CollisionReported(config, plan, reported, plan.assignments[i].path);
    }
  }

  lemma ClearPlanApproved(config: Config, plan: StatementPlan)
    requires ShapesObserved(config.schema) && Lowered(plan, config.schema) && Detect(plan, config.schema) == Ok([])
    ensures ApprovedWrites(plan, config.schema)
  {
    ClearPlanWellTyped(plan, config.schema);
    LoweredTargetsProfiled(plan, config.schema);
    if plan.Update? {
      TargetsUnflagged(config, plan, []);
    }
  }

  lemma ResolvedPlanApproved(config: Config, plan: StatementPlan, ambiguity: WriteAmbiguity, answer: Answer)
    requires ShapesObserved(config.schema) && Lowered(plan, config.schema) && !plan.Select?
    requires Detect(plan, config.schema) == Ok([ambiguity])
    requires CloseGate(config, plan, ambiguity, answer).Approved?
    ensures ApprovedWrites(CloseGate(config, plan, ambiguity, answer).plan, config.schema)
    ensures DotFreeTargets(plan) ==> DotFreeTargets(CloseGate(config, plan, ambiguity, answer).plan)
  {
    var verdict := CloseGate(config, plan, ambiguity, answer);
    ApprovalIsAllowed(config, plan, ambiguity, answer);
    ResolvedPlanWellTyped(plan, config.schema, ambiguity, verdict.context.selected);
    LoweredTargetsProfiled(plan, config.schema);
    ResolutionKeepsTargets(plan, ambiguity, verdict.context.selected, verdict.plan);
    if plan.Update? {
      NoCollisionResolved(plan, ambiguity, verdict.context.selected);
      TargetsUnflagged(config, plan, [ambiguity]);
    }
  }

  /** No candidate but rejection is ever permitted for a dotted-path collision. */
  lemma NoCollisionResolved(plan: StatementPlan, ambiguity: WriteAmbiguity, candidate: ResolutionCandidate)
    requires candidate in AllowedCandidates(plan, ambiguity) && candidate != Reject
    ensures DottedPathCollision !in ambiguity.kinds
  {
    assert Permitted(plan, ambiguity, candidate);
  }

  /** A resolution changes neither the assigned paths nor the columns. */
  lemma ResolutionKeepsTargets(
    plan: StatementPlan, ambiguity: WriteAmbiguity, candidate: ResolutionCandidate, plan': StatementPlan)
    requires ValidateResolution(plan, ambiguity, candidate).Ok?
    requires ApplyResolution(plan, ValidatedResolution(ambiguity.path, candidate)) == Ok(plan')
    ensures plan'.Update? <==> plan.Update?
    ensures plan'.Insert? ==> plan' == plan
    ensures plan'.Update? ==> |plan'.assignments| == |plan.assignments|
                              && forall i :: 0 <= i < |plan.assignments| ==>
                                  plan'.assignments[i].path == plan.assignments[i].path
  {
    ApplyAfterValidation(plan, ambiguity, candidate);
  }

  // ---------------------------------------------------------------------------
  // Whole runs
  // ---------------------------------------------------------------------------

  ghost predicate SystemSafe(config: Config, s: System)
  {
    && AllConform(s.documents, config.schema)
    && (forall i :: 0 <= i < |s.attempts| ==> PhaseSafe(config, s.attempts[i]))
  }

  ghost predicate GoodSchema(schema: SchemaProfile)
  {
    ShapesObserved(schema) && ParentsKnown(schema)
  }

  lemma StepKeepsSafe(config: Config, s: System, e: Event)
    requires GoodSchema(config.schema) && SystemSafe(config, s)
    requires e.Begin? ==> Admissible(config, e.plan)
    ensures SystemSafe(config, Step(config, s, e))
  {
    match e
    case Begin(plan) => BeginKeepsSafe(config, s, plan);
    case Reply(i, answer) => ReplyKeepsSafe(config, s, i, answer);
    case UpdateOne(i, id) => UpdateKeepsSafe(config, s, i, id);
    case InsertOne(i, row, id, generatedId) => InsertKeepsSafe(config, s, i, row, id, generatedId);
    case DeleteOne(_, _) =>
    case Finish(_, _) =>
  }

  lemma OpenGateExact(config: Config, plan: StatementPlan)
    ensures OpenGate(config, plan).Clear? ==> Detect(plan, config.schema) == Ok([])
    ensures OpenGate(config, plan).Ask? ==> Detect(plan, config.schema) == Ok([OpenGate(config, plan).ambiguity])
  {
    var detected := Detect(plan, config.schema);
    if detected.Ok? && |detected.value| == 1 {
      assert detected.value == [detected.value[0]];
    }
  }

  lemma SafeAppend(config: Config, s: System, p: Phase, log: seq<Entry>)
    requires SystemSafe(config, s) && PhaseSafe(config, p)
    ensures SystemSafe(config, s.(attempts := s.attempts + [p], log := log))
  {
  }

  lemma BeginKeepsSafe(config: Config, s: System, plan: StatementPlan)
    requires GoodSchema(config.schema) && SystemSafe(config, s) && Admissible(config, plan)
    ensures SystemSafe(config, AfterBegin(config, s, plan))
  {
    OpenGateExact(config, plan);
    var after := AfterBegin(config, s, plan);
    if OpenGate(config, plan).Clear? {
      ClearPlanApproved(config, plan);
    }
    SafeAppend(config, s, after.attempts[|s.attempts|], after.log);
  }

  lemma SafeUpdate(config: Config, s: System, i: nat, p: Phase, log: seq<Entry>)
    requires SystemSafe(config, s) && PhaseSafe(config, p) && i < |s.attempts|
    ensures SystemSafe(config, s.(attempts := s.attempts[i := p], log := log))
  {
  }

  lemma ReplyKeepsSafe(config: Config, s: System, i: nat, answer: Answer)
    requires GoodSchema(config.schema) && SystemSafe(config, s)
    ensures SystemSafe(config, AfterReply(config, s, i, answer))
  {
    if IsAwaiting(s, i) {
      var plan, ambiguity := s.attempts[i].plan, s.attempts[i].ambiguity;
      assert PhaseSafe(config, s.attempts[i]);
      var verdict := CloseGate(config, plan, ambiguity, answer);
      if verdict.Approved? {
        ResolvedPlanApproved(config, plan, ambiguity, answer);
      }
      var after := AfterVerdict(s, i, verdict);
      SafeUpdate(config, s, i, after.attempts[i], after.log);
    }
  }

  lemma SafeDocument(config: Config, s: System, id: nat, d: Doc)
    requires SystemSafe(config, s) && Conforms(d, config.schema)
    ensures SystemSafe(config, s.(documents := s.documents[id := d]))
  {
  }

  lemma UpdateKeepsSafe(config: Config, s: System, i: nat, id: nat)
    requires GoodSchema(config.schema) && SystemSafe(config, s)
    ensures SystemSafe(config, AfterUpdate(s, i, id))
  {
    if IsRunning(s, i) && s.attempts[i].plan.Update? && id in s.documents
       && UpdatedDocument(s.attempts[i].plan, s.documents[id]).Some? {
      assert PhaseSafe(config, s.attempts[i]);
      UpdateConforms(s.attempts[i].plan, config.schema, s.documents[id]);
      SafeDocument(config, s, id, UpdatedDocument(s.attempts[i].plan, s.documents[id]).value);
    }
  }

  lemma InsertKeepsSafe(config: Config, s: System, i: nat, row: nat, id: nat, generatedId: string)
    requires GoodSchema(config.schema) && SystemSafe(config, s)
    ensures SystemSafe(config, AfterInsert(s, i, row, id, generatedId))
  {
    if IsRunning(s, i) && s.attempts[i].plan.Insert? && id !in s.documents
       && row < |s.attempts[i].plan.rows| && RowsBuildable(s.attempts[i].plan) {
      var plan := s.attempts[i].plan;
      assert PhaseSafe(config, s.attempts[i]);
      assert plan.rows[row] in plan.rows;
      InsertConforms(plan, config.schema, plan.rows[row], generatedId);
      SafeDocument(config, s, id, Stored(Executor.BuiltDocument(plan.columns, plan.rows[row]).value, generatedId));
    }
  }

  /** The invariant of all runs: documents conform, waiting attempts keep the plan and ambiguity they
      were detected with, and running attempts write known types to unflagged places only. */
  lemma {:induction false} RunKeepsSafe(config: Config, documents: map<nat, Doc>, events: seq<Event>)
    requires GoodSchema(config.schema) && AllConform(documents, config.schema) && AdmissibleEvents(config, events)
    ensures SystemSafe(config, Run(config, Start(documents), events))
  {
    if events != [] {
      var n := |events| - 1;
      RunKeepsSafe(config, documents, events[..n]);
      StepKeepsSafe(config, Run(config, Start(documents), events[..n]), events[n]);
    }
  }

  lemma InferredSchemaIsGood(sample: seq<Doc>)
    ensures GoodSchema(Discovery.Inferred(sample))
  {
    var schema := Discovery.Inferred(sample);
    forall f | f in schema.fields ensures f.shapes != {} {
      var paths := Ordering.SortedPaths(Discovery.SamplePaths(sample));
      var i :| 0 <= i < |schema.fields| && schema.fields[i] == f;
      assert paths[i] in paths;
      Discovery.PresentSomewhere(sample, paths[i]);
      Discovery.SummaryCounts(sample, paths[i]);
      var k :| k in Discovery.Holders(sample, paths[i]);
      Discovery.SummaryShapes(sample, paths[i], ShapeOf(Lookup(sample[k], paths[i]).value));
      assert f == Discovery.ProfileOf(sample, paths[i]);
    }
    forall parent, path | parent != [] && ProperPrefix(parent, path) && Field(schema, path).Some?
      ensures Field(schema, parent).Some? && DocumentType in Field(schema, parent).value.types
    {
      Discovery.ParentsProfiled(sample, parent, path);
    }
  }

  /** Every sampled document fits the profile inferred from the sample. */
  lemma SampledDocumentsConform(sample: seq<Doc>, i: nat)
    requires i < |sample|
    ensures Conforms(sample[i], Discovery.Inferred(sample))
  {
    forall p | Lookup(sample[i], p).Some? ensures Fits(p, Lookup(sample[i], p).value, Discovery.Inferred(sample)) {
      assert i in Discovery.Holders(sample, p);
      Discovery.InferenceExact(sample, p);
    }
  }

  /** Schema conformance over whole runs: from documents inside the profile inferred from a sample,
      any interleaving of clear and resolver-approved writes, with any answers and any partial
      execution, leads only to documents inside that profile. */
  lemma RunsConform(config: Config, sample: seq<Doc>, documents: map<nat, Doc>, events: seq<Event>)
    requires config.schema == Discovery.Inferred(sample)
    requires AllConform(documents, config.schema) && AdmissibleEvents(config, events)
    ensures AllConform(Run(config, Start(documents), events).documents, config.schema)
  {
    InferredSchemaIsGood(sample);
    RunKeepsSafe(config, documents, events);
  }

  /** In particular when the collection is the sample itself. */
  lemma RunsFromSampleConform(config: Config, sample: seq<Doc>, documents: map<nat, Doc>, events: seq<Event>)
    requires config.schema == Discovery.Inferred(sample) && AdmissibleEvents(config, events)
    requires forall id :: id in documents ==> documents[id] in sample
    ensures AllConform(Run(config, Start(documents), events).documents, config.schema)
  {
    forall id | id in documents ensures Conforms(documents[id], config.schema) {
      var i :| 0 <= i < |sample| && sample[i] == documents[id];
      SampledDocumentsConform(sample, i);
    }
    RunsConform(config, sample, documents, events);
  }

  // ---------------------------------------------------------------------------
  // Prepared statements
  // ---------------------------------------------------------------------------

  /** The plan came from a prepared statement: an admissible plan with its placeholders bound. */
  ghost predicate BoundFrom(config: Config, original: StatementPlan, parameters: seq<SqlValue>, plan: StatementPlan)
  {
    Admissible(config, original) && Binding.BindParameters(original, parameters, config.schema) == Ok(plan)
  }

  ghost predicate PreparedEvents(config: Config, events: seq<Event>)
  {
    forall k :: 0 <= k < |events| && events[k].Begin? ==>
      exists original, parameters :: BoundFrom(config, original, parameters, events[k].plan)
  }

  /** Binding keeps a plan admissible, so that runs need no premise on the parameters. */
  lemma BoundPlanAdmissible(config: Config, original: StatementPlan, parameters: seq<SqlValue>, plan: StatementPlan)
    requires BoundFrom(config, original, parameters, plan)
    ensures Admissible(config, plan)
  {
    BindingTheorems.BindKeepsLowered(original, parameters, config.schema);
    if plan.Update? {
      var shape, shape' := BindingTheorems.PlanShape(original), BindingTheorems.PlanShape(plan);
      forall i | 0 <= i < |plan.assignments| ensures DotFreePath(plan.assignments[i].path) {
        assert shape'.assignments[i].path == shape.assignments[i].path == original.assignments[i].path;
      }
    }
  }

  /** Conformance over whole runs of prepared statements, whatever parameters were bound. */
  lemma PreparedRunsConform(config: Config, sample: seq<Doc>, documents: map<nat, Doc>, events: seq<Event>)
    requires config.schema == Discovery.Inferred(sample)
    requires AllConform(documents, config.schema) && PreparedEvents(config, events)
    ensures AllConform(Run(config, Start(documents), events).documents, config.schema)
  {
    forall k | 0 <= k < |events| && events[k].Begin? ensures Admissible(config, events[k].plan) {
      var original, parameters :| BoundFrom(config, original, parameters, events[k].plan);
      BoundPlanAdmissible(config, original, parameters, events[k].plan);
    }
    RunsConform(config, sample, documents, events);
  }

  // ---------------------------------------------------------------------------
  // The premise on target paths is exact
  // ---------------------------------------------------------------------------

  /** An UPDATE that passed the gate keeps a document inside an inferred schema if and only if its
      target paths are dot-free: MongoDB splits every other path differently, and the place it then
      writes to was never observed, since otherwise the gate would have seen a collision. */
  lemma UpdateConformsExactly(
    config: Config, sample: seq<Doc>, plan: StatementPlan, resolver: ResolverRequest -> Answer, d: Doc,
    write: ResolvedWrite)
    requires config.schema == Discovery.Inferred(sample)
    requires Lowered(plan, config.schema) && !plan.Select?
    requires Passage(config, plan, resolver).0 == Ok(write) && write.plan.Update?
    requires Conforms(d, config.schema)
    requires Executor.UpdateFields(write.plan.assignments).Ok?
    requires Executor.ApplySet(d, Executor.UpdateFields(write.plan.assignments).value).Some?
    ensures Conforms(Executor.ApplySet(d, Executor.UpdateFields(write.plan.assignments).value).value, config.schema)
            <==> DotFreeTargets(write.plan)
  {
    InferredSchemaIsGood(sample);
    PassedPlanApproved(config, plan, resolver, write);
    if DotFreeTargets(write.plan) {
      UpdateConforms(write.plan, config.schema, d);
    } else {
      var i :| 0 <= i < |write.plan.assignments| && !DotFreePath(write.plan.assignments[i].path);
      DottedTargetEscapes(sample, write.plan, i, d);
    }
  }

  lemma PassedPlanApproved(
    config: Config, plan: StatementPlan, resolver: ResolverRequest -> Answer, write: ResolvedWrite)
    requires ShapesObserved(config.schema) && Lowered(plan, config.schema) && !plan.Select?
    requires Passage(config, plan, resolver).0 == Ok(write)
    ensures ApprovedWrites(write.plan, config.schema)
  {
    match OpenGate(config, plan) {
      case Clear => ClearPassageApproved(config, plan);
      case Ask(ambiguity) =>
        AskedPassageApproved(config, plan, ambiguity, resolver(RequestFor(config, plan, ambiguity)), write);
      case _ =>
    }
  }

  lemma ClearPassageApproved(config: Config, plan: StatementPlan)
    requires ShapesObserved(config.schema) && Lowered(plan, config.schema) && OpenGate(config, plan).Clear?
    ensures ApprovedWrites(plan, config.schema)
  {
    OpenGateExact(config, plan);
    ClearPlanApproved(config, plan);
  }

  lemma AskedPassageApproved(
    config: Config, plan: StatementPlan, ambiguity: WriteAmbiguity, answer: Answer, write: ResolvedWrite)
    requires ShapesObserved(config.schema) && Lowered(plan, config.schema) && !plan.Select?
    requires OpenGate(config, plan) == Ask(ambiguity)
    requires VerdictResult(CloseGate(config, plan, ambiguity, answer)) == Ok(write)
    ensures ApprovedWrites(write.plan, config.schema)
  {
    OpenGateExact(config, plan);
    ResolvedPlanApproved(config, plan, ambiguity, answer);
  }

  /** The place written for a dotted target is outside the schema. */
  lemma DottedTargetEscapes(sample: seq<Doc>, plan: StatementPlan, i: nat, d: Doc)
    requires plan.Update? && i < |plan.assignments| && !DotFreePath(plan.assignments[i].path)
    requires ApprovedWrites(plan, Discovery.Inferred(sample))
    requires Executor.UpdateFields(plan.assignments).Ok?
    requires Executor.ApplySet(d, Executor.UpdateFields(plan.assignments).value).Some?
    ensures !Conforms(Executor.ApplySet(d, Executor.UpdateFields(plan.assignments).value).value,
            Discovery.Inferred(sample))
  {
    var schema, fields := Discovery.Inferred(sample), Executor.UpdateFields(plan.assignments).value;
    var path, after := plan.assignments[i].path, Executor.ApplySet(d, fields).value;
    var target := SplitDots(DisplayName(path));
    Executor.UpdateAccepts(plan.assignments);
    var value := WrittenAtKey(plan.assignments, i, d, fields);
    assert Lookup(after, target) == Some(value);
    JoinOfSplit(DisplayName(path));
    UnflaggedOwnsName(sample, path, target);
    assert !Fits(target, value, schema);
  }

  /** No other profiled path displays like an unflagged one. */
  lemma UnflaggedOwnsName(sample: seq<Doc>, path: FieldPath, other: FieldPath)
    requires Unflagged(path, Discovery.Inferred(sample)) && other != path && DisplayName(other) == DisplayName(path)
    ensures Field(Discovery.Inferred(sample), other).None?
  {
    Discovery.FieldOfInferred(sample, path);
    Discovery.FieldOfInferred(sample, other);
  }

  /** After `$set`, the split form of every key holds a literal. */
  lemma WrittenAtKey(assignments: seq<AssignmentPlan>, i: nat, d: Doc, fields: Doc) returns (value: Bson)
    requires Executor.UpdateFields(assignments) == Ok(fields) && i < |assignments|
    requires Executor.ApplySet(d, fields).Some?
    ensures Lookup(Executor.ApplySet(d, fields).value, SplitDots(DisplayName(assignments[i].path))) == Some(value)
    ensures !value.ObjectId? && !value.Document?
  {
    Executor.UpdateAccepts(assignments);
    Executor.SetFieldsKeys(assignments, Executor.KeyAt(assignments, i));
    var key := Executor.KeyAt(assignments, i);
    var keys := Ordering.SortedStrings(fields.Keys);
    var xs := Executor.KeySettings(fields, keys);
    assert key in keys;
    var k :| 0 <= k < |keys| && keys[k] == key;
    ApplyAllIsSimultaneous(d, xs);
    value := fields[key];
    Executor.SetFieldsLiteral(assignments, key);
    assert xs[k] == (SplitDots(key), value);
    assert SplitDots(key) <= SplitDots(key) && SplitDots(key)[|SplitDots(key)|..] == [];
  }
}
