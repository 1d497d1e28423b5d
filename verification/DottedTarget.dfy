/** A concrete run that leaves the discovered schema: the premise on target paths cannot be dropped. */
module DottedTarget {
  import opened Common
  import opened Paths
  import opened Documents
  import opened Plans
  import opened Profiles
  import opened Lowering
  import opened TypePolicy
  import opened AmbiguityPolicy
  import opened Gate
  import opened Runs
  import opened Conformance
  import opened Assignments
  import Discovery
  import Executor
  import Filters
  import MongoMatching
  import Ordering
  import FilterMeaning

  const INNER: Doc := map["b.c" := Int32(1)]
  const SAMPLED: Doc := map["a" := Document(INNER)]
  const FIELD_A: FieldPath := ["a"]
  const FIELD_BC: FieldPath := ["a", "b.c"]
  const WRITTEN: FieldPath := ["a", "b", "c"]

  /** `UPDATE c SET a."b.c" = 2 WHERE a IS NOT NULL`. */
  function Plan(): StatementPlan
  {
    Update("c", [AssignmentPlan(FIELD_BC, SqlInteger(2))], IsNull(FIELD_A, true))
  }

  lemma PathsOfInner(path: FieldPath)
    ensures LookupIn(Document(INNER), path) ==
            if path == [] then Some(Document(INNER)) else if path == ["b.c"] then Some(Int32(1)) else None
  {
    if path != [] && path[0] == "b.c" {
      assert path == [path[0]] + path[1..];
      assert LookupIn(Document(INNER), path) == LookupIn(Int32(1), path[1..]);
    }
  }

  lemma PathsOfSample(path: FieldPath)
    ensures Lookup(SAMPLED, path).Some? <==> path == FIELD_A || path == FIELD_BC
    ensures Lookup(SAMPLED, FIELD_A) == Some(Document(INNER)) && Lookup(SAMPLED, FIELD_BC) == Some(Int32(1))
  {
    assert FIELD_A[1..] == [] && FIELD_BC[1..] == ["b.c"];
    PathsOfInner([]);
    PathsOfInner(["b.c"]);
    if path != [] && path[0] == "a" {
      assert path == [path[0]] + path[1..];
      assert Lookup(SAMPLED, path) == LookupIn(Document(INNER), path[1..]);
      PathsOfInner(path[1..]);
    }
  }

  lemma SampleHolders(path: FieldPath, value: Bson)
    requires Lookup(SAMPLED, path) == Some(value)
    ensures Discovery.Summary([SAMPLED], path) == Discovery.Observation(1, {TypeOf(value)}, {ShapeOf(value)})
    ensures path in Discovery.SamplePaths([SAMPLED])
  {
    DocumentPathsExact(SAMPLED, path);
    assert [SAMPLED][..0] == [];
    assert Discovery.Summary([], path) == Discovery.NOTHING;
  }

  lemma NoCollision(path: FieldPath)
    requires path == FIELD_A || path == FIELD_BC
    ensures !Discovery.SharesDisplayName(Discovery.SamplePaths([SAMPLED]), path)
  {
    assert DisplayName(FIELD_A) == "a" && DisplayName(FIELD_BC) == "a.b.c";
    forall other | other in Discovery.SamplePaths([SAMPLED]) ensures other == FIELD_A || other == FIELD_BC {
      DocumentPathsExact(SAMPLED, other);
      PathsOfSample(other);
    }
  }

  /** The field is profiled with the one type and shape of `value`, never missing, without collision. */
  ghost predicate ProfiledAs(schema: SchemaProfile, path: FieldPath, value: Bson)
  {
    && Field(schema, path).Some?
    && var f := Field(schema, path).value;
       f.types == {TypeOf(value)} && f.shapes == {ShapeOf(value)} && f.missing == 0 && !f.collision
  }

  lemma ProfileOfSample(path: FieldPath, value: Bson)
    requires (path == FIELD_A && value == Document(INNER)) || (path == FIELD_BC && value == Int32(1))
    ensures ProfiledAs(Discovery.Inferred([SAMPLED]), path, value)
  {
    PathsOfSample(path);
    Discovery.FieldOfInferred([SAMPLED], path);
    SampleHolders(path, value);
    NoCollision(path);
  }

  lemma OneTypeKinds(schema: SchemaProfile, path: FieldPath, value: Bson)
    requires ProfiledAs(schema, path, value) && value != Null
    ensures NonNullTypes(Field(schema, path).value) == {TypeOf(value)} && KindsOf(Field(schema, path).value) == {}
  {
    var f := Field(schema, path).value;
    assert NonNullTypes(f) == {TypeOf(value)};
    forall k: AmbiguityKind ensures k !in KindsOf(f) {
      assert !Exhibits(f, k);
    }
  }

  lemma PlanIsLowered(schema: SchemaProfile)
    requires ProfiledAs(schema, FIELD_A, Document(INNER)) && ProfiledAs(schema, FIELD_BC, Int32(1))
    ensures Lowered(Plan(), schema)
  {
    var plan, site := Plan(), Site(FIELD_BC, SqlInteger(2), true);
    OneTypeKinds(schema, FIELD_BC, Int32(1));
    assert PlanSites(plan) == {site};
    assert PlanNullTests(plan) == {FIELD_A};
    assert ValidateValue(site.path, site.value, schema, true).Ok?;
  }

  lemma PlanIsClear(schema: SchemaProfile)
    requires ProfiledAs(schema, FIELD_A, Document(INNER)) && ProfiledAs(schema, FIELD_BC, Int32(1))
    ensures Detect(Plan(), schema) == Ok([])
  {
    OneTypeKinds(schema, FIELD_A, Document(INNER));
    OneTypeKinds(schema, FIELD_BC, Int32(1));
    assert WritePaths(Plan()) == {FIELD_BC, FIELD_A};
    NothingReported(Plan(), schema);
  }

  /** What is reported first lies on a write path and has a kind. */
  lemma HeadReported(plan: StatementPlan, schema: SchemaProfile, reported: seq<WriteAmbiguity>)
    requires Detect(plan, schema) == Ok(reported) && reported != [] && !plan.Select?
    requires forall p :: p in WritePaths(plan) ==> Field(schema, p).Some?
    ensures exists p :: p in WritePaths(plan) && KindsOf(Field(schema, p).value) != {}
  {
    DetectionExact(plan, schema);
    assert reported[0] in reported;
  }

  lemma NothingReported(plan: StatementPlan, schema: SchemaProfile)
    requires !plan.Select?
    requires forall p :: p in WritePaths(plan) ==> Field(schema, p).Some? && KindsOf(Field(schema, p).value) == {}
    ensures Detect(plan, schema) == Ok([])
  {
    DetectionExact(plan, schema);
    var reported := Detect(plan, schema).value;
    if reported != [] {
      HeadReported(plan, schema, reported);
    }
  }

  const KEY := "a.b.c"

  lemma PlanFields()
    ensures Executor.UpdateFields(Plan().assignments) == Ok(map[KEY := Int64(2)])
  {
    var assignments := Plan().assignments;
    Executor.UpdateAccepts(assignments);
    assert assignments[..0] == [];
    assert DisplayName(FIELD_BC) == KEY;
  }

  lemma KeyIsSplit()
    ensures SplitDots(KEY) == WRITTEN
  {
    assert DisplayName(WRITTEN) == KEY;
    SplitOfJoin(WRITTEN);
  }

  lemma UpdateApplies()
    ensures Executor.ApplySet(SAMPLED, map[KEY := Int64(2)]).Some?
  {
    KeyIsSplit();
    OneKeyApplied(SAMPLED, KEY, Int64(2));
    SetPathSucceeds(SAMPLED, WRITTEN, Int64(2));
    forall k | 0 < k < |WRITTEN| && Lookup(SAMPLED, WRITTEN[..k]).Some?
      ensures Lookup(SAMPLED, WRITTEN[..k]).value.Document?
    {
      PathsOfSample(WRITTEN[..k]);
      assert k == 1 && WRITTEN[..1] == FIELD_A;
    }
  }

  lemma OneKeyApplied(d: Doc, key: string, value: Bson)
    requires Executor.Storable(SplitDots(key))
    ensures Executor.ApplySet(d, map[key := value]) == SetPath(d, SplitDots(key), value)
  {
    var fields: Doc := map[key := value];
    var keys := Ordering.SortedStrings(fields.Keys);
    assert |keys| == 1 && keys[0] in keys;
    var xs := Executor.KeySettings(fields, keys);
    assert xs == [(SplitDots(key), value)] && xs[1..] == [];
    assert forall e: Doc :: ApplyAll(e, []) == Some(e);
    assert ApplyAll(d, xs) ==
           match SetPath(d, SplitDots(key), value) case None => None case Some(e) => ApplyAll(e, xs[1..]);
  }

  lemma PlanSelectsSample()
    ensures Filters.PredicateDocument(Plan().filter).Ok?
    ensures MongoMatching.Matches(Filters.PredicateDocument(Plan().filter).value, SAMPLED)
  {
    PathsOfSample(FIELD_A);
    FilterMeaning.LeafMeaning(Plan().filter, SAMPLED);
  }

  /** A clear plan runs, and its one update replaces the document. */
  lemma TwoEvents(config: Config, s: System, plan: StatementPlan, after: Doc)
    requires s.attempts == [] && 0 in s.documents
    requires plan.Update? && Detect(plan, config.schema) == Ok([])
    requires UpdatedDocument(plan, s.documents[0]) == Some(after)
    ensures Run(config, s, [Begin(plan), UpdateOne(0, 0)]).documents == s.documents[0 := after]
  {
    RunTwo(config, s, Begin(plan), UpdateOne(0, 0));
    BeginClear(config, s, plan);
    UpdateRunning(AfterBegin(config, s, plan), 0, 0, after);
  }

  lemma BeginClear(config: Config, s: System, plan: StatementPlan)
    requires Detect(plan, config.schema) == Ok([])
    ensures AfterBegin(config, s, plan).attempts == s.attempts + [Running(plan, None)]
    ensures AfterBegin(config, s, plan).documents == s.documents
  {
  }

  lemma UpdateRunning(s: System, i: nat, id: nat, after: Doc)
    requires IsRunning(s, i) && s.attempts[i].plan.Update? && id in s.documents
    requires UpdatedDocument(s.attempts[i].plan, s.documents[id]) == Some(after)
    ensures AfterUpdate(s, i, id).documents == s.documents[id := after]
  {
  }

  /** From the sampled document `{a: {"b.c": 1}}` and the schema inferred from it alone, two events
      reach a document outside that schema: the update creates `{a: {b: {c: 2}}}` beside the old field. */
  lemma {:induction false} RunLeavesSchema(config: Config)
    requires config.schema == Discovery.Inferred([SAMPLED])
    ensures Conforms(SAMPLED, config.schema) && Lowered(Plan(), config.schema)
    ensures var s := Run(config, Start(map[0 := SAMPLED]), [Begin(Plan()), UpdateOne(0, 0)]);
            0 in s.documents && !Conforms(s.documents[0], config.schema)
  {
    SampledDocumentsConform([SAMPLED], 0);
    ProfileOfSample(FIELD_A, Document(INNER));
    ProfileOfSample(FIELD_BC, Int32(1));
    PlanIsLowered(config.schema);
    PlanIsClear(config.schema);
    UpdatedOutside(config);
    TwoEvents(config, Start(map[0 := SAMPLED]), Plan(), UpdatedDocument(Plan(), SAMPLED).value);
  }

  lemma UpdatedOutside(config: Config)
    requires config.schema == Discovery.Inferred([SAMPLED])
    requires Lowered(Plan(), config.schema) && Detect(Plan(), config.schema) == Ok([])
    ensures UpdatedDocument(Plan(), SAMPLED).Some?
    ensures !Conforms(UpdatedDocument(Plan(), SAMPLED).value, config.schema)
  {
    PlanFields();
    UpdateApplies();
    PlanSelectsSample();
    InferredSchemaIsGood([SAMPLED]);
    ClearPlanApproved(config, Plan());
    assert !DotFreePath(FIELD_BC) by {
      assert !DotFree(FIELD_BC[1]);
    }
    DottedTargetEscapes([SAMPLED], Plan(), 0, SAMPLED);
  }
}
