/** Detection of ambiguous writes and validation of resolver decisions
    (crates/ambiguity-policy/src/lib.rs). */
module AmbiguityPolicy {
  import opened Common
  import opened Decimal
  import opened Ordering
  import opened Paths
  import opened Documents
  import opened Plans
  import opened Profiles

  const RESOLUTION_CONTRACT_VERSION := "v2"

  datatype WriteOperation = InsertOperation | UpdateOperation | DeleteOperation

  datatype AmbiguityKind = MixedBsonTypes | MixedShapes | DottedPathCollision | MissingFromSampledDocuments

  datatype WriteAmbiguity = WriteAmbiguity(
    path: FieldPath,
    kinds: set<AmbiguityKind>,
    types: set<ObservedType>,
    shapes: set<ObservedShape>,
    missing: nat)

  datatype ResolutionCandidate =
    | KeepString | ParseInteger | KeepInteger | FormatIntegerAsString | UseNestedPath | Reject

  datatype ValidatedResolution = ValidatedResolution(path: FieldPath, candidate: ResolutionCandidate)

  datatype WriteValueEvidence = WriteValueEvidence(sqlType: string, preview: Option<string>)

  datatype ResolverRequest = ResolverRequest(
    contractVersion: string,
    schemaVersion: nat,
    operation: WriteOperation,
    targetPath: FieldPath,
    writeValue: Option<WriteValueEvidence>,
    kinds: set<AmbiguityKind>,
    types: set<ObservedType>,
    shapes: set<ObservedShape>,
    missing: nat,
    allowed: set<ResolutionCandidate>)

  datatype ResolverResponse = ResolverResponse(
    contractVersion: string,
    schemaVersion: nat,
    operation: WriteOperation,
    targetPath: FieldPath,
    candidate: ResolutionCandidate,
    confidence: Float64,
    rationale: string)

  // ---------------------------------------------------------------------------
  // Detection
  // ---------------------------------------------------------------------------

  function PredicatePaths(p: Predicate): set<FieldPath>
    decreases p
  {
    match p
    case Compare(path, _, _) => {path}
    case In(path, _, _) => {path}
    case IsNull(path, _) => {path}
    case And(predicates) => set q, t | q in predicates && t in PredicatePaths(q) :: t
    case Or(predicates) => set q, t | q in predicates && t in PredicatePaths(q) :: t
  }

  /** Every path a write plan refers to. */
  function WritePaths(plan: StatementPlan): set<FieldPath>
  {
    match plan
    case Select(_, _, _, _) => {}
    case Insert(_, columns, _) => set c | c in columns
    case Update(_, assignments, filter) => (set a | a in assignments :: a.path) + PredicatePaths(filter)
    case Delete(_, filter) => PredicatePaths(filter)
  }

  /** What makes a profiled field unsafe to write directly. */
  predicate Exhibits(field: FieldProfile, kind: AmbiguityKind)
  {
    match kind
    case MixedBsonTypes => |NonNullTypes(field)| > 1
    case MixedShapes => |field.shapes| > 1
    case DottedPathCollision => field.collision
    case MissingFromSampledDocuments => field.missing > 0
  }

  function KindSet(mixedTypes: bool, mixedShapes: bool, collision: bool, missing: bool): (kinds: set<AmbiguityKind>)
    ensures (MixedBsonTypes in kinds <==> mixedTypes) && (MixedShapes in kinds <==> mixedShapes)
    ensures (DottedPathCollision in kinds <==> collision) && (MissingFromSampledDocuments in kinds <==> missing)
  {
    (if mixedTypes then {MixedBsonTypes} else {})
    + (if mixedShapes then {MixedShapes} else {})
    + (if collision then {DottedPathCollision} else {})
    + (if missing then {MissingFromSampledDocuments} else {})
  }

  function KindsOf(field: FieldProfile): (kinds: set<AmbiguityKind>)
    ensures forall k :: k in kinds <==> Exhibits(field, k)
  {
    KindSet(Exhibits(field, MixedBsonTypes), Exhibits(field, MixedShapes),
            Exhibits(field, DottedPathCollision), Exhibits(field, MissingFromSampledDocuments))
  }

  function AmbiguityOf(path: FieldPath, schema: SchemaProfile): Result<Option<WriteAmbiguity>>
  {
    match Field(schema, path)
    case None => Err(InvalidInput)
    case Some(field) =>
      Ok(if KindsOf(field) == {} then None
         else Some(WriteAmbiguity(path, KindsOf(field), field.types, field.shapes, field.missing)))
  }

  function AmbiguitiesOf(paths: seq<FieldPath>, schema: SchemaProfile): Result<seq<WriteAmbiguity>>
  {
    if paths == [] then Ok([])
    else
      var first :- AmbiguityOf(paths[0], schema);
      var rest :- AmbiguitiesOf(paths[1..], schema);
      Ok((if first.Some? then [first.value] else []) + rest)
  }

  function Detect(plan: StatementPlan, schema: SchemaProfile): Result<seq<WriteAmbiguity>>
  {
    if plan.Select? then Err(InvalidInput) else AmbiguitiesOf(SortedPaths(WritePaths(plan)), schema)
  }

  /** A growing set of paths. */
  class PathSet {
    var paths: set<FieldPath>

    constructor ()
      ensures paths == {}
    {
      paths := {};
    }
  }

  /** `collect_predicate_paths`. */
  method CollectPredicatePaths(p: Predicate, target: PathSet)
    modifies target
    ensures target.paths == old(target.paths) + PredicatePaths(p)
    decreases p
  {
    match p {
      case Compare(path, _, _) => target.paths := target.paths + {path};
      case In(path, _, _) => target.paths := target.paths + {path};
      case IsNull(path, _) => target.paths := target.paths + {path};
      case And(predicates) => CollectAllPaths(p, target);
      case Or(predicates) => CollectAllPaths(p, target);
    }
  }

  function AllPaths(predicates: seq<Predicate>): set<FieldPath>
  {
    set q, t | q in predicates && t in PredicatePaths(q) :: t
  }

  method CollectAllPaths(p: Predicate, target: PathSet)
    requires p.And? || p.Or?
    modifies target
    ensures target.paths == old(target.paths) + PredicatePaths(p)
    decreases p, 0
  {
    for i := 0 to |p.predicates|
      invariant target.paths == old(target.paths) + AllPaths(p.predicates[..i])
    {
      assert p.predicates[..i + 1] == p.predicates[..i] + [p.predicates[i]];
      assert AllPaths(p.predicates[..i + 1]) == AllPaths(p.predicates[..i]) + PredicatePaths(p.predicates[i]);
      CollectPredicatePaths(p.predicates[i], target);
    }
    assert p.predicates[..|p.predicates|] == p.predicates;
    assert PredicatePaths(p) == AllPaths(p.predicates);
  }

  /** The kinds are inserted one by one. */
  method InsertKinds(mixedTypes: bool, mixedShapes: bool, collision: bool, missing: bool)
    returns (kinds: set<AmbiguityKind>)
    ensures kinds == KindSet(mixedTypes, mixedShapes, collision, missing)
  {
    kinds := {};
    if mixedTypes {
      kinds := kinds + {MixedBsonTypes};
    }
    if mixedShapes {
      kinds := kinds + {MixedShapes};
    }
    if collision {
      kinds := kinds + {DottedPathCollision};
    }
    if missing {
      kinds := kinds + {MissingFromSampledDocuments};
    }
  }

  /** `ambiguity_for_path`. */
  method AmbiguityForPath(path: FieldPath, schema: SchemaProfile) returns (result: Result<Option<WriteAmbiguity>>)
    ensures result == AmbiguityOf(path, schema)
  {
    var found := Field(schema, path);
    if found.None? {
      return Err(InvalidInput);
    }
    var field := found.value;
    var kinds := InsertKinds(|NonNullTypes(field)| > 1, |field.shapes| > 1, field.collision, field.missing > 0);
    if kinds == {} {
      return Ok(None);
    }
    return Ok(Some(WriteAmbiguity(path, kinds, found.value.types, found.value.shapes, found.value.missing)));
  }

  function Resume(done: seq<WriteAmbiguity>, rest: Result<seq<WriteAmbiguity>>): Result<seq<WriteAmbiguity>>
  {
    match rest case Err(kind) => Err(kind) case Ok(more) => Ok(done + more)
  }

  lemma ResumeJoined(done: seq<WriteAmbiguity>, head: seq<WriteAmbiguity>, rest: seq<WriteAmbiguity>)
    ensures Resume(done, Ok(head + rest)) == Resume(done + head, Ok(rest))
  {
    assert done + (head + rest) == done + head + rest;
  }

  lemma ResumeStep(done: seq<WriteAmbiguity>, paths: seq<FieldPath>, schema: SchemaProfile)
    requires paths != []
    ensures Resume(done, AmbiguitiesOf(paths, schema)) ==
            match AmbiguityOf(paths[0], schema)
            case Err(kind) => Err(kind)
            case Ok(first) =>
              Resume(done + (if first.Some? then [first.value] else []), AmbiguitiesOf(paths[1..], schema))
  {
    match AmbiguityOf(paths[0], schema) {
      case Err(_) =>
      case Ok(first) =>
        var head := if first.Some? then [first.value] else [];
        match AmbiguitiesOf(paths[1..], schema) {
          case Err(_) =>
          case Ok(rest) =>
            assert AmbiguitiesOf(paths, schema) == Ok(head + rest);
            ResumeJoined(done, head, rest);
        }
    }
  }

  /** The part of detection that asks for each path in turn. */
  method DetectAlong(paths: seq<FieldPath>, schema: SchemaProfile) returns (result: Result<seq<WriteAmbiguity>>)
    ensures result == AmbiguitiesOf(paths, schema)
  {
    var ambiguities: seq<WriteAmbiguity> := [];
    assert forall rest: seq<WriteAmbiguity> :: [] + rest == rest;
    assert paths[0..] == paths;
    for i := 0 to |paths|
      invariant AmbiguitiesOf(paths, schema) == Resume(ambiguities, AmbiguitiesOf(paths[i..], schema))
    {
      assert paths[i..][0] == paths[i] && paths[i..][1..] == paths[i + 1..];
      ResumeStep(ambiguities, paths[i..], schema);
      var next := AmbiguityForPath(paths[i], schema);
      if next.Err? {
        return Err(next.kind);
      }
      ambiguities := ambiguities + if next.value.Some? then [next.value.value] else [];
    }
    assert ambiguities + [] == ambiguities;
    return Ok(ambiguities);
  }

  /** `detect_write_ambiguities`. */
  method DetectWriteAmbiguities(plan: StatementPlan, schema: SchemaProfile)
    returns (result: Result<seq<WriteAmbiguity>>)
    ensures result == Detect(plan, schema)
  {
    var target := new PathSet();
    match plan {
      case Select(_, _, _, _) =>
        return Err(InvalidInput);
      case Insert(_, columns, _) =>
        target.paths := target.paths + set c | c in columns;
      case Update(_, assignments, filter) =>
        target.paths := target.paths + set a | a in assignments :: a.path;
        CollectPredicatePaths(filter, target);
      case Delete(_, filter) =>
        CollectPredicatePaths(filter, target);
    }
    assert target.paths == WritePaths(plan);
    result := DetectAlong(SortedPaths(target.paths), schema);
  }

  lemma {:induction false} AmbiguitiesExact(paths: seq<FieldPath>, schema: SchemaProfile)
    ensures AmbiguitiesOf(paths, schema).Ok? <==> forall p :: p in paths ==> Field(schema, p).Some?
    ensures AmbiguitiesOf(paths, schema).Err? ==> AmbiguitiesOf(paths, schema).kind == InvalidInput
    ensures AmbiguitiesOf(paths, schema).Ok? ==>
            forall a :: a in AmbiguitiesOf(paths, schema).value <==>
              a.path in paths && AmbiguityOf(a.path, schema) == Ok(Some(a))
  {
    if paths != [] {
      AmbiguitiesExact(paths[1..], schema);
      assert forall p :: p in paths <==> p == paths[0] || p in paths[1..];
      if AmbiguitiesOf(paths, schema).Ok? {
        var first, rest := AmbiguityOf(paths[0], schema).value, AmbiguitiesOf(paths[1..], schema).value;
        assert forall a :: a in AmbiguitiesOf(paths, schema).value <==> (first.Some? && a == first.value) || a in rest;
        assert first.Some? ==> first.value.path == paths[0];
      }
    }
  }

  /** Detection fails exactly on reads and on unprofiled paths; otherwise it reports each path of
      the plan that exhibits some kind of ambiguity, with its evidence, and no other. */
  lemma DetectionExact(plan: StatementPlan, schema: SchemaProfile)
    ensures Detect(plan, schema).Ok? <==>
            !plan.Select? && forall p :: p in WritePaths(plan) ==> Field(schema, p).Some?
    ensures Detect(plan, schema).Ok? ==>
            forall a :: a in Detect(plan, schema).value <==>
              && a.path in WritePaths(plan)
              && var field := Field(schema, a.path).value;
                 && KindsOf(field) != {}
                 && a == WriteAmbiguity(a.path, KindsOf(field), field.types, field.shapes, field.missing)
  {
    var paths := SortedPaths(WritePaths(plan));
    AmbiguitiesExact(paths, schema);
    assert forall p :: p in paths <==> p in WritePaths(plan);
  }

  /** The profile of a field shows the kind of ambiguity. */
  ghost predicate Shows(field: FieldProfile, kind: AmbiguityKind)
  {
    match kind
    case MixedBsonTypes =>
      exists t, u :: t in field.types && u in field.types && t != u && t != NullType && u != NullType
    case MixedShapes => exists g, h :: g in field.shapes && h in field.shapes && g != h
    case DottedPathCollision => field.collision
    case MissingFromSampledDocuments => field.missing != 0
  }

  lemma SeveralElements<T>(s: set<T>)
    ensures |s| > 1 <==> exists a, b :: a in s && b in s && a != b
  {
    if |s| > 1 {
      var a :| a in s;
      assert |s - {a}| > 0;
      var b :| b in s - {a};
      assert a in s && b in s && a != b;
    }
    if a, b :| a in s && b in s && a != b {
      assert |{a, b}| == 2;
      SmallerSubset({a, b}, s);
    }
  }

  lemma ExhibitsExact(field: FieldProfile, kind: AmbiguityKind)
    ensures kind in KindsOf(field) <==> Shows(field, kind)
  {
    SeveralElements(NonNullTypes(field));
    SeveralElements(field.shapes);
    forall t ensures t in NonNullTypes(field) <==> t in field.types && t != NullType {
    }
  }

  /** Detection, kind by kind: a path of the plan is reported if and only if its profile holds two types
      other than null, or two shapes, or a collision, or a missing document; each kind is listed exactly
      for its own reason, beside the evidence of the profile. */
  lemma DetectionByKind(plan: StatementPlan, schema: SchemaProfile, path: FieldPath)
    requires Detect(plan, schema).Ok? && path in WritePaths(plan)
    ensures var field := Field(schema, path);
            && field.Some?
            && ((exists a :: a in Detect(plan, schema).value && a.path == path)
                <==> exists kind :: Shows(field.value, kind))
            && (forall a :: a in Detect(plan, schema).value && a.path == path ==>
                  && (forall kind :: kind in a.kinds <==> Shows(field.value, kind))
                  && a.types == field.value.types && a.shapes == field.value.shapes && a.missing == field.value.missing)
  {
    DetectionExact(plan, schema);
    var field := Field(schema, path).value;
    forall kind ensures kind in KindsOf(field) <==> Shows(field, kind) {
      ExhibitsExact(field, kind);
    }
    if kind :| Shows(field, kind) {
      assert kind in KindsOf(field);
      var reported := WriteAmbiguity(path, KindsOf(field), field.types, field.shapes, field.missing);
      assert reported in Detect(plan, schema).value;
    }
    if a :| a in Detect(plan, schema).value && a.path == path {
      var kind :| kind in KindsOf(field);
      assert Shows(field, kind);
    }
  }

  lemma {:induction false} AmbiguitiesAscend(paths: seq<FieldPath>, schema: SchemaProfile)
    requires Ascending(PathLess, paths) && AmbiguitiesOf(paths, schema).Ok?
    ensures forall i, j :: 0 <= i < j < |AmbiguitiesOf(paths, schema).value| ==>
              PathLess(AmbiguitiesOf(paths, schema).value[i].path, AmbiguitiesOf(paths, schema).value[j].path)
    ensures forall a :: a in AmbiguitiesOf(paths, schema).value ==> a.path in paths
  {
    if paths != [] {
      AmbiguitiesAscend(paths[1..], schema);
      var all, rest := AmbiguitiesOf(paths, schema).value, AmbiguitiesOf(paths[1..], schema).value;
      forall j | 0 <= j < |rest| ensures rest[j].path in paths && PathLess(paths[0], rest[j].path) {
        assert rest[j] in rest;
        var k :| 0 <= k < |paths[1..]| && paths[1..][k] == rest[j].path;
        assert paths[k + 1] == rest[j].path;
      }
      if AmbiguityOf(paths[0], schema).value.Some? {
        assert all == [AmbiguityOf(paths[0], schema).value.value] + rest;
      } else {
        assert all == rest;
      }
    }
  }

  lemma {:induction false} AmbiguitiesFailInvalid(paths: seq<FieldPath>, schema: SchemaProfile)
    ensures AmbiguitiesOf(paths, schema).Err? ==> AmbiguitiesOf(paths, schema).kind == InvalidInput
  {
    if paths != [] {
      AmbiguitiesFailInvalid(paths[1..], schema);
    }
  }

  /** Detection of a read, or of a plan with a path that is not profiled, is invalid input. */
  lemma DetectionFailsInvalid(plan: StatementPlan, schema: SchemaProfile)
    ensures Detect(plan, schema) == Err(InvalidInput) <==>
            plan.Select? || exists p :: p in WritePaths(plan) && Field(schema, p).None?
    ensures Detect(plan, schema).Err? ==> Detect(plan, schema) == Err(InvalidInput)
  {
    DetectionExact(plan, schema);
    AmbiguitiesFailInvalid(SortedPaths(WritePaths(plan)), schema);
  }

  /** Ambiguities are reported once per path, in path order. */
  lemma DetectionOrdered(plan: StatementPlan, schema: SchemaProfile)
    requires Detect(plan, schema).Ok?
    ensures var reported := Detect(plan, schema).value;
            forall i, j :: 0 <= i < j < |reported| ==> PathLess(reported[i].path, reported[j].path)
  {
    AmbiguitiesAscend(SortedPaths(WritePaths(plan)), schema);
  }

  // ---------------------------------------------------------------------------
  // Candidates
  // ---------------------------------------------------------------------------

  predicate PredicateReferencesPath(p: Predicate, target: FieldPath)
    decreases p
  {
    match p
    case Compare(path, _, _) => path == target
    case In(path, _, _) => path == target
    case IsNull(path, _) => path == target
    case And(predicates) => exists q :: q in predicates && PredicateReferencesPath(q, target)
    case Or(predicates) => exists q :: q in predicates && PredicateReferencesPath(q, target)
  }

  predicate WritePlanReferencesPath(plan: StatementPlan, target: FieldPath)
  {
    match plan
    case Insert(_, columns, _) => target in columns
    case Update(_, assignments, _) => exists a :: a in assignments && a.path == target
    case _ => false
  }

  /** The evidence of the one supported mixed-type ambiguity at a path. */
  function MixedTypeAmbiguity(path: FieldPath): WriteAmbiguity
  {
    WriteAmbiguity(path, {MixedBsonTypes}, {IntegerType, StringType}, {ScalarShape}, 0)
  }

  /** `mixed_type_assignment_value`: the sole assignment, if it may be retagged. */
  function MixedTypeAssignmentValue(plan: StatementPlan, ambiguity: WriteAmbiguity): Option<SqlValue>
  {
    if ambiguity != MixedTypeAmbiguity(ambiguity.path) || IsLiteralDottedKey(ambiguity.path) then None
    else if !plan.Update? || PredicateReferencesPath(plan.filter, ambiguity.path) then None
    else if |plan.assignments| != 1 || plan.assignments[0].path != ambiguity.path then None
    else Some(plan.assignments[0].value)
  }

  predicate NestedPathIsSafe(ambiguity: WriteAmbiguity)
  {
    ambiguity.kinds == {MissingFromSampledDocuments} && !IsLiteralDottedKey(ambiguity.path) && |ambiguity.path| >= 2
  }

  /** Which answers the resolver may give. */
  predicate Permitted(plan: StatementPlan, ambiguity: WriteAmbiguity, candidate: ResolutionCandidate)
  {
    var value := MixedTypeAssignmentValue(plan, ambiguity);
    match candidate
    case Reject => true
    case UseNestedPath => NestedPathIsSafe(ambiguity)
    case KeepString => value.Some? && value.value.SqlString?
    case ParseInteger => value.Some? && value.value.SqlString? && ParseIntegerLosslessly(value.value.s).Some?
    case KeepInteger => value.Some? && value.value.SqlInteger?
    case FormatIntegerAsString => value.Some? && value.value.SqlInteger?
  }

  function AllowedCandidates(plan: StatementPlan, ambiguity: WriteAmbiguity): set<ResolutionCandidate>
  {
    set c: ResolutionCandidate | Permitted(plan, ambiguity, c)
  }

  /** `allowed_candidates`: a set that starts with `Reject` and grows. */
  method ComputeAllowedCandidates(plan: StatementPlan, ambiguity: WriteAmbiguity)
    returns (candidates: set<ResolutionCandidate>)
    ensures candidates == AllowedCandidates(plan, ambiguity)
  {
    candidates := {Reject};
    if NestedPathIsSafe(ambiguity) {
      candidates := candidates + {UseNestedPath};
    }
    match MixedTypeAssignmentValue(plan, ambiguity) {
      case Some(SqlString(text)) =>
        candidates := candidates + {KeepString};
        if ParseIntegerLosslessly(text).Some? {
          candidates := candidates + {ParseInteger};
        }
      case Some(SqlInteger(_)) =>
        candidates := candidates + {KeepInteger};
        candidates := candidates + {FormatIntegerAsString};
      case _ =>
    }
  }

  lemma {:induction false} ReferencedExactly(p: Predicate, target: FieldPath)
    ensures PredicateReferencesPath(p, target) <==> target in PredicatePaths(p)
    decreases p
  {
    if p.And? || p.Or? {
      forall q | q in p.predicates ensures PredicateReferencesPath(q, target) <==> target in PredicatePaths(q) {
        ReferencedExactly(q, target);
      }
    }
  }

  /** An `UPDATE` whose only assignment has this target, which is no literal dotted key and is not
      mentioned by the filter. */
  ghost predicate SoleTarget(plan: StatementPlan, path: FieldPath)
  {
    && plan.Update? && |plan.assignments| == 1 && plan.assignments[0].path == path
    && path !in PredicatePaths(plan.filter)
    && !NamesDottedKey(path)
  }

  /** The field holds integers and strings, nothing else, in every sampled document. */
  predicate IntegerOrString(ambiguity: WriteAmbiguity)
  {
    && ambiguity.kinds == {MixedBsonTypes} && ambiguity.types == {IntegerType, StringType}
    && ambiguity.shapes == {ScalarShape} && ambiguity.missing == 0
  }

  lemma AssignmentValueExact(plan: StatementPlan, ambiguity: WriteAmbiguity)
    ensures MixedTypeAssignmentValue(plan, ambiguity)
            == if IntegerOrString(ambiguity) && SoleTarget(plan, ambiguity.path)
               then Some(plan.assignments[0].value) else None
  {
    if plan.Update? {
      ReferencedExactly(plan.filter, ambiguity.path);
    }
    assert ambiguity == MixedTypeAmbiguity(ambiguity.path) <==> IntegerOrString(ambiguity);
  }

  /** What is offered: rejection always; the nested path when it is merely missing somewhere; and for the
      sole assignment to a field of integers and strings, to keep the value or to convert it if the
      conversion loses nothing. */
  lemma CandidatesExact(plan: StatementPlan, ambiguity: WriteAmbiguity, candidate: ResolutionCandidate)
    ensures candidate in AllowedCandidates(plan, ambiguity) <==>
            match candidate
            case Reject => true
            case UseNestedPath => ambiguity.kinds == {MissingFromSampledDocuments} && |ambiguity.path| > 1
            case KeepString =>
              IntegerOrString(ambiguity) && SoleTarget(plan, ambiguity.path) && plan.assignments[0].value.SqlString?
            case ParseInteger =>
              && IntegerOrString(ambiguity) && SoleTarget(plan, ambiguity.path) && plan.assignments[0].value.SqlString?
              && exists n: I64 :: plan.assignments[0].value.s == FormatInteger(n)
            case KeepInteger =>
              IntegerOrString(ambiguity) && SoleTarget(plan, ambiguity.path) && plan.assignments[0].value.SqlInteger?
            case FormatIntegerAsString =>
              IntegerOrString(ambiguity) && SoleTarget(plan, ambiguity.path) && plan.assignments[0].value.SqlInteger?
  {
    AssignmentValueExact(plan, ambiguity);
    if candidate == ParseInteger && MixedTypeAssignmentValue(plan, ambiguity).Some?
       && plan.assignments[0].value.SqlString? {
      LosslessExists(plan.assignments[0].value.s);
    }
  }

  lemma LosslessExists(s: string)
    ensures ParseIntegerLosslessly(s).Some? <==> exists n: I64 :: s == FormatInteger(n)
  {
    if ParseIntegerLosslessly(s).Some? {
      LosslessIsInverse(s, ParseIntegerLosslessly(s).value);
    }
    if n: I64 :| s == FormatInteger(n) {
      LosslessIsInverse(s, n);
    }
  }

  function ValidateResolution(plan: StatementPlan, ambiguity: WriteAmbiguity, candidate: ResolutionCandidate)
    : Result<ValidatedResolution>
  {
    if candidate !in AllowedCandidates(plan, ambiguity) then Err(AmbiguousWrite)
    else Ok(ValidatedResolution(ambiguity.path, candidate))
  }

  // ---------------------------------------------------------------------------
  // The resolver exchange
  // ---------------------------------------------------------------------------

  /** How a finite double prints. */
  type FloatDisplay = Float64 -> string

  function TakePrefix(s: string, n: nat): string { if |s| <= n then s else s[..n] }

  function ValueEvidence(value: SqlValue, display: FloatDisplay): WriteValueEvidence
  {
    match value
    case SqlNull => WriteValueEvidence("null", None)
    case SqlBoolean(b) => WriteValueEvidence("boolean", Some(if b then "true" else "false"))
    case SqlInteger(i) => WriteValueEvidence("integer", Some(FormatInteger(i)))
    case SqlFloat(f) => WriteValueEvidence("floating_point", Some(display(f)))
    case SqlString(s) => WriteValueEvidence("string", Some(TakePrefix(s, 128)))
    case SqlPlaceholder(name) => WriteValueEvidence("placeholder", Some(name))
  }

  function FirstIndex(columns: seq<FieldPath>, path: FieldPath): Option<nat>
  {
    if columns == [] then None
    else if columns[0] == path then Some(0)
    else match FirstIndex(columns[1..], path) case None => None case Some(i) => Some(i + 1)
  }

  function AssignedValue(assignments: seq<AssignmentPlan>, path: FieldPath): Option<SqlValue>
  {
    if assignments == [] then None
    else if assignments[0].path == path then Some(assignments[0].value)
    else AssignedValue(assignments[1..], path)
  }

  /** The proposed value at the ambiguous path: of the first row, or of the first assignment. */
  function ProposedValue(plan: StatementPlan, path: FieldPath): Option<SqlValue>
  {
    match plan
    case Insert(_, columns, rows) =>
      var index := FirstIndex(columns, path);
      if index.Some? && rows != [] && index.value < |rows[0]| then Some(rows[0][index.value]) else None
    case Update(_, assignments, _) => AssignedValue(assignments, path)
    case _ => None
  }

  function ResolverRequestFor(
    plan: StatementPlan, operation: WriteOperation, schemaVersion: nat, ambiguity: WriteAmbiguity,
    display: FloatDisplay)
    : ResolverRequest
  {
    ResolverRequest(
      RESOLUTION_CONTRACT_VERSION, schemaVersion, operation, ambiguity.path,
      match ProposedValue(plan, ambiguity.path)
        case None => None
        case Some(value) => Some(ValueEvidence(value, display)),
      ambiguity.kinds, ambiguity.types, ambiguity.shapes, ambiguity.missing,
      AllowedCandidates(plan, ambiguity))
  }

  /** The length in bytes of a character in UTF-8. */
  function Utf8Size(c: char): nat
  {
    var code := c as int;
    if code < 0x80 then 1 else if code < 0x800 then 2 else if code < 0x1_0000 then 3 else 4
  }

  function Utf8Length(s: string): nat
  {
    if s == "" then 0 else Utf8Length(s[..|s| - 1]) + Utf8Size(s[|s| - 1])
  }

  /** The bytes a character takes: one for ASCII, two below 0x800, three in the basic plane, else four. */
  lemma Utf8SizeExact(c: char)
    ensures 1 <= Utf8Size(c) <= 4
    ensures Utf8Size(c) >= 2 <==> c as int >= 0x80
    ensures Utf8Size(c) >= 3 <==> c as int >= 0x800
    ensures Utf8Size(c) == 4 <==> c as int >= 0x1_0000
    ensures Utf8Length("") == 0 && Utf8Length([c]) == Utf8Size(c)
  {
    assert [c][..0] == "";
  }

  /** What the resolver is told about a value: its SQL type and a preview, of strings the first 128
      characters and of NULL nothing. */
  lemma EvidenceExact(value: SqlValue, display: FloatDisplay)
    ensures var evidence := ValueEvidence(value, display);
            match value
            case SqlNull => evidence.sqlType == "null" && evidence.preview == None
            case SqlBoolean(b) =>
              evidence.sqlType == "boolean" && evidence.preview == Some(if b then "true" else "false")
            case SqlInteger(i) => evidence.sqlType == "integer" && evidence.preview == Some(FormatInteger(i))
            case SqlFloat(f) => evidence.sqlType == "floating_point" && evidence.preview == Some(display(f))
            case SqlString(s) =>
              && evidence.sqlType == "string" && evidence.preview.Some?
              && evidence.preview.value <= s && |evidence.preview.value| == if |s| < 128 then |s| else 128
            case SqlPlaceholder(name) => evidence.sqlType == "placeholder" && evidence.preview == Some(name)
  {
  }

  /** The first position of the path, if any. */
  ghost predicate FirstAt(paths: seq<FieldPath>, path: FieldPath, i: nat)
  {
    i < |paths| && paths[i] == path && path !in paths[..i]
  }

  lemma {:induction false} FirstIndexExact(columns: seq<FieldPath>, path: FieldPath)
    ensures FirstIndex(columns, path).Some? <==> path in columns
    ensures FirstIndex(columns, path).Some? ==> FirstAt(columns, path, FirstIndex(columns, path).value)
  {
    if columns != [] && columns[0] != path {
      FirstIndexExact(columns[1..], path);
      if FirstIndex(columns[1..], path).Some? {
        var i := FirstIndex(columns[1..], path).value;
        assert columns[..i + 1] == [columns[0]] + columns[1..][..i];
      }
    }
  }

  lemma {:induction false} AssignedValueExact(assignments: seq<AssignmentPlan>, path: FieldPath)
    ensures AssignedValue(assignments, path).None? <==> forall a :: a in assignments ==> a.path != path
    ensures AssignedValue(assignments, path).Some? ==>
            exists i :: 0 <= i < |assignments|
                        && assignments[i] == AssignmentPlan(path, AssignedValue(assignments, path).value)
                        && forall j :: 0 <= j < i ==> assignments[j].path != path
  {
    if assignments != [] {
      if assignments[0].path == path {
        assert assignments[0] == AssignmentPlan(path, AssignedValue(assignments, path).value);
      } else {
        AssignedValueExact(assignments[1..], path);
        assert forall a :: a in assignments <==> a == assignments[0] || a in assignments[1..];
        if AssignedValue(assignments[1..], path).Some? {
          var i :| 0 <= i < |assignments[1..]|
                   && assignments[1..][i] == AssignmentPlan(path, AssignedValue(assignments[1..], path).value)
                   && forall j :: 0 <= j < i ==> assignments[1..][j].path != path;
          assert assignments[i + 1] == AssignmentPlan(path, AssignedValue(assignments, path).value);
          assert forall j :: 0 < j < i + 1 ==> assignments[j] == assignments[1..][j - 1];
        }
      }
    }
  }

  /** The value shown to the resolver is the one proposed first for the path: by the first row at the
      first column of that name, or by the first assignment; a `DELETE` proposes none. */
  lemma ProposedValueExact(plan: StatementPlan, path: FieldPath)
    ensures match plan
            case Insert(_, columns, rows) =>
              && (ProposedValue(plan, path).Some? ==>
                    && rows != []
                    && exists i: nat :: FirstAt(columns, path, i) && i < |rows[0]|
                                        && ProposedValue(plan, path).value == rows[0][i])
              && (ProposedValue(plan, path).None? ==>
                    rows == [] || path !in columns || exists i: nat :: FirstAt(columns, path, i) && i >= |rows[0]|)
            case Update(_, assignments, _) =>
              && (ProposedValue(plan, path).None? <==> forall a :: a in assignments ==> a.path != path)
              && (ProposedValue(plan, path).Some? ==>
                    exists i :: 0 <= i < |assignments|
                                && assignments[i] == AssignmentPlan(path, ProposedValue(plan, path).value)
                                && forall j :: 0 <= j < i ==> assignments[j].path != path)
            case Delete(_, _) => ProposedValue(plan, path).None?
            case Select(_, _, _, _) => ProposedValue(plan, path).None?
  {
    match plan
    case Insert(_, columns, _) => FirstIndexExact(columns, path);
    case Update(_, assignments, _) => AssignedValueExact(assignments, path);
    case _ =>
  }

  predicate ResponseAcceptable(request: ResolverRequest, response: ResolverResponse, minimum: Float64)
  {
    && response.contractVersion == RESOLUTION_CONTRACT_VERSION
    && response.schemaVersion == request.schemaVersion
    && response.operation == request.operation
    && response.targetPath == request.targetPath
    && IsFinite(response.confidence)
    && !FloatLess(response.confidence, minimum)
    && !FloatLess(Finite(1.0), response.confidence)
    && response.rationale != ""
    && Utf8Length(response.rationale) <= 500
  }

  /** `validate_resolver_response`. */
  function ValidateResolverResponse(
    request: ResolverRequest, plan: StatementPlan, ambiguity: WriteAmbiguity, response: ResolverResponse,
    minimum: Float64)
    : Result<ValidatedResolution>
  {
    if !ResponseAcceptable(request, response, minimum) then Err(AmbiguousWrite)
    else ValidateResolution(plan, ambiguity, response.candidate)
  }

  // ---------------------------------------------------------------------------
  // Application
  // ---------------------------------------------------------------------------

  function RetypeAssignment(plan: StatementPlan, target: FieldPath, value: SqlValue): Result<StatementPlan>
    requires value.SqlInteger? || value.SqlString?
  {
    if !plan.Update? || |plan.assignments| != 1 then Err(AmbiguousWrite)
    else
      var assignment := plan.assignments[0];
      var expected := if value.SqlInteger? then assignment.value.SqlString? else assignment.value.SqlInteger?;
      if assignment.path != target || !expected then Err(AmbiguousWrite)
      else Ok(plan.(assignments := [AssignmentPlan(assignment.path, value)]))
  }

  /** `apply_resolution`. */
  function ApplyResolution(plan: StatementPlan, resolution: ValidatedResolution): Result<StatementPlan>
  {
    var path := resolution.path;
    var value := MixedTypeAssignmentValue(plan, MixedTypeAmbiguity(path));
    match resolution.candidate
    case Reject => Err(AmbiguousWrite)
    case UseNestedPath =>
      if IsLiteralDottedKey(path) || |path| < 2 || !WritePlanReferencesPath(plan, path) then Err(AmbiguousWrite)
      else Ok(plan)
    case KeepString => if value.Some? && value.value.SqlString? then Ok(plan) else Err(AmbiguousWrite)
    case ParseInteger =>
      if value.Some? && value.value.SqlString? then
        match ParseIntegerLosslessly(value.value.s)
        case None => Err(AmbiguousWrite)
        case Some(n) => RetypeAssignment(plan, path, SqlInteger(n))
      else Err(AmbiguousWrite)
    case KeepInteger => if value.Some? && value.value.SqlInteger? then Ok(plan) else Err(AmbiguousWrite)
    case FormatIntegerAsString =>
      if value.Some? && value.value.SqlInteger?
        then RetypeAssignment(plan, path, SqlString(FormatInteger(value.value.i)))
      else Err(AmbiguousWrite)
  }

  /** One value is the decimal text of the other. */
  predicate LosslesslyRetagged(a: SqlValue, b: SqlValue)
  {
    || (a.SqlString? && b.SqlInteger? && a.s == FormatInteger(b.i))
    || (a.SqlInteger? && b.SqlString? && b.s == FormatInteger(a.i))
  }

  /** The plans agree except for the value of the only assignment, which is losslessly retagged. */
  predicate RetaggedAt(plan: StatementPlan, plan': StatementPlan, path: FieldPath)
  {
    && plan.Update? && |plan.assignments| == 1 && plan.assignments[0].path == path
    && plan'.Update? && |plan'.assignments| == 1
    && LosslesslyRetagged(plan.assignments[0].value, plan'.assignments[0].value)
    && plan' == plan.(assignments := [AssignmentPlan(path, plan'.assignments[0].value)])
  }

  /** After validation, applying a candidate fails only for `Reject` and for a nested path that the
      plan reads but does not write; otherwise the plan is kept, or its one value is retagged. */
  lemma ApplyAfterValidation(plan: StatementPlan, ambiguity: WriteAmbiguity, candidate: ResolutionCandidate)
    requires ValidateResolution(plan, ambiguity, candidate).Ok?
    ensures var resolution := ValidateResolution(plan, ambiguity, candidate).value;
            && resolution == ValidatedResolution(ambiguity.path, candidate)
            && (ApplyResolution(plan, resolution).Ok? <==>
                  candidate != Reject
                  && (candidate == UseNestedPath ==> WritePlanReferencesPath(plan, ambiguity.path)))
            && (ApplyResolution(plan, resolution).Ok? ==>
                  var plan' := ApplyResolution(plan, resolution).value;
                  if candidate == ParseInteger || candidate == FormatIntegerAsString
                  then RetaggedAt(plan, plan', ambiguity.path) else plan' == plan)
  {
    match candidate
    case ParseInteger =>
      var value := MixedTypeAssignmentValue(plan, ambiguity).value;
      LosslessIsInverse(value.s, ParseIntegerLosslessly(value.s).value);
    case _ =>
  }

  /** Which plans each candidate is meant for. */
  ghost predicate MeantFor(plan: StatementPlan, path: FieldPath, candidate: ResolutionCandidate)
  {
    match candidate
    case Reject => false
    case UseNestedPath =>
      && |path| > 1
      && ((plan.Insert? && path in plan.columns)
          || (plan.Update? && exists i :: 0 <= i < |plan.assignments| && plan.assignments[i].path == path))
    case KeepString => SoleTarget(plan, path) && plan.assignments[0].value.SqlString?
    case ParseInteger =>
      && SoleTarget(plan, path) && plan.assignments[0].value.SqlString?
      && exists n: I64 :: plan.assignments[0].value.s == FormatInteger(n)
    case KeepInteger => SoleTarget(plan, path) && plan.assignments[0].value.SqlInteger?
    case FormatIntegerAsString => SoleTarget(plan, path) && plan.assignments[0].value.SqlInteger?
  }

  /** Application checks the plan again, whatever was validated: each candidate applies exactly to the
      plans it is meant for, and keeps the plan or retags its one value. */
  lemma ApplicationExact(plan: StatementPlan, path: FieldPath, candidate: ResolutionCandidate)
    ensures var applied := ApplyResolution(plan, ValidatedResolution(path, candidate));
            && (applied.Ok? <==> MeantFor(plan, path, candidate))
            && (applied.Err? ==> applied.kind == AmbiguousWrite)
            && (applied.Ok? ==>
                  if candidate == ParseInteger || candidate == FormatIntegerAsString
                  then RetaggedAt(plan, applied.value, path) else applied.value == plan)
  {
    AssignmentValueExact(plan, MixedTypeAmbiguity(path));
    match candidate
    case ParseInteger => ParseExact(plan, path);
    case UseNestedPath =>
      if plan.Update? {
        assert forall i :: 0 <= i < |plan.assignments| ==> plan.assignments[i] in plan.assignments;
      }
    case _ =>
  }

  lemma ParseExact(plan: StatementPlan, path: FieldPath)
    ensures var applied := ApplyResolution(plan, ValidatedResolution(path, ParseInteger));
            && (applied.Ok? <==> MeantFor(plan, path, ParseInteger))
            && (applied.Err? ==> applied.kind == AmbiguousWrite)
            && (applied.Ok? ==> RetaggedAt(plan, applied.value, path))
  {
    AssignmentValueExact(plan, MixedTypeAmbiguity(path));
    if SoleTarget(plan, path) && plan.assignments[0].value.SqlString? {
      var s := plan.assignments[0].value.s;
      LosslessExists(s);
      if ParseIntegerLosslessly(s).Some? {
        LosslessIsInverse(s, ParseIntegerLosslessly(s).value);
      }
    }
  }

  /** The two retagging candidates undo each other. */
  lemma RetaggingRoundTrip(plan: StatementPlan, path: FieldPath, first: ResolutionCandidate)
    requires first == ParseInteger || first == FormatIntegerAsString
    requires ApplyResolution(plan, ValidatedResolution(path, first)).Ok?
    ensures var plan' := ApplyResolution(plan, ValidatedResolution(path, first)).value;
            var second := if first == ParseInteger then FormatIntegerAsString else ParseInteger;
            ApplyResolution(plan', ValidatedResolution(path, second)) == Ok(plan)
  {
    var value := plan.assignments[0].value;
    var plan' := ApplyResolution(plan, ValidatedResolution(path, first)).value;
    assert plan == plan.(assignments := [AssignmentPlan(path, value)]) by {
      assert plan.assignments == [AssignmentPlan(path, value)];
    }
    if first == ParseInteger {
      LosslessIsInverse(value.s, ParseIntegerLosslessly(value.s).value);
    } else {
      LosslessIsInverse(FormatInteger(value.i), value.i);
    }
  }

  /** A mixed-type candidate is never offered together with a nested-path candidate, so at most
      three candidates are ever allowed. */
  lemma AtMostThreeCandidates(plan: StatementPlan, ambiguity: WriteAmbiguity)
    ensures |AllowedCandidates(plan, ambiguity)| <= 3
    ensures Reject in AllowedCandidates(plan, ambiguity)
  {
    var allowed := AllowedCandidates(plan, ambiguity);
    var bound := if NestedPathIsSafe(ambiguity) then {Reject, UseNestedPath}
                 else match MixedTypeAssignmentValue(plan, ambiguity)
                      case Some(SqlString(_)) => {Reject, KeepString, ParseInteger}
                      case Some(SqlInteger(_)) => {Reject, KeepInteger, FormatIntegerAsString}
                      case _ => {Reject};
    assert allowed <= bound;
    SmallerSubset(allowed, bound);
  }

  lemma {:induction false} SmallerSubset<T>(a: set<T>, b: set<T>)
    requires a <= b
    ensures |a| <= |b|
  {
    if a != {} {
      var x :| x in a;
      SmallerSubset(a - {x}, b - {x});
    }
  }
}
