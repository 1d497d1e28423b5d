/** Concrete statements on which the gate falls short: a lost record, a candidate that can never be
    applied, and a request the resolver service refuses. Each schema is inferred from two documents. */
module GateExamples {
  import opened Common
  import opened Paths
  import opened Documents
  import opened Plans
  import opened Profiles
  import opened TypePolicy
  import opened Lowering
  import opened AmbiguityPolicy
  import opened Gate
  import opened Runs
  import opened ResolverContract
  import Decimal
  import Ordering
  import Discovery

  const FIELD_A: FieldPath := ["a"]
  const FIELD_AB: FieldPath := ["a", "b"]

  /** The document `{a: inner}`. */
  function Outer(inner: Doc): Doc { map["a" := Document(inner)] }

  /** Only scalars under the key `b`, if anything. */
  predicate Flat(inner: Doc) { forall k :: k in inner ==> k == "b" && !inner[k].Document? }

  lemma LookupOuter(inner: Doc, path: FieldPath)
    requires Flat(inner)
    ensures Lookup(Outer(inner), path) ==
            if path == FIELD_A then Some(Document(inner))
            else if path == FIELD_AB && "b" in inner then Some(inner["b"])
            else None
  {
    assert FIELD_A[1..] == [] && FIELD_AB[1..] == ["b"] && FIELD_AB[1..][1..] == [];
    if path != [] && path[0] == "a" {
      assert path == [path[0]] + path[1..];
      assert Lookup(Outer(inner), path) == LookupIn(Document(inner), path[1..]);
      if |path| > 1 && path[1..][0] in inner {
        assert path[1..] == [path[1..][0]] + path[1..][1..];
        assert LookupIn(Document(inner), path[1..]) == LookupIn(inner["b"], path[1..][1..]);
      }
    }
  }

  /** Both documents of a sample. */
  function Both(left: Doc, right: Doc): seq<Doc> { [Outer(left), Outer(right)] }

  lemma SummaryOfBoth(left: Doc, right: Doc, path: FieldPath)
    ensures Discovery.Summary(Both(left, right), path) ==
            Discovery.Merge(Discovery.Merge(Discovery.NOTHING, Lookup(Outer(left), path)), Lookup(Outer(right), path))
  {
    var sample := Both(left, right);
    assert sample[..1] == [Outer(left)] && [Outer(left)][..0] == [];
    Discovery.SummaryLast(sample, path);
    Discovery.SummaryLast([Outer(left)], path);
  }

  lemma PathsOfBoth(left: Doc, right: Doc, path: FieldPath)
    requires Flat(left) && Flat(right) && "b" in left
    ensures path in Discovery.SamplePaths(Both(left, right)) <==> path == FIELD_A || path == FIELD_AB
  {
    LookupOuter(left, path);
    LookupOuter(right, path);
    DocumentPathsExact(Outer(left), path);
    DocumentPathsExact(Outer(right), path);
    assert Outer(left) == Both(left, right)[0] && Outer(right) == Both(left, right)[1];
  }

  /** The field is profiled with this evidence and is not flagged. */
  predicate FieldIs(
    schema: SchemaProfile, path: FieldPath, types: set<ObservedType>, shapes: set<ObservedShape>, missing: nat)
  {
    var field := Field(schema, path);
    && field.Some? && !field.value.collision
    && field.value.types == types && field.value.shapes == shapes && field.value.missing == missing
  }

  lemma NotFlagged(left: Doc, right: Doc, path: FieldPath)
    requires Flat(left) && Flat(right) && "b" in left && (path == FIELD_A || path == FIELD_AB)
    ensures !Discovery.SharesDisplayName(Discovery.SamplePaths(Both(left, right)), path)
  {
    assert DisplayName(FIELD_A) == "a" && DisplayName(FIELD_AB) == "a.b";
    forall other | other in Discovery.SamplePaths(Both(left, right)) ensures other == FIELD_A || other == FIELD_AB {
      PathsOfBoth(left, right, other);
    }
  }

  /** What inference finds at the two paths. */
  lemma FieldOfBoth(left: Doc, right: Doc, path: FieldPath, o: Discovery.Observation)
    requires Flat(left) && Flat(right) && "b" in left && (path == FIELD_A || path == FIELD_AB)
    requires var first := Discovery.Merge(Discovery.NOTHING, Lookup(Outer(left), path));
             o == Discovery.Merge(first, Lookup(Outer(right), path))
    ensures o.present <= 2 && FieldIs(Discovery.Inferred(Both(left, right)), path, o.types, o.shapes, 2 - o.present)
  {
    PathsOfBoth(left, right, path);
    Discovery.FieldOfInferred(Both(left, right), path);
    SummaryOfBoth(left, right, path);
    NotFlagged(left, right, path);
  }

  /** The parent is a document in both. */
  lemma ParentOfBoth(left: Doc, right: Doc)
    requires Flat(left) && Flat(right) && "b" in left
    ensures FieldIs(Discovery.Inferred(Both(left, right)), FIELD_A, {DocumentType}, {DocumentShape}, 0)
  {
    LookupOuter(left, FIELD_A);
    LookupOuter(right, FIELD_A);
    FieldOfBoth(left, right, FIELD_A, Discovery.Observation(2, {DocumentType}, {DocumentShape}));
  }

  lemma KindsAre(field: FieldProfile, kinds: set<AmbiguityKind>)
    requires forall k :: k in kinds <==> Exhibits(field, k)
    ensures KindsOf(field) == kinds
  {
  }

  lemma DetectOnePath(plan: StatementPlan, schema: SchemaProfile, ambiguity: WriteAmbiguity)
    requires !plan.Select? && WritePaths(plan) == {ambiguity.path}
    requires AmbiguityOf(ambiguity.path, schema) == Ok(Some(ambiguity))
    ensures Detect(plan, schema) == Ok([ambiguity])
  {
    OnePath(Ordering.SortedPaths(WritePaths(plan)), schema, ambiguity);
  }

  lemma OnePath(paths: seq<FieldPath>, schema: SchemaProfile, ambiguity: WriteAmbiguity)
    requires |paths| == 1 && forall p :: p in paths <==> p in {ambiguity.path}
    requires AmbiguityOf(ambiguity.path, schema) == Ok(Some(ambiguity))
    ensures AmbiguitiesOf(paths, schema) == Ok([ambiguity])
  {
    assert paths[0] in paths && paths[1..] == [];
    assert AmbiguitiesOf(paths[1..], schema) == Ok([]);
    assert [ambiguity] + [] == [ambiguity];
  }

  // ---------------------------------------------------------------------------
  // A nested field that is sometimes missing
  // ---------------------------------------------------------------------------

  /** `{a: {b: 1}}` beside `{a: {}}`. */
  const ONE: Doc := map["b" := Int32(1)]

  function SometimesMissing(): seq<Doc> { Both(ONE, map[]) }

  const MISSING := WriteAmbiguity(FIELD_AB, {MissingFromSampledDocuments}, {IntegerType}, {ScalarShape}, 1)

  lemma SampleSometimesMissing()
    ensures FieldIs(Discovery.Inferred(SometimesMissing()), FIELD_AB, {IntegerType}, {ScalarShape}, 1)
  {
    LookupOuter(ONE, FIELD_AB);
    LookupOuter(map[], FIELD_AB);
    FieldOfBoth(ONE, map[], FIELD_AB, Discovery.Observation(1, {IntegerType}, {ScalarShape}));
  }

  lemma NestedFieldMissing(schema: SchemaProfile)
    requires FieldIs(schema, FIELD_AB, {IntegerType}, {ScalarShape}, 1)
    ensures AmbiguityOf(FIELD_AB, schema) == Ok(Some(MISSING))
    ensures forall n: I64, nullAllowed :: ValidateValue(FIELD_AB, SqlInteger(n), schema, nullAllowed).Ok?
  {
    var field := Field(schema, FIELD_AB).value;
    assert NonNullTypes(field) == {IntegerType};
    KindsAre(field, {MissingFromSampledDocuments});
  }

  const ON_B := Compare(FIELD_AB, Equal, SqlInteger(1))

  // ---------------------------------------------------------------------------
  // A lost record
  // ---------------------------------------------------------------------------

  /** `UPDATE c SET a.b = 2 WHERE a.b = 1`. */
  function UpdateB(): StatementPlan { Update("c", [AssignmentPlan(FIELD_AB, SqlInteger(2))], ON_B) }

  lemma UpdateBAsked(config: Config)
    requires FieldIs(config.schema, FIELD_AB, {IntegerType}, {ScalarShape}, 1)
    ensures Lowered(UpdateB(), config.schema) && Detect(UpdateB(), config.schema) == Ok([MISSING])
    ensures OpenGate(config, UpdateB()) == Ask(MISSING)
  {
    NestedFieldMissing(config.schema);
    assert PlanSites(UpdateB()) == {Site(FIELD_AB, SqlInteger(2), true), Site(FIELD_AB, SqlInteger(1), false)};
    assert WritePaths(UpdateB()) == {FIELD_AB};
    DetectOnePath(UpdateB(), config.schema, MISSING);
    UpdateBApprovable();
    OpenGateCases(config, UpdateB());
    assert HasExecutableCandidate(AllowedCandidates(UpdateB(), MISSING));
  }

  lemma UpdateBApprovable()
    ensures Approvable(UpdateB(), MISSING, UseNestedPath)
  {
    assert Permitted(UpdateB(), MISSING, UseNestedPath);
    assert UpdateB().assignments[0].path == FIELD_AB;
    assert WritePlanReferencesPath(UpdateB(), FIELD_AB);
  }

  /** Under a minimum confidence of zero, a reply with confidence minus zero ends the ambiguous update
      without a record: one ambiguous attempt was begun, it is over, and the log is empty. */
  lemma MinusZeroLosesRecord(config: Config, documents: map<nat, Doc>) returns (answer: Answer)
    requires config.schema == Discovery.Inferred(SometimesMissing()) && config.minimum == Finite(0.0)
    ensures answer == ReplyTo(RequestFor(config, UpdateB(), MISSING), UseNestedPath, NegativeZero)
    ensures Lowered(UpdateB(), config.schema)
    ensures var events := [Begin(UpdateB()), Reply(0, answer)];
            && Run(config, Start(documents), events) == System(documents, [], [DroppedByGate])
            && CountAmbiguous(config, Begun(events)) == 1
  {
    SampleSometimesMissing();
    UpdateBAsked(config);
    UpdateBApprovable();
    answer := ReplyTo(RequestFor(config, UpdateB(), MISSING), UseNestedPath, NegativeZero);
    MinusZeroDropped(config, UpdateB(), MISSING, UseNestedPath);
    DroppedRun(config, documents, UpdateB(), MISSING, answer);
  }

  lemma DroppedRun(
    config: Config, documents: map<nat, Doc>, plan: StatementPlan, ambiguity: WriteAmbiguity, answer: Answer)
    requires !plan.Select? && Detect(plan, config.schema) == Ok([ambiguity])
    requires OpenGate(config, plan) == Ask(ambiguity) && CloseGate(config, plan, ambiguity, answer).Dropped?
    ensures var events := [Begin(plan), Reply(0, answer)];
            && Run(config, Start(documents), events) == System(documents, [], [DroppedByGate])
            && CountAmbiguous(config, Begun(events)) == 1
  {
    AskedAndAnswered(config, documents, plan, ambiguity, answer);
    OneBegun(config, plan, answer);
  }

  lemma MinusZeroDropped(
    config: Config, plan: StatementPlan, ambiguity: WriteAmbiguity, candidate: ResolutionCandidate)
    requires !plan.Select? && Approvable(plan, ambiguity, candidate) && config.minimum == Finite(0.0)
    ensures var answer := ReplyTo(RequestFor(config, plan, ambiguity), candidate, NegativeZero);
            CloseGate(config, plan, ambiguity, answer).Dropped?
  {
    var answer := ConfidentAnswer(config, plan, ambiguity, candidate, NegativeZero);
  }

  /** The two events of an attempt that is asked about. */
  lemma AskedAndAnswered(
    config: Config, documents: map<nat, Doc>, plan: StatementPlan, ambiguity: WriteAmbiguity, answer: Answer)
    requires !plan.Select? && OpenGate(config, plan) == Ask(ambiguity)
    ensures Run(config, Start(documents), [Begin(plan), Reply(0, answer)]) ==
            match CloseGate(config, plan, ambiguity, answer)
            case Denied(_, record) => System(documents, [Entry(0, record)], [BlockedByGate])
            case Dropped => System(documents, [], [DroppedByGate])
            case Approved(resolved, context) => System(documents, [], [Running(resolved, Some(context))])
  {
    RunTwo(config, Start(documents), Begin(plan), Reply(0, answer));
    OneAsked(config, documents, plan, ambiguity);
    OneReply(config, documents, plan, ambiguity, answer);
    OneAnswered(documents, plan, ambiguity, CloseGate(config, plan, ambiguity, answer));
  }

  function Waiting(documents: map<nat, Doc>, plan: StatementPlan, ambiguity: WriteAmbiguity): System
  {
    System(documents, [], [Awaiting(plan, ambiguity)])
  }

  lemma OneAsked(config: Config, documents: map<nat, Doc>, plan: StatementPlan, ambiguity: WriteAmbiguity)
    requires OpenGate(config, plan) == Ask(ambiguity)
    ensures AfterBegin(config, Start(documents), plan) == Waiting(documents, plan, ambiguity)
  {
  }

  lemma OneReply(
    config: Config, documents: map<nat, Doc>, plan: StatementPlan, ambiguity: WriteAmbiguity, answer: Answer)
    requires !plan.Select?
    ensures AfterReply(config, Waiting(documents, plan, ambiguity), 0, answer) ==
            AfterVerdict(Waiting(documents, plan, ambiguity), 0, CloseGate(config, plan, ambiguity, answer))
  {
  }

  lemma OneAnswered(documents: map<nat, Doc>, plan: StatementPlan, ambiguity: WriteAmbiguity, verdict: Verdict)
    ensures AfterVerdict(Waiting(documents, plan, ambiguity), 0, verdict) ==
            match verdict
            case Denied(_, record) => System(documents, [Entry(0, record)], [BlockedByGate])
            case Dropped => System(documents, [], [DroppedByGate])
            case Approved(resolved, context) => System(documents, [], [Running(resolved, Some(context))])
  {
    var waiting := [Awaiting(plan, ambiguity)];
    match verdict
    case Denied(_, record) =>
      assert waiting[0 := BlockedByGate] == [BlockedByGate];
    case Dropped =>
      assert waiting[0 := DroppedByGate] == [DroppedByGate];
    case Approved(resolved, context) =>
      assert waiting[0 := Running(resolved, Some(context))] == [Running(resolved, Some(context))];
  }

  lemma OneBegun(config: Config, plan: StatementPlan, answer: Answer)
    requires FoundAmbiguous(config, plan)
    ensures CountAmbiguous(config, Begun([Begin(plan), Reply(0, answer)])) == 1
  {
    BegunFirst(plan, Reply(0, answer));
    CountOne(config, [plan]);
  }

  lemma BegunFirst(plan: StatementPlan, second: Event)
    requires !second.Begin?
    ensures Begun([Begin(plan), second]) == [plan]
  {
    var both, one: seq<Event> := [Begin(plan), second], [Begin(plan)];
    assert both[..1] == one && one[..0] == [];
    assert Begun(one) == [plan];
  }

  lemma CountOne(config: Config, plans: seq<StatementPlan>)
    requires |plans| == 1 && FoundAmbiguous(config, plans[0])
    ensures CountAmbiguous(config, plans) == 1
  {
    assert plans[..0] == [];
  }

  // ---------------------------------------------------------------------------
  // A candidate that can never be applied
  // ---------------------------------------------------------------------------

  /** `DELETE FROM c WHERE a.b = 1`. */
  function DeleteB(): StatementPlan { Delete("c", ON_B) }

  lemma DeleteBAsked(config: Config)
    requires FieldIs(config.schema, FIELD_AB, {IntegerType}, {ScalarShape}, 1)
    ensures Lowered(DeleteB(), config.schema) && Detect(DeleteB(), config.schema) == Ok([MISSING])
  {
    NestedFieldMissing(config.schema);
    assert PlanSites(DeleteB()) == {Site(FIELD_AB, SqlInteger(1), false)};
    assert WritePaths(DeleteB()) == {FIELD_AB};
    DetectOnePath(DeleteB(), config.schema, MISSING);
  }

  /** The resolver is asked about the delete, and whatever it answers, the delete is blocked. */
  lemma NestedDeleteAlwaysBlocked(config: Config, documents: map<nat, Doc>, answer: Answer)
    requires config.schema == Discovery.Inferred(SometimesMissing())
    ensures Lowered(DeleteB(), config.schema) && OpenGate(config, DeleteB()) == Ask(MISSING)
    ensures Run(config, Start(documents), [Begin(DeleteB()), Reply(0, answer)]).attempts == [BlockedByGate]
  {
    SampleSometimesMissing();
    DeleteBAsked(config);
    NestedFilterNeverApproved(config, DeleteB(), MISSING);
    AskedAndAnswered(config, documents, DeleteB(), MISSING, answer);
  }

  // ---------------------------------------------------------------------------
  // A request the service refuses
  // ---------------------------------------------------------------------------

  /** `{a: {b: 1}}` beside `{a: {b: "x"}}`: the nested field is an integer or a string. */
  const TEXT: Doc := map["b" := String("x")]

  function IntegerOrText(): seq<Doc> { Both(ONE, TEXT) }

  const MIXED := WriteAmbiguity(FIELD_AB, {MixedBsonTypes}, {IntegerType, StringType}, {ScalarShape}, 0)

  /** `UPDATE c SET a.b = '7' WHERE a IS NOT NULL`. */
  function RetypeB(): StatementPlan
  {
    Update("c", [AssignmentPlan(FIELD_AB, SqlString("7"))], IsNull(FIELD_A, true))
  }

  lemma SampleIntegerOrText()
    ensures FieldIs(Discovery.Inferred(IntegerOrText()), FIELD_AB, {IntegerType, StringType}, {ScalarShape}, 0)
  {
    LookupOuter(ONE, FIELD_AB);
    LookupOuter(TEXT, FIELD_AB);
    FieldOfBoth(ONE, TEXT, FIELD_AB, Discovery.Observation(2, {IntegerType, StringType}, {ScalarShape}));
  }

  lemma SampleParent()
    ensures FieldIs(Discovery.Inferred(IntegerOrText()), FIELD_A, {DocumentType}, {DocumentShape}, 0)
  {
    ParentOfBoth(ONE, TEXT);
  }

  lemma InferredVersion(sample: seq<Doc>)
    ensures Discovery.Inferred(sample).version == 1
  {
  }

  lemma NestedFieldMixed(schema: SchemaProfile)
    requires FieldIs(schema, FIELD_AB, {IntegerType, StringType}, {ScalarShape}, 0)
    ensures AmbiguityOf(FIELD_AB, schema) == Ok(Some(MIXED))
    ensures ValidateValue(FIELD_AB, SqlString("7"), schema, true).Ok?
  {
    var field := Field(schema, FIELD_AB).value;
    assert NonNullTypes(field) == {IntegerType, StringType};
    KindsAre(field, {MixedBsonTypes});
  }

  lemma ParentClear(schema: SchemaProfile)
    requires FieldIs(schema, FIELD_A, {DocumentType}, {DocumentShape}, 0)
    ensures AmbiguityOf(FIELD_A, schema) == Ok(None)
  {
    var field := Field(schema, FIELD_A).value;
    assert NonNullTypes(field) == {DocumentType};
    KindsAre(field, {});
  }

  lemma DetectAmongTwo(paths: seq<FieldPath>, clear: FieldPath, schema: SchemaProfile, ambiguity: WriteAmbiguity)
    requires |paths| == 2 && clear in paths && ambiguity.path in paths && clear != ambiguity.path
    requires AmbiguityOf(clear, schema) == Ok(None) && AmbiguityOf(ambiguity.path, schema) == Ok(Some(ambiguity))
    ensures AmbiguitiesOf(paths, schema) == Ok([ambiguity])
  {
    var last := paths[1..];
    var none: seq<WriteAmbiguity> := [];
    assert paths == [paths[0], paths[1]] && last == [paths[1]] && last[1..] == [];
    assert [ambiguity] + none == [ambiguity] && none + [ambiguity] == [ambiguity];
    assert AmbiguitiesOf(last[1..], schema) == Ok(none);
    if paths[1] == clear {
      assert none + none == none;
      assert AmbiguitiesOf(last, schema) == Ok(none + none);
    } else {
      assert AmbiguitiesOf(last, schema) == Ok([ambiguity] + none);
    }
  }

  lemma RetypeBSites()
    ensures PlanSites(RetypeB()) == {Site(FIELD_AB, SqlString("7"), true)}
    ensures PlanNullTests(RetypeB()) == {FIELD_A} && WritePaths(RetypeB()) == {FIELD_A, FIELD_AB}
  {
  }

  lemma RetypeBDetected(schema: SchemaProfile)
    requires FieldIs(schema, FIELD_AB, {IntegerType, StringType}, {ScalarShape}, 0)
    requires FieldIs(schema, FIELD_A, {DocumentType}, {DocumentShape}, 0)
    ensures Lowered(RetypeB(), schema) && Detect(RetypeB(), schema) == Ok([MIXED])
  {
    NestedFieldMixed(schema);
    ParentClear(schema);
    RetypeBSites();
    var paths := Ordering.SortedPaths(WritePaths(RetypeB()));
    assert FIELD_A != FIELD_AB && |{FIELD_A, FIELD_AB}| == 2;
    DetectAmongTwo(paths, FIELD_A, schema, MIXED);
  }

  lemma RetypeBCandidates()
    ensures AllowedCandidates(RetypeB(), MIXED) == {Reject, KeepString, ParseInteger}
    ensures OffersTypeCandidate(RetypeB(), MIXED)
  {
    SevenIsCanonical();
    assert MixedTypeAssignmentValue(RetypeB(), MIXED) == Some(SqlString("7"));
    forall c: ResolutionCandidate
      ensures Permitted(RetypeB(), MIXED, c) <==> c == Reject || c == KeepString || c == ParseInteger
    {
    }
  }

  lemma SevenIsCanonical()
    ensures Decimal.ParseIntegerLosslessly("7") == Some(7)
  {
    assert Decimal.FormatInteger(7) == "7";
    Decimal.LosslessIsInverse("7", 7);
  }

  /** The request as it goes over the wire. */
  const WIRE := WireRequest(
    RESOLUTION_CONTRACT_VERSION, 1, UpdateOperation, FIELD_AB, Some(WriteValueEvidence("string", Some("7"))),
    [MixedBsonTypes], [IntegerType, StringType], [ScalarShape], 0, [Reject, KeepString, ParseInteger])

  lemma WireIsRequest(display: FloatDisplay)
    ensures Serializes(ResolverRequestFor(RetypeB(), UpdateOperation, 1, MIXED, display), WIRE)
  {
    RetypeBCandidates();
    assert ProposedValue(RetypeB(), FIELD_AB) == Some(SqlString("7"));
  }

  lemma WireRefused(display: FloatDisplay)
    ensures FieldsInRange(WIRE) && EvidenceIsUnique(WIRE) && !ServiceAccepts(WIRE)
  {
    WireIsRequest(display);
    RetypeBCandidates();
    RequestAcceptedExactly(RetypeB(), UpdateOperation, 1, MIXED, display, WIRE);
  }

  lemma RetypeBAsked(config: Config)
    requires Detect(RetypeB(), config.schema) == Ok([MIXED])
    ensures OpenGate(config, RetypeB()) == Ask(MIXED)
  {
    RetypeBCandidates();
    OpenGateCases(config, RetypeB());
    assert KeepString in AllowedCandidates(RetypeB(), MIXED);
  }

  lemma WireOfConfig(config: Config)
    requires config.schema.version == 1
    ensures Serializes(RequestFor(config, RetypeB(), MIXED), WIRE)
  {
    WireIsRequest(config.display);
  }

  /** The proxy asks about the plan; the request has every field in range, and the service refuses it. */
  ghost predicate AsksInVain(config: Config, plan: StatementPlan, ambiguity: WriteAmbiguity, wire: WireRequest)
  {
    && Lowered(plan, config.schema) && !plan.Select? && OpenGate(config, plan) == Ask(ambiguity)
    && Serializes(RequestFor(config, plan, ambiguity), wire)
    && FieldsInRange(wire) && EvidenceIsUnique(wire) && !ServiceAccepts(wire)
  }

  lemma RetypeBRefused(config: Config)
    requires FieldIs(config.schema, FIELD_AB, {IntegerType, StringType}, {ScalarShape}, 0)
    requires FieldIs(config.schema, FIELD_A, {DocumentType}, {DocumentShape}, 0) && config.schema.version == 1
    ensures AsksInVain(config, RetypeB(), MIXED, WIRE)
  {
    RetypeBDetected(config.schema);
    RetypeBAsked(config);
    WireOfConfig(config);
    WireRefused(config.display);
  }

  /** A concrete disagreement of the two sides: type candidates are for one-segment paths only. */
  lemma NestedRetypeRefused(config: Config)
    requires config.schema == Discovery.Inferred(IntegerOrText())
    ensures AsksInVain(config, RetypeB(), MIXED, WIRE)
  {
    SampleIntegerOrText();
    SampleParent();
    InferredVersion(IntegerOrText());
    RetypeBRefused(config);
  }
}
