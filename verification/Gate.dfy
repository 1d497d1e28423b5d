/** The ambiguity gate in front of every write, and its audit log
    (crates/proxy/src/ambiguity.rs, crates/proxy/src/lib.rs, crates/ambiguity-policy/src/audit.rs). */
module Gate {
  import opened Common
  import opened Paths
  import opened Plans
  import opened Profiles
  import opened AmbiguityPolicy

  datatype RedactedAmbiguity = RedactedAmbiguity(fieldPath: string, kinds: set<AmbiguityKind>)

  datatype AuditFailure =
    | NoSafeResolution | ResolverRejected | ResolverUnavailable | InvalidResolverResponse
    | StaleSchemaProfile | LowConfidence | MongoExecutionFailed

  datatype WriteCounts = WriteCounts(matched: nat, modified: nat, inserted: nat, deleted: nat)

  datatype AuditOutcome = Executed(counts: WriteCounts) | Blocked(failure: AuditFailure)

  datatype AuditRecord = AuditRecord(
    schemaVersion: nat,
    operation: WriteOperation,
    ambiguities: seq<RedactedAmbiguity>,
    allowed: set<ResolutionCandidate>,
    selected: Option<ResolutionCandidate>,
    confidence: Option<nat>,
    outcome: AuditOutcome)

  datatype AuditContext = AuditContext(
    operation: WriteOperation,
    ambiguities: seq<RedactedAmbiguity>,
    allowed: set<ResolutionCandidate>,
    selected: ResolutionCandidate,
    confidence: nat)

  const MAX_BASIS_POINTS: nat := 10_000

  /** `ResolverConfidence::from_ratio`: rounded to basis points. Minus zero passes the range test but
      prints as "-0", which is not an unsigned number. */
  function FromRatio(ratio: Float64): Option<nat>
  {
    if !IsFinite(ratio) || FloatLess(ratio, Finite(0.0)) || FloatLess(Finite(1.0), ratio) then None
    else if ratio.NegativeZero? then None
    else Some((ratio.value * 10000.0 + 0.5).Floor)
  }

  /** A ratio has a basis-point form exactly when it lies in the unit interval and is not minus zero;
      the form is the nearest number of basis points, halves rounded up. */
  lemma FromRatioExact(ratio: Float64)
    ensures FromRatio(ratio).Some? <==> ratio.Finite? && 0.0 <= ratio.value <= 1.0
    ensures FromRatio(ratio).Some? ==>
            && FromRatio(ratio).value <= MAX_BASIS_POINTS
            && -0.5 <= ratio.value * 10000.0 - FromRatio(ratio).value as real < 0.5
  {
  }

  function Redact(ambiguity: WriteAmbiguity): RedactedAmbiguity
  {
    RedactedAmbiguity(DisplayName(ambiguity.path), ambiguity.kinds)
  }

  function RedactAll(ambiguities: seq<WriteAmbiguity>): seq<RedactedAmbiguity>
  {
    seq(|ambiguities|, i requires 0 <= i < |ambiguities| => Redact(ambiguities[i]))
  }

  function OperationOf(plan: StatementPlan): WriteOperation
    requires !plan.Select?
  {
    match plan
    case Insert(_, _, _) => InsertOperation
    case Update(_, _, _) => UpdateOperation
    case Delete(_, _) => DeleteOperation
  }

  predicate HasExecutableCandidate(candidates: set<ResolutionCandidate>)
  {
    exists c :: c in candidates && c != Reject
  }

  /** `validation_failure`: why a reply was refused. */
  function ValidationFailure(request: ResolverRequest, response: ResolverResponse, minimum: Float64): AuditFailure
  {
    if response.schemaVersion != request.schemaVersion then StaleSchemaProfile
    else if !IsFinite(response.confidence) || FloatLess(response.confidence, minimum)
            || FloatLess(Finite(1.0), response.confidence) then LowConfidence
    else InvalidResolverResponse
  }

  /** What the resolver call yields: no usable response, or any response whatsoever. */
  datatype Answer = Unavailable | Replied(response: ResolverResponse)

  /** The proxy's configuration. */
  datatype Config = Config(schema: SchemaProfile, minimum: Float64, display: FloatDisplay)

  function BlockedRecord(
    config: Config, plan: StatementPlan, ambiguities: seq<WriteAmbiguity>, allowed: set<ResolutionCandidate>,
    failure: AuditFailure): AuditRecord
    requires !plan.Select?
  {
    AuditRecord(config.schema.version, OperationOf(plan), RedactAll(ambiguities), allowed, None, None, Blocked(failure))
  }

  function RequestFor(config: Config, plan: StatementPlan, ambiguity: WriteAmbiguity): ResolverRequest
    requires !plan.Select?
  {
    ResolverRequestFor(plan, OperationOf(plan), config.schema.version, ambiguity, config.display)
  }

  /** The gate up to the resolver call. */
  datatype Opening =
    | Refused(kind: ErrorKind)
    | Clear
    | Stopped(record: AuditRecord)
    | Ask(ambiguity: WriteAmbiguity)

  function OpenGate(config: Config, plan: StatementPlan): Opening
  {
    match Detect(plan, config.schema)
    case Err(kind) => Refused(kind)
    case Ok(ambiguities) =>
      if ambiguities == [] then Clear
      else if |ambiguities| != 1 then Stopped(BlockedRecord(config, plan, ambiguities, {Reject}, NoSafeResolution))
      else OpenSingle(config, plan, ambiguities[0])
  }

  function OpenSingle(config: Config, plan: StatementPlan, ambiguity: WriteAmbiguity): Opening
    requires !plan.Select?
  {
    var allowed := AllowedCandidates(plan, ambiguity);
    if HasExecutableCandidate(allowed) then Ask(ambiguity)
    else Stopped(BlockedRecord(config, plan, [ambiguity], allowed, NoSafeResolution))
  }

  /** The gate after the resolver call. `Dropped` is the one exit that leaves no record. */
  datatype Verdict =
    | Denied(kind: ErrorKind, record: AuditRecord)
    | Dropped
    | Approved(plan: StatementPlan, context: AuditContext)

  function CloseGate(config: Config, plan: StatementPlan, ambiguity: WriteAmbiguity, answer: Answer): Verdict
    requires !plan.Select?
  {
    var request := RequestFor(config, plan, ambiguity);
    match answer
    case Unavailable =>
      Denied(Dependency, BlockedRecord(config, plan, [ambiguity], request.allowed, ResolverUnavailable))
    case Replied(response) =>
      match ValidateResolverResponse(request, plan, ambiguity, response, config.minimum)
      case Err(kind) =>
        Denied(kind, BlockedRecord(config, plan, [ambiguity], request.allowed,
                                   ValidationFailure(request, response, config.minimum)))
      case Ok(resolution) =>
        match ApplyResolution(plan, resolution)
        case Err(kind) => Denied(kind, BlockedRecord(config, plan, [ambiguity], request.allowed, ResolverRejected))
        case Ok(resolved) =>
          match FromRatio(response.confidence)
          case None => Dropped
          case Some(confidence) =>
            Approved(resolved, AuditContext(OperationOf(plan), RedactAll([ambiguity]), request.allowed,
                                            resolution.candidate, confidence))
  }

  function ContextRecord(config: Config, context: AuditContext, outcome: AuditOutcome): AuditRecord
  {
    AuditRecord(config.schema.version, context.operation, context.ambiguities, context.allowed,
                Some(context.selected), Some(context.confidence), outcome)
  }

  /** What an executed attempt adds to the log. */
  function OutcomeRecords(config: Config, context: Option<AuditContext>, outcome: AuditOutcome): seq<AuditRecord>
  {
    if context.None? then [] else [ContextRecord(config, context.value, outcome)]
  }

  // ---------------------------------------------------------------------------
  // The gate as the proxy runs it
  // ---------------------------------------------------------------------------

  /** The shared log of audit records. */
  class AuditLog {
    var records: seq<AuditRecord>

    constructor ()
      ensures records == []
    {
      records := [];
    }

    /** `record`: appends, and changes nothing else. */
    method Record(record: AuditRecord)
      modifies this
      ensures records == old(records) + [record]
    {
      records := records + [record];
    }
  }

  datatype ResolvedWrite = ResolvedWrite(plan: StatementPlan, context: Option<AuditContext>)

  /** What an opening comes to, for a resolver that answers `resolver(request)`. */
  function Proceed(config: Config, plan: StatementPlan, opening: Opening, resolver: ResolverRequest -> Answer)
    : (Result<ResolvedWrite>, seq<AuditRecord>)
    requires !plan.Select?
  {
    match opening
    case Refused(kind) => (Err(kind), [])
    case Clear => (Ok(ResolvedWrite(plan, None)), [])
    case Stopped(record) => (Err(AmbiguousWrite), [record])
    case Ask(ambiguity) =>
      var verdict := CloseGate(config, plan, ambiguity, resolver(RequestFor(config, plan, ambiguity)));
      (VerdictResult(verdict), VerdictRecords(verdict))
  }

  /** What one passage through the gate returns and appends to the log. */
  function Passage(config: Config, plan: StatementPlan, resolver: ResolverRequest -> Answer)
    : (Result<ResolvedWrite>, seq<AuditRecord>)
    requires !plan.Select?
  {
    Proceed(config, plan, OpenGate(config, plan), resolver)
  }

  lemma OpenGateCases(config: Config, plan: StatementPlan)
    requires !plan.Select?
    ensures match Detect(plan, config.schema)
            case Err(kind) => OpenGate(config, plan) == Refused(kind)
            case Ok(ambiguities) =>
              && (ambiguities == [] ==> OpenGate(config, plan) == Clear)
              && (|ambiguities| == 1 ==> OpenGate(config, plan) == OpenSingle(config, plan, ambiguities[0]))
              && (|ambiguities| > 1 ==>
                    OpenGate(config, plan)
                    == Stopped(BlockedRecord(config, plan, ambiguities, {Reject}, NoSafeResolution)))
  {
  }

  lemma PassageCases(config: Config, plan: StatementPlan, resolver: ResolverRequest -> Answer)
    requires !plan.Select?
    ensures var passage := Passage(config, plan, resolver);
            match Detect(plan, config.schema)
            case Err(kind) => passage == (Err(kind), [])
            case Ok(ambiguities) =>
              && (ambiguities == [] ==> passage == (Ok(ResolvedWrite(plan, None)), []))
              && (|ambiguities| == 1 ==>
                    passage == Proceed(config, plan, OpenSingle(config, plan, ambiguities[0]), resolver))
              && (|ambiguities| > 1 ==>
                    var record := BlockedRecord(config, plan, ambiguities, {Reject}, NoSafeResolution);
                    passage == (Err(AmbiguousWrite), [record]))
  {
    OpenGateCases(config, plan);
  }

  /** `resolve_write_plan`. */
  method ResolveWritePlan(config: Config, plan: StatementPlan, resolver: ResolverRequest -> Answer, log: AuditLog)
    returns (result: Result<ResolvedWrite>)
    requires !plan.Select?
    modifies log
    ensures result == Passage(config, plan, resolver).0
    ensures log.records == old(log.records) + Passage(config, plan, resolver).1
  {
    PassageCases(config, plan, resolver);
    var detected := DetectWriteAmbiguities(plan, config.schema);
    if detected.Err? {
      assert log.records == log.records + [];
      return Err(detected.kind);
    }
    var ambiguities := detected.value;
    if ambiguities == [] {
      assert log.records == log.records + [];
      return Ok(ResolvedWrite(plan, None));
    }
    if |ambiguities| != 1 {
      var record := BlockedRecord(config, plan, ambiguities, {Reject}, NoSafeResolution);
      log.Record(record);
      return Err(AmbiguousWrite);
    }
    result := ResolveSingleAmbiguity(config, plan, ambiguities[0], resolver, log);
  }

  /** `resolve_single_ambiguity`. */
  method ResolveSingleAmbiguity(
    config: Config, plan: StatementPlan, ambiguity: WriteAmbiguity, resolver: ResolverRequest -> Answer, log: AuditLog)
    returns (result: Result<ResolvedWrite>)
    requires !plan.Select?
    modifies log
    ensures result == Proceed(config, plan, OpenSingle(config, plan, ambiguity), resolver).0
    ensures log.records == old(log.records) + Proceed(config, plan, OpenSingle(config, plan, ambiguity), resolver).1
  {
    var request := RequestFor(config, plan, ambiguity);
    if !HasExecutableCandidate(request.allowed) {
      log.Record(BlockedRecord(config, plan, [ambiguity], request.allowed, NoSafeResolution));
      return Err(AmbiguousWrite);
    }
    var answer := resolver(request);
    result := ConcludeResolution(config, plan, ambiguity, answer, log);
  }

  function VerdictResult(verdict: Verdict): Result<ResolvedWrite>
  {
    match verdict
    case Denied(kind, _) => Err(kind)
    case Dropped => Err(AmbiguousWrite)
    case Approved(resolved, context) => Ok(ResolvedWrite(resolved, Some(context)))
  }

  function VerdictRecords(verdict: Verdict): seq<AuditRecord>
  {
    match verdict case Denied(_, record) => [record] case _ => []
  }

  /** The part of `resolve_single_ambiguity` that follows the resolver call. */
  method ConcludeResolution(
    config: Config, plan: StatementPlan, ambiguity: WriteAmbiguity, answer: Answer, log: AuditLog)
    returns (result: Result<ResolvedWrite>)
    requires !plan.Select?
    modifies log
    ensures result == VerdictResult(CloseGate(config, plan, ambiguity, answer))
    ensures log.records == old(log.records) + VerdictRecords(CloseGate(config, plan, ambiguity, answer))
  {
    assert log.records == log.records + [];
    var request := RequestFor(config, plan, ambiguity);
    if answer.Unavailable? {
      log.Record(BlockedRecord(config, plan, [ambiguity], request.allowed, ResolverUnavailable));
      return Err(Dependency);
    }
    var response := answer.response;
    var confidence := FromRatio(response.confidence);
    var resolution := ValidateResolverResponse(request, plan, ambiguity, response, config.minimum);
    if resolution.Err? {
      log.Record(BlockedRecord(config, plan, [ambiguity], request.allowed,
                               ValidationFailure(request, response, config.minimum)));
      return Err(resolution.kind);
    }
    var resolved := ApplyResolution(plan, resolution.value);
    if resolved.Err? {
      log.Record(BlockedRecord(config, plan, [ambiguity], request.allowed, ResolverRejected));
      return Err(resolved.kind);
    }
    if confidence.None? {
      return Err(AmbiguousWrite);
    }
    return Ok(ResolvedWrite(resolved.value,
                            Some(AuditContext(OperationOf(plan), RedactAll([ambiguity]), request.allowed,
                                              resolution.value.candidate, confidence.value))));
  }

  /** `record_execution`. */
  method RecordExecution(config: Config, context: Option<AuditContext>, counts: WriteCounts, log: AuditLog)
    modifies log
    ensures log.records == old(log.records) + OutcomeRecords(config, context, Executed(counts))
  {
    if context.None? {
      return;
    }
    log.Record(ContextRecord(config, context.value, Executed(counts)));
  }

  /** `record_mongo_execution_failure`. */
  method RecordMongoExecutionFailure(config: Config, context: Option<AuditContext>, log: AuditLog)
    modifies log
    ensures log.records == old(log.records) + OutcomeRecords(config, context, Blocked(MongoExecutionFailed))
  {
    if context.None? {
      return;
    }
    log.Record(ContextRecord(config, context.value, Blocked(MongoExecutionFailed)));
  }

  /** The write branch of `execute_plan`: gate, executor, record. The executor is any function from
      the resolved plan to counts or a failure; `reached` is the plan it was called with. */
  method ExecuteWritePlan(
    config: Config, plan: StatementPlan, resolver: ResolverRequest -> Answer,
    executor: StatementPlan -> Result<WriteCounts>, log: AuditLog)
    returns (result: Result<WriteCounts>, reached: Option<StatementPlan>)
    requires !plan.Select?
    modifies log
    ensures var (gate, records) := Passage(config, plan, resolver);
            match gate
            case Err(kind) => result == Err(kind) && reached == None && log.records == old(log.records) + records
            case Ok(resolved) =>
              && reached == Some(resolved.plan) && result == executor(resolved.plan)
              && var outcome := if result.Ok? then Executed(result.value) else Blocked(MongoExecutionFailed);
                 log.records == old(log.records) + OutcomeRecords(config, resolved.context, outcome)
  {
    var resolved := ResolveWritePlan(config, plan, resolver, log);
    if resolved.Err? {
      return Err(resolved.kind), None;
    }
    reached := Some(resolved.value.plan);
    result := executor(resolved.value.plan);
    if result.Err? {
      RecordMongoExecutionFailure(config, resolved.value.context, log);
    } else {
      RecordExecution(config, resolved.value.context, result.value, log);
    }
  }

  // ---------------------------------------------------------------------------
  // What the gate lets through
  // ---------------------------------------------------------------------------

  /** Detection finds something ambiguous in the plan. */
  predicate FoundAmbiguous(config: Config, plan: StatementPlan)
  {
    Detect(plan, config.schema).Ok? && Detect(plan, config.schema).value != []
  }

  /** The plan has exactly one ambiguity, and the allowed candidate turns it into `resolved`. */
  ghost predicate ResolvedBy(
    config: Config, plan: StatementPlan, candidate: ResolutionCandidate, resolved: StatementPlan)
  {
    && FoundAmbiguous(config, plan) && |Detect(plan, config.schema).value| == 1
    && var ambiguity := Detect(plan, config.schema).value[0];
       && candidate in AllowedCandidates(plan, ambiguity) && candidate != Reject
       && ApplyResolution(plan, ValidatedResolution(ambiguity.path, candidate)) == Ok(resolved)
  }

  /** The plan was clear and runs as it is, or its one ambiguity was resolved by an allowed candidate. */
  ghost predicate LetThrough(config: Config, plan: StatementPlan, resolved: StatementPlan)
  {
    || (Detect(plan, config.schema) == Ok([]) && resolved == plan)
    || exists candidate :: ResolvedBy(config, plan, candidate, resolved)
  }

  /** An approval always names an allowed candidate other than rejection, chosen for the one ambiguity. */
  lemma ApprovalIsAllowed(config: Config, plan: StatementPlan, ambiguity: WriteAmbiguity, answer: Answer)
    requires !plan.Select? && CloseGate(config, plan, ambiguity, answer).Approved?
    ensures var verdict := CloseGate(config, plan, ambiguity, answer);
            var candidate := verdict.context.selected;
            && candidate in AllowedCandidates(plan, ambiguity)
            && verdict.context.allowed == AllowedCandidates(plan, ambiguity)
            && candidate != Reject
            && verdict.context.confidence <= MAX_BASIS_POINTS
            && ValidateResolution(plan, ambiguity, candidate) == Ok(ValidatedResolution(ambiguity.path, candidate))
            && ApplyResolution(plan, ValidatedResolution(ambiguity.path, candidate)) == Ok(verdict.plan)
            && verdict.context.operation == OperationOf(plan)
            && verdict.context.ambiguities == RedactAll([ambiguity])
  {
    FromRatioExact(answer.response.confidence);
  }

  /** A reply that gets lost had chosen an allowed candidate that could be applied. */
  lemma DropIsApplicable(config: Config, plan: StatementPlan, ambiguity: WriteAmbiguity, answer: Answer)
    returns (candidate: ResolutionCandidate)
    requires !plan.Select? && CloseGate(config, plan, ambiguity, answer).Dropped?
    ensures candidate in AllowedCandidates(plan, ambiguity) && candidate != Reject
    ensures ApplyResolution(plan, ValidatedResolution(ambiguity.path, candidate)).Ok?
  {
    candidate := answer.response.candidate;
  }

  /** A refusal is recorded with the evidence of the plan and a failure that names a gate step. */
  lemma DenialIsRecorded(config: Config, plan: StatementPlan, ambiguity: WriteAmbiguity, answer: Answer)
    returns (failure: AuditFailure)
    requires !plan.Select? && CloseGate(config, plan, ambiguity, answer).Denied?
    ensures CloseGate(config, plan, ambiguity, answer).record
            == BlockedRecord(config, plan, [ambiguity], AllowedCandidates(plan, ambiguity), failure)
    ensures failure != NoSafeResolution && failure != MongoExecutionFailed
  {
    failure := CloseGate(config, plan, ambiguity, answer).record.outcome.failure;
  }

  /** Some allowed candidate can be applied. */
  ghost predicate Approvable(plan: StatementPlan, ambiguity: WriteAmbiguity, candidate: ResolutionCandidate)
  {
    && candidate in AllowedCandidates(plan, ambiguity)
    && ApplyResolution(plan, ValidatedResolution(ambiguity.path, candidate)).Ok?
  }

  /** The record of an attempt can get lost if and only if the configured minimum confidence is not
      positive: then a reply with confidence minus zero passes validation but has no basis points. */
  lemma RecordLossExact(config: Config, plan: StatementPlan, ambiguity: WriteAmbiguity, candidate: ResolutionCandidate)
    requires !plan.Select? && Approvable(plan, ambiguity, candidate)
    ensures (exists answer :: CloseGate(config, plan, ambiguity, answer).Dropped?)
            <==> !FloatLess(Finite(0.0), config.minimum)
  {
    if FloatLess(Finite(0.0), config.minimum) {
      forall answer ensures !CloseGate(config, plan, ambiguity, answer).Dropped? {
        PositiveMinimumKeepsRecords(config, plan, ambiguity, answer);
      }
    } else {
      var answer := ConfidentAnswer(config, plan, ambiguity, candidate, NegativeZero);
      assert CloseGate(config, plan, ambiguity, answer).Dropped?;
    }
  }

  lemma PositiveMinimumKeepsRecords(config: Config, plan: StatementPlan, ambiguity: WriteAmbiguity, answer: Answer)
    requires !plan.Select? && FloatLess(Finite(0.0), config.minimum)
    ensures !CloseGate(config, plan, ambiguity, answer).Dropped?
  {
    if answer.Replied? {
      FromRatioExact(answer.response.confidence);
    }
  }

  /** For the configured range of minima, only a confidence of exactly minus zero loses the record. */
  lemma OnlyMinusZeroIsDropped(config: Config, plan: StatementPlan, ambiguity: WriteAmbiguity, answer: Answer)
    requires !plan.Select? && IsFinite(config.minimum) && 0.0 <= RealOf(config.minimum)
    requires CloseGate(config, plan, ambiguity, answer).Dropped?
    ensures answer.Replied? && answer.response.confidence == NegativeZero && RealOf(config.minimum) == 0.0
  {
    FromRatioExact(answer.response.confidence);
  }

  /** An ambiguity at a nested path that the plan only reads is put to the resolver, and every answer
      is refused: the one executable candidate on offer fails when it is applied. */
  lemma NestedFilterNeverApproved(config: Config, plan: StatementPlan, ambiguity: WriteAmbiguity)
    requires Detect(plan, config.schema) == Ok([ambiguity])
    requires NestedPathIsSafe(ambiguity) && !WritePlanReferencesPath(plan, ambiguity.path)
    ensures !plan.Select? && OpenGate(config, plan) == Ask(ambiguity)
    ensures forall answer :: CloseGate(config, plan, ambiguity, answer).Denied?
    ensures forall candidate, resolved :: !ResolvedBy(config, plan, candidate, resolved)
  {
    assert Permitted(plan, ambiguity, UseNestedPath);
    assert UseNestedPath in AllowedCandidates(plan, ambiguity);
    assert HasExecutableCandidate(AllowedCandidates(plan, ambiguity));
    OpenGateCases(config, plan);
    NoCandidateApplies(plan, ambiguity);
    forall answer ensures CloseGate(config, plan, ambiguity, answer).Denied? {
      InapplicableDenied(config, plan, ambiguity, answer);
    }
  }

  /** Every allowed candidate fails when it is applied. */
  ghost predicate NothingApplies(plan: StatementPlan, ambiguity: WriteAmbiguity)
  {
    forall candidate :: candidate in AllowedCandidates(plan, ambiguity) ==>
      ApplyResolution(plan, ValidatedResolution(ambiguity.path, candidate)).Err?
  }

  lemma NoCandidateApplies(plan: StatementPlan, ambiguity: WriteAmbiguity)
    requires NestedPathIsSafe(ambiguity) && !WritePlanReferencesPath(plan, ambiguity.path)
    ensures NothingApplies(plan, ambiguity)
  {
    forall candidate | candidate in AllowedCandidates(plan, ambiguity)
      ensures ApplyResolution(plan, ValidatedResolution(ambiguity.path, candidate)).Err?
    {
      assert Permitted(plan, ambiguity, candidate);
      assert MixedBsonTypes !in ambiguity.kinds;
    }
  }

  lemma InapplicableDenied(config: Config, plan: StatementPlan, ambiguity: WriteAmbiguity, answer: Answer)
    requires !plan.Select? && NothingApplies(plan, ambiguity)
    ensures CloseGate(config, plan, ambiguity, answer).Denied?
  {
  }

  /** Some answer gets an ambiguous plan through exactly when an allowed candidate can be applied and
      the minimum confidence is not above 1. */
  lemma ApprovalPossibleExactly(config: Config, plan: StatementPlan, ambiguity: WriteAmbiguity)
    requires !plan.Select?
    ensures (exists answer :: CloseGate(config, plan, ambiguity, answer).Approved?)
            <==> (exists candidate :: Approvable(plan, ambiguity, candidate)) && !FloatLess(Finite(1.0), config.minimum)
  {
    if answer :| CloseGate(config, plan, ambiguity, answer).Approved? {
      ApprovalIsAllowed(config, plan, ambiguity, answer);
      var candidate := CloseGate(config, plan, ambiguity, answer).context.selected;
      assert Approvable(plan, ambiguity, candidate);
      FromRatioExact(answer.response.confidence);
    }
    if !FloatLess(Finite(1.0), config.minimum) {
      if candidate :| Approvable(plan, ambiguity, candidate) {
        var answer := ConfidentAnswer(config, plan, ambiguity, candidate, Finite(1.0));
        FromRatioExact(Finite(1.0));
        assert CloseGate(config, plan, ambiguity, answer).Approved?;
      }
    }
  }

  /** A well-formed reply for the candidate. */
  function ReplyTo(request: ResolverRequest, candidate: ResolutionCandidate, confidence: Float64): Answer
  {
    Replied(ResolverResponse(RESOLUTION_CONTRACT_VERSION, request.schemaVersion, request.operation,
                             request.targetPath, candidate, confidence, "r"))
  }

  lemma ConfidentAnswer(
    config: Config, plan: StatementPlan, ambiguity: WriteAmbiguity, candidate: ResolutionCandidate, confidence: Float64)
    returns (answer: Answer)
    requires !plan.Select? && Approvable(plan, ambiguity, candidate)
    requires IsFinite(confidence) && !FloatLess(confidence, config.minimum) && !FloatLess(Finite(1.0), confidence)
    ensures answer == ReplyTo(RequestFor(config, plan, ambiguity), candidate, confidence)
    ensures var request := RequestFor(config, plan, ambiguity);
            ValidateResolverResponse(request, plan, ambiguity, answer.response, config.minimum)
            == Ok(ValidatedResolution(ambiguity.path, candidate))
  {
    answer := ReplyTo(RequestFor(config, plan, ambiguity), candidate, confidence);
    assert Utf8Length("r") == 1 by {
      assert "r"[..0] == "";
    }
  }

  // ---------------------------------------------------------------------------
  // Exactly which answers do what
  // ---------------------------------------------------------------------------

  /** The operation is the plan's own. */
  predicate OperationIs(plan: StatementPlan, operation: WriteOperation)
  {
    match plan
    case Insert(_, _, _) => operation == InsertOperation
    case Update(_, _, _) => operation == UpdateOperation
    case Delete(_, _) => operation == DeleteOperation
    case Select(_, _, _, _) => false
  }

  /** The evidence kept in the log: operation, and of each ambiguity its display name and kinds. */
  ghost predicate EvidenceOf(
    plan: StatementPlan, ambiguities: seq<WriteAmbiguity>, operation: WriteOperation, redacted: seq<RedactedAmbiguity>)
  {
    && OperationIs(plan, operation) && |redacted| == |ambiguities|
    && forall i :: 0 <= i < |redacted| ==>
         redacted[i].fieldPath == DisplayName(ambiguities[i].path) && redacted[i].kinds == ambiguities[i].kinds
  }

  lemma EvidenceKept(plan: StatementPlan, ambiguities: seq<WriteAmbiguity>)
    requires !plan.Select?
    ensures EvidenceOf(plan, ambiguities, OperationOf(plan), RedactAll(ambiguities))
  {
  }

  /** Something can be approved exactly when more than rejection is on offer. */
  lemma ExecutableExact(plan: StatementPlan, ambiguity: WriteAmbiguity)
    ensures HasExecutableCandidate(AllowedCandidates(plan, ambiguity))
            <==> AllowedCandidates(plan, ambiguity) != {Reject}
  {
    var allowed := AllowedCandidates(plan, ambiguity);
    assert Permitted(plan, ambiguity, Reject);
    assert Reject in allowed;
    if allowed != {Reject} {
      var c :| c in allowed && c !in {Reject};
      assert c in allowed && c != Reject;
    }
  }

  /** The request carries the plan's operation, the profile's version and the evidence of the ambiguity,
      and offers what is allowed. */
  lemma RequestCarriesEvidence(config: Config, plan: StatementPlan, ambiguity: WriteAmbiguity)
    requires !plan.Select?
    ensures var request := RequestFor(config, plan, ambiguity);
            && request.contractVersion == "v2" && request.schemaVersion == config.schema.version
            && OperationIs(plan, request.operation) && request.targetPath == ambiguity.path
            && request.kinds == ambiguity.kinds && request.types == ambiguity.types
            && request.shapes == ambiguity.shapes && request.missing == ambiguity.missing
            && request.allowed == AllowedCandidates(plan, ambiguity)
            && (request.writeValue.Some? <==> ProposedValue(plan, ambiguity.path).Some?)
            && (request.writeValue.Some? ==>
                  request.writeValue.value == ValueEvidence(ProposedValue(plan, ambiguity.path).value, config.display))
  {
  }

  /** The reply answers this very request: contract, profile version, operation and path agree, the
      confidence is a number from the minimum to 1, and there is a rationale of at most 500 bytes. */
  ghost predicate Answers(config: Config, plan: StatementPlan, ambiguity: WriteAmbiguity, r: ResolverResponse)
  {
    && r.contractVersion == "v2" && r.schemaVersion == config.schema.version
    && OperationIs(plan, r.operation) && r.targetPath == ambiguity.path
    && IsFinite(r.confidence) && !FloatLess(r.confidence, config.minimum) && RealOf(r.confidence) <= 1.0
    && 1 <= Utf8Length(r.rationale) <= 500
  }

  lemma AcceptableExact(config: Config, plan: StatementPlan, ambiguity: WriteAmbiguity, r: ResolverResponse)
    requires !plan.Select?
    ensures ResponseAcceptable(RequestFor(config, plan, ambiguity), r, config.minimum)
            <==> Answers(config, plan, ambiguity, r)
  {
    FloatOrder(Finite(1.0), r.confidence);
    if r.rationale != "" {
      Utf8SizeExact(r.rationale[|r.rationale| - 1]);
    }
  }

  /** Approval, exactly: the reply answers the request, its candidate is allowed and applicable, and its
      confidence is neither negative nor minus zero. The context then tells the choice and the confidence. */
  lemma ApprovalExact(config: Config, plan: StatementPlan, ambiguity: WriteAmbiguity, r: ResolverResponse)
    requires !plan.Select?
    ensures var verdict := CloseGate(config, plan, ambiguity, Replied(r));
            && (verdict.Approved? <==>
                  && Answers(config, plan, ambiguity, r) && Approvable(plan, ambiguity, r.candidate)
                  && r.confidence.Finite? && r.confidence.value >= 0.0)
            && (verdict.Dropped? <==>
                  && Answers(config, plan, ambiguity, r) && Approvable(plan, ambiguity, r.candidate)
                  && !(r.confidence.Finite? && r.confidence.value >= 0.0))
            && (verdict.Approved? ==>
                  && EvidenceOf(plan, [ambiguity], verdict.context.operation, verdict.context.ambiguities)
                  && verdict.context.allowed == AllowedCandidates(plan, ambiguity)
                  && verdict.context.selected == r.candidate
                  && -0.5 <= r.confidence.value * 10000.0 - verdict.context.confidence as real < 0.5
                  && Ok(verdict.plan) == ApplyResolution(plan, ValidatedResolution(ambiguity.path, r.candidate)))
  {
    AcceptableExact(config, plan, ambiguity, r);
    FromRatioExact(r.confidence);
    EvidenceKept(plan, [ambiguity]);
  }

  /** Why a reply is refused. */
  ghost predicate RefusedFor(
    config: Config, plan: StatementPlan, ambiguity: WriteAmbiguity, r: ResolverResponse, failure: AuditFailure)
  {
    if Answers(config, plan, ambiguity, r) && r.candidate in AllowedCandidates(plan, ambiguity) then
      failure == ResolverRejected
    else if r.schemaVersion != config.schema.version then failure == StaleSchemaProfile
    else if !IsFinite(r.confidence) || FloatLess(r.confidence, config.minimum) || RealOf(r.confidence) > 1.0 then
      failure == LowConfidence
    else failure == InvalidResolverResponse
  }

  /** Denial, exactly: without a usable reply the resolver counts as unavailable; otherwise the record
      names the first reason that applies. It names no candidate. */
  lemma DenialExact(config: Config, plan: StatementPlan, ambiguity: WriteAmbiguity, answer: Answer)
    requires !plan.Select? && CloseGate(config, plan, ambiguity, answer).Denied?
    ensures var verdict := CloseGate(config, plan, ambiguity, answer);
            && verdict.kind == (if answer.Unavailable? then Dependency else AmbiguousWrite)
            && EvidenceOf(plan, [ambiguity], verdict.record.operation, verdict.record.ambiguities)
            && verdict.record.schemaVersion == config.schema.version
            && verdict.record.allowed == AllowedCandidates(plan, ambiguity)
            && verdict.record.selected == None && verdict.record.confidence == None
            && verdict.record.outcome.Blocked?
            && (answer.Unavailable? ==> verdict.record.outcome.failure == ResolverUnavailable)
            && (answer.Replied? ==>
                  RefusedFor(config, plan, ambiguity, answer.response, verdict.record.outcome.failure))
  {
    EvidenceKept(plan, [ambiguity]);
    if answer.Replied? {
      AcceptableExact(config, plan, ambiguity, answer.response);
      FloatOrder(Finite(1.0), answer.response.confidence);
      ApplicationExact(plan, ambiguity.path, answer.response.candidate);
    }
  }

  /** What is recorded of an executed attempt: the context as it was approved, and the outcome. */
  lemma OutcomeRecordExact(config: Config, context: Option<AuditContext>, outcome: AuditOutcome)
    ensures var records := OutcomeRecords(config, context, outcome);
            if context.None? then records == [] else
              && |records| == 1
              && records[0].schemaVersion == config.schema.version && records[0].operation == context.value.operation
              && records[0].ambiguities == context.value.ambiguities && records[0].allowed == context.value.allowed
              && records[0].selected == Some(context.value.selected)
              && records[0].confidence == Some(context.value.confidence) && records[0].outcome == outcome
  {
  }
}
