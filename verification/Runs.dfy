/** Many write attempts interleaved over one collection and one audit log. */
module Runs {
  import opened Common
  import opened Documents
  import opened Plans
  import opened AmbiguityPolicy
  import opened Gate
  import Executor
  import Filters
  import MongoMatching

  /** Where an attempt stands. Between two resumptions of an attempt, others may run. */
  datatype Phase =
    | Awaiting(plan: StatementPlan, ambiguity: WriteAmbiguity)
    | Running(plan: StatementPlan, context: Option<AuditContext>)
    | Rejected
    | BlockedByGate
    | DroppedByGate
    | Done(ambiguous: bool, executed: bool)

  /** A log entry, tagged with the attempt that wrote it. */
  datatype Entry = Entry(owner: nat, record: AuditRecord)

  datatype System = System(documents: map<nat, Doc>, log: seq<Entry>, attempts: seq<Phase>)

  /** What can happen next. Every write touches one document; a multi-document write is any number
      of such events and may stop anywhere. */
  datatype Event =
    | Begin(plan: StatementPlan)
    | Reply(attempt: nat, answer: Answer)
    | UpdateOne(attempt: nat, id: nat)
    | DeleteOne(attempt: nat, id: nat)
    | InsertOne(attempt: nat, row: nat, id: nat, generatedId: string)
    | Finish(attempt: nat, outcome: Result<WriteCounts>)

  function Start(documents: map<nat, Doc>): System { System(documents, [], []) }

  predicate IsRunning(s: System, attempt: nat) { attempt < |s.attempts| && s.attempts[attempt].Running? }

  /** The document MongoDB stores for an inserted one. */
  function Stored(d: Doc, generatedId: string): Doc
  {
    if "_id" in d then d else d["_id" := ObjectId(generatedId)]
  }

  /** All rows of an `INSERT` are built before the first one is sent. */
  predicate RowsBuildable(plan: StatementPlan)
    requires plan.Insert?
  {
    forall row :: row in plan.rows ==> Executor.BuiltDocument(plan.columns, row).Ok?
  }

  function UpdatedDocument(plan: StatementPlan, d: Doc): Option<Doc>
    requires plan.Update?
  {
    match (Filters.PredicateDocument(plan.filter), Executor.UpdateFields(plan.assignments))
    case (Ok(filter), Ok(fields)) => if MongoMatching.Matches(filter, d) then Executor.ApplySet(d, fields) else None
    case _ => None
  }

  predicate DeletesDocument(plan: StatementPlan, d: Doc)
    requires plan.Delete?
  {
    Filters.PredicateDocument(plan.filter).Ok? && MongoMatching.Matches(Filters.PredicateDocument(plan.filter).value, d)
  }

  function AfterBegin(config: Config, s: System, plan: StatementPlan): System
  {
    AfterOpening(s, plan, OpenGate(config, plan))
  }

  function AfterOpening(s: System, plan: StatementPlan, opening: Opening): System
  {
    match opening
    case Refused(_) => s.(attempts := s.attempts + [Rejected])
    case Clear => s.(attempts := s.attempts + [Running(plan, None)])
    case Stopped(record) =>
      s.(attempts := s.attempts + [BlockedByGate], log := s.log + [Entry(|s.attempts|, record)])
    case Ask(ambiguity) => s.(attempts := s.attempts + [Awaiting(plan, ambiguity)])
  }

  predicate IsAwaiting(s: System, i: nat)
  {
    i < |s.attempts| && s.attempts[i].Awaiting? && !s.attempts[i].plan.Select?
  }

  function AfterVerdict(s: System, i: nat, verdict: Verdict): System
    requires i < |s.attempts|
  {
    match verdict
    case Denied(_, record) => s.(attempts := s.attempts[i := BlockedByGate], log := s.log + [Entry(i, record)])
    case Dropped => s.(attempts := s.attempts[i := DroppedByGate])
    case Approved(plan, context) => s.(attempts := s.attempts[i := Running(plan, Some(context))])
  }

  function AfterReply(config: Config, s: System, i: nat, answer: Answer): System
  {
    if IsAwaiting(s, i) then AfterVerdict(s, i, CloseGate(config, s.attempts[i].plan, s.attempts[i].ambiguity, answer))
    else s
  }

  function AfterUpdate(s: System, i: nat, id: nat): System
  {
    if IsRunning(s, i) && s.attempts[i].plan.Update? && id in s.documents
       && UpdatedDocument(s.attempts[i].plan, s.documents[id]).Some?
    then s.(documents := s.documents[id := UpdatedDocument(s.attempts[i].plan, s.documents[id]).value])
    else s
  }

  function AfterDelete(s: System, i: nat, id: nat): System
  {
    if IsRunning(s, i) && s.attempts[i].plan.Delete? && id in s.documents
       && DeletesDocument(s.attempts[i].plan, s.documents[id])
    then s.(documents := s.documents - {id})
    else s
  }

  function AfterInsert(s: System, i: nat, row: nat, id: nat, generatedId: string): System
  {
    if IsRunning(s, i) && s.attempts[i].plan.Insert? && id !in s.documents
       && row < |s.attempts[i].plan.rows| && RowsBuildable(s.attempts[i].plan)
    then
      assert s.attempts[i].plan.rows[row] in s.attempts[i].plan.rows;
      var built := Executor.BuiltDocument(s.attempts[i].plan.columns, s.attempts[i].plan.rows[row]).value;
      s.(documents := s.documents[id := Stored(built, generatedId)])
    else s
  }

  function AuditOf(outcome: Result<WriteCounts>): AuditOutcome
  {
    if outcome.Ok? then Executed(outcome.value) else Blocked(MongoExecutionFailed)
  }

  function AfterFinish(config: Config, s: System, i: nat, outcome: Result<WriteCounts>): System
  {
    if IsRunning(s, i) then
      match s.attempts[i].context
      case None => s.(attempts := s.attempts[i := Done(false, outcome.Ok?)])
      case Some(context) =>
        var entry := Entry(i, ContextRecord(config, context, AuditOf(outcome)));
        s.(attempts := s.attempts[i := Done(true, outcome.Ok?)], log := s.log + [entry])
    else s
  }

  /** One event; an event that is not enabled changes nothing. */
  function Step(config: Config, s: System, e: Event): System
  {
    match e
    case Begin(plan) => AfterBegin(config, s, plan)
    case Reply(i, answer) => AfterReply(config, s, i, answer)
    case UpdateOne(i, id) => AfterUpdate(s, i, id)
    case DeleteOne(i, id) => AfterDelete(s, i, id)
    case InsertOne(i, row, id, generatedId) => AfterInsert(s, i, row, id, generatedId)
    case Finish(i, outcome) => AfterFinish(config, s, i, outcome)
  }

  function Run(config: Config, s: System, events: seq<Event>): System
  {
    if events == [] then s
    else Step(config, Run(config, s, events[..|events| - 1]), events[|events| - 1])
  }

  lemma RunTwo(config: Config, s: System, first: Event, second: Event)
    ensures Run(config, s, [first, second]) == Step(config, Step(config, s, first), second)
  {
    var both, one := [first, second], [first];
    assert both[..1] == one && one[..0] == [];
    assert Run(config, s, []) == s;
    assert Run(config, s, one) == Step(config, Run(config, s, one[..0]), first);
    assert Run(config, s, both) == Step(config, Run(config, s, both[..1]), second);
  }

  // ---------------------------------------------------------------------------
  // Classification of attempts
  // ---------------------------------------------------------------------------

  /** The attempt is subject to auditing. */
  predicate Ambiguous(p: Phase)
  {
    p.Awaiting? || (p.Running? && p.context.Some?) || p.BlockedByGate? || p.DroppedByGate? || (p.Done? && p.ambiguous)
  }

  /** The attempt has been recorded. */
  predicate Recorded(p: Phase) { p.BlockedByGate? || (p.Done? && p.ambiguous) }

  /** The attempt is ambiguous and has not finished. */
  predicate InFlight(p: Phase) { p.Awaiting? || (p.Running? && p.context.Some?) }

  /** The attempt ended without a record. */
  predicate Unrecorded(p: Phase) { p.DroppedByGate? }

  function Count(attempts: seq<Phase>, test: Phase -> bool): nat
  {
    if attempts == [] then 0
    else Count(attempts[..|attempts| - 1], test) + if test(attempts[|attempts| - 1]) then 1 else 0
  }

  function EntriesOf(log: seq<Entry>, owner: nat): nat
  {
    if log == [] then 0
    else EntriesOf(log[..|log| - 1], owner) + if log[|log| - 1].owner == owner then 1 else 0
  }

  lemma CountAppend(attempts: seq<Phase>, p: Phase, test: Phase -> bool)
    ensures Count(attempts + [p], test) == Count(attempts, test) + if test(p) then 1 else 0
  {
    assert (attempts + [p])[..|attempts|] == attempts;
  }

  lemma {:induction false} CountUpdate(attempts: seq<Phase>, i: nat, p: Phase, test: Phase -> bool)
    requires i < |attempts|
    ensures Count(attempts[i := p], test) + (if test(attempts[i]) then 1 else 0)
            == Count(attempts, test) + if test(p) then 1 else 0
  {
    var n := |attempts| - 1;
    if i == n {
      assert attempts[i := p][..n] == attempts[..n];
    } else {
      CountUpdate(attempts[..n], i, p, test);
      assert attempts[i := p][..n] == attempts[..n][i := p];
    }
  }

  lemma {:induction false} CountPartition(attempts: seq<Phase>)
    ensures Count(attempts, Ambiguous)
            == Count(attempts, Recorded) + Count(attempts, InFlight) + Count(attempts, Unrecorded)
  {
    if attempts != [] {
      CountPartition(attempts[..|attempts| - 1]);
    }
  }

  lemma EntriesAppend(log: seq<Entry>, entry: Entry, owner: nat)
    ensures EntriesOf(log + [entry], owner) == EntriesOf(log, owner) + if entry.owner == owner then 1 else 0
  {
    assert (log + [entry])[..|log|] == log;
  }

  // ---------------------------------------------------------------------------
  // Attempts and the plans they began with
  // ---------------------------------------------------------------------------

  /** The plans of the `Begin` events in order: attempt `i` began with plan `i`. */
  function Begun(events: seq<Event>): seq<StatementPlan>
  {
    if events == [] then []
    else
      var last := events[|events| - 1];
      Begun(events[..|events| - 1]) + if last.Begin? then [last.plan] else []
  }

  /** The `Begin` events whose plan detection finds ambiguous. */
  function CountAmbiguous(config: Config, plans: seq<StatementPlan>): nat
  {
    if plans == [] then 0
    else
      CountAmbiguous(config, plans[..|plans| - 1])
      + if FoundAmbiguous(config, plans[|plans| - 1]) then 1 else 0
  }

  /** The candidates on offer: several ambiguities at once can only be rejected. */
  function AllowedFor(plan: StatementPlan, ambiguities: seq<WriteAmbiguity>): set<ResolutionCandidate>
  {
    if |ambiguities| == 1 then AllowedCandidates(plan, ambiguities[0]) else {Reject}
  }

  /** The context carries the evidence of `plan` and the allowed candidate that made it `resolved`. */
  ghost predicate OwnContext(config: Config, plan: StatementPlan, resolved: StatementPlan, context: AuditContext)
  {
    && ResolvedBy(config, plan, context.selected, resolved)
    && var ambiguities := Detect(plan, config.schema).value;
       && context.operation == OperationOf(plan) && context.ambiguities == RedactAll(ambiguities)
       && context.allowed == AllowedFor(plan, ambiguities) && context.confidence <= MAX_BASIS_POINTS
  }

  ghost predicate Resolvable(config: Config, plan: StatementPlan)
  {
    exists candidate, resolved :: ResolvedBy(config, plan, candidate, resolved)
  }

  /** What a phase says about the plan the attempt began with. */
  ghost predicate OwnPhase(config: Config, plan: StatementPlan, p: Phase)
  {
    var detected := Detect(plan, config.schema);
    match p
    case Rejected => detected.Err?
    case Awaiting(q, ambiguity) =>
      q == plan && detected == Ok([ambiguity]) && HasExecutableCandidate(AllowedCandidates(plan, ambiguity))
    case Running(q, None) => q == plan && detected == Ok([])
    case Running(q, Some(context)) => OwnContext(config, plan, q, context)
    case BlockedByGate => FoundAmbiguous(config, plan)
    case DroppedByGate => Resolvable(config, plan)
    case Done(ambiguous, _) => if ambiguous then Resolvable(config, plan) else detected == Ok([])
  }

  /** The record tells the evidence of `plan`. It names a candidate exactly when the plan went on to
      execution: one that was allowed, was no rejection, and could be applied. */
  ghost predicate OwnRecord(config: Config, plan: StatementPlan, record: AuditRecord)
  {
    && FoundAmbiguous(config, plan)
    && var ambiguities := Detect(plan, config.schema).value;
       && record.schemaVersion == config.schema.version && record.operation == OperationOf(plan)
       && record.ambiguities == RedactAll(ambiguities) && record.allowed == AllowedFor(plan, ambiguities)
       && (record.selected.Some? <==> record.outcome.Executed? || record.outcome == Blocked(MongoExecutionFailed))
       && (record.selected.Some? ==> exists resolved :: ResolvedBy(config, plan, record.selected.value, resolved))
       && (record.confidence.Some? <==> record.selected.Some?)
       && (record.confidence.Some? ==> record.confidence.value <= MAX_BASIS_POINTS)
       && (record.outcome == Blocked(NoSafeResolution) <==> !HasExecutableCandidate(record.allowed))
  }

  /** The record fits how its attempt ended. */
  predicate RecordOfPhase(p: Phase, record: AuditRecord)
  {
    || (p.BlockedByGate? && record.selected.None?)
    || (p.Done? && p.ambiguous && record.selected.Some? && (record.outcome.Executed? <==> p.executed))
  }

  /** Every attempt and every log entry is explained by the plan the attempt began with. */
  ghost predicate Traced(config: Config, begun: seq<StatementPlan>, s: System)
  {
    && |s.attempts| == |begun|
    && (forall i :: 0 <= i < |begun| ==> OwnPhase(config, begun[i], s.attempts[i]))
    && (forall k :: 0 <= k < |s.log| ==> TracedEntry(config, begun, s.attempts, s.log[k]))
  }

  ghost predicate TracedEntry(config: Config, begun: seq<StatementPlan>, attempts: seq<Phase>, entry: Entry)
  {
    && entry.owner < |begun| && entry.owner < |attempts|
    && OwnRecord(config, begun[entry.owner], entry.record) && RecordOfPhase(attempts[entry.owner], entry.record)
  }

  function EntryOf(owner: nat, record: Option<AuditRecord>): seq<Entry>
  {
    if record.Some? then [Entry(owner, record.value)] else []
  }

  lemma TracedAppend(
    config: Config, begun: seq<StatementPlan>, s: System, plan: StatementPlan, p: Phase, record: Option<AuditRecord>)
    requires Traced(config, begun, s) && OwnPhase(config, plan, p)
    requires record.Some? ==> OwnRecord(config, plan, record.value) && RecordOfPhase(p, record.value)
    ensures Traced(config, begun + [plan],
                   s.(attempts := s.attempts + [p], log := s.log + EntryOf(|s.attempts|, record)))
  {
    var attempts, log := s.attempts + [p], s.log + EntryOf(|s.attempts|, record);
    forall k | 0 <= k < |log| ensures TracedEntry(config, begun + [plan], attempts, log[k]) {
      if k < |s.log| {
        assert TracedEntry(config, begun, s.attempts, s.log[k]);
      }
    }
  }

  lemma TracedUpdate(
    config: Config, begun: seq<StatementPlan>, s: System, i: nat, p: Phase, record: Option<AuditRecord>)
    requires Traced(config, begun, s) && i < |begun| && !Recorded(s.attempts[i]) && OwnPhase(config, begun[i], p)
    requires record.Some? ==> OwnRecord(config, begun[i], record.value) && RecordOfPhase(p, record.value)
    ensures Traced(config, begun, s.(attempts := s.attempts[i := p], log := s.log + EntryOf(i, record)))
  {
    var attempts, log := s.attempts[i := p], s.log + EntryOf(i, record);
    forall k | 0 <= k < |log| ensures TracedEntry(config, begun, attempts, log[k]) {
      if k < |s.log| {
        assert TracedEntry(config, begun, s.attempts, s.log[k]);
      }
    }
  }

  // ---------------------------------------------------------------------------
  // Counting records
  // ---------------------------------------------------------------------------

  ghost predicate Counted(s: System)
  {
    && |s.log| == Count(s.attempts, Recorded)
    && (forall i :: 0 <= i < |s.attempts| ==> EntriesOf(s.log, i) == if Recorded(s.attempts[i]) then 1 else 0)
    && (forall k :: 0 <= k < |s.log| ==> s.log[k].owner < |s.attempts|)
  }

  ghost predicate AuditInvariant(config: Config, begun: seq<StatementPlan>, s: System)
  {
    Counted(s) && Traced(config, begun, s)
  }

  lemma {:induction false} NoEntryBeyond(log: seq<Entry>, bound: nat, owner: nat)
    requires bound <= owner && forall k :: 0 <= k < |log| ==> log[k].owner < bound
    ensures EntriesOf(log, owner) == 0
  {
    if log != [] {
      NoEntryBeyond(log[..|log| - 1], bound, owner);
    }
  }

  /** A new attempt, recorded or not. */
  lemma CountedAppend(s: System, p: Phase, record: Option<AuditRecord>)
    requires Counted(s) && (record.Some? <==> Recorded(p))
    ensures Counted(s.(attempts := s.attempts + [p], log := s.log + EntryOf(|s.attempts|, record)))
  {
    var i := |s.attempts|;
    CountAppend(s.attempts, p, Recorded);
    NoEntryBeyond(s.log, i, i);
    if record.Some? {
      forall j: nat { EntriesAppend(s.log, Entry(i, record.value), j); }
    } else {
      assert s.log + [] == s.log;
    }
  }

  /** An attempt moves on, and is recorded if it finishes as an audited one. */
  lemma CountedUpdate(s: System, i: nat, p: Phase, record: Option<AuditRecord>)
    requires Counted(s) && i < |s.attempts| && !Recorded(s.attempts[i])
    requires record.Some? <==> Recorded(p)
    ensures Counted(s.(attempts := s.attempts[i := p], log := s.log + EntryOf(i, record)))
  {
    CountUpdate(s.attempts, i, p, Recorded);
    if record.Some? {
      forall j: nat { EntriesAppend(s.log, Entry(i, record.value), j); }
    } else {
      assert s.log + [] == s.log;
    }
  }

  // ---------------------------------------------------------------------------
  // The events keep both
  // ---------------------------------------------------------------------------

  /** A refusal by the gate is recorded with the evidence and the allow-list of the plan. */
  lemma DenialOwned(config: Config, plan: StatementPlan, ambiguity: WriteAmbiguity, failure: AuditFailure)
    requires !plan.Select? && OwnPhase(config, plan, Awaiting(plan, ambiguity))
    requires failure != NoSafeResolution && failure != MongoExecutionFailed
    ensures var record := BlockedRecord(config, plan, [ambiguity], AllowedCandidates(plan, ambiguity), failure);
            OwnRecord(config, plan, record) && RecordOfPhase(BlockedByGate, record)
  {
  }

  lemma ApprovalOwned(config: Config, plan: StatementPlan, ambiguity: WriteAmbiguity, answer: Answer)
    requires !plan.Select? && OwnPhase(config, plan, Awaiting(plan, ambiguity))
    requires CloseGate(config, plan, ambiguity, answer).Approved?
    ensures var verdict := CloseGate(config, plan, ambiguity, answer);
            OwnContext(config, plan, verdict.plan, verdict.context)
  {
    ApprovalIsAllowed(config, plan, ambiguity, answer);
  }

  lemma DropOwned(config: Config, plan: StatementPlan, ambiguity: WriteAmbiguity, answer: Answer)
    requires !plan.Select? && OwnPhase(config, plan, Awaiting(plan, ambiguity))
    requires CloseGate(config, plan, ambiguity, answer).Dropped?
    ensures OwnPhase(config, plan, DroppedByGate)
  {
    var candidate := DropIsApplicable(config, plan, ambiguity, answer);
    var resolved := ApplyResolution(plan, ValidatedResolution(ambiguity.path, candidate)).value;
    assert ResolvedBy(config, plan, candidate, resolved);
  }

  /** The verdict tells the truth about the plan. */
  ghost predicate OwnVerdict(config: Config, plan: StatementPlan, verdict: Verdict)
  {
    match verdict
    case Denied(_, record) => OwnRecord(config, plan, record) && RecordOfPhase(BlockedByGate, record)
    case Dropped => OwnPhase(config, plan, DroppedByGate)
    case Approved(resolved, context) => OwnPhase(config, plan, Running(resolved, Some(context)))
  }

  lemma VerdictOwned(config: Config, plan: StatementPlan, ambiguity: WriteAmbiguity, answer: Answer)
    requires !plan.Select? && OwnPhase(config, plan, Awaiting(plan, ambiguity))
    ensures OwnVerdict(config, plan, CloseGate(config, plan, ambiguity, answer))
  {
    match CloseGate(config, plan, ambiguity, answer) {
      case Denied(_, record) =>
        var failure := DenialIsRecorded(config, plan, ambiguity, answer);
        DenialOwned(config, plan, ambiguity, failure);
      case Dropped => DropOwned(config, plan, ambiguity, answer);
      case Approved(_, _) => ApprovalOwned(config, plan, ambiguity, answer);
    }
  }

  /** What the record of an executed or failed attempt says about the plan. */
  lemma OutcomeOwned(
    config: Config, plan: StatementPlan, resolved: StatementPlan, context: AuditContext, outcome: Result<WriteCounts>)
    requires OwnContext(config, plan, resolved, context)
    ensures var record := ContextRecord(config, context, AuditOf(outcome));
            OwnRecord(config, plan, record) && RecordOfPhase(Done(true, outcome.Ok?), record)
  {
  }

  /** The opening tells the truth about the plan. */
  ghost predicate OwnOpening(config: Config, plan: StatementPlan, opening: Opening)
  {
    match opening
    case Refused(_) => OwnPhase(config, plan, Rejected)
    case Clear => OwnPhase(config, plan, Running(plan, None))
    case Stopped(record) =>
      && OwnPhase(config, plan, BlockedByGate) && OwnRecord(config, plan, record)
      && RecordOfPhase(BlockedByGate, record)
    case Ask(ambiguity) => OwnPhase(config, plan, Awaiting(plan, ambiguity))
  }

  lemma OpeningOwned(config: Config, plan: StatementPlan)
    ensures OwnOpening(config, plan, OpenGate(config, plan))
  {
    match Detect(plan, config.schema) {
      case Err(_) =>
      case Ok(ambiguities) =>
        OpenGateCases(config, plan);
        if |ambiguities| == 1 {
          SingleOwned(config, plan, ambiguities[0]);
        } else if |ambiguities| > 1 {
          SeveralOwned(config, plan, ambiguities);
        }
    }
  }

  lemma SingleOwned(config: Config, plan: StatementPlan, ambiguity: WriteAmbiguity)
    requires !plan.Select? && Detect(plan, config.schema).Ok? && |Detect(plan, config.schema).value| == 1
    requires ambiguity == Detect(plan, config.schema).value[0]
    ensures OwnOpening(config, plan, OpenSingle(config, plan, ambiguity))
  {
    assert Detect(plan, config.schema).value == [ambiguity];
  }

  lemma SeveralOwned(config: Config, plan: StatementPlan, ambiguities: seq<WriteAmbiguity>)
    requires !plan.Select? && Detect(plan, config.schema) == Ok(ambiguities) && |ambiguities| > 1
    ensures OwnOpening(config, plan, Stopped(BlockedRecord(config, plan, ambiguities, {Reject}, NoSafeResolution)))
  {
  }

  lemma OpeningKeepsAudit(config: Config, begun: seq<StatementPlan>, s: System, plan: StatementPlan, opening: Opening)
    requires AuditInvariant(config, begun, s) && OwnOpening(config, plan, opening)
    ensures AuditInvariant(config, begun + [plan], AfterOpening(s, plan, opening))
  {
    match opening {
      case Refused(_) => AuditAppend(config, begun, s, plan, Rejected, None);
      case Clear => AuditAppend(config, begun, s, plan, Running(plan, None), None);
      case Stopped(record) => AuditAppend(config, begun, s, plan, BlockedByGate, Some(record));
      case Ask(ambiguity) => AuditAppend(config, begun, s, plan, Awaiting(plan, ambiguity), None);
    }
  }

  lemma AuditAppend(
    config: Config, begun: seq<StatementPlan>, s: System, plan: StatementPlan, p: Phase, record: Option<AuditRecord>)
    requires AuditInvariant(config, begun, s) && OwnPhase(config, plan, p) && (record.Some? <==> Recorded(p))
    requires record.Some? ==> OwnRecord(config, plan, record.value) && RecordOfPhase(p, record.value)
    ensures AuditInvariant(config, begun + [plan],
                           s.(attempts := s.attempts + [p], log := s.log + EntryOf(|s.attempts|, record)))
    ensures record.None? ==> s.log + EntryOf(|s.attempts|, record) == s.log
  {
    CountedAppend(s, p, record);
    TracedAppend(config, begun, s, plan, p, record);
  }

  lemma AuditUpdate(config: Config, begun: seq<StatementPlan>, s: System, i: nat, p: Phase, record: Option<AuditRecord>)
    requires AuditInvariant(config, begun, s) && i < |begun| && !Recorded(s.attempts[i])
    requires OwnPhase(config, begun[i], p) && (record.Some? <==> Recorded(p))
    requires record.Some? ==> OwnRecord(config, begun[i], record.value) && RecordOfPhase(p, record.value)
    ensures AuditInvariant(config, begun, s.(attempts := s.attempts[i := p], log := s.log + EntryOf(i, record)))
  {
    CountedUpdate(s, i, p, record);
    TracedUpdate(config, begun, s, i, p, record);
  }

  lemma VerdictKeepsAudit(config: Config, begun: seq<StatementPlan>, s: System, i: nat, verdict: Verdict)
    requires AuditInvariant(config, begun, s) && IsAwaiting(s, i) && OwnVerdict(config, begun[i], verdict)
    ensures AuditInvariant(config, begun, AfterVerdict(s, i, verdict))
  {
    assert OwnPhase(config, begun[i], s.attempts[i]);
    assert s.log + [] == s.log;
    match verdict {
      case Denied(_, record) =>
        assert OwnPhase(config, begun[i], BlockedByGate);
        AuditUpdate(config, begun, s, i, BlockedByGate, Some(record));
      case Dropped => AuditUpdate(config, begun, s, i, DroppedByGate, None);
      case Approved(resolved, context) => AuditUpdate(config, begun, s, i, Running(resolved, Some(context)), None);
    }
  }

  lemma ReplyKeepsAudit(config: Config, begun: seq<StatementPlan>, s: System, i: nat, answer: Answer)
    requires AuditInvariant(config, begun, s) && IsAwaiting(s, i)
    ensures AuditInvariant(config, begun, AfterReply(config, s, i, answer))
  {
    assert OwnPhase(config, begun[i], s.attempts[i]);
    VerdictOwned(config, begun[i], s.attempts[i].ambiguity, answer);
    VerdictKeepsAudit(config, begun, s, i, CloseGate(config, begun[i], s.attempts[i].ambiguity, answer));
  }

  lemma FinishKeepsAudit(config: Config, begun: seq<StatementPlan>, s: System, i: nat, outcome: Result<WriteCounts>)
    requires AuditInvariant(config, begun, s) && IsRunning(s, i)
    ensures AuditInvariant(config, begun, AfterFinish(config, s, i, outcome))
  {
    assert OwnPhase(config, begun[i], s.attempts[i]);
    match s.attempts[i].context {
      case None => AuditUpdate(config, begun, s, i, Done(false, outcome.Ok?), None);
      case Some(context) =>
        OutcomeOwned(config, begun[i], s.attempts[i].plan, context, outcome);
        AuditUpdate(config, begun, s, i, Done(true, outcome.Ok?),
                    Some(ContextRecord(config, context, AuditOf(outcome))));
    }
  }

  lemma SameTrailKeepsAudit(config: Config, begun: seq<StatementPlan>, s: System, s': System)
    requires AuditInvariant(config, begun, s) && s'.log == s.log && s'.attempts == s.attempts
    ensures AuditInvariant(config, begun, s')
  {
  }

  predicate IsWrite(e: Event) { e.UpdateOne? || e.DeleteOne? || e.InsertOne? }

  lemma WriteKeepsTrail(config: Config, s: System, e: Event)
    requires IsWrite(e)
    ensures Step(config, s, e).log == s.log && Step(config, s, e).attempts == s.attempts
  {
  }

  lemma BeginKeepsAudit(config: Config, begun: seq<StatementPlan>, s: System, plan: StatementPlan)
    requires AuditInvariant(config, begun, s)
    ensures AuditInvariant(config, begun + [plan], AfterBegin(config, s, plan))
  {
    OpeningOwned(config, plan);
    OpeningKeepsAudit(config, begun, s, plan, OpenGate(config, plan));
  }

  lemma StepKeepsAudit(config: Config, begun: seq<StatementPlan>, s: System, e: Event)
    requires AuditInvariant(config, begun, s) && !e.Begin?
    ensures AuditInvariant(config, begun, Step(config, s, e))
  {
    if IsWrite(e) {
      WriteKeepsTrail(config, s, e);
      SameTrailKeepsAudit(config, begun, s, Step(config, s, e));
    } else if e.Reply? {
      if IsAwaiting(s, e.attempt) {
        ReplyKeepsAudit(config, begun, s, e.attempt, e.answer);
      }
    } else if IsRunning(s, e.attempt) {
      FinishKeepsAudit(config, begun, s, e.attempt, e.outcome);
    }
  }

  lemma {:induction false} RunKeepsAudit(config: Config, documents: map<nat, Doc>, events: seq<Event>)
    ensures AuditInvariant(config, Begun(events), Run(config, Start(documents), events))
  {
    if events != [] {
      var n := |events| - 1;
      var s := Run(config, Start(documents), events[..n]);
      RunKeepsAudit(config, documents, events[..n]);
      if events[n].Begin? {
        BeginKeepsAudit(config, Begun(events[..n]), s, events[n].plan);
      } else {
        StepKeepsAudit(config, Begun(events[..n]), s, events[n]);
        assert Begun(events[..n]) + [] == Begun(events[..n]);
      }
    }
  }

  /** An attempt is counted as ambiguous exactly when detection found its plan ambiguous. */
  lemma {:induction false} CountedAsFound(config: Config, begun: seq<StatementPlan>, attempts: seq<Phase>)
    requires |attempts| == |begun| && forall i :: 0 <= i < |begun| ==> OwnPhase(config, begun[i], attempts[i])
    ensures Count(attempts, Ambiguous) == CountAmbiguous(config, begun)
  {
    if begun != [] {
      var n := |begun| - 1;
      CountedAsFound(config, begun[..n], attempts[..n]);
      assert OwnPhase(config, begun[n], attempts[n]);
    }
  }

  /** Conservation: in every reachable state, the records, the ambiguous attempts in flight and the
      attempts dropped without a record add up to the `Begin` events with an ambiguous plan. */
  lemma {:induction false} AuditConservation(config: Config, documents: map<nat, Doc>, events: seq<Event>)
    ensures var s := Run(config, Start(documents), events);
            |s.log| + Count(s.attempts, InFlight) + Count(s.attempts, Unrecorded)
            == CountAmbiguous(config, Begun(events))
  {
    var s := Run(config, Start(documents), events);
    RunKeepsAudit(config, documents, events);
    CountPartition(s.attempts);
    CountedAsFound(config, Begun(events), s.attempts);
  }

  /** Attempts and `Begin` events correspond, and each phase tells what detection found in the plan
      begun. Each finished ambiguous attempt has exactly one record of its own and every other attempt
      has none; the record carries the evidence of the plan begun, and names a candidate exactly when
      that allowed candidate turned the plan into the one that was executed. */
  lemma {:induction false} OneRecordPerAttempt(config: Config, documents: map<nat, Doc>, events: seq<Event>)
    ensures var s, begun := Run(config, Start(documents), events), Begun(events);
            && |s.attempts| == |begun|
            && (forall i :: 0 <= i < |begun| ==>
                  && OwnPhase(config, begun[i], s.attempts[i])
                  && EntriesOf(s.log, i) == if Recorded(s.attempts[i]) then 1 else 0)
            && (forall k :: 0 <= k < |s.log| ==> TracedEntry(config, begun, s.attempts, s.log[k]))
  {
    RunKeepsAudit(config, documents, events);
  }

  /** In no run does an attempt whose only ambiguity is a nested path that its plan reads but does not
      write get past the gate: it waits or it is blocked. */
  lemma NestedFilterNeverRuns(
    config: Config, documents: map<nat, Doc>, events: seq<Event>, i: nat, ambiguity: WriteAmbiguity)
    requires i < |Begun(events)| && Detect(Begun(events)[i], config.schema) == Ok([ambiguity])
    requires NestedPathIsSafe(ambiguity) && !WritePlanReferencesPath(Begun(events)[i], ambiguity.path)
    ensures var s := Run(config, Start(documents), events);
            i < |s.attempts| && (s.attempts[i].Awaiting? || s.attempts[i].BlockedByGate?)
  {
    RunKeepsAudit(config, documents, events);
    NestedFilterNeverApproved(config, Begun(events)[i], ambiguity);
    assert OwnPhase(config, Begun(events)[i], Run(config, Start(documents), events).attempts[i]);
  }

  ghost predicate NothingDropped(s: System)
  {
    forall i :: 0 <= i < |s.attempts| ==> !Unrecorded(s.attempts[i])
  }

  lemma StepDropsNothing(config: Config, s: System, e: Event)
    requires FloatLess(Finite(0.0), config.minimum) && NothingDropped(s)
    ensures NothingDropped(Step(config, s, e))
  {
    match e {
      case Begin(plan) => OpeningDropsNothing(s, plan, OpenGate(config, plan));
      case Reply(i, answer) =>
        if IsAwaiting(s, i) {
          PositiveMinimumKeepsRecords(config, s.attempts[i].plan, s.attempts[i].ambiguity, answer);
          VerdictDropsNothing(s, i, CloseGate(config, s.attempts[i].plan, s.attempts[i].ambiguity, answer));
        }
      case _ => OtherStepsDropNothing(config, s, e);
    }
  }

  lemma OpeningDropsNothing(s: System, plan: StatementPlan, opening: Opening)
    requires NothingDropped(s)
    ensures NothingDropped(AfterOpening(s, plan, opening))
  {
  }

  lemma OtherStepsDropNothing(config: Config, s: System, e: Event)
    requires !e.Begin? && !e.Reply? && NothingDropped(s)
    ensures NothingDropped(Step(config, s, e))
  {
  }

  lemma VerdictDropsNothing(s: System, i: nat, verdict: Verdict)
    requires i < |s.attempts| && NothingDropped(s) && !verdict.Dropped?
    ensures NothingDropped(AfterVerdict(s, i, verdict))
  {
  }

  lemma {:induction false} RunDropsNothing(config: Config, documents: map<nat, Doc>, events: seq<Event>)
    requires FloatLess(Finite(0.0), config.minimum)
    ensures NothingDropped(Run(config, Start(documents), events))
  {
    if events != [] {
      RunDropsNothing(config, documents, events[..|events| - 1]);
      StepDropsNothing(config, Run(config, Start(documents), events[..|events| - 1]), events[|events| - 1]);
    }
  }

  /** With a positive minimum confidence no attempt is ever dropped, so records and attempts in flight
      account for all ambiguous attempts. */
  lemma NothingDroppedAboveZero(config: Config, documents: map<nat, Doc>, events: seq<Event>)
    requires FloatLess(Finite(0.0), config.minimum)
    ensures var s := Run(config, Start(documents), events);
            NothingDropped(s) && |s.log| + Count(s.attempts, InFlight) == CountAmbiguous(config, Begun(events))
  {
    RunDropsNothing(config, documents, events);
    CountNone(Run(config, Start(documents), events).attempts);
    AuditConservation(config, documents, events);
  }

  lemma {:induction false} CountNone(attempts: seq<Phase>)
    requires forall i :: 0 <= i < |attempts| ==> !Unrecorded(attempts[i])
    ensures Count(attempts, Unrecorded) == 0
  {
    if attempts != [] {
      CountNone(attempts[..|attempts| - 1]);
    }
  }

  // ---------------------------------------------------------------------------
  // The gate holds
  // ---------------------------------------------------------------------------

  predicate Finished(p: Phase) { !p.Awaiting? && !p.Running? }

  /** Attempts are only ever added, and only unfinished ones change. */
  ghost predicate Grows(before: seq<Phase>, after: seq<Phase>)
  {
    |after| >= |before| && forall i :: 0 <= i < |before| && Finished(before[i]) ==> after[i] == before[i]
  }

  lemma OpeningGrows(s: System, plan: StatementPlan, opening: Opening)
    ensures Grows(s.attempts, AfterOpening(s, plan, opening).attempts)
  {
  }

  lemma VerdictGrows(s: System, i: nat, verdict: Verdict)
    requires IsAwaiting(s, i)
    ensures Grows(s.attempts, AfterVerdict(s, i, verdict).attempts)
  {
  }

  lemma FinishGrows(config: Config, s: System, i: nat, outcome: Result<WriteCounts>)
    ensures Grows(s.attempts, AfterFinish(config, s, i, outcome).attempts)
  {
  }

  lemma StepGrows(config: Config, s: System, e: Event)
    ensures Grows(s.attempts, Step(config, s, e).attempts)
  {
    match e
    case Begin(plan) => OpeningGrows(s, plan, OpenGate(config, plan));
    case Reply(i, answer) =>
      if IsAwaiting(s, i) {
        VerdictGrows(s, i, CloseGate(config, s.attempts[i].plan, s.attempts[i].ambiguity, answer));
      }
    case Finish(i, outcome) => FinishGrows(config, s, i, outcome);
    case UpdateOne(_, _) =>
    case DeleteOne(_, _) =>
    case InsertOne(_, _, _, _) =>
  }

  /** Attempts never disappear, and a finished one never moves again. */
  lemma {:induction false} FinishedForever(config: Config, s: System, events: seq<Event>, i: nat)
    requires i < |s.attempts| && Finished(s.attempts[i])
    ensures i < |Run(config, s, events).attempts| && Run(config, s, events).attempts[i] == s.attempts[i]
  {
    if events != [] {
      var n := |events| - 1;
      FinishedForever(config, s, events[..n], i);
      StepGrows(config, Run(config, s, events[..n]), events[n]);
    }
  }

  /** The collection changes only on behalf of an attempt that passed the gate, so an attempt that
      was rejected, blocked or dropped never reaches the executor, whatever happens later. */
  lemma {:induction false} BlockedNeverWrites(config: Config, s: System, events: seq<Event>, i: nat, e: Event)
    requires i < |s.attempts| && Finished(s.attempts[i])
    requires !e.Begin? && e.attempt == i
    ensures Step(config, Run(config, s, events), e) == Run(config, s, events)
  {
    FinishedForever(config, s, events, i);
    FinishedIgnores(config, Run(config, s, events), e);
  }

  lemma FinishedIgnores(config: Config, s: System, e: Event)
    requires !e.Begin? && e.attempt < |s.attempts| && Finished(s.attempts[e.attempt])
    ensures Step(config, s, e) == s
  {
  }

  /** The two collections agree on every document but one. */
  ghost predicate AgreeElsewhere(before: map<nat, Doc>, after: map<nat, Doc>, id: nat)
  {
    forall other :: other != id ==>
      && (other in after <==> other in before)
      && (other in after ==> after[other] == before[other])
  }

  /** In every reachable state, a document is stored, changed or removed only by a running attempt,
      by a plan of the matching kind, one document at a time; and that plan is what the gate let
      through of the plan the attempt began with. */
  lemma {:induction false} WritesOnlyWhileRunning(
    config: Config, documents: map<nat, Doc>, events: seq<Event>, e: Event)
    requires var s := Run(config, Start(documents), events); Step(config, s, e).documents != s.documents
    ensures var s := Run(config, Start(documents), events);
            && !e.Begin? && IsRunning(s, e.attempt) && e.attempt < |Begun(events)|
            && LetThrough(config, Begun(events)[e.attempt], s.attempts[e.attempt].plan)
            && WritesOne(s, e, Step(config, s, e).documents)
  {
    var s := Run(config, Start(documents), events);
    StepWritesOne(config, s, e);
    RunKeepsAudit(config, documents, events);
    assert OwnPhase(config, Begun(events)[e.attempt], s.attempts[e.attempt]);
  }

  /** The event touches one document, as the kind of the running plan says. */
  ghost predicate WritesOne(s: System, e: Event, after: map<nat, Doc>)
  {
    && IsWrite(e) && IsRunning(s, e.attempt) && AgreeElsewhere(s.documents, after, e.id)
    && (match s.attempts[e.attempt].plan
        case Insert(_, _, _) => e.InsertOne? && e.id !in s.documents
        case Update(_, _, _) => e.UpdateOne? && e.id in s.documents && e.id in after
        case Delete(_, _) => e.DeleteOne? && e.id in s.documents && e.id !in after
        case Select(_, _, _, _) => false)
  }

  lemma StepWritesOne(config: Config, s: System, e: Event)
    requires Step(config, s, e).documents != s.documents
    ensures WritesOne(s, e, Step(config, s, e).documents)
  {
    match e
    case Begin(plan) => OpeningKeepsDocuments(s, plan, OpenGate(config, plan));
    case Reply(_, _) =>
    case Finish(_, _) =>
    case UpdateOne(i, id) => UpdateTouchesOne(s, i, id);
    case DeleteOne(i, id) => DeleteTouchesOne(s, i, id);
    case InsertOne(i, row, id, generatedId) => InsertTouchesOne(s, i, row, id, generatedId);
  }

  lemma OpeningKeepsDocuments(s: System, plan: StatementPlan, opening: Opening)
    ensures AfterOpening(s, plan, opening).documents == s.documents
  {
  }

  lemma UpdateTouchesOne(s: System, i: nat, id: nat)
    requires AfterUpdate(s, i, id).documents != s.documents
    ensures WritesOne(s, UpdateOne(i, id), AfterUpdate(s, i, id).documents)
  {
  }

  lemma DeleteTouchesOne(s: System, i: nat, id: nat)
    requires AfterDelete(s, i, id).documents != s.documents
    ensures WritesOne(s, DeleteOne(i, id), AfterDelete(s, i, id).documents)
  {
  }

  lemma InsertTouchesOne(s: System, i: nat, row: nat, id: nat, generatedId: string)
    requires AfterInsert(s, i, row, id, generatedId).documents != s.documents
    ensures WritesOne(s, InsertOne(i, row, id, generatedId), AfterInsert(s, i, row, id, generatedId).documents)
  {
  }

  function Tagged(owner: nat, records: seq<AuditRecord>): seq<Entry>
  {
    seq(|records|, k requires 0 <= k < |records| => Entry(owner, records[k]))
  }

  /** The state once attempt `|s.attempts|` has passed, or failed to pass, the gate. */
  function AfterGate(config: Config, s: System, plan: StatementPlan, resolver: ResolverRequest -> Answer): System
    requires !plan.Select?
  {
    var begun := Step(config, s, Begin(plan));
    match OpenGate(config, plan)
    case Ask(ambiguity) => Step(config, begun, Reply(|s.attempts|, resolver(RequestFor(config, plan, ambiguity))))
    case _ => begun
  }

  /** `passed` is what the gate's result and records make of state `s`. */
  ghost predicate PassedAs(s: System, passed: System, result: Result<ResolvedWrite>, records: seq<AuditRecord>)
  {
    var i := |s.attempts|;
    && |passed.attempts| == i + 1
    && passed.log == s.log + Tagged(i, records)
    && passed.documents == s.documents
    && (match result
        case Ok(write) => passed.attempts[i] == Running(write.plan, write.context)
        case Err(_) => Finished(passed.attempts[i]))
  }

  /** The events up to the verdict leave the log that the sequential gate leaves, and the attempt runs
      the plan that the gate hands to the executor, if any. */
  lemma EventsRefineGate(config: Config, s: System, plan: StatementPlan, resolver: ResolverRequest -> Answer)
    requires !plan.Select?
    ensures PassedAs(s, AfterGate(config, s, plan, resolver),
                     Passage(config, plan, resolver).0, Passage(config, plan, resolver).1)
  {
    match OpenGate(config, plan) {
      case Ask(ambiguity) =>
        VerdictRefined(config, s, plan, ambiguity, resolver(RequestFor(config, plan, ambiguity)));
      case _ => UnaskedRefined(config, s, plan, resolver);
    }
  }

  lemma UnaskedRefined(config: Config, s: System, plan: StatementPlan, resolver: ResolverRequest -> Answer)
    requires !plan.Select? && !OpenGate(config, plan).Ask?
    ensures PassedAs(s, AfterBegin(config, s, plan),
                     Passage(config, plan, resolver).0, Passage(config, plan, resolver).1)
  {
    match OpenGate(config, plan)
    case Refused(kind) => AppendedAs(s, Rejected, None, Err(kind));
    case Clear => AppendedAs(s, Running(plan, None), None, Ok(ResolvedWrite(plan, None)));
    case Stopped(record) => AppendedAs(s, BlockedByGate, Some(record), Err(AmbiguousWrite));
    case Ask(_) =>
  }

  lemma AppendedAs(s: System, p: Phase, record: Option<AuditRecord>, result: Result<ResolvedWrite>)
    requires match result
             case Ok(write) => p == Running(write.plan, write.context)
             case Err(_) => Finished(p)
    ensures var log := s.log + EntryOf(|s.attempts|, record);
            && PassedAs(s, s.(attempts := s.attempts + [p], log := log), result,
                        if record.Some? then [record.value] else [])
            && (record.None? ==> log == s.log)
  {
    var i := |s.attempts|;
    if record.Some? {
      assert Tagged(i, [record.value]) == [Entry(i, record.value)];
    } else {
      assert Tagged(i, []) == [];
    }
  }

  lemma VerdictRefined(config: Config, s: System, plan: StatementPlan, ambiguity: WriteAmbiguity, answer: Answer)
    requires !plan.Select?
    ensures var waiting := s.(attempts := s.attempts + [Awaiting(plan, ambiguity)]);
            PassedAs(s, AfterReply(config, waiting, |s.attempts|, answer),
                     VerdictResult(CloseGate(config, plan, ambiguity, answer)),
                     VerdictRecords(CloseGate(config, plan, ambiguity, answer)))
  {
    assert s.log + [] == s.log;
    match CloseGate(config, plan, ambiguity, answer) {
      case Denied(_, record) =>
        assert Tagged(|s.attempts|, [record]) == [Entry(|s.attempts|, record)];
      case _ =>
    }
  }

  /** The last event of a running attempt appends what the sequential executor branch appends. */
  lemma FinishRefinesRecording(config: Config, s: System, i: nat, outcome: Result<WriteCounts>)
    requires IsRunning(s, i)
    ensures Step(config, s, Finish(i, outcome)).log
            == s.log + Tagged(i, OutcomeRecords(config, s.attempts[i].context,
                                                if outcome.Ok? then Executed(outcome.value)
                                                else Blocked(MongoExecutionFailed)))
    ensures Step(config, s, Finish(i, outcome)).attempts
            == s.attempts[i := Done(s.attempts[i].context.Some?, outcome.Ok?)]
    ensures Step(config, s, Finish(i, outcome)).documents == s.documents
  {
    var context := s.attempts[i].context;
    if context.Some? {
      assert Tagged(i, OutcomeRecords(config, context, AuditOf(outcome)))
          == [Entry(i, ContextRecord(config, context.value, AuditOf(outcome)))];
    }
  }
}
