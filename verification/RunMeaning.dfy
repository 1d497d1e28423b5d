/** What the write events of a run do to the stored documents, first in terms of the running plan, then
    in terms of the prepared statement the attempt began with. */
module RunMeaning {
  import opened Common
  import opened Documents
  import opened Assignments
  import opened Plans
  import opened Lowering
  import opened FilterMeaning
  import opened Binding
  import opened AmbiguityPolicy
  import opened Gate
  import opened Runs
  import opened StatementMeaning
  import Executor
  import Filters
  import MongoMatching

  // ---------------------------------------------------------------------------
  // The running plan
  // ---------------------------------------------------------------------------

  /** The plan of the running attempt. */
  function PlanOf(s: System, i: nat): StatementPlan
    requires IsRunning(s, i)
  {
    s.attempts[i].plan
  }

  /** MongoDB matches the document with the compiled filter. */
  ghost predicate Selected(p: Predicate, d: Doc)
  {
    Filters.PredicateDocument(p).Ok? && MongoMatching.Matches(Filters.PredicateDocument(p).value, d)
  }

  /** A delete event of a running `DELETE` removes the document if and only if MongoDB matches it with
      the compiled filter, and changes nothing else. */
  lemma DeleteEffect(config: Config, s: System, i: nat, id: nat)
    requires IsRunning(s, i) && PlanOf(s, i).Delete? && id in s.documents
    ensures var s' := Step(config, s, DeleteOne(i, id));
            && (id !in s'.documents <==> Selected(PlanOf(s, i).filter, s.documents[id]))
            && (id in s'.documents ==> s' == s)
            && AgreeElsewhere(s.documents, s'.documents, id) && s'.log == s.log && s'.attempts == s.attempts
  {
  }

  /** An update event of a running `UPDATE` replaces a matched document by what its `$set` document makes
      of it, which for dot-free targets is the simultaneous assignment, and otherwise changes nothing. */
  lemma UpdateEffect(config: Config, s: System, i: nat, id: nat)
    requires IsRunning(s, i) && PlanOf(s, i).Update? && id in s.documents
    ensures var s', plan, d := Step(config, s, UpdateOne(i, id)), PlanOf(s, i), s.documents[id];
            var fields := Executor.UpdateFields(plan.assignments);
            && id in s'.documents
            && AgreeElsewhere(s.documents, s'.documents, id) && s'.log == s.log && s'.attempts == s.attempts
            && (if Selected(plan.filter, d) && fields.Ok? && Executor.ApplySet(d, fields.value).Some?
                then s'.documents[id] == Executor.ApplySet(d, fields.value).value
                else s' == s)
  {
  }

  lemma UpdateEffectDotFree(config: Config, s: System, i: nat, id: nat)
    requires IsRunning(s, i) && PlanOf(s, i).Update? && id in s.documents
    requires Executor.Assignable(PlanOf(s, i).assignments) && Executor.DotFreeAssignments(PlanOf(s, i).assignments)
    ensures var s', plan, d := Step(config, s, UpdateOne(i, id)), PlanOf(s, i), s.documents[id];
            var xs := Executor.AssignmentSettings(plan.assignments);
            if Selected(plan.filter, d) && AllSettable(d, xs)
            then id in s'.documents && Simultaneous(d, xs, s'.documents[id])
            else s' == s
  {
    UpdateEffect(config, s, i, id);
    AppliedAtOnce(PlanOf(s, i).assignments, s.documents[id]);
  }

  /** An insert event of a running `INSERT` stores row `row` under a fresh identity, with a generated
      `_id` if the row brings none, once every row of the plan can be built; otherwise nothing changes. */
  lemma InsertEffect(config: Config, s: System, i: nat, row: nat, id: nat, generatedId: string)
    requires IsRunning(s, i) && PlanOf(s, i).Insert?
    ensures var s', plan := Step(config, s, InsertOne(i, row, id, generatedId)), PlanOf(s, i);
            if id !in s.documents && row < |plan.rows|
               && forall r :: 0 <= r < |plan.rows| ==> Executor.BuiltDocument(plan.columns, plan.rows[r]).Ok?
            then
              && id in s'.documents && s'.log == s.log && s'.attempts == s.attempts
              && AgreeElsewhere(s.documents, s'.documents, id)
              && StoresRow(Executor.BuiltDocument(plan.columns, plan.rows[row]).value, s'.documents[id], generatedId)
            else s' == s
  {
    var plan := PlanOf(s, i);
    assert (forall r :: 0 <= r < |plan.rows| ==> Executor.BuiltDocument(plan.columns, plan.rows[r]).Ok?)
           <==> RowsBuildable(plan);
  }

  /** The stored document is the built one, with a generated identifier if it has none. */
  ghost predicate StoresRow(built: Doc, stored: Doc, generatedId: string)
  {
    && "_id" in stored
    && (forall k :: k in built ==> k in stored && stored[k] == built[k])
    && (forall k :: k in stored && k !in built ==> k == "_id")
    && ("_id" !in built ==> stored["_id"] == ObjectId(generatedId))
  }

  /** A statement whose filter names a literal dotted key writes nothing, whatever event is tried. */
  lemma DottedFilterWritesNothing(config: Config, s: System, e: Event)
    requires IsWrite(e) && IsRunning(s, e.attempt) && ConditionOf(PlanOf(s, e.attempt)).Some?
    requires Filters.HasDottedLeaf(ConditionOf(PlanOf(s, e.attempt)).value)
    ensures Step(config, s, e) == s
  {
    Filters.CompilationExact(ConditionOf(PlanOf(s, e.attempt)).value);
  }

  // ---------------------------------------------------------------------------
  // The prepared statement
  // ---------------------------------------------------------------------------

  lemma RunNext(config: Config, s: System, events: seq<Event>, e: Event)
    ensures Run(config, s, events + [e]) == Step(config, Run(config, s, events), e)
  {
    assert (events + [e])[..|events|] == events;
  }

  /** The running plan with its audit context. */
  function WriteOf(s: System, i: nat): ResolvedWrite
    requires IsRunning(s, i)
  {
    ResolvedWrite(s.attempts[i].plan, s.attempts[i].context)
  }

  /** In every reachable state, a running attempt runs the statement it began with, up to a lossless
      retagging of its one value. */
  lemma RunningSameStatement(config: Config, documents: map<nat, Doc>, events: seq<Event>, i: nat)
    requires IsRunning(Run(config, Start(documents), events), i)
    ensures i < |Begun(events)|
    ensures SameStatement(Begun(events)[i], WriteOf(Run(config, Start(documents), events), i))
  {
    var s := Run(config, Start(documents), events);
    RunKeepsAudit(config, documents, events);
    OwnedSameStatement(config, Begun(events)[i], s.attempts[i]);
  }

  lemma OwnedSameStatement(config: Config, begun: StatementPlan, p: Phase)
    requires p.Running? && OwnPhase(config, begun, p)
    ensures SameStatement(begun, ResolvedWrite(p.plan, p.context))
  {
    if p.context.Some? {
      var ambiguity := Detect(begun, config.schema).value[0];
      ApplyAfterValidation(begun, ambiguity, p.context.value.selected);
    }
  }

  /** The attempt began with the lowered statement, bound to the parameters, and is running. */
  ghost predicate RunsStatement(
    config: Config, documents: map<nat, Doc>, events: seq<Event>, i: nat, plan: StatementPlan,
    parameters: seq<SqlValue>)
  {
    && IsRunning(Run(config, Start(documents), events), i) && i < |Begun(events)|
    && Lowered(plan, config.schema) && BindParameters(plan, parameters, config.schema) == Ok(Begun(events)[i])
  }

  /** Over runs: a delete event of a prepared `DELETE` removes a document exactly when the prepared
      condition holds of it under the parameters, each direction up to its null and missing cases, and
      otherwise leaves the state as it was. */
  lemma PreparedDeleteInRun(
    config: Config, documents: map<nat, Doc>, events: seq<Event>, i: nat, plan: StatementPlan,
    parameters: seq<SqlValue>, id: nat)
    requires plan.Delete? && RunsStatement(config, documents, events, i, plan, parameters)
    requires NamesReadable(plan.filter) && id in Run(config, Start(documents), events).documents
    ensures var s := Run(config, Start(documents), events);
            var s' := Run(config, Start(documents), events + [DeleteOne(i, id)]);
            var d := s.documents[id];
            && (NoExtraMatch(plan.filter, d) && id !in s'.documents ==> Holds(plan, parameters, d))
            && (NoMissedMatch(plan.filter, d) && Holds(plan, parameters, d) ==> id !in s'.documents)
            && (id in s'.documents ==> s' == s) && AgreeElsewhere(s.documents, s'.documents, id)
  {
    var s := Run(config, Start(documents), events);
    RunNext(config, Start(documents), events, DeleteOne(i, id));
    RunningSameStatement(config, documents, events, i);
    DeleteOfStatement(plan, parameters, config.schema, Begun(events)[i], s.documents[id]);
    DeleteInState(config, s, i, id, Begun(events)[i]);
  }

  lemma DeleteInState(config: Config, s: System, i: nat, id: nat, begun: StatementPlan)
    requires IsRunning(s, i) && begun.Delete? && SameStatement(begun, WriteOf(s, i)) && id in s.documents
    ensures var s' := Step(config, s, DeleteOne(i, id));
            && (id !in s'.documents <==> DeletesDocument(begun, s.documents[id]))
            && (id in s'.documents ==> s' == s) && AgreeElsewhere(s.documents, s'.documents, id)
  {
    DeleteEffect(config, s, i, id);
  }

  /** Over runs: an update event of a prepared `UPDATE` leaves the state as it was, or makes of the
      document the simultaneous assignment of the resolved values, each possibly retagged losslessly; the
      latter only if, and if the targets can be set then always if, the prepared condition holds of it. */
  lemma PreparedUpdateInRun(
    config: Config, documents: map<nat, Doc>, events: seq<Event>, i: nat, plan: StatementPlan,
    parameters: seq<SqlValue>, id: nat)
    returns (xs: seq<Setting>)
    requires plan.Update? && RunsStatement(config, documents, events, i, plan, parameters)
    requires NamesReadable(plan.filter) && TargetsAssignable(plan)
    requires id in Run(config, Start(documents), events).documents
    ensures var s := Run(config, Start(documents), events);
            var s' := Run(config, Start(documents), events + [UpdateOne(i, id)]);
            var d := s.documents[id];
            && AssignsThrough(plan, parameters, WriteOf(s, i), xs)
            && id in s'.documents && AgreeElsewhere(s.documents, s'.documents, id)
            && (s' == s || Simultaneous(d, xs, s'.documents[id]))
            && (NoExtraMatch(plan.filter, d) && s' != s ==> Holds(plan, parameters, d))
            && (NoMissedMatch(plan.filter, d) && Holds(plan, parameters, d) && AllSettable(d, xs) ==>
                  Simultaneous(d, xs, s'.documents[id]))
  {
    var s := Run(config, Start(documents), events);
    RunNext(config, Start(documents), events, UpdateOne(i, id));
    RunningSameStatement(config, documents, events, i);
    xs := UpdateOfStatement(plan, parameters, config.schema, Begun(events)[i], WriteOf(s, i), s.documents[id]);
    UpdateInState(config, s, i, id);
  }

  lemma UpdateInState(config: Config, s: System, i: nat, id: nat)
    requires IsRunning(s, i) && PlanOf(s, i).Update? && id in s.documents
    ensures var s', updated := Step(config, s, UpdateOne(i, id)), UpdatedDocument(PlanOf(s, i), s.documents[id]);
            && id in s'.documents && AgreeElsewhere(s.documents, s'.documents, id)
            && (updated.Some? ==> s'.documents[id] == updated.value) && (updated.None? ==> s' == s)
  {
  }

  /** Over runs: an insert event of a prepared `INSERT` under a fresh identity stores row `row`, each
      resolved value at its column, with a generated `_id` if no column brings one. */
  lemma PreparedInsertInRun(
    config: Config, documents: map<nat, Doc>, events: seq<Event>, i: nat, plan: StatementPlan,
    parameters: seq<SqlValue>, row: nat, id: nat, generatedId: string)
    requires plan.Insert? && RunsStatement(config, documents, events, i, plan, parameters)
    requires ColumnsInsertable(plan.columns) && plan.columns != [] && row < |plan.rows|
    requires id !in Run(config, Start(documents), events).documents
    ensures var s := Run(config, Start(documents), events);
            var s' := Run(config, Start(documents), events + [InsertOne(i, row, id, generatedId)]);
            && id in s'.documents && AgreeElsewhere(s.documents, s'.documents, id)
            && exists built: Doc :: BuildsRow(plan.columns, plan.rows[row], parameters, Ok(built))
                                    && StoresRow(built, s'.documents[id], generatedId)
  {
    var s, begun, e := Run(config, Start(documents), events), Begun(events)[i], InsertOne(i, row, id, generatedId);
    RunNext(config, Start(documents), events, e);
    RunningSameStatement(config, documents, events, i);
    RowOfStatement(plan, parameters, config.schema, begun, row);
    assert PlanOf(s, i) == begun;
    forall r | 0 <= r < |begun.rows| ensures Executor.BuiltDocument(begun.columns, begun.rows[r]).Ok? {
      RowOfStatement(plan, parameters, config.schema, begun, r);
    }
    InsertEffect(config, s, i, row, id, generatedId);
    var built := Executor.BuiltDocument(plan.columns, begun.rows[row]).value;
    assert BuildsRow(plan.columns, plan.rows[row], parameters, Ok(built));
  }
}
