# Verified model of the SQL-to-MongoDB write path

The proxy accepts a small SQL dialect and writes to MongoDB through a typed plan. This project models
that write path in Dafny and proves properties of it that span its components:

- the **executor** translates plans into documents, `$set` updates and filters; MongoDB itself is a
  small evaluator (`Documents`, `Assignments`, `Filters`);
- the **type policy and binder** validate values and substitute parameters, with the separate
  prepare-time inference of parameter types (`TypePolicy`, `Binding`, `BindingTheorems`, `Parameters`);
- **schema discovery** infers a profile from sampled documents, and the **catalog** projects it to
  columns (`Discovery`, `Catalog`, `Resolve`);
- the **ambiguity gate** detects ambiguous writes, asks an arbitrary resolver, validates, applies,
  executes and audits (`AmbiguityPolicy`, `WriteTyping`, `Gate`, `ResolverContract`). `Runs` is the
  transition system of many such attempts over one collection and one audit log.

`Conformance` ties them together: every run keeps stored documents inside the discovered schema.
`StatementMeaning` follows one prepared statement from its parameters through the gate to its effect on a
document, and `RunMeaning` finds that effect again in the events of every run. `DottedTarget` and `GateExamples` hold concrete runs on which the code falls short.

Code that changes state step by step is imperative here too: `Executor.DocumentCell`,
`Discovery.Observations`, `AmbiguityPolicy.PathSet`, `Parameters.TypeTable` and `Gate.AuditLog` are the
objects the source mutates, and each method is proved equal to a specification function. The theorems
are about those functions.

## Premises

- `Lowering.Lowered` collects what lowering guarantees of a plan (crates/sql-engine/src/lowering.rs:254-270,
  297-315): rows as long as the column list, values validated, paths profiled.
- Target paths of updates are dot-free in `Conformance.RunsConform`; the code checks only one-segment
  paths. `Conformance.UpdateConformsExactly` shows that the premise cannot be weakened.
- Filter paths are dot-free, non-empty and without a leading dollar sign in `FilterMeaning`; the filter
  compiler does not check this. Its other premise, that no literal is null, follows from the type policy
  (`StatementMeaning.PreparedFilterMeaning`).
- A generated `_id` and fields that were only ever null are exempt from conformance, as the type policy
  accepts any literal for the latter.

## What the proofs bring to light

- **A lost audit record.** A reply with confidence minus zero passes validation when the configured
  minimum is zero, but has no basis-point form (its rounding prints as "-0"). The attempt then fails
  without a record. `Gate.RecordLossExact` gives the exact condition, `GateExamples.MinusZeroLosesRecord` a run.
- **A dotted segment below the top level** makes `$set` write to a place outside the schema
  (`DottedTarget.RunLeavesSchema`).
- **Negated filters** also match null and missing fields, and `IS NULL` never matches a missing one
  (`FilterMeaning.LeafAgreementIsExact`, and `FilterMeaning.CompiledFilterContained` for each direction).
- **An ambiguity that only a filter mentions** under a nested path can never be approved: the one
  candidate that is offered fails when applied (`Gate.NestedFilterNeverApproved`, `Runs.NestedFilterNeverRuns`; a
  run in `GateExamples.NestedDeleteAlwaysBlocked`).
- **The resolver contract** differs between the two sides for type candidates on nested paths and for
  float or placeholder previews longer than the service allows (`ResolverContract.RequestAcceptedExactly`; a
  request in `GateExamples.NestedRetypeRefused`).

## Model

| member | source | states |
|---|---|---|
| `Conformance.RunsConform` | crates/proxy/src/ambiguity.rs:45-170 | Whole-run conformance: if every stored document starts inside the profile inferred from a sample, then after any interleaving of any number of attempts by lowered plans with dot-free update targets, with any resolver answers, any generated identifiers, and updates or inserts that stop after any document, every path of every stored document still holds null, a type observed for that path, or anything at all where only null was ever observed; created parents included |
| `Conformance.RunKeepsSafe` | crates/proxy/src/ambiguity.rs:45-170 | The invariant behind it, over all runs and for any schema whose parents are profiled as documents: stored documents conform, every waiting attempt keeps an admissible plan with the one ambiguity detected for it, and every running attempt only writes values of known types to profiled, unambiguous places |
| `Conformance.RunsFromSampleConform` | crates/schema-discovery/src/lib.rs:140-168 | The same with the sample itself as the initial collection, so that no premise on stored data is left |
| `Conformance.PreparedRunsConform` | crates/sql-engine/src/binding.rs:26-92 | The same for plans obtained by binding lowered prepared statements with dot-free update targets, with no premise on the parameters: what bind-time validation checks is enough |
| `Conformance.SampledDocumentsConform` | crates/schema-discovery/src/lib.rs:421-436 | Every sampled document fits the profile inferred from the sample |
| `Conformance.UpdateConforms` | crates/mongo-executor/src/lib.rs:367-409 | One update by an approved plan keeps a conforming document conforming, at every path of the document |
| `Conformance.InsertConforms` | crates/mongo-executor/src/lib.rs:344-365 | One inserted document conforms, also with the identifier the server adds |
| `Conformance.UpdateConformsExactly` | crates/schema-discovery/src/lib.rs:100-104 | The dot-free premise is exact: an update that passed the gate and that MongoDB applies keeps a document inside an inferred schema if and only if no target segment contains a dot, because the dotted-key check looks at one-segment paths only |
| `Conformance.DottedTargetEscapes` | crates/mongo-executor/src/lib.rs:321-329 | Why: the place MongoDB writes to for a dotted target is a path that was never observed |
| `DottedTarget.RunLeavesSchema` | crates/schema-discovery/src/lib.rs:100-104 | Concrete run: from the one sampled document `{a: {"b.c": 1}}` a clear update of `a."b.c"` reaches a document outside the inferred schema in two events |
| `Gate.ResolveWritePlan` | crates/proxy/src/ambiguity.rs:45-83 | The imperative gate returns what the specified passage returns and appends exactly its records to the shared log |
| `Gate.ResolveSingleAmbiguity` | crates/proxy/src/ambiguity.rs:85-170 | The same for the one-ambiguity branch: ask only when an executable candidate exists, then validate, apply, and record every refusal |
| `Gate.RecordExecution` | crates/proxy/src/ambiguity.rs:186-212 | Appends one record for an attempt that was ambiguous and nothing for a clear one |
| `Gate.RecordMongoExecutionFailure` | crates/proxy/src/ambiguity.rs:215-235 | Appends one blocked record for an ambiguous attempt whose execution failed |
| `Gate.ExecuteWritePlan` | crates/proxy/src/lib.rs:332-370 | The executor is reached exactly when the gate returns a plan, with that plan; the log grows by the gate's records or by the one record of the outcome |
| `Gate.ApprovalIsAllowed` | crates/proxy/src/ambiguity.rs:100-170 | Whatever the resolver answers, an approved plan comes from an allowed candidate other than rejection, validated for the one detected ambiguity and applied; the audit context carries operation, ambiguity and allow-list of the plan and a confidence of at most 10000 basis points |
| `Gate.ApprovalPossibleExactly` | crates/proxy/src/ambiguity.rs:85-170 | Some answer gets an ambiguous plan approved if and only if an allowed candidate can be applied and the minimum confidence is not above 1 |
| `Gate.ApprovalExact` | crates/ambiguity-policy/src/lib.rs:324-347 | A reply is approved if and only if it answers the request sent (contract v2, profile version, operation, path), its confidence is a number from 0 and the minimum up to 1 and not minus zero, its rationale has 1 to 500 bytes, and its candidate is allowed and applicable; the context then tells choice, evidence and rounded confidence, and the plan is the one the candidate makes |
| `Gate.DenialExact` | crates/proxy/src/ambiguity.rs:106-150 | What a refusal returns and records: unavailable resolver; else, unless the candidate failed on application, the first of stale profile version, confidence out of range, or invalid reply; with the evidence of the plan and no candidate |
| `Gate.RequestCarriesEvidence` | crates/ambiguity-policy/src/lib.rs:234-262 | The request tells version, operation, path, evidence, proposed value and allow-list of the very ambiguity |
| `Gate.EvidenceKept` | crates/ambiguity-policy/src/audit.rs:28-40 | The log keeps the operation of the plan and, of each ambiguity, display name and kinds |
| `Gate.ExecutableExact` | crates/proxy/src/ambiguity.rs:172-184 | The resolver is asked exactly when more than rejection is on offer |
| `Gate.OutcomeRecordExact` | crates/proxy/src/ambiguity.rs:186-235 | The record of an executed attempt repeats the approved context and the outcome |
| `Gate.NestedFilterNeverApproved` | crates/ambiguity-policy/src/lib.rs:375-385 | An ambiguity at a nested path that the plan only reads is put to the resolver, and every answer is refused |
| `GateExamples.MinusZeroLosesRecord` | crates/ambiguity-policy/src/audit.rs:61-71 | Concrete run: an update of a nested field missing in one sampled document, answered with confidence minus zero under a minimum of zero, ends with one ambiguous attempt over and an empty log |
| `GateExamples.NestedDeleteAlwaysBlocked` | crates/ambiguity-policy/src/lib.rs:375-385 | Concrete run: a delete by a nested field missing in one sampled document is put to the resolver and blocked under every answer |
| `Gate.RecordLossExact` | crates/proxy/src/ambiguity.rs:140-157 | For an approvable candidate, some answer makes the attempt end without any audit record if and only if the configured minimum confidence is not above zero |
| `Gate.OnlyMinusZeroIsDropped` | crates/ambiguity-policy/src/audit.rs:61-71 | For non-negative finite minima, the only answer that loses the record has a confidence of minus zero under a minimum of zero |
| `Gate.FromRatioExact` | crates/ambiguity-policy/src/audit.rs:61-71 | A ratio has a basis-point form exactly when it is a number from 0 to 1 other than minus zero, and the form is within half a basis point |
| `Runs.AuditConservation` | crates/proxy/src/ambiguity.rs:45-170 | Conservation in every reachable state: audit records plus ambiguous attempts in flight plus attempts dropped without a record equal the number of `Begin` events whose plan detection finds ambiguous |
| `Runs.OneRecordPerAttempt` | crates/proxy/src/ambiguity.rs:185-263 | In every reachable state attempts correspond to the `Begin` events; each phase tells what detection found in the plan begun (waiting: its one ambiguity; running: clear, or resolved by an allowed applicable candidate other than rejection); each finished ambiguous attempt that was not dropped owns exactly one record, all others own none; and each record carries operation, ambiguities and allow-list of the plan begun and names a candidate exactly when that plan went on to execution |
| `Runs.NothingDroppedAboveZero` | crates/proxy/src/lib.rs:218-235 | With a positive minimum confidence nothing is ever dropped, so records and attempts in flight account for every `Begin` event with an ambiguous plan |
| `Runs.CountedAsFound` | crates/proxy/src/ambiguity.rs:57-83 | Counting ambiguous attempts by where they stand agrees with counting the plans begun that detection finds ambiguous |
| `Runs.NestedFilterNeverRuns` | crates/ambiguity-policy/src/lib.rs:375-385 | In no run does an attempt whose only ambiguity is a nested path that its plan reads but does not write get past the gate |
| `Runs.FinishedForever` | crates/proxy/src/ambiguity.rs:85-170 | Attempts never disappear, and a rejected, blocked, dropped or completed attempt stays as it is in every continuation |
| `Runs.BlockedNeverWrites` | crates/proxy/src/lib.rs:332-370 | After any continuation, no event of a finished attempt, in particular of one blocked by the gate, changes anything |
| `Runs.WritesOnlyWhileRunning` | crates/proxy/src/lib.rs:332-370 | In every reachable state, documents are stored, changed or removed only by a running attempt whose plan is what the gate let through of the plan begun: the clear plan itself, or its one ambiguity resolved by an allowed candidate; by a plan of the matching kind, one document at a time, insertion never overwriting, all other documents unchanged |
| `Runs.EventsRefineGate` | crates/proxy/src/ambiguity.rs:45-170 | The two events of one attempt leave the log and the plan that the sequential gate method leaves |
| `Runs.FinishRefinesRecording` | crates/proxy/src/ambiguity.rs:185-235 | The last event of an attempt appends what the sequential recording methods append |
| `RunMeaning.DeleteEffect` | crates/mongo-executor/src/lib.rs:183-204 | A delete event of a running DELETE removes the document if and only if MongoDB matches it with the compiled filter; otherwise, and in every other respect, the state stays as it is |
| `RunMeaning.UpdateEffect` | crates/mongo-executor/src/lib.rs:154-181 | An update event of a running UPDATE replaces the document by what its `$set` document makes of it if MongoDB matches it and the set applies; otherwise the state stays as it is |
| `RunMeaning.UpdateEffectDotFree` | crates/mongo-executor/src/lib.rs:154-181 | For assignable dot-free targets: a matched document whose targets can be set becomes the simultaneous assignment, and any other is left alone |
| `RunMeaning.InsertEffect` | crates/mongo-executor/src/lib.rs:104-152 | An insert event of a running INSERT stores exactly the row it names, under a fresh identity and with a generated `_id` only if the row has none, and only if every row of the plan can be built |
| `RunMeaning.DottedFilterWritesNothing` | crates/mongo-executor/src/lib.rs:321-329 | A running statement whose filter names a literal dotted key writes nothing, whatever event is tried |
| `RunMeaning.RunningSameStatement` | crates/proxy/src/ambiguity.rs:45-170 | In every reachable state a running attempt runs the statement it began with, up to a lossless retagging of its one value |
| `RunMeaning.PreparedDeleteInRun` | crates/mongo-executor/src/lib.rs:183-204 | Over runs: a delete event removes a document exactly when the condition as prepared holds of it under the parameters, each direction up to its null and missing cases |
| `RunMeaning.PreparedUpdateInRun` | crates/mongo-executor/src/lib.rs:154-181 | Over runs: an update event leaves the state alone or makes the document the simultaneous assignment of the resolved values; the latter only if the prepared condition holds, and always if it holds and the targets can be set |
| `RunMeaning.PreparedInsertInRun` | crates/mongo-executor/src/lib.rs:104-152 | Over runs: an insert event stores the row it names with every placeholder resolved |
| `StatementMeaning.PreparedFilterMeaning` | crates/mongo-executor/src/lib.rs:240-306 | End to end for conditions of SELECT, UPDATE and DELETE: for a lowered statement with readable names the bound condition always compiles; where no `<>` or `NOT IN` meets a null or missing field, MongoDB matches only documents of which the prepared condition is true in SQL under the parameters, and where no `IS NULL` meets a missing field it matches all of them |
| `StatementMeaning.GateKeepsStatement` | crates/ambiguity-policy/src/lib.rs:359-442 | Whatever the resolver answers, the gate hands on the statement it was given, except that a retagging candidate replaces the one assigned value losslessly |
| `StatementMeaning.PreparedUpdateMeaning` | crates/mongo-executor/src/lib.rs:154-181 | End to end for UPDATE, from parameters through binding and the gate to the executed plan: a document changes only if the prepared condition holds of it and does change if also each target can be set (up to the null and missing cases above); then all resolved values, each possibly retagged losslessly by the resolver's choice, are assigned at once and every other path keeps its value |
| `StatementMeaning.PreparedDeleteMeaning` | crates/mongo-executor/src/lib.rs:183-204 | End to end for DELETE through the gate: a document is removed exactly when the prepared condition holds of it under the parameters, each direction up to its own null and missing cases |
| `StatementMeaning.PreparedInsertMeaning` | crates/mongo-executor/src/lib.rs:104-152 | End to end for INSERT through the gate: every row of the executed plan builds, each resolved value lies at its column, and the leaves are exactly the columns |
| `Executor.InsertNestedValue` | crates/mongo-executor/src/lib.rs:416-446 | In-place insertion equals the declarative insertion on success, and leaves the document unchanged on failure |
| `Executor.InsertAtIsFreshSet` | crates/mongo-executor/src/lib.rs:416-446 | The declarative insertion is MongoDB's path assignment restricted to paths that hold nothing |
| `Executor.BuildInsertDocument` | crates/mongo-executor/src/lib.rs:344-365 | The loop builds the specified document or stops with the specified error |
| `Executor.BuilderAccepts` | crates/mongo-executor/src/lib.rs:344-365 | A row is accepted exactly when lengths match, no value is a placeholder, no column is empty or a literal dotted key, and the columns are pairwise non-overlapping |
| `Executor.BuilderAcceptsSpelledOut` | crates/mongo-executor/src/lib.rs:344-365 | The same with every condition spelled out on segments and prefixes |
| `Executor.BuildRefusal` | crates/mongo-executor/src/lib.rs:344-365 | A refusal is of the unsupported kind exactly when a literal dotted key is reached before any other fault |
| `Plans.LiteralsAreFaithful` | crates/mongo-executor/src/lib.rs:331-342 | Every value but a placeholder is stored, and can be read back from what is stored |
| `Executor.BuilderContents` | crates/mongo-executor/src/lib.rs:344-365 | The built document holds each row value at its column as read back by the proxy, its paths are exactly the prefixes of columns, and its leaves are exactly the columns |
| `Executor.BuilderIgnoresColumnOrder` | crates/mongo-executor/src/lib.rs:344-365 | Permuting columns together with values changes neither acceptance nor the document |
| `Documents.ValueAtPathIsLookup` | crates/proxy/src/lib.rs:1059-1065 | The proxy's read-back by parents and last segment is path lookup |
| `Paths.OverlapIsPrefix` | crates/mongo-executor/src/lib.rs:411-414 | Comparing common prefixes means that one path is a prefix of the other |
| `Executor.UpdateDocument` | crates/mongo-executor/src/lib.rs:367-382 | The loop over assignments builds the specified `$set` document or stops with the first fault |
| `Executor.UpdateAccepts` | crates/mongo-executor/src/lib.rs:384-409 | An update is translated exactly when there is an assignment, every segment is non-empty without a leading dollar sign, no target is a literal dotted key, no value is a placeholder, and targets do not overlap |
| `Executor.UpdateAcceptsSpelledOut` | crates/mongo-executor/src/lib.rs:384-414 | The same with every condition spelled out on segments and prefixes |
| `Executor.UpdateRefusal` | crates/mongo-executor/src/lib.rs:367-409 | A refusal is of the unsupported kind exactly when the first faulty target is a literal dotted key |
| `Executor.SetFieldsExact` | crates/mongo-executor/src/lib.rs:367-382 | With dot-free segments no `$set` key overwrites another: the document has one entry per assignment with its value |
| `Executor.UpdateIsSimultaneous` | crates/mongo-executor/src/lib.rs:367-409 | A translated update is a simultaneous assignment: keys may be processed in any order, each assigned path reads back its value, parents hold documents, every other path is unchanged, and it succeeds exactly when each assignment alone would |
| `Documents.LookupAfterSet` | crates/mongo-executor/src/lib.rs:154-181 | What every path holds after one `$set` entry, in terms of the document before |
| `Documents.SetPathSucceeds` | crates/mongo-executor/src/lib.rs:154-181 | One `$set` entry fails exactly when some parent on its path is present and not a document |
| `Documents.SetPathCommutes` | crates/mongo-executor/src/lib.rs:411-414 | Two `$set` entries on non-overlapping paths commute, failures included |
| `Assignments.ApplyAllIsSimultaneous` | crates/mongo-executor/src/lib.rs:367-382 | Non-overlapping entries applied one by one are one simultaneous assignment |
| `Assignments.SimultaneousIsUnique` | crates/mongo-executor/src/lib.rs:367-382 | A simultaneous assignment determines the document: two documents that meet the specification are equal |
| `Assignments.ApplyAllSucceeds` | crates/mongo-executor/src/lib.rs:367-382 | They succeed together exactly when each succeeds alone |
| `Assignments.ApplyAllOrderIrrelevant` | crates/mongo-executor/src/lib.rs:367-382 | Any rearrangement of them gives the same document or the same failure |
| `FilterMeaning.CompiledFilterSelects` | crates/mongo-executor/src/lib.rs:247-306 | For every null-free, placeholder-free predicate with readable paths and every document, the compiled filter matches exactly the documents described by `Selects`: SQL truth, plus the null and missing matches of `<>` and `NOT IN`, with `IS [NOT] NULL` also demanding presence |
| `Filters.CompilationExact` | crates/mongo-executor/src/lib.rs:247-342 | Compilation succeeds exactly when no leaf names a literal dotted key, no value is a placeholder and no conjunction or disjunction is empty; and the kind of failure when only one of the two reasons applies |
| `FilterMeaning.CompiledFilterReadsSplit` | crates/mongo-executor/src/lib.rs:321-329 | Where a nested path has a dot inside a segment, the filter selects the documents the predicate describes once every path is split at every dot |
| `MongoMatching.ComparisonExact` | crates/mongo-executor/src/lib.rs:247-306 | The comparison the evaluator assumes: integers of either width and doubles as numbers, strings and identifiers lexicographically, dates by time, false before true, and nothing across brackets |
| `SqlTruth.KleeneLaws` | crates/mongo-executor/src/lib.rs:247-306 | The three-valued connectives the SQL reading assumes obey Kleene's laws |
| `FilterMeaning.CompiledFilterContained` | crates/mongo-executor/src/lib.rs:247-306 | Each side on its own, for compound predicates too: without `<>` or `NOT IN` on a null or missing field, in particular without such leaves, the filter matches nothing that SQL does not select; without `IS NULL` on a missing field it misses nothing |
| `FilterMeaning.CompiledFilterIsSql` | crates/mongo-executor/src/lib.rs:247-306 | Where negated fields are present and non-null and fields under `IS NULL` are present, the filter matches exactly when the SQL three-valued predicate is true |
| `FilterMeaning.LeafAgreementIsExact` | crates/mongo-executor/src/lib.rs:263-291 | For one comparison, list or null test the premise is exact, up to `NOT IN ()`, which SQL grants to null as well |
| `FilterMeaning.NullTestsNeverMatchMissing` | crates/mongo-executor/src/lib.rs:281-290 | Neither null test matches a document without the field |
| `Lowering.ValidatePredicateExact` | crates/sql-engine/src/type_policy.rs:12-32 | The recursive validator accepts exactly the predicates whose every value is valid at its field and whose null tests name profiled fields |
| `TypePolicy.ValidationExact` | crates/sql-engine/src/type_policy.rs:61-129 | A value passes exactly if it is a placeholder, or NULL where it may be written, or a literal for a profiled field that has the decided type whenever collision-free evidence of one shape and one type decides it |
| `Binding.MaximumPlaceholderIndex` | crates/sql-engine/src/binding.rs:94-118 | The loop returns the specified maximum or error |
| `Binding.ParameterCountExact` | crates/sql-engine/src/binding.rs:94-133 | The parameter count is the largest index used anywhere in the plan, attained by some value, or an error exactly when a placeholder is malformed |
| `Binding.PlaceholderOfFormat` | crates/sql-engine/src/binding.rs:192-209 | `$n` denotes n, for every n from 1 to the largest machine word |
| `Binding.PlaceholderExact` | crates/sql-engine/src/binding.rs:192-209 | An index is read exactly from a dollar sign, an optional plus sign and digits worth it; zero and larger numbers are refused |
| `Binding.PositionalBinding` | crates/sql-engine/src/binding.rs:174-183 | Binding `$1`, ..., `$k` to k parameters yields the parameter list itself |
| `Binding.BindPredicateSites` | crates/sql-engine/src/binding.rs:135-172 | Binding a predicate succeeds exactly when every placeholder has a parameter, and resolves each value at its own field |
| `Binding.BoundMeaning` | crates/sql-engine/src/binding.rs:135-183 | Evaluating the bound predicate equals evaluating the original under the parameters, for every document |
| `BindingTheorems.SubstitutionExact` | crates/sql-engine/src/binding.rs:40-92 | On a whole plan substitution succeeds exactly when every placeholder has a parameter, keeps the shape with all paths and operators, and resolves every value |
| `BindingTheorems.BindSucceedsExactly` | crates/sql-engine/src/binding.rs:26-92 | Binding succeeds exactly for parameter lists of literals whose length is the largest index and whose values are valid at every field they reach |
| `BindingTheorems.EverythingBindable` | crates/sql-engine/src/binding.rs:174-183 | With as many parameters as the largest index no placeholder index is out of range |
| `BindingTheorems.BindKeepsLowered` | crates/sql-engine/src/binding.rs:26-92 | A bound plan is placeholder-free, is the substituted original, and keeps every guarantee of lowering |
| `BindingTheorems.BoundFilterMeaning` | crates/sql-engine/src/binding.rs:26-92 | The bound condition of a select, update or delete says of every document what the original says under its parameters |
| `BindingTheorems.ValidateBoundPlanExact` | crates/sql-engine/src/binding.rs:211-233 | Re-validation accepts exactly the plans with valid values and profiled null tests |
| `Parameters.CollectValue` | crates/proxy/src/lib.rs:781-803 | One value extends the type table consistently, or fails exactly when no table consistent with the given one can type it |
| `Parameters.CollectPredicate` | crates/proxy/src/lib.rs:762-779 | The same for all values below a predicate |
| `Parameters.InferParameterTypes` | crates/proxy/src/lib.rs:671-718 | Inference succeeds exactly when some type list fits the plan, one entry per index with the type of every field it is used with, and returns such a list |
| `Parameters.InferredTypeExact` | crates/proxy/src/lib.rs:805-854 | A field is offered bool, int8, float8 or text exactly when it is a collision-free scalar seen with that one type beside null |
| `Parameters.CompatibilityExact` | crates/proxy/src/lib.rs:898-906 | Which declared types may stand for each inferred one |
| `Parameters.ReconciledTypesCompatible` | crates/proxy/src/lib.rs:856-906 | Reconciliation succeeds exactly when no types are declared, or one per parameter that is open or compatible with the inferred one; each resulting type is the declared one, or the inferred one where it was left open |
| `Parameters.PreparedCountMatches` | crates/sql-engine/src/binding.rs:94-118 | The accepted type list has exactly as many entries as binding demands parameters, though the two traversals are separate |
| `Parameters.PrepareThenBind` | crates/proxy/src/lib.rs:671-718 | Prepare-then-bind: for a lowered plan with inferred and reconciled types, parameters decoded under them bind if and only if no null reaches a comparison |
| `Parameters.DecodedHasType` | crates/proxy/src/parameters.rs:17-105 | A decoded parameter has a value of the declared type, and is null exactly when the client sent null |
| `Parameters.BinaryDecodingExact` | crates/proxy/src/parameters.rs:76-105 | For every type, exactly which bytes decode to which value |
| `Parameters.TextDecodingExact` | crates/proxy/src/parameters.rs:41-74 | For every type, exactly which text decodes to which value |
| `Parameters.DecodingExact` | crates/proxy/src/parameters.rs:17-30 | No bytes mean NULL, the format chooses between the two tables, and every refusal has its kind |
| `Parameters.BinaryIntegerRoundTrip` | crates/proxy/src/parameters.rs:76-105 | Decoding the big-endian two's-complement bytes of any int2, int4 or int8 yields that integer |
| `Parameters.BinaryIntegerDecodingExact` | crates/proxy/src/parameters.rs:115-135 | Every byte string of the right length is the encoding of the integer it decodes to, and every other length is refused |
| `Decimal.LosslessIsInverse` | crates/ambiguity-policy/src/lib.rs:543-546 | `parse_integer_losslessly` yields n exactly for the canonical decimal of n, so parsing and formatting undo each other, the minimum included |
| `Decimal.LosslessAcceptsCanonical` | crates/ambiguity-policy/src/lib.rs:543-546 | The accepted strings by form: no plus sign, no leading zero, no minus zero, within the signed 64-bit range |
| `Decimal.SignedIntegerExact` | crates/proxy/src/parameters.rs:41-60 | Parsing of integer text accepts exactly an optional sign and digits in range, leading zeroes included, and yields their value |
| `AmbiguityPolicy.CollectPredicatePaths` | crates/ambiguity-policy/src/lib.rs:458-471 | Collects exactly the paths the predicate names |
| `AmbiguityPolicy.AmbiguityForPath` | crates/ambiguity-policy/src/lib.rs:606-644 | Inserting kinds one by one yields the specified ambiguity of the field, if any |
| `AmbiguityPolicy.DetectWriteAmbiguities` | crates/ambiguity-policy/src/lib.rs:131-160 | The imperative detection equals the specified one |
| `AmbiguityPolicy.DetectionExact` | crates/ambiguity-policy/src/lib.rs:131-160 | Detection fails exactly on reads and unprofiled paths; otherwise it reports each path of the plan that shows a kind of ambiguity, with its evidence, and no other |
| `AmbiguityPolicy.DetectionByKind` | crates/ambiguity-policy/src/lib.rs:606-644 | A path of the plan is reported if and only if its profile holds two types beside null, two shapes, a collision, or a missing document, with exactly the kinds it gives reason for |
| `DetectionMeaning.DetectionOverSample` | crates/ambiguity-policy/src/lib.rs:606-644 | The same over the sample: a path is reported exactly when two documents hold values of different types beside null or of different shapes there, another path has its name, or some document lacks it |
| `AmbiguityPolicy.DetectionFailsInvalid` | crates/ambiguity-policy/src/lib.rs:131-160 | Detection is refused, as invalid input, exactly for reads and for plans with a path that is not profiled |
| `AmbiguityPolicy.DetectionOrdered` | crates/ambiguity-policy/src/lib.rs:131-160 | Ambiguities are reported once per path, in path order |
| `AmbiguityPolicy.CandidatesExact` | crates/ambiguity-policy/src/lib.rs:172-204 | Exactly when each candidate is offered, from the evidence, the sole assignment and the paths of the filter |
| `AmbiguityPolicy.ApplicationExact` | crates/ambiguity-policy/src/lib.rs:359-442 | Exactly when each candidate can be applied to a plan, validated or not, and what it makes of the plan |
| `AmbiguityPolicy.ProposedValueExact` | crates/ambiguity-policy/src/lib.rs:264-287 | The value shown to the resolver is that of the first row at the first column, or of the first assignment, for the path |
| `AmbiguityPolicy.EvidenceExact` | crates/ambiguity-policy/src/lib.rs:289-317 | How each value is shown: its type name and a preview, of strings the first 128 characters |
| `AmbiguityPolicy.ComputeAllowedCandidates` | crates/ambiguity-policy/src/lib.rs:172-204 | The growing set equals the specified allow-list |
| `AmbiguityPolicy.AtMostThreeCandidates` | crates/ambiguity-policy/src/lib.rs:172-204 | At most three candidates are ever offered, and rejection always is |
| `AmbiguityPolicy.ApplyAfterValidation` | crates/ambiguity-policy/src/lib.rs:359-442 | After validation, applying succeeds exactly when the candidate is not rejection and, for a nested path, the plan writes that path; the plan is unchanged but for one losslessly retagged value |
| `AmbiguityPolicy.RetaggingRoundTrip` | crates/ambiguity-policy/src/lib.rs:548-604 | The two retagging candidates undo each other on whole plans |
| `WriteTyping.ClearWriteWellTyped` | crates/sql-engine/src/type_policy.rs:61-129 | In a clear write each non-null value has the only non-null type observed for its field, unless the field was only ever null |
| `WriteTyping.ResolvedPlanWellTyped` | crates/ambiguity-policy/src/lib.rs:359-442 | Whatever candidate is validated and applied, every written value has an observed type of its field, or is null, or the field was only ever null |
| `Discovery.ObserveValue` | crates/schema-discovery/src/lib.rs:421-436 | One call updates exactly the entries of the path and the paths below it in the value, each by one |
| `Discovery.Infer` | crates/schema-discovery/src/lib.rs:140-168 | The nested loops compute the specified profile, and the subtraction of counts never underflows |
| `Discovery.MarkDottedKeyCollisions` | crates/schema-discovery/src/lib.rs:176-191 | Overwrites only the flag, by the number of fields with the same display name |
| `Discovery.InferenceExact` | crates/schema-discovery/src/lib.rs:140-168 | A path is profiled exactly when some sampled document contains it; its count is the number of such documents, present and missing add up to the sample, types and shapes are exactly those occurring, and it is flagged exactly when another profiled path has its display name |
| `Discovery.ParentsProfiled` | crates/schema-discovery/src/lib.rs:421-436 | Every proper prefix of a profiled path is profiled as a document with at least its count |
| `Discovery.DotFreePathsDoNotCollide` | crates/schema-discovery/src/lib.rs:89-92 | In a sample without dotted keys nothing is flagged |
| `Discovery.InferenceIgnoresOrder` | crates/schema-discovery/src/lib.rs:140-168 | Permuting the sample does not change the profile |
| `Discovery.InferredOrdered` | crates/schema-discovery/src/lib.rs:140-168 | Fields are listed once each in path order, under profile version 1 and the sample size |
| `Documents.ProfiledTypes` | crates/schema-discovery/src/lib.rs:438-484 | Which values are profiled with which type and shape |
| `Paths.SplitOfJoin` | crates/schema-discovery/src/lib.rs:89-92 | Splitting a display name restores the path exactly when the path is non-empty and dot-free |
| `Paths.JoinOfSplit` | crates/sql-engine/src/resolve.rs:201-209 | Joining the segments of any text restores the text |
| `Catalog.ProjectCollection` | crates/catalog/src/lib.rs:139-166 | The grouping loops compute the specified columns |
| `Catalog.CatalogIsPartition` | crates/catalog/src/lib.rs:139-166 | Every profiled path is a source of exactly one column, the one that bears its display name, and columns have no other source |
| `Catalog.ColumnsOrdered` | crates/catalog/src/lib.rs:139-166 | Column names are strictly increasing, ordinals are 1 to n, and no column is empty |
| `Catalog.SeveralSourcesIffFlagged` | crates/catalog/src/lib.rs:198-226 | On inferred profiles a column has several sources exactly when its fields are flagged |
| `Catalog.ColumnClaimsAreSound` | crates/catalog/src/lib.rs:198-240 | The projected type stands for every sampled value of every source, and a column that is not nullable was present and non-null in every sampled document |
| `Catalog.ColumnExact` | crates/catalog/src/lib.rs:198-240 | A column says no less than was seen: nullable exactly when some source is missing or null somewhere, ambiguous exactly when there are several sources or a doubtful one, JSON when ambiguous, else the type that renders the one observed type |
| `Catalog.InferredColumnsExact` | crates/catalog/src/lib.rs:139-166 | Every column of an inferred profile obeys that table over the fields that bear its name |
| `Resolve.ResolveInsertColumnExact` | crates/sql-engine/src/resolve.rs:192-214 | Success exactly when the literal key or the fully split path is profiled; the result is profiled, displays as the identifier, and is the literal key whenever that is profiled |
| `Resolve.InsertColumnRoundTrip` | crates/sql-engine/src/resolve.rs:192-214 | The display name of a profiled dot-free path resolves back to it exactly when no literal key shadows it |
| `Resolve.ResolveFieldExact` | crates/sql-engine/src/resolve.rs:159-190 | A path expression names exactly the profiled field spelled by its parts, less an unquoted collection name in front |
| `ResolverContract.RequestAcceptedExactly` | services/ambiguity-resolver/app/contract.py:117-151 | The service accepts the request Rust builds for an ambiguity exactly when version, path, type, shape and preview limits hold and type candidates are offered for one-segment paths only |
| `GateExamples.NestedRetypeRefused` | services/ambiguity-resolver/app/contract.py:117-151 | Concrete disagreement: for an update of a two-segment path observed as integer and as string the proxy sends a request with every field in range, and the service refuses it |
| `ResolverContract.AdvisorAnswerAccepted` | services/ambiguity-resolver/app/providers.py:73-96 | The deterministic advisor's answer always passes the service check, passes the Rust check exactly when the minimum confidence is at most 1, and rejects exactly when nothing else is offered |
| `ResolverContract.AdvisorPreference` | services/ambiguity-resolver/app/providers.py:73-96 | What the advisor recommends for each request of the proxy |
| `ResolverContract.AcceptedRequestIsSound` | services/ambiguity-resolver/app/contract.py:70-151 | What every accepted request satisfies, whoever sent it: limits, no repetition, and evidence that fits the candidates offered |
| `ResolverContract.ServiceCheckSuffices` | services/ambiguity-resolver/app/main.py:35-48 | A recommendation that passes the service's check is validated by the proxy if contract version, confidence and rationale are in order |
| `Redaction.RedactSqlLiterals` | crates/proxy/src/lib.rs:632-669 | The one-pass loop with lookahead computes the specified scan |
| `Redaction.LiteralsDoNotLeak` | crates/proxy/src/lib.rs:632-669 | Non-interference: two queries that differ only inside single-quoted literals, doubled quotes included, give the same output |
| `Redaction.EveryQueryDecomposes` | crates/proxy/src/lib.rs:632-669 | Every query is a well-formed template filled with literal contents |
| `Redaction.OutputDependsOnTemplate` | crates/proxy/src/lib.rs:632-669 | Hence, for all queries, the output depends on the template alone |
| `Redaction.OneLiteralRedacted` | crates/proxy/src/lib.rs:632-669 | A short query with one literal shows the text around it and the mark `'<redacted>'` in its place |
| `Redaction.TruncationExact` | crates/proxy/src/lib.rs:632-669 | Text that reaches 1024 bytes is cut off with an ellipsis, whatever follows |
| `Redaction.PlainTextKept` | crates/proxy/src/lib.rs:632-669 | Shorter text without a literal is kept whole |
| `Redaction.RedactionIsBounded` | crates/proxy/src/lib.rs:632-669 | No output exceeds 1038 bytes of UTF-8 |
| `Redaction.BoundIsTight` | crates/proxy/src/lib.rs:632-669 | The bound is attained |

## Left out

- SQL text, the parser's syntax trees and lowering itself; plans are the starting point and `Lowering.Lowered` is the interface.
- The MongoDB driver: connections, cursors, retries, write concern, network failures and BSON bytes. A write may stop after any document.
- MongoDB's matching inside arrays; paths treat an array as one value, and filters assume that a referenced path meets none.
- The order of fields inside a document: documents are maps, so the insertion order of BSON fields is not represented.
- `_id` immutability and duplicate-key errors; insertion picks an unused identity.
- Execution of SELECT: LIMIT, projection and the conversion of results to wire values.
- Floating-point rounding: finite numbers are reals, with NaN, the infinities and minus zero kept apart. Parsing and printing of floats and the UTF-8 decoder are parameters (`Parameters.Codec`, `ResolverContract.FloatDisplay`).
- Error messages and the wording of rationales; errors are their kinds.
- Sampling of BSON through `SampleValue`: the two value types are merged, and the conversion is part of `Documents.TypeOf` and `Documents.ShapeOf`.
- pgwire, authentication, environment configuration, session queries, HTTP and the language-model advisors; an answer of the resolver is arbitrary.
- Mutex poisoning, task cancellation and persistence of profiles; a reply or the end of an execution may simply never come.
- The overflow check on column ordinals beyond 32 bits, and platforms whose word size is not 64 bits.
- Executor.InsertNestedValue: does not model aliasing through the mutable borrow of a nested document; the nested document moves into a cell of its own and is written back.
- FilterMeaning.CompiledFilterIsSql: gives the premise in one direction for compound predicates, because disjunctions can agree by accident; FilterMeaning.CompiledFilterContained separates the two directions, and the exact meaning of every predicate is in FilterMeaning.CompiledFilterSelects.
