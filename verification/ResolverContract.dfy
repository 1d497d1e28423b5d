/** The Python side of the resolver contract, against the requests the proxy builds and the replies it
    accepts (services/ambiguity-resolver/app). */
module ResolverContract {
  import opened Common
  import opened Decimal
  import opened Paths
  import opened Documents
  import opened Plans
  import opened AmbiguityPolicy

  /** A request as it arrives: sets have become lists. */
  datatype WireRequest = WireRequest(
    contractVersion: string,
    schemaVersion: nat,
    operation: WriteOperation,
    targetPath: FieldPath,
    writeValue: Option<WriteValueEvidence>,
    kinds: seq<AmbiguityKind>,
    types: seq<ObservedType>,
    shapes: seq<ObservedShape>,
    missing: nat,
    allowed: seq<ResolutionCandidate>)

  ghost predicate Unique<T>(s: seq<T>) { forall i, j :: 0 <= i < j < |s| ==> s[i] != s[j] }

  /** `s` lists the elements of `elements` without repetition. */
  ghost predicate Lists<T(!new)>(s: seq<T>, elements: set<T>)
  {
    Unique(s) && forall x :: x in s <==> x in elements
  }

  /** The wire form of a request, up to the order in which sets are listed. */
  ghost predicate Serializes(request: ResolverRequest, wire: WireRequest)
  {
    && wire.contractVersion == request.contractVersion && wire.schemaVersion == request.schemaVersion
    && wire.operation == request.operation && wire.targetPath == request.targetPath
    && wire.writeValue == request.writeValue && wire.missing == request.missing
    && Lists(wire.kinds, request.kinds) && Lists(wire.types, request.types)
    && Lists(wire.shapes, request.shapes) && Lists(wire.allowed, request.allowed)
  }

  const TYPE_CANDIDATES: set<ResolutionCandidate> := {KeepString, ParseInteger, KeepInteger, FormatIntegerAsString}

  function Elements<T>(s: seq<T>): set<T> { set x | x in s }

  /** Field constraints of the pydantic models. */
  ghost predicate FieldsInRange(r: WireRequest)
  {
    && r.contractVersion == "v2" && r.schemaVersion >= 1
    && 1 <= |r.targetPath| <= 64
    && 1 <= |r.kinds| <= 4 && 1 <= |r.types| <= 32 && 1 <= |r.shapes| <= 8 && 1 <= |r.allowed| <= 3
    && (r.writeValue.Some? && r.writeValue.value.preview.Some? ==> |r.writeValue.value.preview.value| <= 128)
  }

  /** `evidence_is_unique`. */
  ghost predicate EvidenceIsUnique(r: WireRequest) { Unique(r.kinds) && Unique(r.types) && Unique(r.shapes) }

  /** `validate_allowlist_and_path`. */
  ghost predicate AllowlistAndPathValid(r: WireRequest)
  {
    && (forall i :: 0 <= i < |r.targetPath| ==> r.targetPath[i] != "" && |r.targetPath[i]| <= 255)
    && Unique(r.allowed) && Reject in r.allowed
    && (UseNestedPath in r.allowed ==> Elements(r.kinds) == {MissingFromSampledDocuments} && |r.targetPath| >= 2)
    && ((exists c :: c in TYPE_CANDIDATES && c in r.allowed) ==>
          && Elements(r.kinds) == {MixedBsonTypes} && Elements(r.types) == {IntegerType, StringType}
          && Elements(r.shapes) == {ScalarShape} && r.missing == 0 && |r.targetPath| == 1)
  }

  ghost predicate ServiceAccepts(r: WireRequest)
  {
    FieldsInRange(r) && EvidenceIsUnique(r) && AllowlistAndPathValid(r)
  }

  // ---------------------------------------------------------------------------
  // Requests
  // ---------------------------------------------------------------------------

  /** The preview of the proposed value is short enough; only floats and unbound placeholders can fail. */
  predicate PreviewFits(plan: StatementPlan, path: FieldPath, display: FloatDisplay)
  {
    match ProposedValue(plan, path)
    case Some(SqlFloat(f)) => |display(f)| <= 128
    case Some(SqlPlaceholder(name)) => |name| <= 128
    case _ => true
  }

  predicate PathWithinLimits(path: FieldPath)
  {
    1 <= |path| <= 64 && forall i :: 0 <= i < |path| ==> path[i] != "" && |path[i]| <= 255
  }

  function Power10(k: nat): nat { if k == 0 then 1 else 10 * Power10(k - 1) }

  lemma {:induction false} FormatLength(n: nat, k: nat)
    requires k > 0 && n < Power10(k)
    ensures |FormatNat(n)| <= k
  {
    assert Power10(k) == 10 * Power10(k - 1);
    if n >= 10 {
      FormatLength(n / 10, k - 1);
    }
  }

  lemma IntegerPreviewShort(i: I64)
    ensures |FormatInteger(i)| <= 20
  {
    assert Power10(10) == 1_0000000000 by {
      assert Power10(5) == 100000;
      assert Power10(10) == 10 * (10 * (10 * (10 * (10 * Power10(5)))));
    }
    assert Power10(19) == 1_0000000000_000000000 by {
      assert Power10(15) == 10 * (10 * (10 * (10 * (10 * Power10(10)))));
      assert Power10(19) == 10 * (10 * (10 * (10 * Power10(15))));
    }
    FormatLength(if i < 0 then 0 - i else i, 19);
  }

  lemma PreviewExact(plan: StatementPlan, path: FieldPath, display: FloatDisplay)
    ensures PreviewFits(plan, path, display) <==>
            match ProposedValue(plan, path)
            case None => true
            case Some(value) =>
              var preview := ValueEvidence(value, display).preview;
              preview.Some? ==> |preview.value| <= 128
  {
    match ProposedValue(plan, path)
    case Some(SqlInteger(i)) => IntegerPreviewShort(i);
    case _ =>
  }

  lemma {:induction false} ListLength<T(!new)>(s: seq<T>, elements: set<T>)
    requires Lists(s, elements)
    ensures |s| == |elements|
    decreases |s|
  {
    if s == [] {
      assert elements == {};
    } else {
      var n := |s| - 1;
      assert s == s[..n] + [s[n]];
      ListLength(s[..n], elements - {s[n]});
    }
  }

  lemma KindsBound(kinds: set<AmbiguityKind>)
    ensures |kinds| <= 4
  {
    var all := {MixedBsonTypes, MixedShapes, DottedPathCollision, MissingFromSampledDocuments};
    assert forall k: AmbiguityKind :: k in all by {
      forall k: AmbiguityKind ensures k in all {
        match k
        case MixedBsonTypes => case MixedShapes => case DottedPathCollision => case MissingFromSampledDocuments =>
      }
    }
    SmallerSubset(kinds, all);
  }

  lemma EvidenceBounds(types: set<ObservedType>, shapes: set<ObservedShape>)
    ensures |types| <= 32 && |shapes| <= 8
  {
    var allShapes := {ScalarShape, DocumentShape, ArrayShape};
    forall h: ObservedShape ensures h in allShapes {
      match h case ScalarShape => case DocumentShape => case ArrayShape =>
    }
    SmallerSubset(shapes, allShapes);
    var allTypes := {NullType, BooleanType, IntegerType, FloatingPointType, StringType,
                     DateTimeType, ObjectIdType, DocumentType, ArrayType};
    forall t: ObservedType ensures t in allTypes {
      match t
      case NullType => case BooleanType => case IntegerType => case FloatingPointType => case StringType =>
      case DateTimeType => case ObjectIdType => case DocumentType => case ArrayType =>
    }
    SmallerSubset(types, allTypes);
  }

  /** The two sides agree on every request for one detected ambiguity, with exactly these exceptions:
      a path or version outside the service's limits, empty type or shape evidence, an overlong preview
      of a float or placeholder, and a mixed-type assignment to a nested path, which the proxy offers
      but the service refuses. */
  lemma RequestAcceptedExactly(
    plan: StatementPlan, operation: WriteOperation, version: nat, ambiguity: WriteAmbiguity, display: FloatDisplay,
    wire: WireRequest)
    requires ambiguity.kinds != {}
    requires Serializes(ResolverRequestFor(plan, operation, version, ambiguity, display), wire)
    ensures ServiceAccepts(wire) <==>
            && version >= 1 && PathWithinLimits(ambiguity.path)
            && ambiguity.types != {} && ambiguity.shapes != {}
            && PreviewFits(plan, ambiguity.path, display)
            && (OffersTypeCandidate(plan, ambiguity) ==> |ambiguity.path| == 1)
  {
    var request := ResolverRequestFor(plan, operation, version, ambiguity, display);
    ListLength(wire.kinds, request.kinds);
    ListLength(wire.types, request.types);
    ListLength(wire.shapes, request.shapes);
    ListLength(wire.allowed, request.allowed);
    KindsBound(request.kinds);
    EvidenceBounds(request.types, request.shapes);
    AtMostThreeCandidates(plan, ambiguity);
    PreviewExact(plan, ambiguity.path, display);
    assert Elements(wire.kinds) == ambiguity.kinds && Elements(wire.types) == ambiguity.types
        && Elements(wire.shapes) == ambiguity.shapes;
    AllowlistExact(plan, ambiguity, wire);
  }

  /** The proxy offers a mixed-type candidate. */
  predicate OffersTypeCandidate(plan: StatementPlan, ambiguity: WriteAmbiguity)
  {
    var value := MixedTypeAssignmentValue(plan, ambiguity);
    value.Some? && (value.value.SqlString? || value.value.SqlInteger?)
  }

  lemma AllowlistExact(plan: StatementPlan, ambiguity: WriteAmbiguity, wire: WireRequest)
    requires wire.targetPath == ambiguity.path && wire.missing == ambiguity.missing
    requires Lists(wire.allowed, AllowedCandidates(plan, ambiguity))
    requires Elements(wire.kinds) == ambiguity.kinds && Elements(wire.types) == ambiguity.types
    requires Elements(wire.shapes) == ambiguity.shapes
    ensures AllowlistAndPathValid(wire) <==>
            && (forall i :: 0 <= i < |ambiguity.path| ==> ambiguity.path[i] != "" && |ambiguity.path[i]| <= 255)
            && (OffersTypeCandidate(plan, ambiguity) ==> |ambiguity.path| == 1)
  {
    assert forall c :: c in wire.allowed <==> Permitted(plan, ambiguity, c);
    if OffersTypeCandidate(plan, ambiguity) {
      var c := if MixedTypeAssignmentValue(plan, ambiguity).value.SqlString? then KeepString else KeepInteger;
      assert Permitted(plan, ambiguity, c);
      assert c in TYPE_CANDIDATES && c in wire.allowed;
    } else {
      forall c | c in TYPE_CANDIDATES ensures c !in wire.allowed {
        assert !Permitted(plan, ambiguity, c);
      }
    }
  }

  // ---------------------------------------------------------------------------
  // The deterministic advisor
  // ---------------------------------------------------------------------------

  /** The advisor's preference among the allowed candidates. */
  function PreferredCandidate(allowed: seq<ResolutionCandidate>): ResolutionCandidate
  {
    if KeepInteger in allowed then KeepInteger
    else if ParseInteger in allowed then ParseInteger
    else if KeepString in allowed then KeepString
    else if UseNestedPath in allowed then UseNestedPath
    else Reject
  }

  /** The advisor's fixed explanations; their wording is not modelled. */
  function RationaleFor(candidate: ResolutionCandidate): (rationale: string)
    ensures 0 < |rationale| <= 80
  {
    match candidate
    case KeepInteger => "native integer candidate"
    case ParseInteger => "lossless integer candidate"
    case KeepString => "string-preserving candidate"
    case UseNestedPath => "deterministic nested-path write"
    case _ => "no safe resolution"
  }

  /** `DeterministicAdvisor.recommend`. */
  function Recommend(r: WireRequest): ResolverResponse
  {
    var candidate := PreferredCandidate(r.allowed);
    ResolverResponse("v2", r.schemaVersion, r.operation, r.targetPath, candidate, Finite(1.0), RationaleFor(candidate))
  }

  /** `validate_recommendation`. */
  predicate RecommendationValid(r: WireRequest, response: ResolverResponse)
  {
    && response.schemaVersion == r.schemaVersion && response.operation == r.operation
    && response.targetPath == r.targetPath && response.candidate in r.allowed
  }

  lemma {:induction false} Utf8Bound(s: string)
    ensures Utf8Length(s) <= 4 * |s|
  {
    if s != "" {
      Utf8Bound(s[..|s| - 1]);
    }
  }

  /** The advisor's answer always passes the service's own check; it passes the proxy's exactly when the
      minimum confidence is not above 1; and it rejects only when nothing else is allowed. */
  lemma AdvisorAnswerAccepted(
    plan: StatementPlan, operation: WriteOperation, version: nat, ambiguity: WriteAmbiguity, display: FloatDisplay,
    wire: WireRequest, minimum: Float64)
    requires Serializes(ResolverRequestFor(plan, operation, version, ambiguity, display), wire)
    ensures RecommendationValid(wire, Recommend(wire))
    ensures var request := ResolverRequestFor(plan, operation, version, ambiguity, display);
            ValidateResolverResponse(request, plan, ambiguity, Recommend(wire), minimum).Ok?
            <==> !FloatLess(Finite(1.0), minimum)
    ensures Recommend(wire).candidate == Reject <==> AllowedCandidates(plan, ambiguity) == {Reject}
  {
    var request := ResolverRequestFor(plan, operation, version, ambiguity, display);
    assert forall c :: c in wire.allowed <==> c in AllowedCandidates(plan, ambiguity);
    FormatImpliesKeep(plan, ambiguity);
    AdvisorChoice(wire, AllowedCandidates(plan, ambiguity));
    AdvisorResponseAcceptable(request, wire, minimum);
  }

  lemma AdvisorChoice(wire: WireRequest, allowed: set<ResolutionCandidate>)
    requires forall c :: c in wire.allowed <==> c in allowed
    requires Reject in allowed && (FormatIntegerAsString in allowed ==> KeepInteger in allowed)
    ensures Recommend(wire).candidate in allowed
    ensures Recommend(wire).candidate == Reject <==> allowed == {Reject}
  {
    if Recommend(wire).candidate == Reject {
      forall c | c in allowed ensures c == Reject {
        assert c in wire.allowed;
      }
    }
  }

  lemma ShortRationaleAcceptable(request: ResolverRequest, response: ResolverResponse, minimum: Float64)
    requires response.contractVersion == RESOLUTION_CONTRACT_VERSION && response.schemaVersion == request.schemaVersion
    requires response.operation == request.operation && response.targetPath == request.targetPath
    requires response.confidence == Finite(1.0) && 0 < |response.rationale| <= 80
    ensures ResponseAcceptable(request, response, minimum) <==> !FloatLess(Finite(1.0), minimum)
  {
    Utf8Bound(response.rationale);
  }

  lemma AdvisorResponseAcceptable(request: ResolverRequest, wire: WireRequest, minimum: Float64)
    requires wire.schemaVersion == request.schemaVersion && wire.operation == request.operation
    requires wire.targetPath == request.targetPath
    ensures ResponseAcceptable(request, Recommend(wire), minimum) <==> !FloatLess(Finite(1.0), minimum)
  {
    ShortRationaleAcceptable(request, Recommend(wire), minimum);
  }

  /** Formatting is only ever offered together with keeping the integer. */
  lemma FormatImpliesKeep(plan: StatementPlan, ambiguity: WriteAmbiguity)
    ensures FormatIntegerAsString in AllowedCandidates(plan, ambiguity) ==>
            KeepInteger in AllowedCandidates(plan, ambiguity)
    ensures Reject in AllowedCandidates(plan, ambiguity)
  {
  }

  /** A request the service accepts repeats no evidence and always offers rejection; it offers the nested
      path only for a missing nested field, and a type candidate only for an integer or string field at
      the top level. */
  lemma AcceptedRequestIsSound(r: WireRequest)
    requires ServiceAccepts(r)
    ensures r.contractVersion == "v2" && r.schemaVersion >= 1 && 1 <= |r.targetPath| <= 64
    ensures forall i :: 0 <= i < |r.targetPath| ==> 1 <= |r.targetPath[i]| <= 255
    ensures forall i, j :: 0 <= i < j < |r.kinds| ==> r.kinds[i] != r.kinds[j]
    ensures forall i, j :: 0 <= i < j < |r.types| ==> r.types[i] != r.types[j]
    ensures forall i, j :: 0 <= i < j < |r.shapes| ==> r.shapes[i] != r.shapes[j]
    ensures forall i, j :: 0 <= i < j < |r.allowed| ==> r.allowed[i] != r.allowed[j]
    ensures 1 <= |r.kinds| <= 4 && 1 <= |r.types| <= 32 && 1 <= |r.shapes| <= 8 && 1 <= |r.allowed| <= 3
    ensures Reject in r.allowed
    ensures UseNestedPath in r.allowed ==> r.kinds == [MissingFromSampledDocuments] && |r.targetPath| >= 2
    ensures (exists c :: c in r.allowed && c != Reject && c != UseNestedPath) ==>
            && r.kinds == [MixedBsonTypes] && |r.types| == 2 && IntegerType in r.types && StringType in r.types
            && r.shapes == [ScalarShape] && r.missing == 0 && |r.targetPath| == 1
  {
    if UseNestedPath in r.allowed {
      OnlyElement(r.kinds, MissingFromSampledDocuments);
    }
    if c :| c in r.allowed && c != Reject && c != UseNestedPath {
      assert c in TYPE_CANDIDATES;
      OnlyElement(r.kinds, MixedBsonTypes);
      OnlyElement(r.shapes, ScalarShape);
      assert IntegerType in Elements(r.types) && StringType in Elements(r.types);
      ListLength(r.types, Elements(r.types));
    }
  }

  lemma OnlyElement<T(!new)>(s: seq<T>, x: T)
    requires Unique(s) && Elements(s) == {x}
    ensures s == [x]
  {
    assert x in Elements(s);
    forall y ensures y in s <==> y in {x} {
      assert y in s <==> y in Elements(s);
    }
    ListLength(s, {x});
  }

  /** What the advisor recommends for a request of the proxy: to keep an integer, to parse a string that
      is a canonical integer and to keep any other, to use the nested path, or else to reject. */
  lemma AdvisorPreference(
    plan: StatementPlan, operation: WriteOperation, version: nat, ambiguity: WriteAmbiguity, display: FloatDisplay,
    wire: WireRequest)
    requires Serializes(ResolverRequestFor(plan, operation, version, ambiguity, display), wire)
    ensures Recommend(wire).candidate ==
            if IntegerOrString(ambiguity) && SoleTarget(plan, ambiguity.path) && plan.assignments[0].value.SqlInteger?
            then KeepInteger
            else if IntegerOrString(ambiguity) && SoleTarget(plan, ambiguity.path)
                    && plan.assignments[0].value.SqlString?
            then (if ParseIntegerLosslessly(plan.assignments[0].value.s).Some? then ParseInteger else KeepString)
            else if ambiguity.kinds == {MissingFromSampledDocuments} && |ambiguity.path| > 1 then UseNestedPath
            else Reject
  {
    assert forall c :: c in wire.allowed <==> c in AllowedCandidates(plan, ambiguity);
    forall c: ResolutionCandidate {
      CandidatesExact(plan, ambiguity, c);
    }
    if IntegerOrString(ambiguity) && SoleTarget(plan, ambiguity.path) && plan.assignments[0].value.SqlString? {
      LosslessExists(plan.assignments[0].value.s);
    }
  }

  /** A recommendation that passes the service's own check passes the proxy's too, if contract version,
      confidence and rationale are in order. */
  lemma ServiceCheckSuffices(
    plan: StatementPlan, operation: WriteOperation, version: nat, ambiguity: WriteAmbiguity, display: FloatDisplay,
    wire: WireRequest, response: ResolverResponse, minimum: Float64)
    requires Serializes(ResolverRequestFor(plan, operation, version, ambiguity, display), wire)
    requires RecommendationValid(wire, response) && response.contractVersion == "v2"
    requires IsFinite(response.confidence) && !FloatLess(response.confidence, minimum)
    requires RealOf(response.confidence) <= 1.0 && 1 <= Utf8Length(response.rationale) <= 500
    ensures var request := ResolverRequestFor(plan, operation, version, ambiguity, display);
            ValidateResolverResponse(request, plan, ambiguity, response, minimum)
            == Ok(ValidatedResolution(ambiguity.path, response.candidate))
  {
    FloatOrder(Finite(1.0), response.confidence);
    assert response.candidate in AllowedCandidates(plan, ambiguity);
  }
}
