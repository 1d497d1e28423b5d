/** Detection over the sample a profile was inferred from: which writes are ambiguous, said of documents. */
module DetectionMeaning {
  import opened Paths
  import opened Documents
  import opened Plans
  import opened Profiles
  import opened AmbiguityPolicy
  import opened Discovery

  /** Some sampled document holds a value of the type at the path. */
  ghost predicate SeenType(sample: seq<Doc>, path: FieldPath, t: ObservedType)
  {
    exists i :: i in Holders(sample, path) && TypeOf(Lookup(sample[i], path).value) == t
  }

  ghost predicate SeenShape(sample: seq<Doc>, path: FieldPath, h: ObservedShape)
  {
    exists i :: i in Holders(sample, path) && ShapeOf(Lookup(sample[i], path).value) == h
  }

  /** The sample gives the reason for the kind of ambiguity. */
  ghost predicate ShownBy(sample: seq<Doc>, path: FieldPath, kind: AmbiguityKind)
  {
    match kind
    case MixedBsonTypes =>
      exists t, u :: t != u && t != NullType && u != NullType && SeenType(sample, path, t) && SeenType(sample, path, u)
    case MixedShapes => exists g, h :: g != h && SeenShape(sample, path, g) && SeenShape(sample, path, h)
    case DottedPathCollision =>
      exists other, i :: other != path && DisplayName(other) == DisplayName(path) && i in Holders(sample, other)
    case MissingFromSampledDocuments => exists i :: 0 <= i < |sample| && Lookup(sample[i], path).None?
  }

  /** The profile of a path says exactly what the sample shows. */
  ghost predicate Summarized(sample: seq<Doc>, path: FieldPath, field: FieldProfile)
  {
    && (forall t :: t in field.types <==> SeenType(sample, path, t))
    && (forall h :: h in field.shapes <==> SeenShape(sample, path, h))
    && (field.collision <==>
          exists other :: other != path && DisplayName(other) == DisplayName(path) && Holders(sample, other) != {})
    && (field.missing != 0 <==> exists i :: 0 <= i < |sample| && Lookup(sample[i], path).None?)
  }

  lemma InferredSummarizes(sample: seq<Doc>, path: FieldPath)
    requires Field(Inferred(sample), path).Some?
    ensures Summarized(sample, path, Field(Inferred(sample), path).value)
  {
    EvidenceSeen(sample, path);
    CollisionSeen(sample, path);
    MissingSeen(sample, path);
  }

  lemma EvidenceSeen(sample: seq<Doc>, path: FieldPath)
    requires Field(Inferred(sample), path).Some?
    ensures var field := Field(Inferred(sample), path).value;
            && (forall t :: t in field.types <==> SeenType(sample, path, t))
            && (forall h :: h in field.shapes <==> SeenShape(sample, path, h))
  {
    FieldOfInferred(sample, path);
    forall t ensures t in Summary(sample, path).types <==> SeenType(sample, path, t) {
      SummaryTypes(sample, path, t);
    }
    forall h ensures h in Summary(sample, path).shapes <==> SeenShape(sample, path, h) {
      SummaryShapes(sample, path, h);
    }
  }

  lemma CollisionSeen(sample: seq<Doc>, path: FieldPath)
    requires Field(Inferred(sample), path).Some?
    ensures Field(Inferred(sample), path).value.collision <==>
            exists other :: other != path && DisplayName(other) == DisplayName(path) && Holders(sample, other) != {}
  {
    InferenceExact(sample, path);
    forall other ensures Field(Inferred(sample), other).Some? <==> Holders(sample, other) != {} {
      ProfiledWhenHeld(sample, other);
    }
  }

  lemma MissingSeen(sample: seq<Doc>, path: FieldPath)
    requires Field(Inferred(sample), path).Some?
    ensures Field(Inferred(sample), path).value.missing != 0 <==>
            exists i :: 0 <= i < |sample| && Lookup(sample[i], path).None?
  {
    FieldOfInferred(sample, path);
    MissingSomewhere(sample, path);
  }

  lemma ProfiledWhenHeld(sample: seq<Doc>, path: FieldPath)
    ensures Field(Inferred(sample), path).Some? <==> Holders(sample, path) != {}
  {
    InferenceExact(sample, path);
  }

  lemma MixedTypesShown(sample: seq<Doc>, path: FieldPath, field: FieldProfile)
    requires Summarized(sample, path, field)
    ensures Shows(field, MixedBsonTypes) <==> ShownBy(sample, path, MixedBsonTypes)
  {
    if t, u :| t != u && t != NullType && u != NullType && SeenType(sample, path, t) && SeenType(sample, path, u) {
      assert t in field.types && u in field.types;
    }
  }

  lemma MixedShapesShown(sample: seq<Doc>, path: FieldPath, field: FieldProfile)
    requires Summarized(sample, path, field)
    ensures Shows(field, MixedShapes) <==> ShownBy(sample, path, MixedShapes)
  {
    if g, h :| g != h && SeenShape(sample, path, g) && SeenShape(sample, path, h) {
      assert g in field.shapes && h in field.shapes;
    }
  }

  lemma CollisionShown(sample: seq<Doc>, path: FieldPath, field: FieldProfile)
    requires Summarized(sample, path, field)
    ensures Shows(field, DottedPathCollision) <==> ShownBy(sample, path, DottedPathCollision)
  {
    forall other ensures Holders(sample, other) != {} <==> exists i :: i in Holders(sample, other) {
    }
  }

  lemma KindShown(sample: seq<Doc>, path: FieldPath, field: FieldProfile, kind: AmbiguityKind)
    requires Summarized(sample, path, field)
    ensures Shows(field, kind) <==> ShownBy(sample, path, kind)
  {
    match kind
    case MixedBsonTypes => MixedTypesShown(sample, path, field);
    case MixedShapes => MixedShapesShown(sample, path, field);
    case DottedPathCollision => CollisionShown(sample, path, field);
    case MissingFromSampledDocuments =>
  }

  /** On an inferred profile, a path of the plan is reported exactly when the sample gives a reason, and
      with exactly the kinds it gives reasons for: two documents with values of different types beside
      null, or of different shapes, another path of the same name, or a document without the path. */
  lemma DetectionOverSample(plan: StatementPlan, sample: seq<Doc>, path: FieldPath)
    requires Detect(plan, Inferred(sample)).Ok? && path in WritePaths(plan)
    ensures var reported := Detect(plan, Inferred(sample)).value;
            && ((exists a :: a in reported && a.path == path) <==> exists kind :: ShownBy(sample, path, kind))
            && (forall a, kind :: a in reported && a.path == path ==>
                  (kind in a.kinds <==> ShownBy(sample, path, kind)))
  {
    DetectionByKind(plan, Inferred(sample), path);
    InferredSummarizes(sample, path);
    var field := Field(Inferred(sample), path).value;
    forall kind ensures Shows(field, kind) <==> ShownBy(sample, path, kind) {
      KindShown(sample, path, field, kind);
    }
  }
}
