/** Schema profiles and the validation of literals against them
    (crates/schema-discovery/src/lib.rs, crates/sql-engine/src/type_policy.rs). */
module Profiles {
  import opened Common
  import opened Paths
  import opened Documents

  datatype FieldProfile = FieldProfile(
    path: FieldPath,
    present: nat,
    missing: nat,
    types: set<ObservedType>,
    shapes: set<ObservedShape>,
    collision: bool)

  datatype SchemaProfile = SchemaProfile(version: nat, sampled: nat, fields: seq<FieldProfile>)

  /** `SchemaProfile::field`: the first profile with this path. */
  function Field(schema: SchemaProfile, path: FieldPath): (found: Option<FieldProfile>)
    ensures found.Some? ==> found.value in schema.fields && found.value.path == path
    ensures found.None? <==> forall f :: f in schema.fields ==> f.path != path
  {
    FindField(schema.fields, path)
  }

  function FindField(fields: seq<FieldProfile>, path: FieldPath): (found: Option<FieldProfile>)
    ensures found.Some? ==> found.value in fields && found.value.path == path
    ensures found.None? <==> forall f :: f in fields ==> f.path != path
  {
    if fields == [] then None
    else if fields[0].path == path then Some(fields[0])
    else FindField(fields[1..], path)
  }

  function NonNullTypes(field: FieldProfile): set<ObservedType> { set t | t in field.types && t != NullType }

  /** The only element of a one-element set. */
  function Only(types: set<ObservedType>): (t: ObservedType)
    requires |types| == 1
    ensures types == {t}
  {
    assert exists t :: t in types by { assert types != {}; }
    var t :| t in types;
    assert |types - {t}| == 0;
    assert types == {t};
    t
  }
}

module TypePolicy {
  import opened Common
  import opened Paths
  import opened Documents
  import opened Plans
  import opened Profiles

  predicate IsCompatible(value: SqlValue, t: ObservedType)
  {
    match value
    case SqlBoolean(_) => t == BooleanType
    case SqlInteger(_) => t == IntegerType
    case SqlFloat(_) => t == FloatingPointType
    case SqlString(_) => t == StringType
    case _ => false
  }

  /** `validate_field_shape`: the one type literals must have, or none when the policy layer decides. */
  function ValidateFieldShape(path: FieldPath, schema: SchemaProfile): Result<Option<ObservedType>>
  {
    match Field(schema, path)
    case None => Err(InvalidInput)
    case Some(field) =>
      if field.collision || |field.shapes| != 1 || |NonNullTypes(field)| != 1 then Ok(None)
      else Ok(Some(Only(NonNullTypes(field))))
  }

  function ValidateValue(path: FieldPath, value: SqlValue, schema: SchemaProfile, nullAllowed: bool): Result<Unit>
  {
    if value.SqlPlaceholder? then Ok(Unit.Unit)
    else if value.SqlNull? then if nullAllowed then Ok(Unit.Unit) else Err(InvalidInput)
    else
      var observed :- ValidateFieldShape(path, schema);
      if observed.Some? && !IsCompatible(value, observed.value) then Err(InvalidInput) else Ok(Unit.Unit)
  }

  /** `validate_write_predicate` and `validate_read_predicate`, which have the same body. */
  function ValidatePredicate(p: Predicate, schema: SchemaProfile): Result<Unit>
    decreases p
  {
    match p
    case Compare(path, _, value) => ValidateValue(path, value, schema, false)
    case In(path, values, _) => ValidateValues(path, values, schema)
    case IsNull(path, _) =>
      var _ :- ValidateFieldShape(path, schema);
      Ok(Unit.Unit)
    case And(predicates) => ValidatePredicates(predicates, schema)
    case Or(predicates) => ValidatePredicates(predicates, schema)
  }

  function ValidateValues(path: FieldPath, values: seq<SqlValue>, schema: SchemaProfile): Result<Unit>
  {
    if values == [] then Ok(Unit.Unit)
    else
      var _ :- ValidateValue(path, values[0], schema, false);
      ValidateValues(path, values[1..], schema)
  }

  function ValidatePredicates(predicates: seq<Predicate>, schema: SchemaProfile): Result<Unit>
    decreases predicates
  {
    if predicates == [] then Ok(Unit.Unit)
    else
      var _ :- ValidatePredicate(predicates[0], schema);
      ValidatePredicates(predicates[1..], schema)
  }

  /** The profile leaves no doubt about the type of literals: no collision, one shape, one type beside null. */
  ghost predicate Decided(field: FieldProfile, t: ObservedType)
  {
    && !field.collision && |field.shapes| == 1 && t != NullType
    && forall u :: u in field.types && u != NullType <==> u == t
  }

  lemma OneType(field: FieldProfile, t: ObservedType)
    ensures NonNullTypes(field) == {t} <==> t != NullType && forall u :: u in field.types && u != NullType <==> u == t
  {
    assert NonNullTypes(field) == {t} <==> forall u :: u in NonNullTypes(field) <==> u == t;
    assert forall u :: u in NonNullTypes(field) <==> u in field.types && u != NullType;
  }

  /** Which values pass: placeholders; NULL where it may be written; and literals for a profiled field,
      of the decided type if the profile decides one. */
  lemma ValidationExact(path: FieldPath, value: SqlValue, schema: SchemaProfile, nullAllowed: bool)
    ensures ValidateValue(path, value, schema, nullAllowed).Err? ==>
            ValidateValue(path, value, schema, nullAllowed).kind == InvalidInput
    ensures ValidateValue(path, value, schema, nullAllowed).Ok? <==>
            match value
            case SqlPlaceholder(_) => true
            case SqlNull => nullAllowed
            case _ =>
              && Field(schema, path).Some?
              && forall t :: Decided(Field(schema, path).value, t) ==> TypeOf(Literal(value)) == t
  {
    if Field(schema, path).Some? && !value.SqlNull? && !value.SqlPlaceholder? {
      var field := Field(schema, path).value;
      DecidedExact(field);
      if t :| Decided(field, t) {
        assert IsCompatible(value, t) <==> TypeOf(Literal(value)) == t;
      }
    }
  }

  lemma DecidedExact(field: FieldProfile)
    ensures (exists t :: Decided(field, t)) <==>
            !field.collision && |field.shapes| == 1 && |NonNullTypes(field)| == 1
    ensures forall t :: Decided(field, t) ==> |NonNullTypes(field)| == 1 && Only(NonNullTypes(field)) == t
  {
    forall t | Decided(field, t) ensures NonNullTypes(field) == {t} {
      OneType(field, t);
    }
    if !field.collision && |field.shapes| == 1 && |NonNullTypes(field)| == 1 {
      OneType(field, Only(NonNullTypes(field)));
      assert Decided(field, Only(NonNullTypes(field)));
    }
  }
}
