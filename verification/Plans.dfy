/** Typed SQL plans (crates/sql-engine/src/plan.rs). */
module Plans {
  import opened Common
  import opened Paths
  import opened Documents

  datatype SqlValue =
    | SqlNull
    | SqlBoolean(b: bool)
    | SqlInteger(i: I64)
    | SqlFloat(f: Float64)
    | SqlString(s: string)
    | SqlPlaceholder(name: string)

  datatype ComparisonOperator =
    | Equal | NotEqual | GreaterThan | GreaterThanOrEqual | LessThan | LessThanOrEqual

  datatype Predicate =
    | Compare(path: FieldPath, operator: ComparisonOperator, value: SqlValue)
    | In(path: FieldPath, values: seq<SqlValue>, negated: bool)
    | IsNull(path: FieldPath, negated: bool)
    | And(predicates: seq<Predicate>)
    | Or(predicates: seq<Predicate>)

  datatype ProjectedField = ProjectedField(path: FieldPath, alias: Option<string>)

  datatype Projection = All | Fields(fields: seq<ProjectedField>)

  datatype AssignmentPlan = AssignmentPlan(path: FieldPath, value: SqlValue)

  datatype StatementPlan =
    | Select(collection: string, projection: Projection, where: Option<Predicate>, limit: Option<nat>)
    | Insert(collection: string, columns: seq<FieldPath>, rows: seq<seq<SqlValue>>)
    | Update(collection: string, assignments: seq<AssignmentPlan>, filter: Predicate)
    | Delete(collection: string, filter: Predicate)

  /** The condition that selects documents; none selects every document. */
  function ConditionOf(plan: StatementPlan): Option<Predicate>
  {
    match plan
    case Select(_, _, where, _) => where
    case Insert(_, _, _) => None
    case Update(_, _, filter) => Some(filter)
    case Delete(_, filter) => Some(filter)
  }

  /** `bson_value`: every literal maps to its own BSON type, integers to `Int64`. */
  function BsonValue(value: SqlValue): Result<Bson>
  {
    match value
    case SqlNull => Ok(Null)
    case SqlBoolean(b) => Ok(Boolean(b))
    case SqlInteger(i) => Ok(Int64(i))
    case SqlFloat(f) => Ok(Double(f))
    case SqlString(s) => Ok(String(s))
    case SqlPlaceholder(_) => Err(InvalidInput)
  }

  function Literal(value: SqlValue): Bson
    requires !value.SqlPlaceholder?
  {
    BsonValue(value).value
  }

  /** The SQL value that a stored value came from. */
  function SqlOf(value: Bson): Option<SqlValue>
  {
    match value
    case Null => Some(SqlNull)
    case Boolean(b) => Some(SqlBoolean(b))
    case Int64(i) => Some(SqlInteger(i))
    case Double(x) => Some(SqlFloat(x))
    case String(s) => Some(SqlString(s))
    case _ => None
  }

  /** Every value but a placeholder is stored, and can be read back from what was stored. */
  lemma LiteralsAreFaithful(value: SqlValue)
    ensures BsonValue(value).Ok? <==> !value.SqlPlaceholder?
    ensures BsonValue(value).Ok? ==> SqlOf(BsonValue(value).value) == Some(value)
    ensures BsonValue(value).Err? ==> BsonValue(value).kind == InvalidInput
  {
  }
}
