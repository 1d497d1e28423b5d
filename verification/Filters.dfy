/** Compilation of typed predicates to MongoDB filter documents
    (crates/mongo-executor/src/lib.rs). */
module Filters {
  import opened Common
  import opened Paths
  import opened Documents
  import opened Plans

  /** `mongo_field_name`. */
  function MongoFieldName(path: FieldPath): Result<string>
  {
    if IsLiteralDottedKey(path) then Err(FeatureNotSupported) else Ok(DisplayName(path))
  }

  function OperatorName(operator: ComparisonOperator): string
    requires operator != Equal
  {
    match operator
    case NotEqual => "$ne"
    case GreaterThan => "$gt"
    case GreaterThanOrEqual => "$gte"
    case LessThan => "$lt"
    case LessThanOrEqual => "$lte"
  }

  function SingleField(field: string, value: Bson): Bson { Document(map[field := value]) }

  function OperatorField(field: string, operator: string, value: Bson): Bson
  {
    SingleField(field, Document(map[operator := value]))
  }

  function LogicalDocument(operator: string, documents: seq<Bson>): Result<Bson>
  {
    if documents == [] then Err(InvalidInput) else Ok(SingleField(operator, Array(documents)))
  }

  function BsonValues(values: seq<SqlValue>): Result<seq<Bson>>
  {
    if values == [] then Ok([])
    else
      var first :- BsonValue(values[0]);
      var rest :- BsonValues(values[1..]);
      Ok([first] + rest)
  }

  /** `predicate_document`. */
  function PredicateDocument(p: Predicate): Result<Bson>
    decreases p
  {
    match p
    case Compare(path, operator, value) =>
      var field :- MongoFieldName(path);
      var literal :- BsonValue(value);
      if operator == Equal then Ok(SingleField(field, literal))
      else Ok(OperatorField(field, OperatorName(operator), literal))
    case In(path, values, negated) =>
      var field :- MongoFieldName(path);
      var literals :- BsonValues(values);
      Ok(OperatorField(field, if negated then "$nin" else "$in", Array(literals)))
    case IsNull(path, negated) =>
      var field :- MongoFieldName(path);
      var nullCheck := if negated then OperatorField(field, "$ne", Null) else SingleField(field, Null);
      LogicalDocument("$and", [nullCheck, OperatorField(field, "$exists", Boolean(true))])
    case And(predicates) =>
      var documents :- PredicateDocuments(predicates);
      LogicalDocument("$and", documents)
    case Or(predicates) =>
      var documents :- PredicateDocuments(predicates);
      LogicalDocument("$or", documents)
  }

  function PredicateDocuments(predicates: seq<Predicate>): Result<seq<Bson>>
    decreases predicates
  {
    if predicates == [] then Ok([])
    else
      var first :- PredicateDocument(predicates[0]);
      var rest :- PredicateDocuments(predicates[1..]);
      Ok([first] + rest)
  }

  lemma {:induction false} PredicateDocumentsEach(predicates: seq<Predicate>)
    ensures PredicateDocuments(predicates).Ok? <==>
            forall i :: 0 <= i < |predicates| ==> PredicateDocument(predicates[i]).Ok?
    ensures PredicateDocuments(predicates).Ok? ==>
            && |PredicateDocuments(predicates).value| == |predicates|
            && forall i :: 0 <= i < |predicates| ==>
                 PredicateDocuments(predicates).value[i] == PredicateDocument(predicates[i]).value
  {
    if predicates != [] {
      PredicateDocumentsEach(predicates[1..]);
      assert forall i :: 0 < i < |predicates| ==> predicates[i] == predicates[1..][i - 1];
    }
  }

  lemma {:induction false} BsonValuesEach(values: seq<SqlValue>)
    ensures BsonValues(values).Ok? <==> forall i :: 0 <= i < |values| ==> !values[i].SqlPlaceholder?
    ensures BsonValues(values).Ok? ==>
            && |BsonValues(values).value| == |values|
            && forall i :: 0 <= i < |values| ==> BsonValues(values).value[i] == Literal(values[i])
  {
    if values != [] {
      BsonValuesEach(values[1..]);
      assert forall i :: 0 < i < |values| ==> values[i] == values[1..][i - 1];
    }
  }

  /** Some leaf names a literal dotted key. */
  ghost predicate HasDottedLeaf(p: Predicate)
    decreases p
  {
    match p
    case Compare(path, _, _) => NamesDottedKey(path)
    case In(path, _, _) => NamesDottedKey(path)
    case IsNull(path, _) => NamesDottedKey(path)
    case And(predicates) => exists q :: q in predicates && HasDottedLeaf(q)
    case Or(predicates) => exists q :: q in predicates && HasDottedLeaf(q)
  }

  /** No value is a placeholder, and no conjunction or disjunction is empty. */
  ghost predicate Translatable(p: Predicate)
    decreases p
  {
    match p
    case Compare(_, _, value) => !value.SqlPlaceholder?
    case In(_, values, _) => forall v :: v in values ==> !v.SqlPlaceholder?
    case IsNull(_, _) => true
    case And(predicates) => predicates != [] && forall q :: q in predicates ==> Translatable(q)
    case Or(predicates) => predicates != [] && forall q :: q in predicates ==> Translatable(q)
  }

  /** Compilation succeeds exactly when no leaf names a literal dotted key, no value is a placeholder and
      no conjunction or disjunction is empty. */
  lemma {:induction false} CompilationExact(p: Predicate)
    ensures PredicateDocument(p).Ok? <==> !HasDottedLeaf(p) && Translatable(p)
    ensures HasDottedLeaf(p) && Translatable(p) ==> PredicateDocument(p) == Err(FeatureNotSupported)
    ensures !HasDottedLeaf(p) && !Translatable(p) ==> PredicateDocument(p) == Err(InvalidInput)
    decreases p
  {
    match p
    case Compare(_, _, _) =>
    case In(_, values, _) =>
      BsonValuesEach(values);
      BsonValuesFailInvalid(values);
      assert forall v :: v in values <==> exists i :: 0 <= i < |values| && values[i] == v;
    case IsNull(_, _) =>
    case And(predicates) => CompilationsExact(predicates);
    case Or(predicates) => CompilationsExact(predicates);
  }

  lemma {:induction false} BsonValuesFailInvalid(values: seq<SqlValue>)
    ensures BsonValues(values).Err? ==> BsonValues(values).kind == InvalidInput
  {
    if values != [] {
      BsonValuesFailInvalid(values[1..]);
    }
  }

  lemma {:induction false} CompilationsExact(predicates: seq<Predicate>)
    ensures PredicateDocuments(predicates).Ok? <==>
            forall q :: q in predicates ==> !HasDottedLeaf(q) && Translatable(q)
    ensures PredicateDocuments(predicates).Ok? ==> |PredicateDocuments(predicates).value| == |predicates|
    ensures (forall q :: q in predicates ==> Translatable(q)) && (exists q :: q in predicates && HasDottedLeaf(q)) ==>
            PredicateDocuments(predicates) == Err(FeatureNotSupported)
    ensures (forall q :: q in predicates ==> !HasDottedLeaf(q)) && (exists q :: q in predicates && !Translatable(q)) ==>
            PredicateDocuments(predicates) == Err(InvalidInput)
    decreases predicates
  {
    if predicates != [] {
      CompilationExact(predicates[0]);
      CompilationsExact(predicates[1..]);
      assert forall q :: q in predicates <==> q == predicates[0] || q in predicates[1..];
    }
  }
}

/** The part of MongoDB's query language the compiler emits, evaluated on one document. */
module MongoMatching {
  import opened Common
  import opened Ordering
  import opened Paths
  import opened Documents

  function Number(value: Bson): Option<Float64>
  {
    match value
    case Int32(i) => Some(Finite(i as real))
    case Int64(i) => Some(Finite(i as real))
    case Double(x) => Some(x)
    case _ => None
  }

  /** Equality of BSON values: numbers compare across their encodings. */
  predicate SameValue(a: Bson, b: Bson)
  {
    if Number(a).Some? && Number(b).Some? then FloatSame(Number(a).value, Number(b).value) else a == b
  }

  /** `a < b` within one type bracket; values of different brackets are not ordered. */
  predicate LessValue(a: Bson, b: Bson)
  {
    if Number(a).Some? && Number(b).Some? then FloatLess(Number(a).value, Number(b).value)
    else
      match (a, b)
      case (Boolean(x), Boolean(y)) => !x && y
      case (String(x), String(y)) => StringLess(x, y)
      case (DateTime(x), DateTime(y)) => x < y
      case (ObjectId(x), ObjectId(y)) => StringLess(x, y)
      case _ => false
  }

  /** Equality with null also selects the documents without the field. */
  predicate MatchesEqual(condition: Bson, field: Option<Bson>)
  {
    if condition == Null then field.None? || field.value == Null
    else field.Some? && SameValue(field.value, condition)
  }

  predicate MatchesOperator(operator: string, operand: Bson, field: Option<Bson>)
  {
    match operator
    case "$ne" => !MatchesEqual(operand, field)
    case "$gt" => field.Some? && LessValue(operand, field.value)
    case "$gte" => MatchesEqual(operand, field) || (field.Some? && LessValue(operand, field.value))
    case "$lt" => field.Some? && LessValue(field.value, operand)
    case "$lte" => MatchesEqual(operand, field) || (field.Some? && LessValue(field.value, operand))
    case "$in" => operand.Array? && exists x :: x in operand.items && MatchesEqual(x, field)
    case "$nin" => operand.Array? && forall x :: x in operand.items ==> !MatchesEqual(x, field)
    case "$exists" => operand.Boolean? && operand.b == field.Some?
    case _ => false
  }

  predicate IsOperatorDocument(condition: Bson)
  {
    condition.Document? && exists k :: k in condition.fields && k != "" && k[0] == '$'
  }

  predicate MatchesField(condition: Bson, field: Option<Bson>)
  {
    if IsOperatorDocument(condition) then
      forall k :: k in condition.fields ==> MatchesOperator(k, condition.fields[k], field)
    else MatchesEqual(condition, field)
  }

  /** Whether document `d` is selected by `filter`. Keys are read as MongoDB reads them: a logical
      operator, or a dotted path. */
  predicate Matches(filter: Bson, d: Doc)
    decreases filter
  {
    filter.Document? && forall k :: k in filter.fields ==> MatchesEntry(k, filter.fields[k], d)
  }

  predicate MatchesEntry(key: string, condition: Bson, d: Doc)
    decreases condition
  {
    if key == "$and" then condition.Array? && forall f :: f in condition.items ==> Matches(f, d)
    else if key == "$or" then condition.Array? && exists f :: f in condition.items && Matches(f, d)
    else MatchesField(condition, Lookup(d, SplitDots(key)))
  }

  /** The negated operators are the complements of the plain ones, and a missing field satisfies no
      comparison but that with null. */
  lemma OperatorComplements(operand: Bson, items: seq<Bson>, field: Option<Bson>)
    ensures MatchesOperator("$ne", operand, field) <==> !MatchesEqual(operand, field)
    ensures MatchesOperator("$nin", Array(items), field) <==> !MatchesOperator("$in", Array(items), field)
    ensures MatchesOperator("$exists", Boolean(true), field) <==> field.Some?
    ensures MatchesOperator("$exists", Boolean(false), field) <==> field.None?
    ensures field.None? && operand != Null ==>
            && !MatchesEqual(operand, field)
            && !MatchesOperator("$gt", operand, field) && !MatchesOperator("$gte", operand, field)
            && !MatchesOperator("$lt", operand, field) && !MatchesOperator("$lte", operand, field)
  {
  }

  /** The value of a number, whatever its encoding. */
  function IntegerOf(value: Bson): Option<int>
  {
    match value case Int32(i) => Some(i) case Int64(i) => Some(i) case _ => None
  }

  /** Comparison by type bracket: integers compare as integers whatever their width, doubles as doubles
      and with integers as numbers, false before true, strings and identifiers lexicographically, dates
      by time, and values of different brackets neither equal nor ordered. */
  lemma ComparisonExact(a: Bson, b: Bson)
    ensures IntegerOf(a).Some? && IntegerOf(b).Some? ==>
            && (SameValue(a, b) <==> IntegerOf(a) == IntegerOf(b))
            && (LessValue(a, b) <==> IntegerOf(a).value < IntegerOf(b).value)
    ensures a.Double? && b.Double? ==>
            (SameValue(a, b) <==> FloatSame(a.double, b.double)) && (LessValue(a, b) <==> FloatLess(a.double, b.double))
    ensures a.Double? && IntegerOf(b).Some? ==>
            var y := Finite(IntegerOf(b).value as real);
            && (SameValue(a, b) <==> FloatSame(a.double, y)) && (SameValue(b, a) <==> FloatSame(y, a.double))
            && (LessValue(a, b) <==> FloatLess(a.double, y)) && (LessValue(b, a) <==> FloatLess(y, a.double))
    ensures a.Boolean? && b.Boolean? ==> (LessValue(a, b) <==> a == Boolean(false) && b == Boolean(true))
    ensures a.String? && b.String? ==> (LessValue(a, b) <==> StringLess(a.text, b.text))
    ensures a.DateTime? && b.DateTime? ==> (LessValue(a, b) <==> a.millis < b.millis)
    ensures a.ObjectId? && b.ObjectId? ==> (LessValue(a, b) <==> StringLess(a.hex, b.hex))
    ensures Number(a).None? || Number(b).None? ==> (SameValue(a, b) <==> a == b)
    ensures (Number(a).Some? <==> a.Double? || IntegerOf(a).Some?)
    ensures LessValue(a, b) ==>
            || (Number(a).Some? && Number(b).Some?)
            || (a.Boolean? && b.Boolean?) || (a.String? && b.String?)
            || (a.DateTime? && b.DateTime?) || (a.ObjectId? && b.ObjectId?)
  {
  }
}

/** SQL's three-valued meaning of predicates over documents read as rows: a missing field and
    a null field are both NULL, and `$n` is looked up in the parameter environment. */
module SqlTruth {
  import opened Paths
  import opened Documents
  import opened Plans
  import opened MongoMatching

  datatype Truth = True | False | Unknown

  function TruthOf(b: bool): Truth { if b then True else False }

  function Negate(t: Truth): Truth
  {
    match t case True => False case False => True case Unknown => Unknown
  }

  function Conjoin(a: Truth, b: Truth): Truth
  {
    if a == False || b == False then False else if a == True && b == True then True else Unknown
  }

  function Disjoin(a: Truth, b: Truth): Truth
  {
    if a == True || b == True then True else if a == False && b == False then False else Unknown
  }

  /** Kleene's laws: negation swaps the connectives, and truth and falsity absorb the unknown. */
  lemma KleeneLaws(a: Truth, b: Truth)
    ensures Negate(Negate(a)) == a && Negate(True) == False && Negate(Unknown) == Unknown
    ensures Negate(Conjoin(a, b)) == Disjoin(Negate(a), Negate(b))
    ensures Conjoin(a, b) == Conjoin(b, a) && Conjoin(True, a) == a && Conjoin(a, a) == a
    ensures Conjoin(False, a) == False && Disjoin(True, a) == True
  {
  }

  /** The column value of a row; `Null` stands for SQL NULL. */
  function Column(d: Doc, path: FieldPath): Bson
  {
    match Lookup(d, path) case None => Null case Some(value) => value
  }

  /** Comparison of a column with a literal; values of different types are unequal and unordered. */
  function CompareSql(column: Bson, operator: ComparisonOperator, literal: Bson): Truth
  {
    if column == Null || literal == Null then Unknown
    else
      match operator
      case Equal => TruthOf(SameValue(column, literal))
      case NotEqual => TruthOf(!SameValue(column, literal))
      case GreaterThan => TruthOf(LessValue(literal, column))
      case GreaterThanOrEqual => TruthOf(LessValue(literal, column) || SameValue(column, literal))
      case LessThan => TruthOf(LessValue(column, literal))
      case LessThanOrEqual => TruthOf(LessValue(column, literal) || SameValue(column, literal))
  }

  /** How a value reads under an environment for `$1`, `$2`, ...; a literal reads as itself. */
  type Environment = SqlValue -> Bson

  function InSql(column: Bson, values: seq<SqlValue>, env: Environment): Truth
  {
    if values == [] then False
    else Disjoin(CompareSql(column, Equal, env(values[0])), InSql(column, values[1..], env))
  }

  function Sql(p: Predicate, env: Environment, d: Doc): Truth
    decreases p
  {
    match p
    case Compare(path, operator, value) => CompareSql(Column(d, path), operator, env(value))
    case In(path, values, negated) =>
      var t := InSql(Column(d, path), values, env);
      if negated then Negate(t) else t
    case IsNull(path, negated) => TruthOf((Column(d, path) == Null) != negated)
    case And(predicates) => AllSql(predicates, env, d)
    case Or(predicates) => AnySql(predicates, env, d)
  }

  function AllSql(predicates: seq<Predicate>, env: Environment, d: Doc): Truth
    decreases predicates
  {
    if predicates == [] then True
    else Conjoin(Sql(predicates[0], env, d), AllSql(predicates[1..], env, d))
  }

  function AnySql(predicates: seq<Predicate>, env: Environment, d: Doc): Truth
    decreases predicates
  {
    if predicates == [] then False
    else Disjoin(Sql(predicates[0], env, d), AnySql(predicates[1..], env, d))
  }

  lemma {:induction false} AllSqlTrue(predicates: seq<Predicate>, env: Environment, d: Doc)
    ensures AllSql(predicates, env, d) == True <==>
            forall i :: 0 <= i < |predicates| ==> Sql(predicates[i], env, d) == True
  {
    if predicates != [] {
      AllSqlTrue(predicates[1..], env, d);
      assert forall i :: 0 < i < |predicates| ==> predicates[i] == predicates[1..][i - 1];
    }
  }

  lemma {:induction false} AnySqlTrue(predicates: seq<Predicate>, env: Environment, d: Doc)
    ensures AnySql(predicates, env, d) == True <==>
            exists i :: 0 <= i < |predicates| && Sql(predicates[i], env, d) == True
  {
    if predicates != [] {
      AnySqlTrue(predicates[1..], env, d);
      assert forall i :: 0 < i < |predicates| ==> predicates[i] == predicates[1..][i - 1];
    }
  }
}

/** The compiled filter against the SQL meaning of its predicate. */
module FilterMeaning {
  import opened Common
  import opened Paths
  import opened Documents
  import opened Plans
  import opened Filters
  import opened MongoMatching
  import opened SqlTruth

  /** The environment of a statement whose parameters are bound. */
  function LiteralEnv(value: SqlValue): Bson
  {
    if value.SqlPlaceholder? then Null else Literal(value)
  }

  predicate PathReadable(path: FieldPath)
  {
    path != [] && DotFreePath(path) && (path[0] != "" ==> path[0][0] != '$')
  }

  /** Paths are non-empty, dot-free and do not look like operators; no literal is NULL. */
  ghost predicate Readable(p: Predicate)
    decreases p
  {
    match p
    case Compare(path, _, value) => PathReadable(path) && !value.SqlNull?
    case In(path, values, _) => PathReadable(path) && SqlNull !in values
    case IsNull(path, _) => PathReadable(path)
    case And(predicates) => forall q :: q in predicates ==> Readable(q)
    case Or(predicates) => forall q :: q in predicates ==> Readable(q)
  }

  /** A null or missing field satisfies `<>` and `NOT IN` in MongoDB, but not in SQL. */
  predicate MatchesNullToo(leaf: Predicate, d: Doc)
  {
    match leaf
    case Compare(path, operator, _) => operator == NotEqual && Column(d, path) == Null
    case In(path, _, negated) => negated && Column(d, path) == Null
    case _ => false
  }

  /** A missing field is NULL in SQL, but the compiled `IS NULL` demands that it exists. */
  predicate MissesMissing(leaf: Predicate, d: Doc)
  {
    leaf.IsNull? && !leaf.negated && Lookup(d, leaf.path).None?
  }

  /** What the compiled filter selects: SQL truth with the two corrections at the leaves. */
  ghost predicate Selects(p: Predicate, d: Doc)
    decreases p
  {
    match p
    case And(predicates) => forall i :: 0 <= i < |predicates| ==> Selects(predicates[i], d)
    case Or(predicates) => exists i :: 0 <= i < |predicates| && Selects(predicates[i], d)
    case _ => MatchesNullToo(p, d) || (Sql(p, LiteralEnv, d) == True && !MissesMissing(p, d))
  }

  /** No negated leaf meets a null or missing field, where MongoDB would match and SQL would not. */
  ghost predicate NoExtraMatch(p: Predicate, d: Doc)
    decreases p
  {
    match p
    case And(predicates) => forall i :: 0 <= i < |predicates| ==> NoExtraMatch(predicates[i], d)
    case Or(predicates) => forall i :: 0 <= i < |predicates| ==> NoExtraMatch(predicates[i], d)
    case _ => !MatchesNullToo(p, d)
  }

  /** No `IS NULL` meets a missing field, where SQL would match and MongoDB does not. */
  ghost predicate NoMissedMatch(p: Predicate, d: Doc)
    decreases p
  {
    match p
    case And(predicates) => forall i :: 0 <= i < |predicates| ==> NoMissedMatch(predicates[i], d)
    case Or(predicates) => forall i :: 0 <= i < |predicates| ==> NoMissedMatch(predicates[i], d)
    case _ => !MissesMissing(p, d)
  }

  /** No leaf meets a null or missing field where the two readings differ. */
  ghost predicate Settled(p: Predicate, d: Doc) { NoExtraMatch(p, d) && NoMissedMatch(p, d) }

  /** No leaf is a `<>` or a `NOT IN`. */
  ghost predicate NegationFree(p: Predicate)
    decreases p
  {
    match p
    case Compare(_, operator, _) => operator != NotEqual
    case In(_, _, negated) => !negated
    case IsNull(_, _) => true
    case And(predicates) => forall q :: q in predicates ==> NegationFree(q)
    case Or(predicates) => forall q :: q in predicates ==> NegationFree(q)
  }

  /** No leaf is an `IS NULL`; `IS NOT NULL` is allowed. */
  ghost predicate NullTestFree(p: Predicate)
    decreases p
  {
    match p
    case IsNull(_, negated) => negated
    case And(predicates) => forall q :: q in predicates ==> NullTestFree(q)
    case Or(predicates) => forall q :: q in predicates ==> NullTestFree(q)
    case _ => true
  }

  /** The form of a predicate alone can settle either side for every document. */
  lemma {:induction false} FormSettles(p: Predicate, d: Doc)
    ensures NegationFree(p) ==> NoExtraMatch(p, d)
    ensures NullTestFree(p) ==> NoMissedMatch(p, d)
    decreases p
  {
    if p.And? || p.Or? {
      forall i | 0 <= i < |p.predicates|
        ensures NegationFree(p) ==> NoExtraMatch(p.predicates[i], d)
        ensures NullTestFree(p) ==> NoMissedMatch(p.predicates[i], d)
      {
        assert p.predicates[i] in p.predicates;
        FormSettles(p.predicates[i], d);
      }
    }
  }

  lemma NameIsPath(path: FieldPath)
    requires PathReadable(path)
    ensures SplitDots(DisplayName(path)) == path
    ensures DisplayName(path) != "$and" && DisplayName(path) != "$or"
  {
    SplitOfJoin(path);
    assert DisplayName(path) == "" || DisplayName(path)[0] != '$';
  }

  lemma SingleFieldMatches(path: FieldPath, condition: Bson, d: Doc)
    requires PathReadable(path)
    ensures Matches(SingleField(DisplayName(path), condition), d) <==> MatchesField(condition, Lookup(d, path))
  {
    NameIsPath(path);
    var filter, key := SingleField(DisplayName(path), condition), DisplayName(path);
    assert forall k :: k in filter.fields <==> k == key;
    assert filter.fields[key] == condition;
    assert Matches(filter, d) <==> MatchesEntry(key, condition, d);
  }

  lemma OperatorFieldMatches(path: FieldPath, operator: string, operand: Bson, d: Doc)
    requires PathReadable(path) && operator != "" && operator[0] == '$'
    ensures Matches(OperatorField(DisplayName(path), operator, operand), d) <==>
            MatchesOperator(operator, operand, Lookup(d, path))
  {
    var condition := Document(map[operator := operand]);
    SingleFieldMatches(path, condition, d);
    assert operator in condition.fields;
    assert forall k :: k in condition.fields <==> k == operator;
  }

  lemma LogicalMatches(operator: string, documents: seq<Bson>, d: Doc)
    requires operator == "$and" || operator == "$or"
    ensures var filter := SingleField(operator, Array(documents));
            Matches(filter, d) <==>
            if operator == "$and" then forall i :: 0 <= i < |documents| ==> Matches(documents[i], d)
            else exists i :: 0 <= i < |documents| && Matches(documents[i], d)
  {
    var filter := SingleField(operator, Array(documents));
    assert forall k :: k in filter.fields <==> k == operator;
    assert filter.fields[operator] == Array(documents);
    assert Matches(filter, d) <==> MatchesEntry(operator, Array(documents), d);
    assert forall f :: f in documents <==> exists i :: 0 <= i < |documents| && documents[i] == f;
  }

  lemma {:induction false} InSqlMeaning(column: Bson, values: seq<SqlValue>)
    requires SqlNull !in values && forall i :: 0 <= i < |values| ==> !values[i].SqlPlaceholder?
    ensures column != Null ==>
            InSql(column, values, LiteralEnv) ==
            TruthOf(exists i :: 0 <= i < |values| && SameValue(column, Literal(values[i])))
    ensures column == Null ==> InSql(column, values, LiteralEnv) == if values == [] then False else Unknown
  {
    if values != [] {
      InSqlMeaning(column, values[1..]);
      assert values[0] in values;
      assert forall i :: 0 < i < |values| ==> values[i] == values[1..][i - 1];
      assert forall i :: 0 <= i < |values| - 1 ==> values[1..][i] == values[i + 1];
    }
  }

  lemma LeafMeaning(p: Predicate, d: Doc)
    requires !p.And? && !p.Or? && Readable(p) && PredicateDocument(p).Ok?
    ensures Matches(PredicateDocument(p).value, d) <==> Selects(p, d)
  {
    match p
    case Compare(path, operator, value) => CompareMeaning(path, operator, value, d);
    case In(path, values, negated) => InMeaning(path, values, negated, d);
    case IsNull(path, negated) => NullTestMeaning(path, negated, d);
  }

  lemma CompareMeaning(path: FieldPath, operator: ComparisonOperator, value: SqlValue, d: Doc)
    requires PathReadable(path) && !value.SqlNull? && PredicateDocument(Compare(path, operator, value)).Ok?
    ensures var p := Compare(path, operator, value);
            Matches(PredicateDocument(p).value, d) <==> Selects(p, d)
  {
    if operator == Equal {
      SingleFieldMatches(path, Literal(value), d);
    } else {
      OperatorFieldMatches(path, OperatorName(operator), Literal(value), d);
    }
  }

  lemma NullTestMeaning(path: FieldPath, negated: bool, d: Doc)
    requires PathReadable(path) && PredicateDocument(IsNull(path, negated)).Ok?
    ensures var p := IsNull(path, negated);
            Matches(PredicateDocument(p).value, d) <==> Selects(p, d)
  {
    var nullCheck := if negated then OperatorField(DisplayName(path), "$ne", Null)
                     else SingleField(DisplayName(path), Null);
    var existsCheck := OperatorField(DisplayName(path), "$exists", Boolean(true));
    LogicalMatches("$and", [nullCheck, existsCheck], d);
    OperatorFieldMatches(path, "$exists", Boolean(true), d);
    if negated {
      OperatorFieldMatches(path, "$ne", Null, d);
    } else {
      SingleFieldMatches(path, Null, d);
    }
    assert Matches(PredicateDocument(IsNull(path, negated)).value, d)
           <==> Matches(nullCheck, d) && Matches(existsCheck, d) by {
      assert [nullCheck, existsCheck][0] == nullCheck && [nullCheck, existsCheck][1] == existsCheck;
    }
  }

  lemma InMeaning(path: FieldPath, values: seq<SqlValue>, negated: bool, d: Doc)
    requires Readable(In(path, values, negated)) && PredicateDocument(In(path, values, negated)).Ok?
    ensures Matches(PredicateDocument(In(path, values, negated)).value, d) <==> Selects(In(path, values, negated), d)
  {
    BsonValuesEach(values);
    var literals := BsonValues(values).value;
    OperatorFieldMatches(path, if negated then "$nin" else "$in", Array(literals), d);
    InSqlMeaning(Column(d, path), values);
    ListMeaning(values, literals, Lookup(d, path));
  }

  /** Some literal of the list equals the field exactly when the column is not null and has a listed value. */
  lemma ListMeaning(values: seq<SqlValue>, literals: seq<Bson>, field: Option<Bson>)
    requires SqlNull !in values && |literals| == |values|
    requires forall i :: 0 <= i < |values| ==> !values[i].SqlPlaceholder? && literals[i] == Literal(values[i])
    ensures (exists x :: x in literals && MatchesEqual(x, field)) <==>
            && field.Some? && field.value != Null
            && exists i :: 0 <= i < |values| && SameValue(field.value, Literal(values[i]))
  {
    forall i | 0 <= i < |values| ensures literals[i] != Null && literals[i] in literals {
      assert values[i] in values;
    }
    if x :| x in literals && MatchesEqual(x, field) {
      var i :| 0 <= i < |literals| && literals[i] == x;
      assert SameValue(field.value, Literal(values[i]));
    }
    if i :| 0 <= i < |values| && field.Some? && field.value != Null && SameValue(field.value, Literal(values[i])) {
      assert MatchesEqual(literals[i], field);
    }
  }

  /** Compilation preserves meaning: the filter selects exactly the documents `Selects` describes. */
  lemma {:induction false} CompiledFilterSelects(p: Predicate, d: Doc)
    requires Readable(p) && PredicateDocument(p).Ok?
    ensures Matches(PredicateDocument(p).value, d) <==> Selects(p, d)
    decreases p
  {
    if p.And? || p.Or? {
      var ps, operator := p.predicates, if p.And? then "$and" else "$or";
      PredicateDocumentsEach(ps);
      var documents := PredicateDocuments(ps).value;
      LogicalMatches(operator, documents, d);
      forall i | 0 <= i < |ps| ensures Matches(documents[i], d) <==> Selects(ps[i], d) {
        assert ps[i] in ps;
        CompiledFilterSelects(ps[i], d);
      }
    } else {
      LeafMeaning(p, d);
    }
  }

  lemma {:induction false} SelectsWithinSql(p: Predicate, d: Doc)
    requires NoExtraMatch(p, d) && Selects(p, d)
    ensures Sql(p, LiteralEnv, d) == True
    decreases p
  {
    if p.And? || p.Or? {
      AllSqlTrue(p.predicates, LiteralEnv, d);
      AnySqlTrue(p.predicates, LiteralEnv, d);
      forall i | 0 <= i < |p.predicates| && Selects(p.predicates[i], d)
        ensures Sql(p.predicates[i], LiteralEnv, d) == True
      {
        SelectsWithinSql(p.predicates[i], d);
      }
    }
  }

  lemma {:induction false} SqlWithinSelects(p: Predicate, d: Doc)
    requires NoMissedMatch(p, d) && Sql(p, LiteralEnv, d) == True
    ensures Selects(p, d)
    decreases p
  {
    if p.And? || p.Or? {
      AllSqlTrue(p.predicates, LiteralEnv, d);
      AnySqlTrue(p.predicates, LiteralEnv, d);
      forall i | 0 <= i < |p.predicates| && Sql(p.predicates[i], LiteralEnv, d) == True
        ensures Selects(p.predicates[i], d)
      {
        SqlWithinSelects(p.predicates[i], d);
      }
    }
  }

  /** Each side on its own: without a negated leaf on a null or missing field the filter matches no
      document that SQL does not select, and without an `IS NULL` on a missing field it misses none.
      In particular this holds of predicates without such leaves, whatever the document. */
  lemma CompiledFilterContained(p: Predicate, d: Doc)
    requires Readable(p) && PredicateDocument(p).Ok?
    ensures NegationFree(p) ==> NoExtraMatch(p, d)
    ensures NullTestFree(p) ==> NoMissedMatch(p, d)
    ensures NoExtraMatch(p, d) && Matches(PredicateDocument(p).value, d) ==> Sql(p, LiteralEnv, d) == True
    ensures NoMissedMatch(p, d) && Sql(p, LiteralEnv, d) == True ==> Matches(PredicateDocument(p).value, d)
  {
    FormSettles(p, d);
    CompiledFilterSelects(p, d);
    if NoExtraMatch(p, d) && Selects(p, d) {
      SelectsWithinSql(p, d);
    }
    if NoMissedMatch(p, d) && Sql(p, LiteralEnv, d) == True {
      SqlWithinSelects(p, d);
    }
  }

  /** On documents where every negated field is present and non-null and every field under
      `IS NULL` is present, the filter matches exactly when the SQL predicate is true. */
  lemma CompiledFilterIsSql(p: Predicate, d: Doc)
    requires Readable(p) && PredicateDocument(p).Ok? && Settled(p, d)
    ensures Matches(PredicateDocument(p).value, d) <==> Sql(p, LiteralEnv, d) == True
  {
    CompiledFilterContained(p, d);
  }

  /** For one leaf the premise is exact: the two readings agree if and only if it is settled,
      or it is a `NOT IN ()`, which SQL also grants to NULL. */
  lemma LeafAgreementIsExact(p: Predicate, d: Doc)
    requires !p.And? && !p.Or? && Readable(p) && PredicateDocument(p).Ok?
    ensures (Matches(PredicateDocument(p).value, d) <==> Sql(p, LiteralEnv, d) == True)
            <==> Settled(p, d) || (p.In? && p.values == [])
  {
    LeafMeaning(p, d);
    if p.In? {
      BsonValuesEach(p.values);
      InSqlMeaning(Column(d, p.path), p.values);
    }
  }

  /** Neither `IS NULL` nor `IS NOT NULL` matches a document without the field. */
  lemma NullTestsNeverMatchMissing(path: FieldPath, negated: bool, d: Doc)
    requires PathReadable(path) && PredicateDocument(IsNull(path, negated)).Ok? && Lookup(d, path).None?
    ensures !Matches(PredicateDocument(IsNull(path, negated)).value, d)
  {
    LeafMeaning(IsNull(path, negated), d);
  }

  // ---------------------------------------------------------------------------
  // Paths with a dot inside a segment
  // ---------------------------------------------------------------------------

  /** The predicate with every path as MongoDB reads its name. */
  function Respelled(p: Predicate): Predicate
    decreases p
  {
    match p
    case Compare(path, operator, value) => Compare(SplitDots(DisplayName(path)), operator, value)
    case In(path, values, negated) => In(SplitDots(DisplayName(path)), values, negated)
    case IsNull(path, negated) => IsNull(SplitDots(DisplayName(path)), negated)
    case And(predicates) => And(RespelledAll(predicates))
    case Or(predicates) => Or(RespelledAll(predicates))
  }

  function RespelledAll(predicates: seq<Predicate>): seq<Predicate>
    decreases predicates
  {
    if predicates == [] then [] else [Respelled(predicates[0])] + RespelledAll(predicates[1..])
  }

  lemma NameOfSplit(path: FieldPath)
    ensures MongoFieldName(path).Ok? ==> MongoFieldName(SplitDots(DisplayName(path))) == MongoFieldName(path)
  {
    JoinOfSplit(DisplayName(path));
    assert DotFreePath(SplitDots(DisplayName(path)));
  }

  lemma {:induction false} RespelledCompilesAlike(p: Predicate)
    requires PredicateDocument(p).Ok?
    ensures PredicateDocument(Respelled(p)) == PredicateDocument(p)
    decreases p
  {
    match p
    case Compare(path, _, _) => NameOfSplit(path);
    case In(path, _, _) => NameOfSplit(path);
    case IsNull(path, _) => NameOfSplit(path);
    case And(predicates) => RespelledAllCompileAlike(predicates);
    case Or(predicates) => RespelledAllCompileAlike(predicates);
  }

  lemma {:induction false} RespelledAllCompileAlike(predicates: seq<Predicate>)
    requires PredicateDocuments(predicates).Ok?
    ensures PredicateDocuments(RespelledAll(predicates)) == PredicateDocuments(predicates)
    decreases predicates
  {
    if predicates != [] {
      RespelledCompilesAlike(predicates[0]);
      RespelledAllCompileAlike(predicates[1..]);
      assert RespelledAll(predicates)[1..] == RespelledAll(predicates[1..]);
    }
  }

  /** What a filter selects whose paths may have dots inside segments: the documents the predicate
      describes once every path is split at every dot. */
  lemma CompiledFilterReadsSplit(p: Predicate, d: Doc)
    requires PredicateDocument(p).Ok? && Readable(Respelled(p))
    ensures Matches(PredicateDocument(p).value, d) <==> Selects(Respelled(p), d)
  {
    RespelledCompilesAlike(p);
    CompiledFilterSelects(Respelled(p), d);
  }
}
