/** Resolution of INSERT column names (crates/sql-engine/src/resolve.rs). */
module Resolve {
  import opened Common
  import opened Paths
  import opened Profiles

  /** An SQL identifier; quoting is part of its identity. */
  datatype Ident = Ident(value: string, quote: Option<char>)

  function ValuesOf(identifiers: seq<Ident>): FieldPath
  {
    seq(|identifiers|, i requires 0 <= i < |identifiers| => identifiers[i].value)
  }

  /** `resolve_field`: an unquoted collection name in front is dropped. */
  function ResolveField(identifiers: seq<Ident>, collection: string, schema: SchemaProfile): Result<FieldPath>
  {
    var qualified := identifiers != [] && identifiers[0] == Ident(collection, None);
    var rest := if qualified then identifiers[1..] else identifiers;
    if rest == [] then Err(InvalidInput)
    else if Field(schema, ValuesOf(rest)).None? then Err(InvalidInput)
    else Ok(ValuesOf(rest))
  }

  /** `resolve_insert_column`. */
  function ResolveInsertColumn(identifier: Ident, collection: string, schema: SchemaProfile): Result<FieldPath>
  {
    if Field(schema, [identifier.value]).Some? then Ok([identifier.value])
    else if Field(schema, SplitDots(identifier.value)).Some? then Ok(SplitDots(identifier.value))
    else ResolveField([identifier], collection, schema)
  }

  /** A column name resolves exactly when the literal key or the fully split path is profiled; the
      result is profiled, displays as the identifier, and is the literal key whenever that exists. */
  lemma ResolveInsertColumnExact(identifier: Ident, collection: string, schema: SchemaProfile)
    ensures ResolveInsertColumn(identifier, collection, schema).Ok? <==>
            Field(schema, [identifier.value]).Some? || Field(schema, SplitDots(identifier.value)).Some?
    ensures ResolveInsertColumn(identifier, collection, schema).Err? ==>
            ResolveInsertColumn(identifier, collection, schema).kind == InvalidInput
    ensures ResolveInsertColumn(identifier, collection, schema).Ok? ==>
            var path := ResolveInsertColumn(identifier, collection, schema).value;
            && Field(schema, path).Some?
            && DisplayName(path) == identifier.value
            && (Field(schema, [identifier.value]).Some? <==> path == [identifier.value])
  {
    JoinOfSplit(identifier.value);
    assert ValuesOf([identifier]) == [identifier.value];
  }

  /** The path of a profiled dot-free column is recovered from its display name, unless a literal key
      shadows it. */
  lemma {:induction false} InsertColumnRoundTrip(path: FieldPath, collection: string, schema: SchemaProfile)
    requires path != [] && DotFreePath(path) && Field(schema, path).Some?
    ensures ResolveInsertColumn(Ident(DisplayName(path), Some('"')), collection, schema) == Ok(path)
            <==> |path| == 1 || Field(schema, [DisplayName(path)]).None?
  {
    SplitOfJoin(path);
    assert |path| == 1 ==> path == [DisplayName(path)];
  }

  /** A path expression names the field spelled by its parts, less an unquoted collection name in front,
      if that field is profiled; a quoted collection name is an ordinary part. */
  lemma ResolveFieldExact(identifiers: seq<Ident>, collection: string, schema: SchemaProfile, path: FieldPath)
    ensures ResolveField(identifiers, collection, schema) == Ok(path) <==>
            && path != [] && Field(schema, path).Some? && identifiers != []
            && var skipped := if identifiers[0].value == collection && identifiers[0].quote.None? then 1 else 0;
               && |identifiers| == |path| + skipped
               && forall i :: 0 <= i < |path| ==> path[i] == identifiers[i + skipped].value
    ensures ResolveField(identifiers, collection, schema).Err? ==>
            ResolveField(identifiers, collection, schema).kind == InvalidInput
  {
    if identifiers != [] {
      var skipped := if identifiers[0].value == collection && identifiers[0].quote.None? then 1 else 0;
      var rest := identifiers[skipped..];
      assert identifiers[0..] == identifiers;
      assert path == ValuesOf(rest) <==>
             && |identifiers| == |path| + skipped
             && forall i :: 0 <= i < |path| ==> path[i] == identifiers[i + skipped].value;
    }
  }
}
