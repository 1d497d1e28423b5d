/** Projection of a schema profile into SQL columns (crates/catalog/src/lib.rs). */
module Catalog {
  import opened Ordering
  import opened Paths
  import opened Documents
  import opened Profiles
  import opened Discovery
  import opened AmbiguityPolicy

  datatype SqlType = SqlBoolean | BigInt | DoublePrecision | SqlText | TimestampWithTimeZone | Jsonb

  datatype ColumnMetadata = ColumnMetadata(
    name: string,
    ordinal: nat,
    nullable: bool,
    sqlType: SqlType,
    ambiguous: bool,
    sourcePaths: seq<FieldPath>)

  predicate FieldIsAmbiguous(f: FieldProfile) { |f.types| > 1 || |f.shapes| > 1 || f.collision }

  /** `sql_type_for_observations`: by the first type in declaration order. */
  function SqlTypeFor(types: set<ObservedType>): SqlType
  {
    if NullType in types then Jsonb
    else if BooleanType in types then SqlBoolean
    else if IntegerType in types then BigInt
    else if FloatingPointType in types then DoublePrecision
    else if StringType in types then SqlText
    else if DateTimeType in types then TimestampWithTimeZone
    else if ObjectIdType in types then SqlText
    else Jsonb
  }

  /** `column_from_fields`. */
  function ColumnFromFields(name: string, index: nat, fields: seq<FieldProfile>): ColumnMetadata
  {
    var types := set f, t | f in fields && t in f.types :: t;
    var ambiguous := |fields| > 1 || exists f :: f in fields && FieldIsAmbiguous(f);
    ColumnMetadata(
      name, index + 1,
      exists f :: f in fields && (f.missing > 0 || NullType in f.types),
      if ambiguous then Jsonb else SqlTypeFor(types),
      ambiguous,
      seq(|fields|, i requires 0 <= i < |fields| => fields[i].path))
  }

  /** The fields that share a display name, in profile order. */
  function Sharing(fields: seq<FieldProfile>, name: string): seq<FieldProfile>
  {
    if fields == [] then []
    else
      var n := |fields| - 1;
      Sharing(fields[..n], name) + if DisplayName(fields[n].path) == name then [fields[n]] else []
  }

  function DisplayNames(fields: seq<FieldProfile>): set<string>
  {
    set f | f in fields :: DisplayName(f.path)
  }

  function Projected(profile: SchemaProfile): seq<ColumnMetadata>
  {
    var names := SortedStrings(DisplayNames(profile.fields));
    seq(|names|, i requires 0 <= i < |names| => ColumnFromFields(names[i], i, Sharing(profile.fields, names[i])))
  }

  lemma OneMoreField(fields: seq<FieldProfile>, i: nat, name: string)
    requires i < |fields|
    ensures DisplayNames(fields[..i + 1]) == DisplayNames(fields[..i]) + {DisplayName(fields[i].path)}
    ensures Sharing(fields[..i + 1], name)
            == Sharing(fields[..i], name) + if DisplayName(fields[i].path) == name then [fields[i]] else []
  {
    assert fields[..i + 1] == fields[..i] + [fields[i]];
    assert fields[..i + 1][..i] == fields[..i];
  }

  function GroupAt(groups: map<string, seq<FieldProfile>>, name: string): seq<FieldProfile>
  {
    if name in groups then groups[name] else []
  }

  /** The groups hold the fields seen so far. */
  ghost predicate Grouped(groups: map<string, seq<FieldProfile>>, fields: seq<FieldProfile>)
  {
    groups.Keys == DisplayNames(fields) && forall name :: GroupAt(groups, name) == Sharing(fields, name)
  }

  /** The first loop of `project_collection`: fields are pushed onto the group of their name. */
  method GroupFields(fields: seq<FieldProfile>) returns (groups: map<string, seq<FieldProfile>>)
    ensures Grouped(groups, fields)
  {
    groups := map[];
    for i := 0 to |fields|
      invariant Grouped(groups, fields[..i])
    {
      var name := DisplayName(fields[i].path);
      GroupedNext(groups, fields, i);
      groups := groups[name := GroupAt(groups, name) + [fields[i]]];
    }
    assert fields[..|fields|] == fields;
  }

  lemma GroupedNext(before: map<string, seq<FieldProfile>>, fields: seq<FieldProfile>, i: nat)
    requires i < |fields| && Grouped(before, fields[..i])
    ensures var name := DisplayName(fields[i].path);
            Grouped(before[name := GroupAt(before, name) + [fields[i]]], fields[..i + 1])
  {
    var name := DisplayName(fields[i].path);
    var after := before[name := GroupAt(before, name) + [fields[i]]];
    OneMoreField(fields, i, name);
    forall other ensures GroupAt(after, other) == Sharing(fields[..i + 1], other) {
      GroupNext(before, fields[..i], fields[i], fields[..i + 1], other);
    }
  }

  lemma GroupNext(
    before: map<string, seq<FieldProfile>>, seen: seq<FieldProfile>, f: FieldProfile, seen': seq<FieldProfile>,
    other: string)
    requires GroupAt(before, other) == Sharing(seen, other) && seen' == seen + [f]
    ensures var name := DisplayName(f.path);
            GroupAt(before[name := GroupAt(before, name) + [f]], other) == Sharing(seen', other)
  {
    assert seen'[..|seen|] == seen;
  }

  /** The columns of the groups, numbered in the order of their names. */
  method ColumnsOf(groups: map<string, seq<FieldProfile>>, names: seq<string>) returns (columns: seq<ColumnMetadata>)
    ensures |columns| == |names|
    ensures forall j :: 0 <= j < |names| ==> columns[j] == ColumnFromFields(names[j], j, GroupAt(groups, names[j]))
  {
    columns := [];
    for i := 0 to |names|
      invariant |columns| == i
      invariant forall j :: 0 <= j < i ==> columns[j] == ColumnFromFields(names[j], j, GroupAt(groups, names[j]))
    {
      columns := columns + [ColumnFromFields(names[i], i, GroupAt(groups, names[i]))];
    }
  }

  /** `project_collection`. */
  method ProjectCollection(profile: SchemaProfile) returns (columns: seq<ColumnMetadata>)
    ensures columns == Projected(profile)
  {
    var groups := GroupFields(profile.fields);
    var names := SortedStrings(groups.Keys);
    columns := ColumnsOf(groups, names);
    GroupsProject(profile, groups, names, columns);
  }

  lemma GroupsProject(
    profile: SchemaProfile, groups: map<string, seq<FieldProfile>>, names: seq<string>, columns: seq<ColumnMetadata>)
    requires Grouped(groups, profile.fields) && names == SortedStrings(groups.Keys) && |columns| == |names|
    requires forall j :: 0 <= j < |names| ==> columns[j] == ColumnFromFields(names[j], j, GroupAt(groups, names[j]))
    ensures columns == Projected(profile)
  {
  }

  // ---------------------------------------------------------------------------
  // The catalog is a partition
  // ---------------------------------------------------------------------------

  lemma {:induction false} SharingExact(fields: seq<FieldProfile>, name: string)
    ensures forall f :: f in Sharing(fields, name) <==> f in fields && DisplayName(f.path) == name
  {
    if fields != [] {
      var n := |fields| - 1;
      SharingExact(fields[..n], name);
      assert forall f :: f in fields <==> f in fields[..n] || f == fields[n];
    }
  }

  lemma {:induction false} SharingCounts(fields: seq<FieldProfile>, name: string)
    ensures |Sharing(fields, name)| == CountNames(fields, name)
  {
    if fields != [] {
      SharingCounts(fields[..|fields| - 1], name);
    }
  }

  /** The column a path belongs to. */
  ghost predicate BelongsTo(columns: seq<ColumnMetadata>, i: nat, path: FieldPath)
  {
    i < |columns| && path in columns[i].sourcePaths
  }

  lemma SourcePathsExact(profile: SchemaProfile, i: nat, path: FieldPath)
    requires i < |Projected(profile)|
    ensures BelongsTo(Projected(profile), i, path) <==>
            (exists f :: f in profile.fields && f.path == path) && DisplayName(path) == Projected(profile)[i].name
  {
    var name := Projected(profile)[i].name;
    var group, sources := Sharing(profile.fields, name), Projected(profile)[i].sourcePaths;
    SharingExact(profile.fields, name);
    if path in sources {
      var k :| 0 <= k < |sources| && sources[k] == path;
      assert group[k] in group;
    }
    if f :| f in profile.fields && f.path == path && DisplayName(path) == name {
      assert f in group;
      var k :| 0 <= k < |group| && group[k] == f;
      assert sources[k] == path;
    }
  }

  /** Columns are numbered from 1 in the strict order of their names, and none is empty. */
  lemma ColumnsOrdered(profile: SchemaProfile)
    ensures var columns := Projected(profile);
            && (forall i :: 0 <= i < |columns| ==> columns[i].ordinal == i + 1 && columns[i].sourcePaths != [])
            && (forall i, j :: 0 <= i < j < |columns| ==> StringLess(columns[i].name, columns[j].name))
  {
    var columns, names := Projected(profile), SortedStrings(DisplayNames(profile.fields));
    forall i | 0 <= i < |columns| ensures columns[i].sourcePaths != [] {
      assert names[i] in names;
      var f :| f in profile.fields && DisplayName(f.path) == names[i];
      SourcePathsExact(profile, i, f.path);
    }
  }

  /** A path is a source of the column that bears its display name. */
  lemma OwnColumn(profile: SchemaProfile, path: FieldPath) returns (i: nat)
    requires Field(profile, path).Some?
    ensures BelongsTo(Projected(profile), i, path)
  {
    var f, names := Field(profile, path).value, SortedStrings(DisplayNames(profile.fields));
    assert DisplayName(f.path) in DisplayNames(profile.fields);
    assert DisplayName(path) in names;
    i :| 0 <= i < |names| && names[i] == DisplayName(path);
    SourcePathsExact(profile, i, path);
  }

  /** No path is a source of two columns. */
  lemma ColumnsDisjoint(profile: SchemaProfile, i: nat, j: nat, path: FieldPath)
    requires BelongsTo(Projected(profile), i, path) && BelongsTo(Projected(profile), j, path)
    ensures i == j
  {
    SourcePathsExact(profile, i, path);
    SourcePathsExact(profile, j, path);
    ColumnsOrdered(profile);
    StringOrder();
  }

  /** Every profiled path is a source of exactly one column, the one bearing its display name, and
      columns have no other sources. */
  lemma CatalogIsPartition(profile: SchemaProfile)
    ensures var columns := Projected(profile);
            && (forall i: nat, path :: BelongsTo(columns, i, path) ==>
                  DisplayName(path) == columns[i].name && Field(profile, path).Some?)
            && (forall path :: Field(profile, path).Some? ==>
                  exists i: nat ::
                    BelongsTo(columns, i, path) && forall j: nat :: BelongsTo(columns, j, path) ==> j == i)
  {
    var columns := Projected(profile);
    forall i: nat, path | BelongsTo(columns, i, path)
      ensures DisplayName(path) == columns[i].name && Field(profile, path).Some?
    {
      SourcePathsExact(profile, i, path);
    }
    forall path | Field(profile, path).Some?
      ensures exists i: nat :: BelongsTo(columns, i, path) && forall j: nat :: BelongsTo(columns, j, path) ==> j == i
    {
      var i := OwnColumn(profile, path);
      forall j: nat | BelongsTo(columns, j, path) ensures j == i {
        ColumnsDisjoint(profile, i, j, path);
      }
    }
  }

  lemma InferredInPathOrder(documents: seq<Doc>)
    ensures var fields, paths := Inferred(documents).fields, SortedPaths(SamplePaths(documents));
            |fields| == |paths| && forall j :: 0 <= j < |paths| ==> fields[j].path == paths[j]
  {
  }

  /** On inferred profiles a column has several sources exactly when its fields are flagged as colliding. */
  lemma SeveralSourcesIffFlagged(documents: seq<Doc>, i: nat, path: FieldPath)
    requires BelongsTo(Projected(Inferred(documents)), i, path)
    ensures Field(Inferred(documents), path).Some?
    ensures |Projected(Inferred(documents))[i].sourcePaths| > 1 <==> Field(Inferred(documents), path).value.collision
  {
    var profile := Inferred(documents);
    var fields, paths := profile.fields, SortedPaths(SamplePaths(documents));
    SourcePathsExact(profile, i, path);
    SharingCounts(fields, DisplayName(path));
    FieldOfInferred(documents, path);
    InferredInPathOrder(documents);
    assert path in paths;
    var k :| 0 <= k < |paths| && paths[k] == path;
    CollisionIffShared(SamplePaths(documents), paths, fields, k);
  }

  /** The BSON types a column type stands for. */
  function TypesBehind(t: SqlType): set<ObservedType>
  {
    match t
    case SqlBoolean => {BooleanType}
    case BigInt => {IntegerType}
    case DoublePrecision => {FloatingPointType}
    case SqlText => {StringType, ObjectIdType}
    case TimestampWithTimeZone => {DateTimeType}
    case Jsonb => {NullType, BooleanType, IntegerType, FloatingPointType, StringType,
                   DateTimeType, ObjectIdType, DocumentType, ArrayType}
  }

  /** A column never claims more than was seen: every sampled value at every one of its sources has a
      type the column stands for, and a column that is not nullable was present and non-null throughout. */
  lemma ColumnClaimsAreSound(documents: seq<Doc>, i: nat, path: FieldPath, k: nat)
    requires BelongsTo(Projected(Inferred(documents)), i, path) && k < |documents|
    ensures var column := Projected(Inferred(documents))[i];
            && (Lookup(documents[k], path).Some? ==>
                  TypeOf(Lookup(documents[k], path).value) in TypesBehind(column.sqlType))
            && (!column.nullable ==> Lookup(documents[k], path).Some? && Lookup(documents[k], path).value != Null)
  {
    var profile := Inferred(documents);
    SourcePathsExact(profile, i, path);
    SharingExact(profile.fields, DisplayName(path));
    FieldOfInferred(documents, path);
    var f := ProfileOf(documents, path);
    var names := SortedStrings(DisplayNames(profile.fields));
    var group := Sharing(profile.fields, names[i]);
    assert f in group by {
      var g :| g in profile.fields && g.path == path;
      UniqueProfile(documents, g);
    }
    ClaimsOfField(documents, path, k);
    ColumnOfGroup(names[i], i, group, f);
  }

  lemma UniqueProfile(documents: seq<Doc>, g: FieldProfile)
    requires g in Inferred(documents).fields
    ensures g == ProfileOf(documents, g.path) && g.path in SamplePaths(documents)
  {
    var paths := SortedPaths(SamplePaths(documents));
    var j :| 0 <= j < |paths| && Inferred(documents).fields[j] == g;
    assert paths[j] in paths;
  }

  /** What one field's profile says about each sampled document. */
  lemma ClaimsOfField(documents: seq<Doc>, path: FieldPath, k: nat)
    requires k < |documents|
    ensures var f := ProfileOf(documents, path);
            && (Lookup(documents[k], path).Some? ==> TypeOf(Lookup(documents[k], path).value) in f.types)
            && (f.missing == 0 ==> Lookup(documents[k], path).Some?)
  {
    SummaryCounts(documents, path);
    if Lookup(documents[k], path).Some? {
      assert k in Holders(documents, path);
      SummaryTypes(documents, path, TypeOf(Lookup(documents[k], path).value));
    }
    if ProfileOf(documents, path).missing == 0 {
      EverywhereWhenNoneMissing(documents, path, k);
    }
  }

  /** What a column says about each of its fields. */
  lemma ColumnOfGroup(name: string, index: nat, group: seq<FieldProfile>, f: FieldProfile)
    requires f in group
    ensures var column := ColumnFromFields(name, index, group);
            && (forall t :: t in f.types ==> t in TypesBehind(column.sqlType))
            && (!column.nullable ==> f.missing == 0 && NullType !in f.types)
  {
    var column := ColumnFromFields(name, index, group);
    if column.ambiguous {
      forall t | t in f.types ensures t in TypesBehind(Jsonb) {
        EveryTypeIsJson(t);
      }
    } else {
      assert group == [f] && |f.types| <= 1;
      var all := set g, t | g in group && t in g.types :: t;
      assert all == f.types;
      OneTypeBehind(f.types);
    }
  }

  lemma EveryTypeIsJson(t: ObservedType)
    ensures t in TypesBehind(Jsonb)
  {
    match t
    case NullType => case BooleanType => case IntegerType => case FloatingPointType => case StringType =>
    case DateTimeType => case ObjectIdType => case DocumentType => case ArrayType =>
  }

  lemma OneTypeBehind(types: set<ObservedType>)
    requires |types| <= 1
    ensures forall t :: t in types ==> t in TypesBehind(SqlTypeFor(types))
  {
    forall t | t in types ensures t in TypesBehind(SqlTypeFor(types)) {
      assert |types - {t}| == 0;
      assert types == {t};
      EveryTypeIsJson(t);
    }
  }

  // ---------------------------------------------------------------------------
  // Columns say no less than was seen
  // ---------------------------------------------------------------------------

  /** The field gives reason for caution: two types, two shapes, or a collision. */
  ghost predicate Doubtful(f: FieldProfile)
  {
    || (exists t, u :: t in f.types && u in f.types && t != u)
    || (exists g, h :: g in f.shapes && h in f.shapes && g != h)
    || f.collision
  }

  lemma DoubtfulExact(f: FieldProfile)
    ensures FieldIsAmbiguous(f) <==> Doubtful(f)
  {
    SeveralElements(f.types);
    SeveralElements(f.shapes);
  }

  /** The SQL type of a single observed type. */
  ghost predicate Renders(t: ObservedType, sqlType: SqlType)
  {
    match sqlType
    case SqlBoolean => t == BooleanType
    case BigInt => t == IntegerType
    case DoublePrecision => t == FloatingPointType
    case SqlText => t == StringType || t == ObjectIdType
    case TimestampWithTimeZone => t == DateTimeType
    case Jsonb => t == NullType || t == DocumentType || t == ArrayType
  }

  /** A column of a group of fields, exactly: it is nullable if and only if some source is missing or null
      somewhere, ambiguous if and only if there are several sources or a doubtful one, of JSON type when
      ambiguous, and otherwise of the type that renders the one type observed. */
  lemma ColumnExact(name: string, index: nat, group: seq<FieldProfile>)
    requires group != [] && forall f :: f in group ==> f.types != {}
    ensures var column := ColumnFromFields(name, index, group);
            && column.name == name && column.ordinal == index + 1
            && |column.sourcePaths| == |group|
            && (forall i :: 0 <= i < |group| ==> column.sourcePaths[i] == group[i].path)
            && (column.nullable <==> exists f :: f in group && (f.missing > 0 || NullType in f.types))
            && (column.ambiguous <==> |group| > 1 || Doubtful(group[0]))
            && (column.ambiguous ==> column.sqlType == Jsonb)
            && (!column.ambiguous ==> forall t :: t in group[0].types ==> Renders(t, column.sqlType))
  {
    forall f | f in group ensures FieldIsAmbiguous(f) <==> Doubtful(f) {
      DoubtfulExact(f);
    }
    assert group[0] in group;
    if !ColumnFromFields(name, index, group).ambiguous {
      var all := set f, t | f in group && t in f.types :: t;
      assert group == [group[0]] && all == group[0].types;
      var t :| t in group[0].types;
      forall u | u in group[0].types ensures u == t {
        assert !Doubtful(group[0]);
      }
      assert group[0].types == {t};
    }
  }

  lemma GroupsHaveTypes(documents: seq<Doc>, name: string)
    ensures forall f :: f in Sharing(Inferred(documents).fields, name) ==> f.types != {}
  {
    forall f | f in Sharing(Inferred(documents).fields, name) ensures f.types != {} {
      SharingExact(Inferred(documents).fields, name);
      UniqueProfile(documents, f);
      PresentSomewhere(documents, f.path);
      SummaryCounts(documents, f.path);
      var k :| k in Holders(documents, f.path);
      SummaryTypes(documents, f.path, TypeOf(Lookup(documents[k], f.path).value));
    }
  }

  /** The columns of an inferred profile obey that table. */
  lemma InferredColumnsExact(documents: seq<Doc>, i: nat)
    requires i < |Projected(Inferred(documents))|
    ensures var column := Projected(Inferred(documents))[i];
            var group := Sharing(Inferred(documents).fields, column.name);
            && group != [] && column == ColumnFromFields(column.name, i, group)
            && (column.nullable <==> exists f :: f in group && (f.missing > 0 || NullType in f.types))
            && (column.ambiguous <==> |group| > 1 || Doubtful(group[0]))
            && (column.ambiguous ==> column.sqlType == Jsonb)
            && (!column.ambiguous ==> forall t :: t in group[0].types ==> Renders(t, column.sqlType))
  {
    var profile := Inferred(documents);
    var names := SortedStrings(DisplayNames(profile.fields));
    assert names[i] in names;
    var f :| f in profile.fields && DisplayName(f.path) == names[i];
    SharingExact(profile.fields, names[i]);
    assert f in Sharing(profile.fields, names[i]);
    GroupsHaveTypes(documents, names[i]);
    ColumnExact(names[i], i, Sharing(profile.fields, names[i]));
  }
}
