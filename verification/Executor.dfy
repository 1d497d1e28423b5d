/** Deterministic construction of inserted documents and of `$set` updates
    (crates/mongo-executor/src/lib.rs). */
module Executor {
  import opened Common
  import opened Ordering
  import opened Paths
  import opened Documents
  import opened Plans
  import opened Assignments

  // ---------------------------------------------------------------------------
  // INSERT
  // ---------------------------------------------------------------------------

  /** A document under construction. Borrowing an embedded document mutably is modelled by
      moving it into a cell of its own and writing it back. */
  class DocumentCell {
    var fields: Doc

    constructor (fields: Doc)
      ensures this.fields == fields
    {
      this.fields := fields;
    }
  }

  /** Insertion of one value at a path that must be free. */
  function InsertAt(d: Doc, segments: FieldPath, value: Bson): Result<Doc>
    decreases |segments|
  {
    if segments == [] then Err(InvalidInput)
    else
      var field, remaining := segments[0], segments[1..];
      if remaining == [] then
        if field in d then Err(InvalidInput) else Ok(d[field := value])
      else if field in d && !d[field].Document? then Err(InvalidInput)
      else
        var nested :- InsertAt(if field in d then d[field].fields else map[], remaining, value);
        Ok(d[field := Document(nested)])
  }

  /** `insert_nested_value`: in place, and without any effect when it fails. */
  method InsertNestedValue(document: DocumentCell, segments: FieldPath, value: Bson) returns (result: Result<Unit>)
    modifies document
    ensures result.Ok? <==> InsertAt(old(document.fields), segments, value).Ok?
    ensures result.Ok? ==> document.fields == InsertAt(old(document.fields), segments, value).value
    ensures result.Err? ==> result.kind == InvalidInput && document.fields == old(document.fields)
    decreases |segments|
  {
    if segments == [] {
      return Err(InvalidInput);
    }
    var field, remaining := segments[0], segments[1..];
    if remaining == [] {
      if field in document.fields {
        return Err(InvalidInput);
      }
      document.fields := document.fields[field := value];
      return Ok(Unit.Unit);
    }
    if field in document.fields {
      if !document.fields[field].Document? {
        return Err(InvalidInput);
      }
      var nested := new DocumentCell(document.fields[field].fields);
      result := InsertNestedValue(nested, remaining, value);
      document.fields := document.fields[field := Document(nested.fields)];
    } else {
      var nested := new DocumentCell(map[]);
      result := InsertNestedValue(nested, remaining, value);
      if result.Ok? {
        document.fields := document.fields[field := Document(nested.fields)];
      }
    }
  }

  /** Inserting is setting a path that holds nothing yet. */
  lemma {:induction false} InsertAtIsFreshSet(d: Doc, path: FieldPath, value: Bson)
    ensures InsertAt(d, path, value).Ok? <==> SetPath(d, path, value).Some? && Lookup(d, path).None?
    ensures InsertAt(d, path, value).Ok? ==> SetPath(d, path, value) == Some(InsertAt(d, path, value).value)
    decreases |path|
  {
    if |path| > 1 {
      if path[0] in d && d[path[0]].Document? {
        InsertAtIsFreshSet(d[path[0]].fields, path[1..], value);
      } else if path[0] !in d {
        InsertAtIsFreshSet(map[], path[1..], value);
      }
    }
  }

  /** The columns and values still to be inserted, applied left to right. */
  function BuildFrom(d: Doc, columns: seq<FieldPath>, row: seq<SqlValue>): Result<Doc>
    requires |columns| == |row|
    decreases |columns|
  {
    if columns == [] then Ok(d)
    else if IsLiteralDottedKey(columns[0]) then Err(FeatureNotSupported)
    else
      var value :- BsonValue(row[0]);
      var d' :- InsertAt(d, columns[0], value);
      BuildFrom(d', columns[1..], row[1..])
  }

  function BuiltDocument(columns: seq<FieldPath>, row: seq<SqlValue>): Result<Doc>
  {
    if |columns| != |row| then Err(InvalidInput) else BuildFrom(map[], columns, row)
  }

  /** `build_insert_document`. */
  method BuildInsertDocument(columns: seq<FieldPath>, row: seq<SqlValue>) returns (result: Result<Doc>)
    ensures result == BuiltDocument(columns, row)
  {
    if |columns| != |row| {
      return Err(InvalidInput);
    }
    var document := new DocumentCell(map[]);
    var i := 0;
    while i < |columns|
      invariant 0 <= i <= |columns|
      invariant BuildFrom(map[], columns, row) == BuildFrom(document.fields, columns[i..], row[i..])
    {
      assert columns[i..][1..] == columns[i + 1..] && row[i..][1..] == row[i + 1..];
      if IsLiteralDottedKey(columns[i]) {
        return Err(FeatureNotSupported);
      }
      var value := BsonValue(row[i]);
      if value.Err? {
        return Err(value.kind);
      }
      InsertAtFailsInvalid(document.fields, columns[i], value.value);
      var inserted := InsertNestedValue(document, columns[i], value.value);
      if inserted.Err? {
        return Err(inserted.kind);
      }
      i := i + 1;
    }
    return Ok(document.fields);
  }

  lemma {:induction false} InsertAtFailsInvalid(d: Doc, path: FieldPath, value: Bson)
    ensures InsertAt(d, path, value).Err? ==> InsertAt(d, path, value).kind == InvalidInput
    decreases |path|
  {
    if |path| > 1 && (path[0] in d ==> d[path[0]].Document?) {
      InsertAtFailsInvalid(if path[0] in d then d[path[0]].fields else map[], path[1..], value);
    }
  }

  /** The conditions under which a row can be built, none of which looks at a document. */
  ghost predicate Insertable(columns: seq<FieldPath>, row: seq<SqlValue>)
  {
    && |columns| == |row|
    && (forall i :: 0 <= i < |row| ==> !row[i].SqlPlaceholder?)
    && (forall i :: 0 <= i < |columns| ==> columns[i] != [] && !IsLiteralDottedKey(columns[i]))
    && PairwiseDisjoint(columns)
  }

  /** The row as settings of its columns. */
  function RowSettings(columns: seq<FieldPath>, row: seq<SqlValue>): (xs: seq<Setting>)
    requires |columns| == |row| && forall i :: 0 <= i < |row| ==> !row[i].SqlPlaceholder?
    ensures |xs| == |columns| && forall i :: 0 <= i < |xs| ==> xs[i] == (columns[i], Literal(row[i]))
  {
    seq(|columns|, i requires 0 <= i < |columns| => (columns[i], Literal(row[i])))
  }

  /** Every value can be inserted into `d` on its own. */
  ghost predicate Fits(d: Doc, columns: seq<FieldPath>, row: seq<SqlValue>)
    requires Insertable(columns, row)
  {
    forall i :: 0 <= i < |columns| ==> InsertAt(d, columns[i], Literal(row[i])).Ok?
  }

  lemma InsertableStep(columns: seq<FieldPath>, row: seq<SqlValue>)
    requires |columns| == |row| && columns != []
    ensures Insertable(columns, row) <==>
            && columns[0] != [] && !IsLiteralDottedKey(columns[0]) && !row[0].SqlPlaceholder?
            && Insertable(columns[1..], row[1..])
            && (forall i :: 0 < i < |columns| ==> !PathsOverlap(columns[0], columns[i]))
  {
    var rest, values := columns[1..], row[1..];
    assert forall i :: 0 <= i < |rest| ==> rest[i] == columns[i + 1] && values[i] == row[i + 1];
    assert forall i :: 0 < i < |columns| ==> columns[i] == rest[i - 1] && row[i] == values[i - 1];
  }

  /** Once the first value is in, the rest fits exactly when the whole row fitted before. */
  lemma FitsStep(d: Doc, columns: seq<FieldPath>, row: seq<SqlValue>)
    requires |columns| == |row| && columns != [] && !row[0].SqlPlaceholder?
    requires !IsLiteralDottedKey(columns[0]) && InsertAt(d, columns[0], Literal(row[0])).Ok?
    requires Insertable(columns[1..], row[1..])
    ensures Fits(InsertAt(d, columns[0], Literal(row[0])).value, columns[1..], row[1..]) <==>
            Insertable(columns, row) && Fits(d, columns, row)
  {
    var p, v, rest, values := columns[0], Literal(row[0]), columns[1..], row[1..];
    var d' := InsertAt(d, p, v).value;
    InsertableStep(columns, row);
    forall i | 0 < i < |columns|
      ensures InsertAt(d', columns[i], Literal(row[i])).Ok? <==>
              !PathsOverlap(p, columns[i]) && InsertAt(d, columns[i], Literal(row[i])).Ok?
    {
      assert rest[i - 1] == columns[i] && values[i - 1] == row[i];
      InsertAfterInsert(d, p, v, columns[i], Literal(row[i]));
    }
    assert forall i :: 0 <= i < |rest| ==> rest[i] == columns[i + 1] && values[i] == row[i + 1];
    assert forall i :: 0 < i < |columns| ==> columns[i] == rest[i - 1] && row[i] == values[i - 1];
  }

  /** The rest of the row can be inserted exactly when it is insertable and fits the document
      built so far, and then it amounts to setting the remaining columns. */
  lemma {:induction false} BuildFromExact(d: Doc, columns: seq<FieldPath>, row: seq<SqlValue>)
    requires |columns| == |row|
    ensures BuildFrom(d, columns, row).Ok? <==> Insertable(columns, row) && Fits(d, columns, row)
    ensures BuildFrom(d, columns, row).Ok? ==>
            ApplyAll(d, RowSettings(columns, row)) == Some(BuildFrom(d, columns, row).value)
    decreases |columns|
  {
    if columns != [] {
      InsertableStep(columns, row);
      if !IsLiteralDottedKey(columns[0]) && !row[0].SqlPlaceholder? {
        var p, v := columns[0], Literal(row[0]);
        InsertAtIsFreshSet(d, p, v);
        if InsertAt(d, p, v).Ok? {
          var d' := InsertAt(d, p, v).value;
          BuildFromExact(d', columns[1..], row[1..]);
          if Insertable(columns[1..], row[1..]) {
            FitsStep(d, columns, row);
          }
          if BuildFrom(d, columns, row).Ok? {
            assert RowSettings(columns, row)[1..] == RowSettings(columns[1..], row[1..]);
          }
        }
      }
    }
  }

  /** After one insertion, another one succeeds exactly when it would have succeeded before
      and its path does not overlap. */
  lemma InsertAfterInsert(d: Doc, p: FieldPath, v: Bson, q: FieldPath, w: Bson)
    requires InsertAt(d, p, v).Ok? && q != [] && !v.Document?
    ensures InsertAt(InsertAt(d, p, v).value, q, w).Ok? <==> !PathsOverlap(p, q) && InsertAt(d, q, w).Ok?
  {
    var d' := InsertAt(d, p, v).value;
    InsertAtIsFreshSet(d, p, v);
    InsertAtIsFreshSet(d, q, w);
    InsertAtIsFreshSet(d', q, w);
    OverlapIsPrefix(p, q);
    LookupAfterSet(d, p, v, q);
    if PathsOverlap(p, q) {
      if p != q && p <= q {
        SetPathSucceeds(d', q, w);
        LookupAfterSet(d, p, v, p);
        assert q[..|p|] == p;
        assert Lookup(d', q[..|p|]) == Some(v);
      }
    } else {
      SetKeepsSuccess(d, p, v, q, w);
    }
  }

  lemma {:induction false} InsertIntoEmpty(path: FieldPath, value: Bson)
    requires path != []
    ensures InsertAt(map[], path, value).Ok?
    decreases |path|
  {
    if |path| > 1 {
      InsertIntoEmpty(path[1..], value);
    }
  }

  /** The in-place builder accepts exactly the insertable rows. */
  lemma BuilderAccepts(columns: seq<FieldPath>, row: seq<SqlValue>)
    ensures BuiltDocument(columns, row).Ok? <==> Insertable(columns, row)
  {
    if |columns| == |row| {
      BuildFromExact(map[], columns, row);
      if Insertable(columns, row) {
        forall i | 0 <= i < |columns| ensures InsertAt(map[], columns[i], Literal(row[i])).Ok? {
          InsertIntoEmpty(columns[i], Literal(row[i]));
        }
      }
    }
  }

  /** The conditions spelled out: a row is built exactly when it has one value per column, none a
      placeholder, and the columns are non-empty, no literal dotted keys, and not prefixes of each other. */
  lemma BuilderAcceptsSpelledOut(columns: seq<FieldPath>, row: seq<SqlValue>)
    ensures BuiltDocument(columns, row).Ok? <==>
            && |columns| == |row|
            && (forall v :: v in row ==> !v.SqlPlaceholder?)
            && (forall c :: c in columns ==> c != [] && !NamesDottedKey(c))
            && (forall i, j :: 0 <= i < |columns| && 0 <= j < |columns| && i != j ==> !(columns[i] <= columns[j]))
    ensures |columns| != |row| ==> BuiltDocument(columns, row) == Err(InvalidInput)
  {
    BuilderAccepts(columns, row);
    DisjointExact(columns);
    assert (forall v :: v in row ==> !v.SqlPlaceholder?) <==> forall i :: 0 <= i < |row| ==> !row[i].SqlPlaceholder?;
    forall c: FieldPath ensures NamesDottedKey(c) <==> IsLiteralDottedKey(c) {
    }
    assert forall i :: 0 <= i < |columns| ==> columns[i] in columns;
  }

  /** Disjointness, said of prefixes. */
  lemma DisjointExact(paths: seq<FieldPath>)
    ensures PairwiseDisjoint(paths) <==>
            forall i, j :: 0 <= i < |paths| && 0 <= j < |paths| && i != j ==> !(paths[i] <= paths[j])
  {
    forall i, j | 0 <= i < |paths| && 0 <= j < |paths|
      ensures PathsOverlap(paths[i], paths[j]) <==> paths[i] <= paths[j] || paths[j] <= paths[i]
    {
      OverlapIsPrefix(paths[i], paths[j]);
    }
  }

  /** The kind of a refusal: unsupported exactly when the values before the first literal dotted key can
      all be inserted. */
  lemma {:induction false} BuildRefusal(d: Doc, columns: seq<FieldPath>, row: seq<SqlValue>)
    requires |columns| == |row| && BuildFrom(d, columns, row).Err?
    ensures BuildFrom(d, columns, row).kind == FeatureNotSupported || BuildFrom(d, columns, row).kind == InvalidInput
    ensures BuildFrom(d, columns, row).kind == FeatureNotSupported <==>
            exists i :: 0 <= i < |columns| && NamesDottedKey(columns[i]) && BuildFrom(d, columns[..i], row[..i]).Ok?
    decreases |columns|
  {
    if NamesDottedKey(columns[0]) {
      assert BuildFrom(d, columns[..0], row[..0]).Ok?;
    } else {
      var value := BsonValue(row[0]);
      if value.Ok? {
        InsertAtFailsInvalid(d, columns[0], value.value);
      }
      if value.Ok? && InsertAt(d, columns[0], value.value).Ok? {
        var d' := InsertAt(d, columns[0], value.value).value;
        BuildRefusal(d', columns[1..], row[1..]);
        forall i | 0 < i <= |columns|
          ensures BuildFrom(d, columns[..i], row[..i]) == BuildFrom(d', columns[1..][..i - 1], row[1..][..i - 1])
        {
          assert columns[..i][1..] == columns[1..][..i - 1] && row[..i][1..] == row[1..][..i - 1];
        }
        if BuildFrom(d, columns, row).kind == FeatureNotSupported {
          var i :| 0 <= i < |columns[1..]| && NamesDottedKey(columns[1..][i])
                   && BuildFrom(d', columns[1..][..i], row[1..][..i]).Ok?;
          assert NamesDottedKey(columns[i + 1]) && BuildFrom(d, columns[..i + 1], row[..i + 1]).Ok?;
        }
        if i :| 0 <= i < |columns| && NamesDottedKey(columns[i]) && BuildFrom(d, columns[..i], row[..i]).Ok? {
          assert i > 0 && NamesDottedKey(columns[1..][i - 1]);
        }
      } else {
        forall i | 0 < i < |columns| ensures BuildFrom(d, columns[..i], row[..i]).Err? {
          assert columns[..i][0] == columns[0] && row[..i][0] == row[0];
        }
      }
    }
  }

  /** What the built document holds: every row value at its column, documents above the
      columns, and nothing else; so the leaves are exactly the columns. */
  lemma BuilderContents(columns: seq<FieldPath>, row: seq<SqlValue>)
    requires BuiltDocument(columns, row).Ok?
    ensures Insertable(columns, row)
    ensures var d := BuiltDocument(columns, row).value;
            && (forall i :: 0 <= i < |columns| ==> ValueAtPath(d, columns[i]) == Some(Literal(row[i])))
            && (forall q :: q != [] ==> (Lookup(d, q).Some? <==> exists i :: 0 <= i < |columns| && q <= columns[i]))
            && (forall q :: Lookup(d, q).Some? && !Lookup(d, q).value.Document? <==> q in columns)
  {
    BuilderAccepts(columns, row);
    BuildFromExact(map[], columns, row);
    var d, xs := BuiltDocument(columns, row).value, RowSettings(columns, row);
    ApplyAllIsSimultaneous(map[], xs);
    forall i | 0 <= i < |columns|
      ensures Lookup(d, columns[i]) == ValueAtPath(d, columns[i]) == Some(Literal(row[i]))
    {
      ValueAtPathIsLookup(d, columns[i]);
      assert xs[i].0 <= columns[i];
      assert columns[i][|columns[i]|..] == [];
    }
    forall q | q != []
      ensures Lookup(d, q).Some? <==> exists i :: 0 <= i < |columns| && q <= columns[i]
      ensures Lookup(d, q).Some? && !Lookup(d, q).value.Document? <==> q in columns
    {
      if i :| 0 <= i < |xs| && PathsOverlap(xs[i].0, q) {
        OverlapIsPrefix(xs[i].0, q);
        if columns[i] <= q && columns[i] != q {
          assert Lookup(d, q) == LookupIn(Literal(row[i]), q[|columns[i]|..]) == None;
          forall j | 0 <= j < |columns| && q <= columns[j] ensures false {
            PrefixTransitive(columns[i], q, columns[j]);
            OverlapIsPrefix(columns[i], columns[j]);
          }
        } else if columns[i] == q {
          assert q in columns;
        } else {
          assert ProperPrefix(q, xs[i].0);
        }
      } else {
        assert Lookup(d, q) == Lookup(map[], q) == None;
        forall j | 0 <= j < |columns| && q <= columns[j] ensures false {
          OverlapIsPrefix(xs[j].0, q);
        }
      }
    }
  }

  /** The primed row is the other one with columns and values permuted together. */
  ghost predicate Rearranges(
    columns: seq<FieldPath>, row: seq<SqlValue>, columns': seq<FieldPath>, row': seq<SqlValue>, order: seq<nat>)
  {
    && |columns| == |row| == |columns'| == |row'| == |order|
    && (forall i :: 0 <= i < |order| ==>
          order[i] < |columns| && columns'[i] == columns[order[i]] && row'[i] == row[order[i]])
    && (forall i, j :: 0 <= i < j < |order| ==> order[i] != order[j])
    && (forall k :: 0 <= k < |columns| ==> k in order)
  }

  lemma RearrangedInsertable(
    columns: seq<FieldPath>, row: seq<SqlValue>, columns': seq<FieldPath>, row': seq<SqlValue>, order: seq<nat>)
    requires Rearranges(columns, row, columns', row', order)
    ensures Insertable(columns, row) <==> Insertable(columns', row')
  {
    if Insertable(columns, row) {
      forall i, j | 0 <= i < j < |columns'| ensures !PathsOverlap(columns'[i], columns'[j]) {
        OverlapIsPrefix(columns[order[i]], columns[order[j]]);
      }
    }
    if Insertable(columns', row') {
      forall k | 0 <= k < |columns|
        ensures !row[k].SqlPlaceholder? && columns[k] != [] && !IsLiteralDottedKey(columns[k])
      {
        assert k in order;
        var i :| 0 <= i < |order| && order[i] == k;
        assert columns'[i] == columns[k] && row'[i] == row[k];
      }
      forall k, l | 0 <= k < l < |columns| ensures !PathsOverlap(columns[k], columns[l]) {
        assert k in order && l in order;
        var i :| 0 <= i < |order| && order[i] == k;
        var j :| 0 <= j < |order| && order[j] == l;
        OverlapIsPrefix(columns'[i], columns'[j]);
      }
    }
  }

  lemma RowSettingsDistinct(columns: seq<FieldPath>, row: seq<SqlValue>)
    requires Insertable(columns, row)
    ensures var xs := RowSettings(columns, row); forall i, j :: 0 <= i < j < |xs| ==> xs[i] != xs[j]
  {
    forall i, j | 0 <= i < j < |columns| ensures columns[i] != columns[j] {
      OverlapIsPrefix(columns[i], columns[j]);
    }
  }

  /** Permuting the columns together with their values changes neither whether the row is accepted
      nor the document built. */
  lemma BuilderIgnoresColumnOrder(
    columns: seq<FieldPath>, row: seq<SqlValue>, columns': seq<FieldPath>, row': seq<SqlValue>, order: seq<nat>)
    requires Rearranges(columns, row, columns', row', order)
    ensures BuiltDocument(columns, row).Ok? <==> BuiltDocument(columns', row').Ok?
    ensures BuiltDocument(columns, row).Ok? ==> BuiltDocument(columns, row) == BuiltDocument(columns', row')
  {
    BuilderAccepts(columns, row);
    BuilderAccepts(columns', row');
    RearrangedInsertable(columns, row, columns', row', order);
    if Insertable(columns, row) {
      BuildFromExact(map[], columns, row);
      BuildFromExact(map[], columns', row');
      SettingsRearranged(columns, row, columns', row', order);
      ApplyAllOrderIrrelevant(map[], RowSettings(columns, row), RowSettings(columns', row'));
    }
  }

  lemma SettingsRearranged(
    columns: seq<FieldPath>, row: seq<SqlValue>, columns': seq<FieldPath>, row': seq<SqlValue>, order: seq<nat>)
    requires Rearranges(columns, row, columns', row', order)
    requires Insertable(columns, row) && Insertable(columns', row')
    ensures multiset(RowSettings(columns, row)) == multiset(RowSettings(columns', row'))
  {
    var xs, ys := RowSettings(columns, row), RowSettings(columns', row');
    RowSettingsDistinct(columns, row);
    RowSettingsDistinct(columns', row');
    forall k | 0 <= k < |xs| ensures xs[k] in ys {
      assert k in order;
      var i :| 0 <= i < |order| && order[i] == k;
      assert ys[i] == xs[k];
    }
    forall i | 0 <= i < |ys| ensures ys[i] in xs {
      assert ys[i] == xs[order[i]];
    }
    DistinctSameElements(xs, ys);
  }

  // ---------------------------------------------------------------------------
  // UPDATE
  // ---------------------------------------------------------------------------

  predicate StartsWithDollar(segment: string) { segment != "" && segment[0] == '$' }

  /** No segment is empty or looks like an operator; MongoDB refuses to set any other path. */
  predicate Storable(path: FieldPath)
  {
    forall k :: 0 <= k < |path| ==> path[k] != "" && !StartsWithDollar(path[k])
  }

  /** `validate_update_path`. */
  function ValidateUpdatePath(path: FieldPath, taken: seq<FieldPath>): Result<Unit>
  {
    if path == [] || exists k :: 0 <= k < |path| && path[k] == "" then Err(InvalidInput)
    else if exists k :: 0 <= k < |path| && StartsWithDollar(path[k]) then Err(InvalidInput)
    else if exists j :: 0 <= j < |taken| && PathsOverlap(path, taken[j]) then Err(InvalidInput)
    else Ok(Unit.Unit)
  }

  function PathsBefore(assignments: seq<AssignmentPlan>, i: nat): (paths: seq<FieldPath>)
    requires i <= |assignments|
    ensures |paths| == i && forall j :: 0 <= j < i ==> paths[j] == assignments[j].path
  {
    seq(i, j requires 0 <= j < i => assignments[j].path)
  }

  /** The key and value of one assignment, given the paths already assigned. */
  function TranslateAssignment(a: AssignmentPlan, taken: seq<FieldPath>): (entry: Result<(string, Bson)>)
    ensures entry.Ok? ==> !a.value.SqlPlaceholder? && entry.value == (DisplayName(a.path), Literal(a.value))
  {
    if IsLiteralDottedKey(a.path) then Err(FeatureNotSupported)
    else
      var _ :- ValidateUpdatePath(a.path, taken);
      var value :- BsonValue(a.value);
      Ok((DisplayName(a.path), value))
  }

  /** Why assignment `i` cannot be translated after the assignments before it. */
  function AssignmentFault(assignments: seq<AssignmentPlan>, i: nat): (fault: Option<ErrorKind>)
    requires i < |assignments|
    ensures fault.None? ==> !assignments[i].value.SqlPlaceholder?
  {
    match TranslateAssignment(assignments[i], PathsBefore(assignments, i))
    case Err(kind) => Some(kind)
    case Ok(_) => None
  }

  function FirstFault(assignments: seq<AssignmentPlan>, from: nat): (fault: Option<ErrorKind>)
    requires from <= |assignments|
    ensures fault.None? <==> forall i :: from <= i < |assignments| ==> AssignmentFault(assignments, i).None?
    decreases |assignments| - from
  {
    if from == |assignments| then None
    else if AssignmentFault(assignments, from).Some? then AssignmentFault(assignments, from)
    else FirstFault(assignments, from + 1)
  }

  /** The `$set` document, later entries replacing earlier ones under the same key. */
  function SetFields(assignments: seq<AssignmentPlan>): Doc
    requires forall i :: 0 <= i < |assignments| ==> !assignments[i].value.SqlPlaceholder?
  {
    if assignments == [] then map[]
    else
      var n := |assignments| - 1;
      SetFields(assignments[..n])[DisplayName(assignments[n].path) := Literal(assignments[n].value)]
  }

  /** The fields to be set, or the first fault met. */
  function UpdateFields(assignments: seq<AssignmentPlan>): Result<Doc>
  {
    if assignments == [] then Err(InvalidInput)
    else
      match FirstFault(assignments, 0)
      case Some(kind) => Err(kind)
      case None =>
        assert forall i :: 0 <= i < |assignments| ==>
                 AssignmentFault(assignments, i).None? ==> !assignments[i].value.SqlPlaceholder?;
        Ok(SetFields(assignments))
  }

  /** `update_document`: the `$set` document grows together with the assigned paths. */
  method UpdateDocument(assignments: seq<AssignmentPlan>) returns (result: Result<Doc>)
    ensures match UpdateFields(assignments)
            case Ok(fields) => result == Ok(map["$set" := Document(fields)])
            case Err(kind) => result == Err(kind)
  {
    if assignments == [] {
      return Err(InvalidInput);
    }
    var fields: Doc := map[];
    var taken: seq<FieldPath> := [];
    var i := 0;
    while i < |assignments|
      invariant 0 <= i <= |assignments| && taken == PathsBefore(assignments, i)
      invariant forall j :: 0 <= j < i ==> !assignments[j].value.SqlPlaceholder?
      invariant FirstFault(assignments, 0) == FirstFault(assignments, i)
      invariant fields == SetFields(assignments[..i])
    {
      var entry := TranslateAssignment(assignments[i], taken);
      if entry.Err? {
        return Err(entry.kind);
      }
      AssignmentTranslated(assignments, i);
      fields := fields[entry.value.0 := entry.value.1];
      taken := taken + [assignments[i].path];
      i := i + 1;
    }
    assert assignments[..i] == assignments;
    return Ok(map["$set" := Document(fields)]);
  }

  /** One assignment without a fault: nothing is reported yet and its entry joins the document. */
  lemma AssignmentTranslated(assignments: seq<AssignmentPlan>, i: nat)
    requires i < |assignments| && AssignmentFault(assignments, i).None?
    requires forall j :: 0 <= j < i ==> !assignments[j].value.SqlPlaceholder?
    ensures PathsBefore(assignments, i + 1) == PathsBefore(assignments, i) + [assignments[i].path]
    ensures FirstFault(assignments, i) == FirstFault(assignments, i + 1)
    ensures SetFields(assignments[..i + 1])
            == SetFields(assignments[..i])[DisplayName(assignments[i].path) := Literal(assignments[i].value)]
  {
    assert assignments[..i + 1][..i] == assignments[..i];
  }

  /** The conditions under which a list of assignments can be translated. */
  ghost predicate Assignable(assignments: seq<AssignmentPlan>)
  {
    && assignments != []
    && (forall i :: 0 <= i < |assignments| ==>
          var a := assignments[i];
          && a.path != [] && !IsLiteralDottedKey(a.path) && !a.value.SqlPlaceholder?
          && Storable(a.path))
    && (forall i, j :: 0 <= i < j < |assignments| ==> !PathsOverlap(assignments[i].path, assignments[j].path))
  }

  /** A target MongoDB can take, by what the segments look like. */
  predicate PlainTarget(path: FieldPath)
  {
    path != [] && forall k :: 0 <= k < |path| ==> |path[k]| > 0 && path[k][0] != '$'
  }

  /** The conditions spelled out: an update is translated exactly when it assigns something, every target
      is non-empty with non-empty segments that do not start with a dollar sign and is no literal dotted
      key, no value is a placeholder, and no target is a prefix of another. */
  lemma UpdateAcceptsSpelledOut(assignments: seq<AssignmentPlan>)
    ensures UpdateFields(assignments).Ok? <==>
            && assignments != []
            && (forall i :: 0 <= i < |assignments| ==>
                  && PlainTarget(assignments[i].path) && !NamesDottedKey(assignments[i].path)
                  && !assignments[i].value.SqlPlaceholder?)
            && (forall i, j :: 0 <= i < |assignments| && 0 <= j < |assignments| && i != j ==>
                  !(assignments[i].path <= assignments[j].path))
  {
    UpdateAccepts(assignments);
    forall i, j | 0 <= i < |assignments| && 0 <= j < |assignments|
      ensures PathsOverlap(assignments[i].path, assignments[j].path)
              <==> assignments[i].path <= assignments[j].path || assignments[j].path <= assignments[i].path
    {
      OverlapIsPrefix(assignments[i].path, assignments[j].path);
    }
    forall i | 0 <= i < |assignments|
      ensures PlainTarget(assignments[i].path) <==> assignments[i].path != [] && Storable(assignments[i].path)
    {
    }
  }

  /** The kind of a refusal: unsupported exactly when the first faulty target is a literal dotted key. */
  lemma UpdateRefusal(assignments: seq<AssignmentPlan>)
    ensures UpdateFields(assignments).Err? ==>
            && (UpdateFields(assignments).kind == FeatureNotSupported || UpdateFields(assignments).kind == InvalidInput)
            && (UpdateFields(assignments).kind == FeatureNotSupported <==>
                  exists i :: 0 <= i < |assignments| && NamesDottedKey(assignments[i].path)
                              && forall j :: 0 <= j < i ==> AssignmentFault(assignments, j).None?)
  {
    if assignments != [] && FirstFault(assignments, 0).Some? {
      FirstFaultIs(assignments, 0);
      var i :| 0 <= i < |assignments| && FirstFault(assignments, 0) == AssignmentFault(assignments, i)
               && forall j :: 0 <= j < i ==> AssignmentFault(assignments, j).None?;
      FaultKind(assignments, i);
      forall k | 0 <= k < |assignments| && NamesDottedKey(assignments[k].path)
                 && forall j :: 0 <= j < k ==> AssignmentFault(assignments, j).None?
        ensures k == i
      {
        FaultKind(assignments, k);
      }
    }
  }

  lemma FaultKind(assignments: seq<AssignmentPlan>, i: nat)
    requires i < |assignments|
    ensures NamesDottedKey(assignments[i].path) <==> AssignmentFault(assignments, i) == Some(FeatureNotSupported)
    ensures AssignmentFault(assignments, i).Some? ==>
            AssignmentFault(assignments, i).value in {FeatureNotSupported, InvalidInput}
  {
  }

  lemma {:induction false} FirstFaultIs(assignments: seq<AssignmentPlan>, from: nat)
    requires from <= |assignments|
    ensures FirstFault(assignments, from).Some? ==>
            exists i :: from <= i < |assignments| && FirstFault(assignments, from) == AssignmentFault(assignments, i)
                        && forall j :: from <= j < i ==> AssignmentFault(assignments, j).None?
    decreases |assignments| - from
  {
    if from < |assignments| && AssignmentFault(assignments, from).None? {
      FirstFaultIs(assignments, from + 1);
    }
  }

  lemma FaultFreeExact(assignments: seq<AssignmentPlan>, i: nat)
    requires i < |assignments|
    ensures AssignmentFault(assignments, i).None? <==>
            var a := assignments[i];
            && a.path != [] && !IsLiteralDottedKey(a.path) && !a.value.SqlPlaceholder?
            && Storable(a.path)
            && (forall j :: 0 <= j < i ==> !PathsOverlap(assignments[j].path, a.path))
  {
    var taken := PathsBefore(assignments, i);
    forall j | 0 <= j < i
      ensures PathsOverlap(assignments[i].path, taken[j]) == PathsOverlap(assignments[j].path, assignments[i].path)
    {
      OverlapIsPrefix(assignments[i].path, assignments[j].path);
    }
  }

  /** An `UPDATE` can be translated exactly when its assignments are assignable. */
  lemma UpdateAccepts(assignments: seq<AssignmentPlan>)
    ensures UpdateFields(assignments).Ok? <==> Assignable(assignments)
  {
    forall i | 0 <= i < |assignments|
      ensures AssignmentFault(assignments, i).None? <==>
              var a := assignments[i];
              && a.path != [] && !IsLiteralDottedKey(a.path) && !a.value.SqlPlaceholder?
              && Storable(a.path)
              && (forall j :: 0 <= j < i ==> !PathsOverlap(assignments[j].path, a.path))
    {
      FaultFreeExact(assignments, i);
    }
    if UpdateFields(assignments).Ok? {
      assert forall i :: 0 <= i < |assignments| ==> AssignmentFault(assignments, i).None?;
    }
    if Assignable(assignments) {
      assert forall i :: 0 <= i < |assignments| ==> AssignmentFault(assignments, i).None?;
    }
  }

  function AssignmentSettings(assignments: seq<AssignmentPlan>): (xs: seq<Setting>)
    requires forall i :: 0 <= i < |assignments| ==> !assignments[i].value.SqlPlaceholder?
    ensures |xs| == |assignments|
    ensures forall i :: 0 <= i < |xs| ==> xs[i] == (assignments[i].path, Literal(assignments[i].value))
  {
    seq(|assignments|, i requires 0 <= i < |assignments| => (assignments[i].path, Literal(assignments[i].value)))
  }

  /** The settings MongoDB reads off a `$set` document: its keys are dotted paths. */
  function KeySettings(fields: Doc, keys: seq<string>): (xs: seq<Setting>)
    requires forall k :: k in keys ==> k in fields
    ensures |xs| == |keys| && forall i :: 0 <= i < |xs| ==> xs[i] == (SplitDots(keys[i]), fields[keys[i]])
  {
    seq(|keys|, i requires 0 <= i < |keys| => (SplitDots(keys[i]), fields[keys[i]]))
  }

  /** MongoDB's `$set` on one document: conflicting keys and unstorable paths are refused, otherwise
      every key is set. */
  function ApplySet(d: Doc, fields: Doc): Option<Doc>
  {
    var xs := KeySettings(fields, SortedStrings(fields.Keys));
    if PairwiseDisjoint(PathsOf(xs)) && (forall i :: 0 <= i < |xs| ==> Storable(xs[i].0)) then ApplyAll(d, xs) else None
  }

  ghost predicate DotFreeAssignments(assignments: seq<AssignmentPlan>)
  {
    forall i :: 0 <= i < |assignments| ==> DotFreePath(assignments[i].path)
  }

  function KeyAt(assignments: seq<AssignmentPlan>, i: nat): string
    requires i < |assignments|
  {
    DisplayName(assignments[i].path)
  }

  ghost predicate AllBound(assignments: seq<AssignmentPlan>)
  {
    forall i :: 0 <= i < |assignments| ==> !assignments[i].value.SqlPlaceholder?
  }

  ghost predicate DistinctKeys(assignments: seq<AssignmentPlan>)
  {
    forall i, j :: 0 <= i < j < |assignments| ==> KeyAt(assignments, i) != KeyAt(assignments, j)
  }

  lemma DotFreeKeysDistinct(assignments: seq<AssignmentPlan>)
    requires Assignable(assignments) && DotFreeAssignments(assignments)
    ensures DistinctKeys(assignments)
  {
    forall i, j | 0 <= i < j < |assignments| ensures KeyAt(assignments, i) != KeyAt(assignments, j) {
      OverlapIsPrefix(assignments[i].path, assignments[j].path);
      if KeyAt(assignments, i) == KeyAt(assignments, j) {
        DisplayNameInjective(assignments[i].path, assignments[j].path);
      }
    }
  }

  lemma {:induction false} SetFieldsKeys(assignments: seq<AssignmentPlan>, key: string)
    requires AllBound(assignments)
    ensures key in SetFields(assignments) <==> exists i :: 0 <= i < |assignments| && key == KeyAt(assignments, i)
  {
    if assignments != [] {
      var n := |assignments| - 1;
      SetFieldsKeys(assignments[..n], key);
      assert forall i :: 0 <= i < n ==> KeyAt(assignments[..n], i) == KeyAt(assignments, i);
      assert KeyAt(assignments, n) == DisplayName(assignments[n].path);
    }
  }

  /** Every entry of the `$set` document is a literal, so never an identifier or a document. */
  lemma {:induction false} SetFieldsLiteral(assignments: seq<AssignmentPlan>, key: string)
    requires AllBound(assignments)
    ensures key in SetFields(assignments) ==>
            !SetFields(assignments)[key].ObjectId? && !SetFields(assignments)[key].Document?
  {
    if assignments != [] {
      SetFieldsLiteral(assignments[..|assignments| - 1], key);
    }
  }

  lemma {:induction false} SetFieldsValue(assignments: seq<AssignmentPlan>, i: nat)
    requires AllBound(assignments) && DistinctKeys(assignments) && i < |assignments|
    ensures KeyAt(assignments, i) in SetFields(assignments)
    ensures SetFields(assignments)[KeyAt(assignments, i)] == Literal(assignments[i].value)
  {
    var n := |assignments| - 1;
    if i < n {
      assert forall j :: 0 <= j < n ==> KeyAt(assignments[..n], j) == KeyAt(assignments, j);
      SetFieldsValue(assignments[..n], i);
      assert KeyAt(assignments, i) != KeyAt(assignments, n);
    }
  }

  lemma {:induction false} SetFieldsSize(assignments: seq<AssignmentPlan>)
    requires AllBound(assignments) && DistinctKeys(assignments)
    ensures |SetFields(assignments)| == |assignments|
  {
    if assignments != [] {
      var n := |assignments| - 1;
      assert forall j :: 0 <= j < n ==> KeyAt(assignments[..n], j) == KeyAt(assignments, j);
      SetFieldsSize(assignments[..n]);
      SetFieldsKeys(assignments[..n], KeyAt(assignments, n));
    }
  }

  /** No `$set` key is overwritten: the document has one key per assignment, with its value. */
  lemma {:induction false} SetFieldsExact(assignments: seq<AssignmentPlan>)
    requires Assignable(assignments) && DotFreeAssignments(assignments)
    ensures DistinctKeys(assignments)
    ensures |SetFields(assignments)| == |assignments|
    ensures forall key :: key in SetFields(assignments) <==>
              exists i :: 0 <= i < |assignments| && key == KeyAt(assignments, i)
    ensures forall i :: 0 <= i < |assignments| ==>
              && KeyAt(assignments, i) in SetFields(assignments)
              && SetFields(assignments)[KeyAt(assignments, i)] == Literal(assignments[i].value)
  {
    DotFreeKeysDistinct(assignments);
    SetFieldsSize(assignments);
    forall key ensures key in SetFields(assignments) <==>
                       exists i :: 0 <= i < |assignments| && key == KeyAt(assignments, i)
    {
      SetFieldsKeys(assignments, key);
    }
    forall i | 0 <= i < |assignments|
      ensures KeyAt(assignments, i) in SetFields(assignments)
      ensures SetFields(assignments)[KeyAt(assignments, i)] == Literal(assignments[i].value)
    {
      SetFieldsValue(assignments, i);
    }
  }

  lemma SettingOfKey(assignments: seq<AssignmentPlan>, keys: seq<string>, i: nat, j: nat)
    requires Assignable(assignments) && DotFreeAssignments(assignments)
    requires forall k :: k in keys ==> k in SetFields(assignments)
    requires i < |keys| && j < |assignments| && keys[i] == KeyAt(assignments, j)
    ensures KeySettings(SetFields(assignments), keys)[i] == AssignmentSettings(assignments)[j]
  {
    SetFieldsExact(assignments);
    SplitOfJoin(assignments[j].path);
  }

  lemma KeySettingsDistinct(fields: Doc, keys: seq<string>)
    requires forall k :: k in keys ==> k in fields
    requires forall i, j :: 0 <= i < j < |keys| ==> keys[i] != keys[j]
    ensures var xs := KeySettings(fields, keys); forall i, j :: 0 <= i < j < |xs| ==> xs[i] != xs[j]
  {
    var xs := KeySettings(fields, keys);
    forall i, j | 0 <= i < j < |xs| ensures xs[i] != xs[j] {
      JoinOfSplit(keys[i]);
      JoinOfSplit(keys[j]);
    }
  }

  lemma AssignmentSettingsDistinct(assignments: seq<AssignmentPlan>)
    requires Assignable(assignments)
    ensures var ys := AssignmentSettings(assignments); forall i, j :: 0 <= i < j < |ys| ==> ys[i] != ys[j]
  {
    var ys := AssignmentSettings(assignments);
    forall i, j | 0 <= i < j < |ys| ensures ys[i] != ys[j] {
      OverlapIsPrefix(assignments[i].path, assignments[j].path);
    }
  }

  /** The keys of the `$set` document, in any order without repetition, stand for a permutation
      of the assignments. */
  lemma KeysPermuteAssignments(assignments: seq<AssignmentPlan>, keys: seq<string>)
    requires Assignable(assignments) && DotFreeAssignments(assignments)
    requires forall k :: k in keys <==> k in SetFields(assignments)
    requires forall i, j :: 0 <= i < j < |keys| ==> keys[i] != keys[j]
    ensures multiset(KeySettings(SetFields(assignments), keys)) == multiset(AssignmentSettings(assignments))
  {
    SetFieldsExact(assignments);
    var fields := SetFields(assignments);
    var xs, ys := KeySettings(fields, keys), AssignmentSettings(assignments);
    forall i | 0 <= i < |keys| ensures xs[i] in ys {
      assert keys[i] in keys;
      var j :| 0 <= j < |assignments| && keys[i] == KeyAt(assignments, j);
      SettingOfKey(assignments, keys, i, j);
    }
    forall j | 0 <= j < |assignments| ensures ys[j] in xs {
      assert KeyAt(assignments, j) in keys;
      var i :| 0 <= i < |keys| && keys[i] == KeyAt(assignments, j);
      SettingOfKey(assignments, keys, i, j);
    }
    KeySettingsDistinct(fields, keys);
    AssignmentSettingsDistinct(assignments);
    DistinctSameElements(xs, ys);
  }

  lemma {:induction false} CountInDistinct<T>(s: seq<T>, x: T)
    requires forall i, j :: 0 <= i < j < |s| ==> s[i] != s[j]
    ensures multiset(s)[x] == if x in s then 1 else 0
  {
    if s != [] {
      assert s == [s[0]] + s[1..];
      CountInDistinct(s[1..], x);
    }
  }

  lemma DistinctSameElements<T>(a: seq<T>, b: seq<T>)
    requires forall i, j :: 0 <= i < j < |a| ==> a[i] != a[j]
    requires forall i, j :: 0 <= i < j < |b| ==> b[i] != b[j]
    requires forall x :: x in a <==> x in b
    ensures multiset(a) == multiset(b)
  {
    forall x ensures multiset(a)[x] == multiset(b)[x] {
      CountInDistinct(a, x);
      CountInDistinct(b, x);
    }
  }

  lemma SettingsStorable(assignments: seq<AssignmentPlan>, zs: seq<Setting>)
    requires Assignable(assignments) && multiset(zs) == multiset(AssignmentSettings(assignments))
    ensures forall i :: 0 <= i < |zs| ==> Storable(zs[i].0)
  {
    var ys := AssignmentSettings(assignments);
    forall i | 0 <= i < |zs| ensures Storable(zs[i].0) {
      assert zs[i] in multiset(ys);
      var j :| 0 <= j < |ys| && ys[j] == zs[i];
    }
  }

  /** The keys of the `$set` document can be applied in any order, and so can the assignments. */
  lemma UpdateInAnyOrder(assignments: seq<AssignmentPlan>, d: Doc, keys: seq<string>)
    requires Assignable(assignments) && DotFreeAssignments(assignments)
    requires forall k :: k in keys <==> k in SetFields(assignments)
    requires forall i, j :: 0 <= i < j < |keys| ==> keys[i] != keys[j]
    ensures ApplySet(d, SetFields(assignments)) == ApplyAll(d, KeySettings(SetFields(assignments), keys))
    ensures ApplySet(d, SetFields(assignments)) == ApplyAll(d, AssignmentSettings(assignments))
    ensures Disjoint(AssignmentSettings(assignments))
  {
    var fields, ys := SetFields(assignments), AssignmentSettings(assignments);
    var sorted := SortedStrings(fields.Keys);
    StringOrder();
    KeysPermuteAssignments(assignments, keys);
    KeysPermuteAssignments(assignments, sorted);
    var xs, zs := KeySettings(fields, keys), KeySettings(fields, sorted);
    assert Disjoint(ys);
    SettingsStorable(assignments, zs);
    PermutationDisjoint(ys, xs);
    PermutationDisjoint(ys, zs);
    ApplyAllOrderIrrelevant(d, xs, ys);
    ApplyAllOrderIrrelevant(d, zs, ys);
  }

  /** A translated `UPDATE` is a simultaneous assignment. With dot-free segments MongoDB accepts
      the `$set` keys, processing them in any order gives the same document, and on success each
      assigned path reads back its value while every path overlapping none of them is unchanged. */
  lemma UpdateIsSimultaneous(assignments: seq<AssignmentPlan>, d: Doc, keys: seq<string>)
    requires Assignable(assignments) && DotFreeAssignments(assignments)
    requires forall k :: k in keys <==> k in SetFields(assignments)
    requires forall i, j :: 0 <= i < j < |keys| ==> keys[i] != keys[j]
    ensures ApplySet(d, SetFields(assignments)) == ApplyAll(d, KeySettings(SetFields(assignments), keys))
    ensures ApplySet(d, SetFields(assignments)) == ApplyAll(d, AssignmentSettings(assignments))
    ensures ApplySet(d, SetFields(assignments)).Some? ==>
            Simultaneous(d, AssignmentSettings(assignments), ApplySet(d, SetFields(assignments)).value)
    ensures ApplySet(d, SetFields(assignments)).Some? <==>
            forall i :: 0 <= i < |assignments| ==> SetPath(d, assignments[i].path, Literal(assignments[i].value)).Some?
  {
    var ys := AssignmentSettings(assignments);
    UpdateInAnyOrder(assignments, d, keys);
    if ApplyAll(d, ys).Some? {
      ApplyAllIsSimultaneous(d, ys);
    }
    ApplyAllSucceeds(d, ys);
    assert forall i :: 0 <= i < |ys| ==> ys[i] == (assignments[i].path, Literal(assignments[i].value));
  }

  lemma PermutationDisjoint(xs: seq<Setting>, ys: seq<Setting>)
    requires Disjoint(xs) && multiset(xs) == multiset(ys)
    requires forall i :: 0 <= i < |xs| ==> xs[i].0 != []
    ensures Disjoint(ys)
  {
    forall i, j | 0 <= i < j < |ys| ensures !PathsOverlap(ys[i].0, ys[j].0) {
      assert ys[i] in multiset(xs) && ys[j] in multiset(xs);
      var k :| 0 <= k < |xs| && xs[k] == ys[i];
      var l :| 0 <= l < |xs| && xs[l] == ys[j];
      if k == l {
        assert multiset(ys)[ys[i]] >= 2 by {
          assert ys == ys[..j] + [ys[j]] + ys[j + 1..];
          assert ys[i] in ys[..j];
        }
        forall a, b | 0 <= a < b < |xs| ensures xs[a] != xs[b] {
          OverlapIsPrefix(xs[a].0, xs[b].0);
        }
        CountInDistinct(xs, ys[i]);
      }
      OverlapIsPrefix(xs[k].0, xs[l].0);
    }
  }
}
