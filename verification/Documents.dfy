/** BSON values, lookup along a field path, and MongoDB's rule for setting one path. */
module Documents {
  import opened Common
  import opened Paths

  datatype Bson =
    | Null
    | Boolean(b: bool)
    | Int32(i32: I32)
    | Int64(i64: I64)
    | Double(double: Float64)
    | String(text: string)
    | DateTime(millis: I64)
    | ObjectId(hex: string)
    | Document(fields: Doc)
    | Array(items: seq<Bson>)
    | Other(raw: string)

  type Doc = map<string, Bson>

  datatype ObservedType =
    | NullType | BooleanType | IntegerType | FloatingPointType | StringType
    | DateTimeType | ObjectIdType | DocumentType | ArrayType

  datatype ObservedShape = ScalarShape | DocumentShape | ArrayShape

  /** `sample_value_from_bson` followed by `observed_type`: both integer widths are one
      type, and BSON values without a case of their own are sampled as strings. */
  function TypeOf(value: Bson): ObservedType
  {
    match value
    case Null => NullType
    case Boolean(_) => BooleanType
    case Int32(_) => IntegerType
    case Int64(_) => IntegerType
    case Double(_) => FloatingPointType
    case String(_) => StringType
    case DateTime(_) => DateTimeType
    case ObjectId(_) => ObjectIdType
    case Document(_) => DocumentType
    case Array(_) => ArrayType
    case Other(_) => StringType
  }

  function ShapeOf(value: Bson): ObservedShape
  {
    match value
    case Document(_) => DocumentShape
    case Array(_) => ArrayShape
    case _ => ScalarShape
  }

  /** How each kind of value is profiled. */
  lemma ProfiledTypes(value: Bson)
    ensures TypeOf(value) == NullType <==> value == Null
    ensures TypeOf(value) == BooleanType <==> value.Boolean?
    ensures TypeOf(value) == IntegerType <==> value.Int32? || value.Int64?
    ensures TypeOf(value) == FloatingPointType <==> value.Double?
    ensures TypeOf(value) == StringType <==> value.String? || value.Other?
    ensures TypeOf(value) == DateTimeType <==> value.DateTime?
    ensures TypeOf(value) == ObjectIdType <==> value.ObjectId?
    ensures TypeOf(value) == DocumentType <==> value.Document?
    ensures TypeOf(value) == ArrayType <==> value.Array?
    ensures ShapeOf(value) == DocumentShape <==> TypeOf(value) == DocumentType
    ensures ShapeOf(value) == ArrayShape <==> TypeOf(value) == ArrayType
  {
  }

  /** The value a path leads to, descending through embedded documents only. */
  function Lookup(d: Doc, path: FieldPath): Option<Bson>
  {
    if path == [] || path[0] !in d then None
    else LookupIn(d[path[0]], path[1..])
  }

  function LookupIn(value: Bson, path: FieldPath): Option<Bson>
    decreases |path|, 0
  {
    if path == [] then Some(value)
    else if value.Document? && path[0] in value.fields then LookupIn(value.fields[path[0]], path[1..])
    else None
  }

  /** `value_at_path`: fold over the parents, then read the last segment. */
  function ValueAtPath(d: Doc, path: FieldPath): Option<Bson>
  {
    if path == [] then None
    else
      match Descend(d, path[..|path| - 1])
      case None => None
      case Some(nested) =>
        var last := path[|path| - 1];
        if last in nested then Some(nested[last]) else None
  }

  function Descend(d: Doc, parents: FieldPath): Option<Doc>
    decreases |parents|
  {
    if parents == [] then Some(d)
    else if parents[0] in d && d[parents[0]].Document? then Descend(d[parents[0]].fields, parents[1..])
    else None
  }

  lemma {:induction false} ValueAtPathIsLookup(d: Doc, path: FieldPath)
    ensures ValueAtPath(d, path) == Lookup(d, path)
    decreases |path|
  {
    if |path| > 1 {
      assert path[..|path| - 1][1..] == path[1..][..|path| - 2];
      if path[0] in d && d[path[0]].Document? {
        ValueAtPathIsLookup(d[path[0]].fields, path[1..]);
      }
    }
  }

  lemma {:induction false} LookupInAppend(value: Bson, p: FieldPath, q: FieldPath)
    ensures LookupIn(value, p + q) ==
            match LookupIn(value, p) case None => None case Some(inner) => LookupIn(inner, q)
  {
    if p == [] {
      assert p + q == q;
    } else {
      assert (p + q)[1..] == p[1..] + q;
      if value.Document? && p[0] in value.fields {
        LookupInAppend(value.fields[p[0]], p[1..], q);
      }
    }
  }

  /** A value found below `p` sits inside the document found at `p`. */
  lemma LookupAppend(d: Doc, p: FieldPath, q: FieldPath)
    requires p != []
    ensures Lookup(d, p + q) ==
            match Lookup(d, p) case None => None case Some(inner) => LookupIn(inner, q)
  {
    assert (p + q)[1..] == p[1..] + q;
    if p[0] in d {
      LookupInAppend(d[p[0]], p[1..], q);
    }
  }

  /** Every proper prefix of a present path holds an embedded document. */
  lemma PrefixHoldsDocument(d: Doc, p: FieldPath, q: FieldPath)
    requires p != [] && ProperPrefix(p, q) && Lookup(d, q).Some?
    ensures Lookup(d, p).Some? && Lookup(d, p).value.Document?
  {
    assert q == p + q[|p|..];
    LookupAppend(d, p, q[|p|..]);
  }

  /** The paths present in a document. */
  function DocumentPaths(value: Bson): set<FieldPath>
    decreases value
  {
    if value.Document? then
      (set k | k in value.fields :: [k])
      + (set k, q | k in value.fields && q in DocumentPaths(value.fields[k]) :: [k] + q)
    else {}
  }

  lemma {:induction false} DocumentPathsExact(d: Doc, path: FieldPath)
    ensures path in DocumentPaths(Document(d)) <==> Lookup(d, path).Some?
    decreases |path|
  {
    if path != [] && path[0] in d {
      var inner := d[path[0]];
      assert path == [path[0]] + path[1..];
      assert |path| == 1 ==> path == [path[0]];
      assert forall k, q :: path == [k] + q ==> k == path[0] && q == path[1..];
      if inner.Document? {
        DocumentPathsExact(inner.fields, path[1..]);
        assert inner == Document(inner.fields);
        assert path[1..] in DocumentPaths(inner) ==> [path[0]] + path[1..] in DocumentPaths(Document(d));
      }
    }
  }

  // ---------------------------------------------------------------------------
  // MongoDB's `$set` on one dotted path
  // ---------------------------------------------------------------------------

  /** Sets `path` to `value`, creating missing parents; a parent that holds anything but a
      document makes the operation fail. */
  function SetPath(d: Doc, path: FieldPath, value: Bson): Option<Doc>
    decreases |path|
  {
    if path == [] then None
    else if |path| == 1 then Some(d[path[0] := value])
    else
      var inner := if path[0] !in d then Document(map[]) else d[path[0]];
      if !inner.Document? then None
      else
        match SetPath(inner.fields, path[1..], value)
        case None => None
        case Some(nested) => Some(d[path[0] := Document(nested)])
  }

  /** Setting fails exactly when some proper parent is present and is not a document. */
  lemma {:induction false} SetPathSucceeds(d: Doc, path: FieldPath, value: Bson)
    ensures SetPath(d, path, value).Some? <==>
            && path != []
            && forall k :: 0 < k < |path| && Lookup(d, path[..k]).Some? ==> Lookup(d, path[..k]).value.Document?
    decreases |path|
  {
    if |path| > 1 {
      var inner := if path[0] !in d then Document(map[]) else d[path[0]];
      assert path[..1] == [path[0]];
      if inner.Document? {
        SetPathSucceeds(inner.fields, path[1..], value);
        forall k | 1 < k < |path|
          ensures path[0] in d ==> Lookup(d, path[..k]) == Lookup(inner.fields, path[1..][..k - 1])
          ensures path[0] !in d ==> Lookup(d, path[..k]) == None == Lookup(inner.fields, path[1..][..k - 1])
        {
          assert path[..k][1..] == path[1..][..k - 1];
        }
        forall k | 0 < k < |path| - 1
          ensures path[1..][..k] == path[..k + 1][1..]
        {
        }
        if
          && path[0] in d
          && forall k :: 0 < k < |path| && Lookup(d, path[..k]).Some? ==> Lookup(d, path[..k]).value.Document?
        {
          forall k | 0 < k < |path[1..]| && Lookup(inner.fields, path[1..][..k]).Some?
            ensures Lookup(inner.fields, path[1..][..k]).value.Document?
          {
            assert Lookup(d, path[..k + 1]) == Lookup(inner.fields, path[1..][..k]);
          }
        }
      } else {
        assert Lookup(d, path[..1]) == Some(d[path[0]]);
      }
    }
  }

  /** What every path holds after one path was set: the exact effect of `SetPath`. */
  lemma {:induction false} LookupAfterSet(d: Doc, path: FieldPath, value: Bson, query: FieldPath)
    requires query != []
    requires SetPath(d, path, value).Some?
    ensures var after := SetPath(d, path, value).value;
            if path <= query then Lookup(after, query) == LookupIn(value, query[|path|..])
            else if query <= path then Lookup(after, query).Some? && Lookup(after, query).value.Document?
            else Lookup(after, query) == Lookup(d, query)
    decreases |path|
  {
    if |path| > 1 && query[0] == path[0] {
      var inner := if path[0] !in d then Document(map[]) else d[path[0]];
      if |query| > 1 {
        LookupAfterSet(inner.fields, path[1..], value, query[1..]);
        assert path <= query <==> path[1..] <= query[1..] by {
          assert path == [path[0]] + path[1..] && query == [query[0]] + query[1..];
        }
        assert query <= path <==> query[1..] <= path[1..] by {
          assert path == [path[0]] + path[1..] && query == [query[0]] + query[1..];
        }
        if path <= query {
          assert query[1..][|path[1..]|..] == query[|path|..];
        }
      }
    }
  }

  function SetBoth(d: Doc, p: FieldPath, v: Bson, q: FieldPath, w: Bson): Option<Doc>
  {
    match SetPath(d, p, v)
    case None => None
    case Some(d') => SetPath(d', q, w)
  }

  /** A longer path is set inside the document under its first key. */
  lemma SetUnderKey(d: Doc, inner: Doc, p: FieldPath, v: Bson)
    requires |p| > 1 && inner == if p[0] in d && d[p[0]].Document? then d[p[0]].fields else map[]
    requires p[0] in d ==> d[p[0]].Document?
    ensures SetPath(d, p, v) ==
            match SetPath(inner, p[1..], v) case None => None case Some(nested) => Some(d[p[0] := Document(nested)])
  {
  }

  lemma SetBothUnderKey(d: Doc, p: FieldPath, v: Bson, q: FieldPath, w: Bson)
    requires |p| > 1 && |q| > 1 && p[0] == q[0]
    requires p[0] in d ==> d[p[0]].Document?
    ensures var inner := if p[0] !in d then map[] else d[p[0]].fields;
            SetBoth(d, p, v, q, w) ==
            match SetBoth(inner, p[1..], v, q[1..], w)
            case None => None
            case Some(nested) => Some(d[p[0] := Document(nested)])
  {
    var inner := if p[0] !in d then map[] else d[p[0]].fields;
    SetUnderKey(d, inner, p, v);
    match SetPath(inner, p[1..], v) {
      case None =>
      case Some(first) => SetUnderSetKey(d, p[0], first, q, w);
    }
  }

  lemma SetUnderSetKey(d: Doc, key: string, first: Doc, q: FieldPath, w: Bson)
    requires |q| > 1 && q[0] == key
    ensures SetPath(d[key := Document(first)], q, w) ==
            match SetPath(first, q[1..], w) case None => None case Some(nested) => Some(d[key := Document(nested)])
  {
    SetUnderKey(d[key := Document(first)], first, q, w);
    assert forall nested: Doc :: d[key := Document(first)][key := Document(nested)] == d[key := Document(nested)];
  }

  /** Setting a path changes the entry of its first key only. */
  lemma SetTouchesFirstKey(d: Doc, p: FieldPath, v: Bson)
    requires SetPath(d, p, v).Some?
    ensures p != [] && p[0] in SetPath(d, p, v).value
    ensures SetPath(d, p, v).value == d[p[0] := SetPath(d, p, v).value[p[0]]]
  {
  }

  /** The effect of setting `q` depends on the entry of its first key only. */
  lemma SetDependsOnFirstKey(d: Doc, d': Doc, q: FieldPath, w: Bson)
    requires q != [] && (q[0] in d <==> q[0] in d') && (q[0] in d ==> d[q[0]] == d'[q[0]])
    ensures SetPath(d', q, w).Some? <==> SetPath(d, q, w).Some?
    ensures SetPath(d, q, w).Some? ==>
            q[0] in SetPath(d, q, w).value && SetPath(d', q, w) == Some(d'[q[0] := SetPath(d, q, w).value[q[0]]])
  {
  }

  /** Settings under different first keys are independent. */
  lemma SetsTouchOneKey(d: Doc, p: FieldPath, v: Bson, q: FieldPath, w: Bson)
    requires p != [] && q != [] && p[0] != q[0]
    ensures SetBoth(d, p, v, q, w).Some? <==> SetPath(d, p, v).Some? && SetPath(d, q, w).Some?
    ensures SetBoth(d, p, v, q, w).Some? ==>
            var dp, dq := SetPath(d, p, v).value, SetPath(d, q, w).value;
            p[0] in dp && q[0] in dq && SetBoth(d, p, v, q, w).value == d[p[0] := dp[p[0]]][q[0] := dq[q[0]]]
  {
    if SetPath(d, p, v).Some? {
      SetTouchesFirstKey(d, p, v);
      SetDependsOnFirstKey(d, SetPath(d, p, v).value, q, w);
    }
  }

  lemma UpdatesCommute(d: Doc, k: string, x: Bson, l: string, y: Bson)
    requires k != l
    ensures d[k := x][l := y] == d[l := y][k := x]
  {
  }

  lemma SetUnderOtherKeysCommutes(d: Doc, p: FieldPath, v: Bson, q: FieldPath, w: Bson)
    requires p != [] && q != [] && p[0] != q[0]
    ensures SetBoth(d, p, v, q, w) == SetBoth(d, q, w, p, v)
  {
    SetsTouchOneKey(d, p, v, q, w);
    SetsTouchOneKey(d, q, w, p, v);
    if SetBoth(d, p, v, q, w).Some? {
      UpdatesCommute(d, p[0], SetPath(d, p, v).value[p[0]], q[0], SetPath(d, q, w).value[q[0]]);
    }
  }

  /** Two non-overlapping paths can be set in either order, failures included. */
  lemma {:induction false} SetPathCommutes(d: Doc, p: FieldPath, v: Bson, q: FieldPath, w: Bson)
    requires !PathsOverlap(p, q)
    ensures SetBoth(d, p, v, q, w) == SetBoth(d, q, w, p, v)
    decreases |p|
  {
    if p[0] != q[0] {
      SetUnderOtherKeysCommutes(d, p, v, q, w);
    } else {
      OverlapTails(p, q);
      if p[0] in d && !d[p[0]].Document? {
        assert SetPath(d, p, v) == None == SetPath(d, q, w);
      } else {
        var inner := if p[0] !in d then map[] else d[p[0]].fields;
        SetPathCommutes(inner, p[1..], v, q[1..], w);
        SetBothUnderKey(d, p, v, q, w);
        SetBothUnderKey(d, q, w, p, v);
      }
    }
  }
}
