/** Schema inference over sampled documents (crates/schema-discovery/src/lib.rs). */
module Discovery {
  import opened Common
  import opened Ordering
  import opened Paths
  import opened Documents
  import opened Profiles

  datatype Observation = Observation(present: nat, types: set<ObservedType>, shapes: set<ObservedShape>)

  const NOTHING := Observation(0, {}, {})

  function Bump(o: Observation, value: Bson): Observation
  {
    Observation(o.present + 1, o.types + {TypeOf(value)}, o.shapes + {ShapeOf(value)})
  }

  type ObservationMap = map<FieldPath, Observation>

  function At(entries: ObservationMap, path: FieldPath): Observation
  {
    if path in entries then entries[path] else NOTHING
  }

  /** `after` is `before` with one more observation of `value(q)` at every path `q` where it is defined. */
  ghost predicate Observed(before: ObservationMap, value: FieldPath -> Option<Bson>, after: ObservationMap)
  {
    && (forall q :: q in after <==> q in before || value(q).Some?)
    && (forall q :: At(after, q) == if value(q).Some? then Bump(At(before, q), value(q).value) else At(before, q))
  }

  /** What a value at `path` shows at `q`. */
  function Beneath(path: FieldPath, value: Bson, q: FieldPath): Option<Bson>
  {
    if path <= q then LookupIn(value, q[|path|..]) else None
  }

  /** What the fields of an embedded document at `path` show, restricted to the keys `done`. */
  function BeneathKeys(path: FieldPath, fields: Doc, done: set<string>, q: FieldPath): Option<Bson>
  {
    if ProperPrefix(path, q) && q[|path|] in done then LookupIn(Document(fields), q[|path|..]) else None
  }

  function BeneathOf(path: FieldPath, value: Bson): FieldPath -> Option<Bson>
  {
    q => Beneath(path, value, q)
  }

  function KeysOf(path: FieldPath, fields: Doc, done: set<string>): FieldPath -> Option<Bson>
  {
    q => BeneathKeys(path, fields, done, q)
  }

  class Observations {
    var entries: ObservationMap

    constructor ()
      ensures entries == map[]
    {
      entries := map[];
    }
  }

  /** `observe_value`. */
  method ObserveValue(observations: Observations, path: FieldPath, value: Bson)
    modifies observations
    ensures Observed(old(observations.entries), BeneathOf(path, value), observations.entries)
    decreases value
  {
    ghost var before := observations.entries;
    observations.entries := observations.entries[path := Bump(At(observations.entries, path), value)];
    if value.Document? {
      ghost var entered := observations.entries;
      ObserveFields(observations, path, value.fields);
      forall q ensures Beneath(path, value, q)
                       == if q == path then Some(value) else BeneathKeys(path, value.fields, value.fields.Keys, q)
      {
        if path <= q && path != q {
          assert q[|path|..][0] == q[|path|];
        }
      }
    } else {
      forall q ensures Beneath(path, value, q) == if q == path then Some(value) else None {
      }
    }
  }

  /** The loop over the fields of an embedded document, or of a sampled document. */
  method ObserveFields(observations: Observations, path: FieldPath, fields: Doc)
    modifies observations
    ensures Observed(old(observations.entries), KeysOf(path, fields, fields.Keys), observations.entries)
    decreases Document(fields), 0
  {
    ghost var before := observations.entries;
    var remaining := fields.Keys;
    while remaining != {}
      invariant remaining <= fields.Keys
      invariant Observed(before, KeysOf(path, fields, fields.Keys - remaining), observations.entries)
      decreases |remaining|
    {
      var field :| field in remaining;
      ghost var done, middle := fields.Keys - remaining, observations.entries;
      ObserveValue(observations, path + [field], fields[field]);
      remaining := remaining - {field};
      assert fields.Keys - remaining == done + {field};
      ObservedCompose(before, middle, observations.entries, path, fields, done, field);
    }
    assert fields.Keys - remaining == fields.Keys;
  }

  lemma ObservedThen(
    before: ObservationMap, f: FieldPath -> Option<Bson>, middle: ObservationMap, g: FieldPath -> Option<Bson>,
    after: ObservationMap, both: FieldPath -> Option<Bson>)
    requires Observed(before, f, middle) && Observed(middle, g, after)
    requires forall q :: both(q) == if g(q).Some? then g(q) else f(q)
    requires forall q :: g(q).Some? ==> f(q).None?
    ensures Observed(before, both, after)
  {
  }

  /** One more key shows the paths that start with it. */
  lemma BeneathOneMoreKey(path: FieldPath, fields: Doc, done: set<string>, field: string, q: FieldPath)
    requires field in fields && field !in done
    ensures BeneathKeys(path, fields, done + {field}, q)
            == if Beneath(path + [field], fields[field], q).Some? then Beneath(path + [field], fields[field], q)
               else BeneathKeys(path, fields, done, q)
    ensures Beneath(path + [field], fields[field], q).Some? ==> BeneathKeys(path, fields, done, q).None?
  {
    assert path + [field] <= q ==> ProperPrefix(path, q);
    if ProperPrefix(path, q) {
      assert path + [field] <= q <==> q[|path|] == field;
      if q[|path|] == field {
        assert q[|path|..][1..] == q[|path + [field]|..];
      }
    }
  }

  lemma ObservedCompose(
    before: ObservationMap, middle: ObservationMap, after: ObservationMap,
    path: FieldPath, fields: Doc, done: set<string>, field: string)
    requires field in fields && field !in done
    requires Observed(before, KeysOf(path, fields, done), middle)
    requires Observed(middle, BeneathOf(path + [field], fields[field]), after)
    ensures Observed(before, KeysOf(path, fields, done + {field}), after)
  {
    forall q: FieldPath
      ensures KeysOf(path, fields, done + {field})(q)
              == if BeneathOf(path + [field], fields[field])(q).Some? then BeneathOf(path + [field], fields[field])(q)
                 else KeysOf(path, fields, done)(q)
      ensures BeneathOf(path + [field], fields[field])(q).Some? ==> KeysOf(path, fields, done)(q).None?
    {
      BeneathOneMoreKey(path, fields, done, field, q);
    }
    ObservedThen(before, KeysOf(path, fields, done), middle, BeneathOf(path + [field], fields[field]), after,
                 KeysOf(path, fields, done + {field}));
  }

  // ---------------------------------------------------------------------------
  // The inferred profile as a function of the sample
  // ---------------------------------------------------------------------------

  /** What a sample shows at one path: how many documents contain it, and as what. */
  function Summary(documents: seq<Doc>, path: FieldPath): Observation
  {
    if documents == [] then NOTHING
    else
      var n := |documents| - 1;
      var rest := Summary(documents[..n], path);
      match Lookup(documents[n], path) case None => rest case Some(value) => Bump(rest, value)
  }

  function SamplePaths(documents: seq<Doc>): set<FieldPath>
  {
    set d, p | d in documents && p in DocumentPaths(Document(d)) :: p
  }

  predicate SharesDisplayName(paths: set<FieldPath>, path: FieldPath)
  {
    exists other :: other in paths && other != path && DisplayName(other) == DisplayName(path)
  }

  lemma {:induction false} SummaryBound(documents: seq<Doc>, path: FieldPath)
    ensures Summary(documents, path).present <= |documents|
  {
    if documents != [] {
      SummaryBound(documents[..|documents| - 1], path);
    }
  }

  function ProfileOf(documents: seq<Doc>, path: FieldPath): FieldProfile
  {
    SummaryBound(documents, path);
    var o := Summary(documents, path);
    FieldProfile(path, o.present, |documents| - o.present, o.types, o.shapes,
                 SharesDisplayName(SamplePaths(documents), path))
  }

  /** The profile that inference computes: one field per path of the sample, in path order. */
  function Inferred(documents: seq<Doc>): SchemaProfile
  {
    var paths := SortedPaths(SamplePaths(documents));
    SchemaProfile(1, |documents|, seq(|paths|, i requires 0 <= i < |paths| => ProfileOf(documents, paths[i])))
  }

  method CountDisplayNames(fields: seq<FieldProfile>) returns (counts: map<string, nat>)
    ensures forall name :: (name in counts) <==> CountNames(fields, name) > 0
    ensures forall name :: name in counts ==> counts[name] == CountNames(fields, name)
  {
    counts := map[];
    for i := 0 to |fields|
      invariant forall name :: (name in counts) <==> CountNames(fields[..i], name) > 0
      invariant forall name :: name in counts ==> counts[name] == CountNames(fields[..i], name)
    {
      var name := DisplayName(fields[i].path);
      assert fields[..i + 1][..i] == fields[..i];
      counts := counts[name := (if name in counts then counts[name] else 0) + 1];
    }
    assert fields[..|fields|] == fields;
  }

  function CountNames(fields: seq<FieldProfile>, name: string): nat
  {
    if fields == [] then 0
    else
      var n := |fields| - 1;
      CountNames(fields[..n], name) + if DisplayName(fields[n].path) == name then 1 else 0
  }

  /** `mark_dotted_key_collisions`: overwrites the flag of every field. */
  method MarkDottedKeyCollisions(fields: seq<FieldProfile>) returns (marked: seq<FieldProfile>)
    ensures |marked| == |fields|
    ensures forall i :: 0 <= i < |fields| ==>
              marked[i] == fields[i].(collision := CountNames(fields, DisplayName(fields[i].path)) > 1)
  {
    var counts := CountDisplayNames(fields);
    marked := fields;
    for i := 0 to |fields|
      invariant |marked| == |fields|
      invariant forall j :: 0 <= j < i ==>
                  marked[j] == fields[j].(collision := CountNames(fields, DisplayName(fields[j].path)) > 1)
      invariant forall j :: i <= j < |fields| ==> marked[j] == fields[j]
    {
      var name := DisplayName(marked[i].path);
      marked := marked[i := marked[i].(collision := name in counts && counts[name] > 1)];
    }
  }

  lemma {:induction false} CountNamesPositive(fields: seq<FieldProfile>, name: string)
    ensures CountNames(fields, name) > 0 <==> exists i :: 0 <= i < |fields| && DisplayName(fields[i].path) == name
  {
    if fields != [] {
      var n := |fields| - 1;
      CountNamesPositive(fields[..n], name);
      assert forall i :: 0 <= i < n ==> fields[..n][i] == fields[i];
    }
  }

  lemma {:induction false} CountNamesMany(fields: seq<FieldProfile>, name: string)
    ensures CountNames(fields, name) > 1 <==>
            exists i, j :: 0 <= i < j < |fields| && DisplayName(fields[i].path) == name
              && DisplayName(fields[j].path) == name
  {
    if fields != [] {
      var n := |fields| - 1;
      CountNamesMany(fields[..n], name);
      CountNamesPositive(fields[..n], name);
      assert forall i :: 0 <= i < n ==> fields[..n][i] == fields[i];
      if i :| 0 <= i < n && DisplayName(fields[i].path) == name && DisplayName(fields[n].path) == name {
        assert 0 <= i < n < |fields|;
      }
    }
  }

  /** `SchemaProfile::infer`. */
  method Infer(documents: seq<Doc>) returns (profile: SchemaProfile)
    ensures profile == Inferred(documents)
  {
    var observations := new Observations();
    for i := 0 to |documents|
      invariant Summarizes(observations.entries, documents[..i])
    {
      ghost var before := observations.entries;
      ObserveFields(observations, [], documents[i]);
      SummarizesNext(before, documents, i, observations.entries);
    }
    assert documents[..|documents|] == documents;
    SummaryKeys(observations.entries, documents);
    var paths := SortedPaths(observations.entries.Keys);
    var fields := FieldsOf(observations.entries, paths, documents);
    var marked := MarkDottedKeyCollisions(fields);
    MarkedAreInferred(documents, paths, fields, marked);
    return SchemaProfile(1, |documents|, marked);
  }

  /** The unmarked fields; every count fits into the number of documents. */
  method FieldsOf(
    entries: ObservationMap, paths: seq<FieldPath>, documents: seq<Doc>) returns (fields: seq<FieldProfile>)
    requires Summarizes(entries, documents)
    requires forall i :: 0 <= i < |paths| ==> paths[i] in entries
    ensures |fields| == |paths|
    ensures forall j :: 0 <= j < |paths| ==> fields[j] == ProfileOf(documents, paths[j]).(collision := false)
  {
    fields := [];
    for i := 0 to |paths|
      invariant |fields| == i
      invariant forall j :: 0 <= j < i ==> fields[j] == ProfileOf(documents, paths[j]).(collision := false)
    {
      var o := entries[paths[i]];
      assert o == At(entries, paths[i]) == Summary(documents, paths[i]);
      SummaryBound(documents, paths[i]);
      fields := fields + [FieldProfile(paths[i], o.present, |documents| - o.present, o.types, o.shapes, false)];
    }
  }

  /** The table holds the summary of the documents seen so far, and only paths that occurred. */
  ghost predicate Summarizes(entries: ObservationMap, documents: seq<Doc>)
  {
    && (forall q :: q in entries <==> Summary(documents, q).present > 0)
    && (forall q :: At(entries, q) == Summary(documents, q))
  }

  lemma SummarizesNext(before: ObservationMap, documents: seq<Doc>, i: nat, after: ObservationMap)
    requires i < |documents| && Summarizes(before, documents[..i])
    requires Observed(before, KeysOf([], documents[i], documents[i].Keys), after)
    ensures Summarizes(after, documents[..i + 1])
  {
    assert documents[..i + 1][..i] == documents[..i];
    forall q ensures BeneathKeys([], documents[i], documents[i].Keys, q) == Lookup(documents[i], q) {
      if q != [] {
        assert q[0..] == q;
      }
    }
    forall q ensures Summary(documents[..i + 1], q) ==
                     match Lookup(documents[i], q)
                     case None => Summary(documents[..i], q)
                     case Some(value) => Bump(Summary(documents[..i], q), value)
    {
      assert documents[..i + 1][i] == documents[i];
    }
  }

  lemma {:induction false} PresentSomewhere(documents: seq<Doc>, path: FieldPath)
    ensures Summary(documents, path).present > 0 <==> path in SamplePaths(documents)
  {
    if documents != [] {
      var n := |documents| - 1;
      PresentSomewhere(documents[..n], path);
      DocumentPathsExact(documents[n], path);
      assert forall d :: d in documents <==> d in documents[..n] || d == documents[n];
    }
  }

  lemma SummaryKeys(entries: ObservationMap, documents: seq<Doc>)
    requires Summarizes(entries, documents)
    ensures entries.Keys == SamplePaths(documents)
  {
    forall q ensures q in entries <==> q in SamplePaths(documents) {
      PresentSomewhere(documents, q);
    }
  }

  lemma MarkedAreInferred(
    documents: seq<Doc>, paths: seq<FieldPath>, fields: seq<FieldProfile>, marked: seq<FieldProfile>)
    requires paths == SortedPaths(SamplePaths(documents))
    requires |fields| == |marked| == |paths|
    requires forall j :: 0 <= j < |paths| ==> fields[j] == ProfileOf(documents, paths[j]).(collision := false)
    requires forall i :: 0 <= i < |fields| ==>
               marked[i] == fields[i].(collision := CountNames(fields, DisplayName(fields[i].path)) > 1)
    ensures SchemaProfile(1, |documents|, marked) == Inferred(documents)
  {
    PathOrder();
    forall i | 0 <= i < |paths| ensures marked[i] == ProfileOf(documents, paths[i]) {
      MarkedField(documents, paths, fields, marked, i);
    }
    EachProfileIsInferred(documents, marked);
  }

  lemma EachProfileIsInferred(documents: seq<Doc>, marked: seq<FieldProfile>)
    requires var paths := SortedPaths(SamplePaths(documents));
             |marked| == |paths| && forall i :: 0 <= i < |paths| ==> marked[i] == ProfileOf(documents, paths[i])
    ensures SchemaProfile(1, |documents|, marked) == Inferred(documents)
  {
    assert marked == Inferred(documents).fields;
  }

  lemma MarkedField(
    documents: seq<Doc>, paths: seq<FieldPath>, fields: seq<FieldProfile>, marked: seq<FieldProfile>, i: nat)
    requires Enumerates(PathLess, SamplePaths(documents), paths)
    requires |fields| == |marked| == |paths| && i < |paths|
    requires forall j :: 0 <= j < |paths| ==> fields[j] == ProfileOf(documents, paths[j]).(collision := false)
    requires marked[i] == fields[i].(collision := CountNames(fields, DisplayName(fields[i].path)) > 1)
    ensures marked[i] == ProfileOf(documents, paths[i])
  {
    forall j | 0 <= j < |paths| ensures fields[j].path == paths[j] {
    }
    CollisionIffShared(SamplePaths(documents), paths, fields, i);
  }

  /** Counting display names finds exactly the paths that share theirs with another one. */
  lemma CollisionIffShared(all: set<FieldPath>, paths: seq<FieldPath>, fields: seq<FieldProfile>, i: nat)
    requires Enumerates(PathLess, all, paths) && |fields| == |paths| && i < |paths|
    requires forall j :: 0 <= j < |paths| ==> fields[j].path == paths[j]
    ensures CountNames(fields, DisplayName(fields[i].path)) > 1 <==> SharesDisplayName(all, paths[i])
  {
    var name := DisplayName(paths[i]);
    CountNamesMany(fields, name);
    if j, k :| 0 <= j < k < |fields| && DisplayName(fields[j].path) == name && DisplayName(fields[k].path) == name {
      DistinctPaths(paths, j, k);
      assert paths[j] in paths && paths[k] in paths;
      var other := if paths[j] == paths[i] then paths[k] else paths[j];
      assert other in all && other != paths[i] && DisplayName(other) == name;
    }
    if other :| other in all && other != paths[i] && DisplayName(other) == name {
      assert other in paths;
      var j :| 0 <= j < |paths| && paths[j] == other;
      var low, high := if i < j then i else j, if i < j then j else i;
      assert DisplayName(fields[low].path) == name && DisplayName(fields[high].path) == name;
    }
  }

  lemma DistinctPaths(paths: seq<FieldPath>, j: nat, k: nat)
    requires Ascending(PathLess, paths) && j < k < |paths|
    ensures paths[j] != paths[k]
  {
    PathOrder();
  }

  // ---------------------------------------------------------------------------
  // Exactness
  // ---------------------------------------------------------------------------

  lemma FieldOfInferred(documents: seq<Doc>, path: FieldPath)
    ensures Field(Inferred(documents), path) ==
            if path in SamplePaths(documents) then Some(ProfileOf(documents, path)) else None
  {
    var paths := SortedPaths(SamplePaths(documents));
    assert path in SamplePaths(documents) <==> path in paths;
    FieldAmongProfiles(documents, paths, Inferred(documents), path);
  }

  lemma FieldAmongProfiles(documents: seq<Doc>, paths: seq<FieldPath>, schema: SchemaProfile, path: FieldPath)
    requires |schema.fields| == |paths|
    requires forall i :: 0 <= i < |paths| ==> schema.fields[i] == ProfileOf(documents, paths[i])
    ensures Field(schema, path) == if path in paths then Some(ProfileOf(documents, path)) else None
  {
    if path in paths {
      var i :| 0 <= i < |paths| && paths[i] == path;
      assert schema.fields[i] in schema.fields;
    }
  }

  /** The indexes of the documents that contain the path. */
  function Holders(documents: seq<Doc>, path: FieldPath): set<nat>
  {
    set i | 0 <= i < |documents| && Lookup(documents[i], path).Some?
  }

  lemma HoldersStep(documents: seq<Doc>, path: FieldPath)
    requires documents != []
    ensures var n := |documents| - 1;
            && n !in Holders(documents[..n], path)
            && Holders(documents, path)
               == Holders(documents[..n], path) + if Lookup(documents[n], path).Some? then {n} else {}
  {
    var n := |documents| - 1;
    assert forall i :: 0 <= i < n ==> documents[..n][i] == documents[i];
  }

  /** `present` counts the documents containing the path. */
  lemma {:induction false} SummaryCounts(documents: seq<Doc>, path: FieldPath)
    ensures Summary(documents, path).present == |Holders(documents, path)|
  {
    if documents != [] {
      HoldersStep(documents, path);
      SummaryCounts(documents[..|documents| - 1], path);
    }
  }

  /** The types seen are the types that occur. */
  lemma {:induction false} SummaryTypes(documents: seq<Doc>, path: FieldPath, t: ObservedType)
    ensures t in Summary(documents, path).types <==>
            exists i :: i in Holders(documents, path) && TypeOf(Lookup(documents[i], path).value) == t
  {
    if documents != [] {
      var n := |documents| - 1;
      HoldersStep(documents, path);
      SummaryTypes(documents[..n], path, t);
      assert forall i :: 0 <= i < n ==> documents[..n][i] == documents[i];
    }
  }

  /** The shapes seen are the shapes that occur. */
  lemma {:induction false} SummaryShapes(documents: seq<Doc>, path: FieldPath, h: ObservedShape)
    ensures h in Summary(documents, path).shapes <==>
            exists i :: i in Holders(documents, path) && ShapeOf(Lookup(documents[i], path).value) == h
  {
    if documents != [] {
      var n := |documents| - 1;
      HoldersStep(documents, path);
      SummaryShapes(documents[..n], path, h);
      assert forall i :: 0 <= i < n ==> documents[..n][i] == documents[i];
    }
  }

  /** Inference is exact: a path is profiled exactly when some sampled document contains it; the
      counts add up to the sample; types, shapes and the collision flag are those of the sample. */
  lemma InferenceExact(documents: seq<Doc>, path: FieldPath)
    ensures Field(Inferred(documents), path).Some? <==> exists i :: i in Holders(documents, path)
    ensures Field(Inferred(documents), path).Some? ==>
            var f := Field(Inferred(documents), path).value;
            && f.present == |Holders(documents, path)|
            && f.present + f.missing == |documents| == Inferred(documents).sampled
            && (forall t :: t in f.types <==>
                  exists i :: i in Holders(documents, path) && TypeOf(Lookup(documents[i], path).value) == t)
            && (forall h :: h in f.shapes <==>
                  exists i :: i in Holders(documents, path) && ShapeOf(Lookup(documents[i], path).value) == h)
            && (f.collision <==> exists other ::
                  && Field(Inferred(documents), other).Some?
                  && other != path && DisplayName(other) == DisplayName(path))
  {
    FieldOfInferred(documents, path);
    SummaryCounts(documents, path);
    PresentSomewhere(documents, path);
    forall t { SummaryTypes(documents, path, t); }
    forall h { SummaryShapes(documents, path, h); }
    if Holders(documents, path) != {} {
      var i :| i in Holders(documents, path);
    }
    forall other ensures Field(Inferred(documents), other).Some? <==> other in SamplePaths(documents) {
      FieldOfInferred(documents, other);
    }
  }

  lemma ParentSummary(documents: seq<Doc>, parent: FieldPath, path: FieldPath)
    requires parent != [] && ProperPrefix(parent, path) && path in SamplePaths(documents)
    ensures parent in SamplePaths(documents)
    ensures DocumentType in Summary(documents, parent).types
    ensures Summary(documents, parent).present >= Summary(documents, path).present
  {
    PresentSomewhere(documents, path);
    PresentSomewhere(documents, parent);
    ParentCounts(documents, parent, path);
    ParentIsDocument(documents, parent, path);
  }

  lemma ParentCounts(documents: seq<Doc>, parent: FieldPath, path: FieldPath)
    requires parent != [] && ProperPrefix(parent, path)
    ensures Summary(documents, parent).present >= Summary(documents, path).present
  {
    SummaryCounts(documents, path);
    SummaryCounts(documents, parent);
    HoldersOfParent(documents, parent, path);
    SubsetSize(Holders(documents, path), Holders(documents, parent));
  }

  lemma ParentIsDocument(documents: seq<Doc>, parent: FieldPath, path: FieldPath)
    requires parent != [] && ProperPrefix(parent, path) && Summary(documents, path).present > 0
    ensures DocumentType in Summary(documents, parent).types
  {
    SummaryCounts(documents, path);
    HoldersOfParent(documents, parent, path);
    var i :| i in Holders(documents, path);
    SummaryTypes(documents, parent, DocumentType);
    assert i in Holders(documents, parent) && TypeOf(Lookup(documents[i], parent).value) == DocumentType;
  }

  /** Parents of a profiled path are profiled as documents, at least as often. */
  lemma ParentsProfiled(documents: seq<Doc>, parent: FieldPath, path: FieldPath)
    requires parent != [] && ProperPrefix(parent, path) && Field(Inferred(documents), path).Some?
    ensures Field(Inferred(documents), parent).Some?
    ensures DocumentType in Field(Inferred(documents), parent).value.types
    ensures Field(Inferred(documents), parent).value.present >= Field(Inferred(documents), path).value.present
  {
    FieldOfInferred(documents, path);
    FieldOfInferred(documents, parent);
    ParentSummary(documents, parent, path);
  }

  lemma HoldersOfParent(documents: seq<Doc>, parent: FieldPath, path: FieldPath)
    requires parent != [] && ProperPrefix(parent, path)
    ensures Holders(documents, path) <= Holders(documents, parent)
    ensures forall i :: i in Holders(documents, path) ==> Lookup(documents[i], parent).value.Document?
  {
    forall i | i in Holders(documents, path)
      ensures i in Holders(documents, parent) && Lookup(documents[i], parent).value.Document?
    {
      PrefixHoldsDocument(documents[i], parent, path);
    }
  }

  lemma {:induction false} SubsetSize(a: set<nat>, b: set<nat>)
    requires a <= b
    ensures |a| <= |b|
  {
    if a != {} {
      var x :| x in a;
      SubsetSize(a - {x}, b - {x});
    }
  }

  /** Dot-free paths never collide with each other. */
  lemma DotFreePathsDoNotCollide(documents: seq<Doc>, path: FieldPath)
    requires forall p :: p in SamplePaths(documents) ==> DotFreePath(p)
    requires Field(Inferred(documents), path).Some?
    ensures !Field(Inferred(documents), path).value.collision
  {
    FieldOfInferred(documents, path);
    forall other | other in SamplePaths(documents) && DisplayName(other) == DisplayName(path) ensures other == path {
      NoEmptyPath(documents, other);
      NoEmptyPath(documents, path);
      DisplayNameInjective(other, path);
    }
  }

  lemma NoEmptyPath(documents: seq<Doc>, path: FieldPath)
    requires path in SamplePaths(documents)
    ensures path != []
  {
    var d :| d in documents && path in DocumentPaths(Document(d));
    DocumentPathsExact(d, path);
  }

  // ---------------------------------------------------------------------------
  // Independence of the sampling order
  // ---------------------------------------------------------------------------

  function Merge(o: Observation, found: Option<Bson>): Observation
  {
    if found.Some? then Bump(o, found.value) else o
  }

  lemma MergeCommutes(o: Observation, a: Option<Bson>, b: Option<Bson>)
    ensures Merge(Merge(o, a), b) == Merge(Merge(o, b), a)
  {
    if a.Some? && b.Some? {
      assert o.types + {TypeOf(a.value)} + {TypeOf(b.value)} == o.types + {TypeOf(b.value)} + {TypeOf(a.value)};
      assert o.shapes + {ShapeOf(a.value)} + {ShapeOf(b.value)} == o.shapes + {ShapeOf(b.value)} + {ShapeOf(a.value)};
    }
  }

  lemma SummaryLast(documents: seq<Doc>, path: FieldPath)
    requires documents != []
    ensures var n := |documents| - 1;
            Summary(documents, path) == Merge(Summary(documents[..n], path), Lookup(documents[n], path))
  {
  }

  lemma {:induction false} SummaryMoveToEnd(documents: seq<Doc>, i: nat, path: FieldPath)
    requires i < |documents|
    ensures Summary(documents, path) ==
            Merge(Summary(documents[..i] + documents[i + 1..], path), Lookup(documents[i], path))
  {
    var n, others := |documents| - 1, documents[..i] + documents[i + 1..];
    SummaryLast(documents, path);
    if i == n {
      assert others == documents[..n];
    } else {
      var front, last, moved := documents[..n], Lookup(documents[n], path), Lookup(documents[i], path);
      var rest := front[..i] + front[i + 1..];
      assert others[..n - 1] == rest && others[n - 1] == documents[n] && front[i] == documents[i];
      calc {
        Summary(documents, path);
        Merge(Summary(front, path), last);
        { SummaryMoveToEnd(front, i, path); }
        Merge(Merge(Summary(rest, path), moved), last);
        { MergeCommutes(Summary(rest, path), moved, last); }
        Merge(Merge(Summary(rest, path), last), moved);
        { SummaryLast(others, path); }
        Merge(Summary(others, path), moved);
      }
    }
  }

  lemma {:induction false} SummaryPermutes(a: seq<Doc>, b: seq<Doc>, path: FieldPath)
    requires multiset(a) == multiset(b)
    ensures Summary(a, path) == Summary(b, path)
    decreases |a|
  {
    if a == [] {
      assert |multiset(b)| == 0;
    } else {
      var n := |a| - 1;
      var i := FindElement(a, n, b);
      assert a[..n] + a[n + 1..] == a[..n];
      SummaryMoveToEnd(b, i, path);
      SummaryPermutes(a[..n], b[..i] + b[i + 1..], path);
      SummaryLast(a, path);
    }
  }

  lemma SamplePathsPermute(a: seq<Doc>, b: seq<Doc>)
    requires multiset(a) == multiset(b)
    ensures |a| == |b| && SamplePaths(a) == SamplePaths(b)
  {
    assert |a| == |multiset(a)| == |multiset(b)| == |b|;
    forall d ensures d in a <==> d in b {
      assert d in a <==> d in multiset(a);
      assert d in b <==> d in multiset(b);
    }
  }

  /** The profile does not depend on the order of the sample. */
  lemma {:induction false} InferenceIgnoresOrder(a: seq<Doc>, b: seq<Doc>)
    requires multiset(a) == multiset(b)
    ensures Inferred(a) == Inferred(b)
  {
    SamplePathsPermute(a, b);
    var paths := SortedPaths(SamplePaths(a));
    forall i | 0 <= i < |paths| ensures ProfileOf(a, paths[i]) == ProfileOf(b, paths[i]) {
      SummaryPermutes(a, b, paths[i]);
    }
    assert |a| == |multiset(a)| == |b|;
    EachProfileIsInferred(b, Inferred(a).fields);
  }

  /** The fields of a profile are listed once each, in path order. */
  lemma InferredOrdered(documents: seq<Doc>)
    ensures var fields := Inferred(documents).fields;
            && Inferred(documents).version == 1 && Inferred(documents).sampled == |documents|
            && forall i, j :: 0 <= i < j < |fields| ==> PathLess(fields[i].path, fields[j].path)
  {
    var paths := SortedPaths(SamplePaths(documents));
    assert forall i :: 0 <= i < |paths| ==> Inferred(documents).fields[i].path == paths[i];
  }

  lemma {:induction false} EverywhereWhenNoneMissing(documents: seq<Doc>, path: FieldPath, k: nat)
    requires |Holders(documents, path)| == |documents| && k < |documents|
    ensures Lookup(documents[k], path).Some?
  {
    var n := |documents| - 1;
    HoldersStep(documents, path);
    SummaryCounts(documents[..n], path);
    SummaryBound(documents[..n], path);
    if k < n {
      EverywhereWhenNoneMissing(documents[..n], path, k);
    }
  }

  /** A path is missing from some document exactly when not all of them hold it. */
  lemma {:induction false} MissingSomewhere(documents: seq<Doc>, path: FieldPath)
    ensures Summary(documents, path).present < |documents| <==>
            exists k :: 0 <= k < |documents| && Lookup(documents[k], path).None?
  {
    SummaryBound(documents, path);
    SummaryCounts(documents, path);
    if Summary(documents, path).present == |documents| {
      forall k | 0 <= k < |documents| ensures Lookup(documents[k], path).Some? {
        EverywhereWhenNoneMissing(documents, path, k);
      }
    } else {
      HolderMissing(documents, path);
    }
  }

  lemma {:induction false} HolderMissing(documents: seq<Doc>, path: FieldPath)
    requires Summary(documents, path).present < |documents|
    ensures exists k :: 0 <= k < |documents| && Lookup(documents[k], path).None?
  {
    var n := |documents| - 1;
    if Lookup(documents[n], path).Some? {
      HolderMissing(documents[..n], path);
      var k :| 0 <= k < n && Lookup(documents[..n][k], path).None?;
      assert documents[k] == documents[..n][k];
    }
  }
}
