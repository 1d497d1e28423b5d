/** Segment-preserving field paths and their dot-separated display form
    (crates/schema-discovery/src/lib.rs). */
module Paths {

  type FieldPath = seq<string>

  predicate DotFree(s: string) { '.' !in s }

  predicate DotFreePath(path: FieldPath) { forall i :: 0 <= i < |path| ==> DotFree(path[i]) }

  predicate IsLiteralDottedKey(path: FieldPath) { |path| == 1 && '.' in path[0] }

  /** A path of one segment that contains a dot at some position. */
  predicate NamesDottedKey(path: FieldPath) { |path| == 1 && exists k :: 0 <= k < |path[0]| && path[0][k] == '.' }

  /** `segments.join(".")`. */
  function DisplayName(path: FieldPath): string
  {
    if |path| == 0 then ""
    else if |path| == 1 then path[0]
    else path[0] + "." + DisplayName(path[1..])
  }

  /** `text.split('.')`: always at least one segment. */
  function SplitDots(text: string): (path: FieldPath)
    ensures |path| >= 1 && DotFreePath(path)
  {
    if text == "" then [""]
    else
      var rest := SplitDots(text[1..]);
      if text[0] == '.' then [""] + rest else [[text[0]] + rest[0]] + rest[1..]
  }

  lemma {:induction false} JoinOfSplit(text: string)
    ensures DisplayName(SplitDots(text)) == text
  {
    if text != "" {
      JoinOfSplit(text[1..]);
      var rest := SplitDots(text[1..]);
      assert text == [text[0]] + text[1..];
      if text[0] == '.' {
        assert SplitDots(text)[1..] == rest;
      } else {
        assert SplitDots(text)[1..] == rest[1..];
        assert DisplayName(SplitDots(text)) == [text[0]] + DisplayName(rest);
      }
    }
  }

  /** Splitting undoes joining exactly on the non-empty paths without a dot in a segment. */
  lemma SplitOfJoin(path: FieldPath)
    ensures SplitDots(DisplayName(path)) == path <==> path != [] && DotFreePath(path)
  {
    if path != [] && DotFreePath(path) {
      SplitOfJoinDotFree(path);
    }
  }

  lemma {:induction false} SplitOfJoinDotFree(path: FieldPath)
    requires path != [] && DotFreePath(path)
    ensures SplitDots(DisplayName(path)) == path
  {
    if |path| == 1 {
      SplitOfSegment(path[0]);
    } else {
      SplitOfJoinDotFree(path[1..]);
      SplitOfPrefixedSegment(path[0], DisplayName(path[1..]));
      assert path == [path[0]] + path[1..];
    }
  }

  lemma {:induction false} SplitOfSegment(segment: string)
    requires DotFree(segment)
    ensures SplitDots(segment) == [segment]
  {
    if segment != "" {
      SplitOfSegment(segment[1..]);
      assert segment == [segment[0]] + segment[1..];
    }
  }

  lemma {:induction false} SplitOfPrefixedSegment(segment: string, rest: string)
    requires DotFree(segment)
    ensures SplitDots(segment + "." + rest) == [segment] + SplitDots(rest)
  {
    var text := segment + "." + rest;
    if segment == "" {
      assert text[1..] == rest;
    } else {
      SplitOfPrefixedSegment(segment[1..], rest);
      assert text[1..] == segment[1..] + "." + rest;
      assert segment == [segment[0]] + segment[1..];
    }
  }

  /** Dot-free paths are told apart by their display names. */
  lemma DisplayNameInjective(a: FieldPath, b: FieldPath)
    requires a != [] && b != [] && DotFreePath(a) && DotFreePath(b)
    requires DisplayName(a) == DisplayName(b)
    ensures a == b
  {
    SplitOfJoin(a);
    SplitOfJoin(b);
  }

  /** `paths_overlap`: equal on their common length. */
  predicate PathsOverlap(left: FieldPath, right: FieldPath)
  {
    var common := if |left| <= |right| then |left| else |right|;
    left[..common] == right[..common]
  }

  /** No two positions of the list hold overlapping paths. */
  predicate PairwiseDisjoint(paths: seq<FieldPath>)
  {
    forall i, j :: 0 <= i < j < |paths| ==> !PathsOverlap(paths[i], paths[j])
  }

  lemma OverlapTails(left: FieldPath, right: FieldPath)
    requires left != [] && right != [] && left[0] == right[0]
    ensures PathsOverlap(left, right) <==> PathsOverlap(left[1..], right[1..])
  {
    var n := if |left| <= |right| then |left| else |right|;
    assert left[..n] == [left[0]] + left[1..][..n - 1];
    assert right[..n] == [right[0]] + right[1..][..n - 1];
  }

  /** Overlapping means that one path is a prefix of the other. */
  lemma OverlapIsPrefix(left: FieldPath, right: FieldPath)
    ensures PathsOverlap(left, right) <==> left <= right || right <= left
    ensures PathsOverlap(left, right) == PathsOverlap(right, left)
  {
  }

  predicate ProperPrefix(a: FieldPath, b: FieldPath) { |a| < |b| && a <= b }

  lemma PrefixTransitive(a: FieldPath, b: FieldPath, c: FieldPath)
    requires b <= c
    ensures a <= b ==> a <= c
  {
  }

  /** Two prefixes of one path overlap. */
  lemma CommonExtension(a: FieldPath, b: FieldPath, path: FieldPath)
    requires a <= path && b <= path
    ensures PathsOverlap(a, b)
  {
    assert a == path[..|a|] && b == path[..|b|];
  }
}
