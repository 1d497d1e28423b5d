/** Setting several paths of one document: the order of non-overlapping paths is irrelevant,
    and the result is the simultaneous assignment of all of them. */
module Assignments {
  import opened Common
  import opened Ordering
  import opened Paths
  import opened Documents

  type Setting = (FieldPath, Bson)

  function PathsOf(xs: seq<Setting>): (paths: seq<FieldPath>)
    ensures |paths| == |xs| && forall i :: 0 <= i < |xs| ==> paths[i] == xs[i].0
  {
    seq(|xs|, i requires 0 <= i < |xs| => xs[i].0)
  }

  function ApplyAll(d: Doc, xs: seq<Setting>): Option<Doc>
    decreases |xs|
  {
    if xs == [] then Some(d)
    else
      match SetPath(d, xs[0].0, xs[0].1)
      case None => None
      case Some(d') => ApplyAll(d', xs[1..])
  }

  ghost predicate Disjoint(xs: seq<Setting>)
  {
    forall i, j :: 0 <= i < j < |xs| ==> !PathsOverlap(xs[i].0, xs[j].0)
  }

  /** `after` is `before` with every listed path assigned at once: what each path holds in
      `after` is fixed by the list and by `before` alone. */
  ghost predicate Simultaneous(before: Doc, xs: seq<Setting>, after: Doc)
  {
    && (forall i, q :: 0 <= i < |xs| && xs[i].0 <= q ==> Lookup(after, q) == LookupIn(xs[i].1, q[|xs[i].0|..]))
    && (forall i, q :: 0 <= i < |xs| && q != [] && ProperPrefix(q, xs[i].0)
                       ==> Lookup(after, q).Some? && Lookup(after, q).value.Document?)
    && (forall q :: q != [] && (forall i :: 0 <= i < |xs| ==> !PathsOverlap(xs[i].0, q))
                    ==> Lookup(after, q) == Lookup(before, q))
  }

  lemma {:induction false} ApplyAllIsSimultaneous(d: Doc, xs: seq<Setting>)
    requires Disjoint(xs) && ApplyAll(d, xs).Some?
    ensures Simultaneous(d, xs, ApplyAll(d, xs).value)
    decreases |xs|
  {
    if xs != [] {
      var p, rest := xs[0].0, xs[1..];
      var first := SetPath(d, p, xs[0].1).value;
      var after := ApplyAll(d, xs).value;
      ApplyAllIsSimultaneous(first, rest);
      forall i, q | 0 <= i < |xs| && xs[i].0 <= q
        ensures Lookup(after, q) == LookupIn(xs[i].1, q[|xs[i].0|..])
      {
        if i > 0 {
          assert rest[i - 1] == xs[i];
        } else {
          NothingElseBelow(xs, q);
          LookupAfterSet(d, p, xs[0].1, q);
        }
      }
      forall i, q | 0 <= i < |xs| && q != [] && ProperPrefix(q, xs[i].0)
        ensures Lookup(after, q).Some? && Lookup(after, q).value.Document?
      {
        if i > 0 {
          assert rest[i - 1] == xs[i];
        } else if j :| 0 <= j < |rest| && PathsOverlap(rest[j].0, q) {
          OverlapIsPrefix(rest[j].0, q);
          assert rest[j] == xs[j + 1];
          assert !PathsOverlap(p, xs[j + 1].0);
          OverlapIsPrefix(p, xs[j + 1].0);
          PrefixTransitive(rest[j].0, q, p);
          assert ProperPrefix(q, rest[j].0);
        } else {
          LookupAfterSet(d, p, xs[0].1, q);
        }
      }
      forall q | q != [] && forall i :: 0 <= i < |xs| ==> !PathsOverlap(xs[i].0, q)
        ensures Lookup(after, q) == Lookup(d, q)
      {
        assert !PathsOverlap(xs[0].0, q);
        OverlapIsPrefix(p, q);
        forall j | 0 <= j < |rest| ensures !PathsOverlap(rest[j].0, q) {
          assert rest[j] == xs[j + 1];
        }
        LookupAfterSet(d, p, xs[0].1, q);
      }
    }
  }

  /** A path at or below the first setting overlaps no other setting. */
  lemma NothingElseBelow(xs: seq<Setting>, q: FieldPath)
    requires xs != [] && Disjoint(xs) && xs[0].0 <= q
    ensures forall j :: 0 <= j < |xs[1..]| ==> !PathsOverlap(xs[1..][j].0, q)
  {
    forall j | 0 <= j < |xs[1..]| ensures !PathsOverlap(xs[1..][j].0, q) {
      var p, r := xs[0].0, xs[j + 1].0;
      assert !PathsOverlap(p, r);
      OverlapIsPrefix(p, r);
      OverlapIsPrefix(r, q);
      if r <= q {
        CommonExtension(p, r, q);
      } else if q <= r {
        PrefixTransitive(p, q, r);
      }
    }
  }

  /** Equal, or both embedded documents, whose contents are compared path by path. */
  predicate Agree(a: Option<Bson>, b: Option<Bson>)
  {
    a == b || (a.Some? && b.Some? && a.value.Document? && b.value.Document?)
  }

  /** Documents that agree at every path are equal. */
  lemma {:induction false} SameAtEveryPath(a: Doc, b: Doc)
    requires forall q :: q != [] ==> Agree(Lookup(a, q), Lookup(b, q))
    ensures a == b
    decreases Document(a)
  {
    forall k: string
      ensures k in a <==> k in b
      ensures k in a ==> a[k] == b[k]
    {
      assert [k][1..] == [];
      assert Agree(Lookup(a, [k]), Lookup(b, [k]));
      if k in a && a[k].Document? {
        forall q | q != [] ensures Agree(Lookup(a[k].fields, q), Lookup(b[k].fields, q)) {
          assert ([k] + q)[1..] == q;
          assert Agree(Lookup(a, [k] + q), Lookup(b, [k] + q));
        }
        assert a[k] == Document(a[k].fields);
        SameAtEveryPath(a[k].fields, b[k].fields);
      }
    }
  }

  /** A simultaneous assignment determines the document. */
  lemma SimultaneousIsUnique(before: Doc, xs: seq<Setting>, a: Doc, b: Doc)
    requires Disjoint(xs) && (forall i :: 0 <= i < |xs| ==> xs[i].0 != [])
    requires Simultaneous(before, xs, a) && Simultaneous(before, xs, b)
    ensures a == b
  {
    forall q | q != [] ensures Agree(Lookup(a, q), Lookup(b, q)) {
      if i :| 0 <= i < |xs| && PathsOverlap(xs[i].0, q) {
        OverlapIsPrefix(xs[i].0, q);
        if xs[i].0 <= q {
          assert Lookup(a, q) == LookupIn(xs[i].1, q[|xs[i].0|..]);
        } else {
          assert ProperPrefix(q, xs[i].0);
        }
      }
    }
    SameAtEveryPath(a, b);
  }

  /** One setting does not change whether a non-overlapping one succeeds. */
  lemma SetKeepsSuccess(d: Doc, p: FieldPath, v: Bson, q: FieldPath, w: Bson)
    requires !PathsOverlap(p, q) && SetPath(d, p, v).Some?
    ensures SetPath(SetPath(d, p, v).value, q, w).Some? <==> SetPath(d, q, w).Some?
  {
    var first := SetPath(d, p, v).value;
    SetPathSucceeds(d, p, v);
    SetPathSucceeds(d, q, w);
    SetPathSucceeds(first, q, w);
    OverlapIsPrefix(p, q);
    forall k | 0 < k < |q|
      ensures Lookup(first, q[..k]).Some? && Lookup(d, q[..k]).Some?
              ==> (Lookup(first, q[..k]).value.Document? <==> Lookup(d, q[..k]).value.Document?)
      ensures Lookup(first, q[..k]).None? ==> Lookup(d, q[..k]).None?
      ensures Lookup(d, q[..k]).None? && Lookup(first, q[..k]).Some? ==> Lookup(first, q[..k]).value.Document?
    {
      LookupAfterSet(d, p, v, q[..k]);
      PrefixTransitive(p, q[..k], q);
      if q[..k] <= p {
        assert q[..k] == p[..k];
      }
    }
  }

  /** All settings succeed together exactly when each succeeds alone. */
  lemma {:induction false} ApplyAllSucceeds(d: Doc, xs: seq<Setting>)
    requires Disjoint(xs)
    ensures ApplyAll(d, xs).Some? <==> forall i :: 0 <= i < |xs| ==> SetPath(d, xs[i].0, xs[i].1).Some?
    decreases |xs|
  {
    if xs != [] && SetPath(d, xs[0].0, xs[0].1).Some? {
      var first, rest := SetPath(d, xs[0].0, xs[0].1).value, xs[1..];
      ApplyAllSucceeds(first, rest);
      forall i | 0 < i < |xs|
        ensures SetPath(first, xs[i].0, xs[i].1).Some? <==> SetPath(d, xs[i].0, xs[i].1).Some?
      {
        SetKeepsSuccess(d, xs[0].0, xs[0].1, xs[i].0, xs[i].1);
      }
      assert forall i :: 0 <= i < |rest| ==> rest[i] == xs[i + 1];
      assert forall i :: 0 < i < |xs| ==> xs[i] == rest[i - 1];
    }
  }

  /** Any setting may be moved to the front. */
  lemma {:induction false} MoveToFront(d: Doc, xs: seq<Setting>, i: nat)
    requires i < |xs| && Disjoint(xs)
    ensures ApplyAll(d, xs) == ApplyAll(d, [xs[i]] + (xs[..i] + xs[i + 1..]))
    decreases |xs|
  {
    if i == 0 {
      assert [xs[0]] + (xs[..0] + xs[1..]) == xs;
    } else {
      var x, y, rest := xs[0], xs[i], xs[1..];
      var others := rest[..i - 1] + rest[i..];
      var moved := [y] + (xs[..i] + xs[i + 1..]);
      assert xs[..i] + xs[i + 1..] == [x] + others;
      assert moved[1..] == [x] + others && moved[1..][1..] == others;
      SetPathCommutes(d, x.0, x.1, y.0, y.1);
      if SetPath(d, x.0, x.1).Some? {
        var first := SetPath(d, x.0, x.1).value;
        MoveToFront(first, rest, i - 1);
        assert ([y] + others)[1..] == others;
      }
    }
  }

  /** The settings may be applied in any order. */
  lemma {:induction false} ApplyAllOrderIrrelevant(d: Doc, xs: seq<Setting>, ys: seq<Setting>)
    requires Disjoint(xs) && Disjoint(ys) && multiset(xs) == multiset(ys)
    ensures ApplyAll(d, xs) == ApplyAll(d, ys)
    decreases |xs|
  {
    if xs == [] {
      assert |multiset(ys)| == 0;
    } else {
      var i := FindElement(xs, 0, ys);
      assert xs[..0] + xs[1..] == xs[1..];
      var others := ys[..i] + ys[i + 1..];
      MoveToFront(d, ys, i);
      assert ([ys[i]] + others)[1..] == others;
      if SetPath(d, xs[0].0, xs[0].1).Some? {
        ApplyAllOrderIrrelevant(SetPath(d, xs[0].0, xs[0].1).value, xs[1..], others);
      }
    }
  }
}
