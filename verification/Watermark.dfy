/** Ascending row ids and the two sides of a watermark. */
module Watermark {

  predicate Ascending(ids: seq<int>) {
    forall i, j | 0 <= i < j < |ids| :: ids[i] < ids[j]
  }

  /** The ids at or below the watermark, in order. */
  function UpTo(ids: seq<int>, w: int): seq<int> {
    if ids == [] then [] else (if ids[0] <= w then [ids[0]] else []) + UpTo(ids[1..], w)
  }

  /** The ids above the watermark, in order. */
  function Above(ids: seq<int>, w: int): seq<int> {
    if ids == [] then [] else (if ids[0] > w then [ids[0]] else []) + Above(ids[1..], w)
  }

  lemma {:induction false} UpToConcat(a: seq<int>, b: seq<int>, w: int)
    ensures UpTo(a + b, w) == UpTo(a, w) + UpTo(b, w)
  {
    if a == [] {
      assert a + b == b;
    } else {
      var ab := a + b;
      assert ab[0] == a[0] && ab[1..] == a[1..] + b;
      UpToConcat(a[1..], b, w);
      var first, middle, last := if a[0] <= w then [a[0]] else [], UpTo(a[1..], w), UpTo(b, w);
      assert UpTo(ab, w) == first + (middle + last);
      assert UpTo(a, w) == first + middle;
      assert first + (middle + last) == (first + middle) + last;
    }
  }

  lemma {:induction false} UpToAll(ids: seq<int>, w: int)
    requires forall i | 0 <= i < |ids| :: ids[i] <= w
    ensures UpTo(ids, w) == ids
  {
    if ids != [] {
      UpToAll(ids[1..], w);
    }
  }

  lemma {:induction false} UpToNone(ids: seq<int>, w: int)
    requires forall i | 0 <= i < |ids| :: w < ids[i]
    ensures UpTo(ids, w) == []
  {
    if ids != [] {
      UpToNone(ids[1..], w);
    }
  }

  /** In ascending ids, everything through the id at the end of `a` is exactly `a`. */
  lemma UpToPrefix(a: seq<int>, b: seq<int>)
    requires Ascending(a + b) && a != []
    ensures UpTo(a + b, a[|a| - 1]) == a
    ensures forall r | r in b :: a[|a| - 1] < r
  {
    var w := a[|a| - 1];
    var ab := a + b;
    forall i | 0 <= i < |a| ensures a[i] <= w {
      assert ab[i] == a[i] && ab[|a| - 1] == w;
    }
    forall i | 0 <= i < |b| ensures w < b[i] {
      assert ab[|a| + i] == b[i] && ab[|a| - 1] == w;
    }
    UpToConcat(a, b, w);
    UpToAll(a, w);
    UpToNone(b, w);
  }

  /** A watermark splits ascending ids without loss or reordering. */
  lemma {:induction false} UpToThenAbove(ids: seq<int>, w: int)
    requires Ascending(ids)
    ensures UpTo(ids, w) + Above(ids, w) == ids
  {
    if ids != [] {
      var rest := ids[1..];
      UpToThenAbove(rest, w);
      assert ids == [ids[0]] + rest;
      if ids[0] > w {
        forall i | 0 <= i < |rest| ensures w < rest[i] {
          assert rest[i] == ids[i + 1];
        }
        UpToNone(rest, w);
        assert Above(ids, w) == [ids[0]] + Above(rest, w);
      } else {
        assert UpTo(ids, w) == [ids[0]] + UpTo(rest, w);
        assert ([ids[0]] + UpTo(rest, w)) + Above(rest, w) == [ids[0]] + (UpTo(rest, w) + Above(rest, w));
      }
    }
  }

  lemma UpToAppend(ids: seq<int>, r: int, w: int)
    ensures UpTo(ids + [r], w) == UpTo(ids, w) + if r <= w then [r] else []
  {
    UpToConcat(ids, [r], w);
    assert [r][1..] == [];
  }
}
