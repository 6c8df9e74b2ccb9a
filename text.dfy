/**
 * Python's `str.split(sep)`, `sep.join(parts)` and `str.replace(old, new)`, over sequences of any
 * element type. A separator is matched leftmost first, and matches do not overlap.
 */
module Text {

  predicate StartsWith<T(==)>(s: seq<T>, p: seq<T>) {
    |p| <= |s| && s[..|p|] == p
  }

  /** `p` occurs nowhere in `s`. */
  predicate Free<T(==)>(s: seq<T>, p: seq<T>) {
    forall j :: 0 <= j < |s| ==> !StartsWith(s[j..], p)
  }

  /** `s.split(p)`: the pieces between the occurrences of `p`. */
  function Split<T(==)>(s: seq<T>, p: seq<T>): (r: seq<seq<T>>)
    requires |p| > 0
    ensures |r| >= 1 && |r[0]| <= |s|
    decreases |s|
  {
    if s == [] then [[]]
    else if StartsWith(s, p) then [[]] + Split(s[|p|..], p)
    else
      var t := Split(s[1..], p);
      [[s[0]] + t[0]] + t[1..]
  }

  /** `sep.join(parts)`: the parts with `sep` between neighbours; it begins with the first part. */
  function Join<T>(parts: seq<seq<T>>, sep: seq<T>): (r: seq<T>)
    requires |parts| >= 1
    ensures |parts[0]| <= |r| && r[..|parts[0]|] == parts[0]
    decreases |parts|
  {
    if |parts| == 1 then parts[0] else parts[0] + sep + Join(parts[1..], sep)
  }

  /** `s.replace(p, r)`: every occurrence of `p`, scanning left to right, becomes `r`. */
  function Replace<T(==)>(s: seq<T>, p: seq<T>, r: seq<T>): (res: seq<T>)
    requires |p| > 0
    ensures r == p ==> res == s
    decreases |s|
  {
    if s == [] then []
    else if StartsWith(s, p) then
      assert s == p + s[|p|..];
      r + Replace(s[|p|..], p, r)
    else [s[0]] + Replace(s[1..], p, r)
  }

  lemma JoinConsHead<T>(x: seq<T>, t: seq<seq<T>>, sep: seq<T>)
    requires |t| >= 1
    ensures Join([x + t[0]] + t[1..], sep) == x + Join(t, sep)
  {
  }

  /** The first piece of a split is a prefix of the text, followed by the separator or by nothing. */
  lemma {:induction false} SplitFirst<T>(s: seq<T>, p: seq<T>)
    requires |p| > 0
    ensures var f := Split(s, p)[0];
      |f| <= |s| && f == s[..|f|] && (|f| == |s| || StartsWith(s[|f|..], p))
    decreases |s|
  {
    if s != [] && !StartsWith(s, p) {
      SplitFirst(s[1..], p);
    }
  }

  /** Splitting and joining again with the same separator gives the text back. */
  lemma {:induction false} SplitJoin<T>(s: seq<T>, p: seq<T>)
    requires |p| > 0
    ensures Join(Split(s, p), p) == s
    decreases |s|
  {
    if s == [] {
    } else if StartsWith(s, p) {
      var rest := Split(s[|p|..], p);
      SplitJoin(s[|p|..], p);
      var parts := [[]] + rest;
      assert Split(s, p) == parts;
      assert parts[1..] == rest;
      calc {
        Join(parts, p);
        parts[0] + p + Join(rest, p);
        p + s[|p|..];
        s;
      }
    } else {
      var t := Split(s[1..], p);
      SplitJoin(s[1..], p);
      assert Split(s, p) == [[s[0]] + t[0]] + t[1..];
      JoinConsHead([s[0]], t, p);
      assert s == [s[0]] + s[1..];
    }
  }

  /** No piece of a split contains the separator. */
  lemma {:induction false} SplitPiecesFree<T>(s: seq<T>, p: seq<T>)
    requires |p| > 0
    ensures forall k :: 0 <= k < |Split(s, p)| ==> Free(Split(s, p)[k], p)
    decreases |s|
  {
    if s == [] {
    } else if StartsWith(s, p) {
      SplitPiecesFree(s[|p|..], p);
      var rest := Split(s[|p|..], p);
      assert Split(s, p) == [[]] + rest;
    } else {
      var t := Split(s[1..], p);
      SplitPiecesFree(s[1..], p);
      SplitFirst(s[1..], p);
      var head := [s[0]] + t[0];
      assert Split(s, p) == [head] + t[1..];
      forall j | 0 <= j < |head|
        ensures !StartsWith(head[j..], p)
      {
        if j == 0 {
          assert head == s[..|head|];
          assert head[0..] == head;
        } else {
          assert head[j..] == t[0][j - 1..];
        }
      }
    }
  }

  /** `s.replace(p, r)` is `r.join(s.split(p))`. */
  lemma {:induction false} ReplaceIsJoinSplit<T>(s: seq<T>, p: seq<T>, r: seq<T>)
    requires |p| > 0
    ensures Replace(s, p, r) == Join(Split(s, p), r)
    decreases |s|
  {
    if s == [] {
    } else if StartsWith(s, p) {
      ReplaceIsJoinSplit(s[|p|..], p, r);
      var rest := Split(s[|p|..], p);
      assert Split(s, p) == [[]] + rest;
      assert ([[]] + rest)[1..] == rest;
      assert Join([[]] + rest, r) == [] + r + Join(rest, r);
    } else {
      ReplaceIsJoinSplit(s[1..], p, r);
      var t := Split(s[1..], p);
      assert Split(s, p) == [[s[0]] + t[0]] + t[1..];
      JoinConsHead([s[0]], t, r);
    }
  }

  /** A text with no occurrence of the separator is a single piece. */
  lemma {:induction false} SplitOfFree<T>(s: seq<T>, p: seq<T>)
    requires |p| > 0 && Free(s, p)
    ensures Split(s, p) == [s]
    decreases |s|
  {
    if s != [] {
      assert s[0..] == s;
      assert !StartsWith(s, p);
      forall j | 0 <= j < |s[1..]| ensures !StartsWith(s[1..][j..], p) {
        assert s[1..][j..] == s[j + 1..];
      }
      SplitOfFree(s[1..], p);
      var t := Split(s[1..], p);
      assert Split(s, p) == [[s[0]] + t[0]] + t[1..];
      assert [s[0]] + s[1..] == s;
    }
  }

  /** Text free of the separator, then the separator: the first piece is that text. */
  lemma {:induction false} SplitAppend<T>(a: seq<T>, p: seq<T>, b: seq<T>)
    requires |p| > 0
    requires forall j :: 0 <= j < |a| ==> !StartsWith((a + p + b)[j..], p)
    ensures Split(a + p + b, p) == [a] + Split(b, p)
    decreases |a|
  {
    var s := a + p + b;
    if a == [] {
      assert s[..|p|] == p && s[|p|..] == b;
    } else {
      assert s[0..] == s;
      assert s[1..] == a[1..] + p + b;
      forall j | 0 <= j < |a[1..]|
        ensures !StartsWith((a[1..] + p + b)[j..], p)
      {
        assert (a[1..] + p + b)[j..] == s[j + 1..];
      }
      SplitAppend(a[1..], p, b);
      assert [s[0]] + a[1..] == a;
    }
  }

  /** The single-element separator case of `SplitAppend`. */
  lemma SplitAppendElem<T>(a: seq<T>, c: T, b: seq<T>)
    requires forall j :: 0 <= j < |a| ==> a[j] != c
    ensures Split(a + [c] + b, [c]) == [a] + Split(b, [c])
  {
    forall j | 0 <= j < |a|
      ensures !StartsWith((a + [c] + b)[j..], [c])
    {
      assert (a + [c] + b)[j..][0] == a[j];
    }
    SplitAppend(a, [c], b);
  }

  /** Where the pattern does not occur, `replace` changes nothing. */
  lemma ReplaceOfFree<T>(s: seq<T>, p: seq<T>, r: seq<T>)
    requires |p| > 0 && Free(s, p)
    ensures Replace(s, p, r) == s
  {
    ReplaceIsJoinSplit(s, p, r);
    SplitOfFree(s, p);
  }
}
