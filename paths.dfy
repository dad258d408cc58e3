/**
 * URL paths as sequences of '/'-separated segments. The endpoint modules build
 * their paths with template literals; `Join` is the reference they are proved
 * against, and `Split` reads a path back into its segments.
 */
module Paths {

  /** A segment that cannot be mistaken for two: it holds no '/'. */
  predicate Segment(s: string) {
    '/' !in s
  }

  predicate AllSegments(segs: seq<string>) {
    forall i :: 0 <= i < |segs| ==> Segment(segs[i])
  }

  /** The segments joined with '/' between each neighbouring pair. */
  function Join(segs: seq<string>): string
    requires |segs| >= 1
  {
    if |segs| == 1 then segs[0] else segs[0] + "/" + Join(segs[1..])
  }

  /** The path cut at every '/'; always at least one (possibly empty) segment. */
  function Split(s: string): (r: seq<string>)
    ensures |r| >= 1
  {
    if |s| == 0 then [""]
    else
      var rest := Split(s[1..]);
      if s[0] == '/' then [""] + rest else [[s[0]] + rest[0]] + rest[1..]
  }

  lemma {:induction false} SplitSegment(a: string)
    requires Segment(a)
    ensures Split(a) == [a]
  {
    if |a| > 0 {
      assert a[0] != '/' && Segment(a[1..]);
      SplitSegment(a[1..]);
      assert [a[0]] + a[1..] == a;
    }
  }

  lemma {:induction false} SplitCons(a: string, b: string)
    requires Segment(a)
    ensures Split(a + "/" + b) == [a] + Split(b)
  {
    if |a| == 0 {
      assert a + "/" + b == "/" + b;
      assert ("/" + b)[1..] == b;
    } else {
      var s := a + "/" + b;
      assert s[0] == a[0] != '/';
      assert s[1..] == a[1..] + "/" + b;
      assert Segment(a[1..]);
      SplitCons(a[1..], b);
      assert [a[0]] + a[1..] == a;
    }
  }

  /** Reading a joined path back gives the segments it was joined from. */
  lemma {:induction false} SplitJoin(segs: seq<string>)
    requires |segs| >= 1 && AllSegments(segs)
    ensures Split(Join(segs)) == segs
  {
    if |segs| == 1 {
      SplitSegment(segs[0]);
    } else {
      SplitCons(segs[0], Join(segs[1..]));
      SplitJoin(segs[1..]);
    }
  }

  /** Segment lists that join to the same path are the same list. */
  lemma JoinInjective(xs: seq<string>, ys: seq<string>)
    requires |xs| >= 1 && |ys| >= 1 && AllSegments(xs) && AllSegments(ys)
    requires Join(xs) == Join(ys)
    ensures xs == ys
  {
    SplitJoin(xs);
    SplitJoin(ys);
  }

  /** Concatenation is associative; stated once so that path proofs can regroup cheaply. */
  lemma Regroup(a: string, b: string, c: string)
    ensures a + b + c == a + (b + c)
  {
  }

  /** Appending a segment appends "/" and that segment to the path. */
  lemma {:induction false} JoinSnoc(segs: seq<string>, last: string)
    requires |segs| >= 1
    ensures Join(segs + [last]) == Join(segs) + "/" + last
  {
    if |segs| == 1 {
      assert (segs + [last])[1..] == [last];
    } else {
      assert (segs + [last])[1..] == segs[1..] + [last];
      JoinSnoc(segs[1..], last);
    }
  }
}
