/** Splitting a text at a separator and joining it again. */
module Splitting {
  import opened Options

  ghost predicate Lacks<T>(s: seq<T>, c: T) {
    forall i | 0 <= i < |s| :: s[i] != c
  }

  function Split<T(==)>(s: seq<T>, c: T): (r: seq<seq<T>>)
    ensures |r| >= 1
  {
    if s == [] then [[]]
    else
      var rest := Split(s[1..], c);
      if s[0] == c then [[]] + rest else [[s[0]] + rest[0]] + rest[1..]
  }

  /** `split_once`: the text before and after the first separator. */
  function SplitOnce<T(==)>(s: seq<T>, c: T): Option<(seq<T>, seq<T>)> {
    if s == [] then None
    else if s[0] == c then Some(([], s[1..]))
    else match SplitOnce(s[1..], c)
      case None => None
      case Some((before, after)) => Some(([s[0]] + before, after))
  }

  lemma {:induction false} SplitPrefix<T>(a: seq<T>, b: seq<T>, c: T)
    requires Lacks(a, c)
    ensures Split(a + [c] + b, c) == [a] + Split(b, c)
    ensures SplitOnce(a + [c] + b, c) == Some((a, b))
  {
    var s := a + [c] + b;
    if a == [] {
      assert s == [c] + b && s[1..] == b;
    } else {
      SplitPrefix(a[1..], b, c);
      assert s[1..] == a[1..] + [c] + b;
      assert a == [a[0]] + a[1..];
    }
  }

  lemma {:induction false} SplitWhole<T>(a: seq<T>, c: T)
    requires Lacks(a, c)
    ensures Split(a, c) == [a]
  {
    if a != [] {
      SplitWhole(a[1..], c);
      assert a == [a[0]] + a[1..];
    }
  }

  /** Splitting once and splitting everywhere agree on the first part. */
  lemma {:induction false} SplitOnceThenRest<T>(s: seq<T>, c: T)
    ensures SplitOnce(s, c).None? ==> Split(s, c) == [s]
    ensures SplitOnce(s, c).Some? ==> Split(s, c) == [SplitOnce(s, c).value.0] + Split(SplitOnce(s, c).value.1, c)
  {
    if s != [] {
      SplitOnceThenRest(s[1..], c);
      assert s == [s[0]] + s[1..];
    }
  }

  function Join<T>(parts: seq<seq<T>>, sep: seq<T>): seq<T> {
    if parts == [] then []
    else if |parts| == 1 then parts[0]
    else parts[0] + sep + Join(parts[1..], sep)
  }

  /** Joining lines that hold no separator can be undone. */
  lemma {:induction false} SplitJoin<T>(parts: seq<seq<T>>, c: T)
    requires parts != [] && forall i | 0 <= i < |parts| :: Lacks(parts[i], c)
    ensures Split(Join(parts, [c]), c) == parts
  {
    if |parts| == 1 {
      SplitWhole(parts[0], c);
    } else {
      SplitJoin(parts[1..], c);
      SplitPrefix(parts[0], Join(parts[1..], [c]), c);
      assert parts == [parts[0]] + parts[1..];
    }
  }

  lemma JoinStep<T>(parts: seq<seq<T>>, sep: seq<T>)
    requires parts != []
    ensures Join(parts, sep) == if |parts| == 1 then parts[0] else parts[0] + sep + Join(parts[1..], sep)
  {
  }

  lemma {:induction false} JoinAppend<T>(a: seq<seq<T>>, b: seq<seq<T>>, sep: seq<T>)
    requires a != [] && b != []
    ensures Join(a + b, sep) == Join(a, sep) + sep + Join(b, sep)
  {
    hide Join;
    JoinStep(a + b, sep);
    JoinStep(a, sep);
    if |a| == 1 {
      assert (a + b)[1..] == b;
    } else {
      JoinAppend(a[1..], b, sep);
      assert (a + b)[1..] == a[1..] + b;
    }
  }
}
