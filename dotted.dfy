/**
 * Dot-separated names. Both the object utilities (`'one.two'` paths) and the
 * event-bus topics (`didChangeAreaVisibility.<area>.true`) are strings made of
 * segments joined by '.'; this module is the one place they are taken apart
 * and put together.
 */
module Dotted {

  /** True when no segment contains a dot. */
  ghost predicate NoDots(segs: seq<string>)
  {
    forall i :: 0 <= i < |segs| ==> '.' !in segs[i]
  }

  /**
   * JavaScript's `s.split('.')`: the pieces between the dots, in order.
   * There is always at least one piece (`''.split('.')` is `['']`).
   */
  function Split(s: string): (r: seq<string>)
    ensures |r| >= 1
    ensures NoDots(r)
  {
    if |s| == 0 then [""]
    else
      var rest := Split(s[1..]);
      if s[0] == '.' then [""] + rest
      else [[s[0]] + rest[0]] + rest[1..]
  }

  /** JavaScript's `segs.join('.')`. */
  function Join(segs: seq<string>): string
    requires |segs| >= 1
  {
    if |segs| == 1 then segs[0] else segs[0] + "." + Join(segs[1..])
  }

  /** Join unfolded once at a first segment `head`. */
  lemma JoinCons(head: string, rest: seq<string>)
    ensures Join([head] + rest) == if |rest| == 0 then head else head + "." + Join(rest)
  {
    assert ([head] + rest)[1..] == rest;
  }

  /** Prepending a character other than a dot extends the first segment. */
  lemma JoinConsChar(c: char, segs: seq<string>)
    requires |segs| >= 1
    ensures Join([[c] + segs[0]] + segs[1..]) == [c] + Join(segs)
  {
    var rest := segs[1..];
    JoinCons([c] + segs[0], rest);
    if |rest| > 0 {
      AppendAssociative([c], segs[0], "." + Join(rest));
    }
  }

  lemma AppendAssociative<T>(a: seq<T>, b: seq<T>, c: seq<T>)
    ensures (a + b) + c == a + (b + c)
  {
  }

  /** Joining the pieces of a split gives back the string. */
  lemma {:induction false} JoinSplit(s: string)
    ensures Join(Split(s)) == s
  {
    if |s| > 0 {
      var rest := Split(s[1..]);
      JoinSplit(s[1..]);
      if s[0] == '.' {
        assert ([""] + rest)[1..] == rest;
      } else {
        JoinConsChar(s[0], rest);
      }
      assert s == [s[0]] + s[1..];
    }
  }

  /** A string without dots is a single segment. */
  lemma {:induction false} SplitNoDot(a: string)
    requires '.' !in a
    ensures Split(a) == [a]
  {
    if |a| > 0 {
      assert '.' !in a[1..] by {
        forall k | 0 <= k < |a[1..]| ensures a[1..][k] != '.' { assert a[1..][k] == a[k + 1]; }
      }
      SplitNoDot(a[1..]);
      assert a == [a[0]] + a[1..];
    }
  }

  /** Splitting distributes over a joining dot. */
  lemma {:induction false} SplitAppend(a: string, b: string)
    ensures Split(a + "." + b) == Split(a) + Split(b)
  {
    var s := a + "." + b;
    if |a| == 0 {
      assert s == "." + b;
      assert s[1..] == b;
      assert Split(s) == [""] + Split(b);
    } else {
      assert s[0] == a[0];
      assert s[1..] == a[1..] + "." + b;
      SplitAppend(a[1..], b);
      SplitStep(s, a, Split(b));
    }
  }

  /** One unfolding of SplitAppend: `s` and `a` start alike and their tails split alike up to `sb`. */
  lemma SplitStep(s: string, a: string, sb: seq<string>)
    requires |a| > 0 && |s| > 0 && s[0] == a[0]
    requires Split(s[1..]) == Split(a[1..]) + sb
    ensures Split(s) == Split(a) + sb
  {
    var ra := Split(a[1..]);
    if a[0] == '.' {
      AppendAssociative([""], ra, sb);
    } else {
      TailOfAppend(ra, sb);
      AppendAssociative([[a[0]] + ra[0]], ra[1..], sb);
    }
  }

  /** The first element and the tail of a concatenation whose left part is not empty. */
  lemma TailOfAppend<T>(a: seq<T>, b: seq<T>)
    requires |a| >= 1
    ensures (a + b)[0] == a[0] && (a + b)[1..] == a[1..] + b
  {
  }

  /** Splitting the join of dot-free segments gives back the segments. */
  lemma {:induction false} SplitJoin(segs: seq<string>)
    requires |segs| >= 1
    requires NoDots(segs)
    ensures Split(Join(segs)) == segs
  {
    assert '.' !in segs[0];
    SplitNoDot(segs[0]);
    if |segs| > 1 {
      assert NoDots(segs[1..]) by {
        forall k | 0 <= k < |segs[1..]| ensures '.' !in segs[1..][k] { assert segs[1..][k] == segs[k + 1]; }
      }
      SplitJoin(segs[1..]);
      SplitAppend(segs[0], Join(segs[1..]));
      assert segs == [segs[0]] + segs[1..];
    }
  }

  /** Two dot-free names joined by one dot split into exactly those two names. */
  lemma SplitTwo(a: string, b: string)
    requires '.' !in a && '.' !in b
    ensures Split(a + "." + b) == [a, b]
  {
    SplitAppend(a, b);
    SplitNoDot(a);
    SplitNoDot(b);
  }
}
