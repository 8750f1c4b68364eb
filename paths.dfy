/** Dotted keys: `"a.b.c"` names the slot reached through keys `a`, `b`, `c`.
    `Split` is Python's `str.split(".")` and `Join` is `".".join(...)`. */
module Paths {

  predicate DotFree(s: string) {
    '.' !in s
  }

  /** The segments of a dotted path, left to right; there is always at least one
      (`Split("")` is `[""]`, `Split("a..b")` is `["a", "", "b"]`). */
  function Split(s: string): (segs: seq<string>)
    ensures |segs| >= 1
    ensures forall i :: 0 <= i < |segs| ==> DotFree(segs[i])
    ensures DotFree(s) <==> segs == [s]
  {
    if s == [] then [""]
    else
      var rest := Split(s[1..]);
      if s[0] == '.' then [""] + rest
      else
        var segs := [[s[0]] + rest[0]] + rest[1..];
        assert s == [s[0]] + s[1..];
        assert segs[0] == [s[0]] + rest[0];
        assert ([s[0]] + rest[0])[1..] == rest[0];
        assert segs == [s] ==> |rest| == 1 && rest[0] == s[1..];
        segs
  }

  /** The path named by a list of segments. */
  function Join(segs: seq<string>): (s: string)
    ensures DotFree(s) <==> segs == [] || (|segs| == 1 && DotFree(segs[0]))
  {
    if segs == [] then ""
    else if |segs| == 1 then segs[0]
    else segs[0] + "." + Join(segs[1..])
  }

  /** Splitting then joining gives back the path. */
  lemma {:induction false} JoinSplit(s: string)
    ensures Join(Split(s)) == s
  {
    if s != [] {
      var rest := Split(s[1..]);
      JoinSplit(s[1..]);
      if s[0] == '.' {
        assert Split(s) == [""] + rest;
        assert ([""] + rest)[1..] == rest;
      } else {
        var segs := Split(s);
        assert segs == [[s[0]] + rest[0]] + rest[1..];
        if |rest| == 1 {
          assert segs == [[s[0]] + rest[0]];
        } else {
          assert segs[1..] == rest[1..];
          assert Join(rest) == rest[0] + "." + Join(rest[1..]);
        }
        assert [s[0]] + s[1..] == s;
      }
    }
  }

  /** A dot-free head splits off as one segment. */
  lemma {:induction false} SplitDotted(a: string, b: string)
    requires DotFree(a)
    ensures Split(a + "." + b) == [a] + Split(b)
  {
    if a == [] {
      assert a + "." + b == "." + b;
      assert ("." + b)[1..] == b;
    } else {
      assert (a + "." + b)[0] == a[0];
      assert (a + "." + b)[1..] == a[1..] + "." + b;
      SplitDotted(a[1..], b);
      assert [a[0]] + a[1..] == a;
    }
  }

  /** Joining dot-free segments then splitting gives back the segments. */
  lemma {:induction false} SplitJoin(segs: seq<string>)
    requires |segs| >= 1
    requires forall i :: 0 <= i < |segs| ==> DotFree(segs[i])
    ensures Split(Join(segs)) == segs
  {
    if |segs| > 1 {
      SplitJoin(segs[1..]);
      SplitDotted(segs[0], Join(segs[1..]));
      assert [segs[0]] + segs[1..] == segs;
    }
  }

  /** Appending one more segment to a non-empty path adds `"." + k`. */
  lemma {:induction false} JoinSnoc(p: seq<string>, k: string)
    requires |p| >= 1
    ensures Join(p + [k]) == Join(p) + "." + k
  {
    if |p| > 1 {
      assert (p + [k])[1..] == p[1..] + [k];
      JoinSnoc(p[1..], k);
    } else {
      assert p + [k] == [p[0], k];
    }
  }

  /** Joining a concatenation of two non-empty segment lists. */
  lemma {:induction false} JoinAppend(p: seq<string>, q: seq<string>)
    requires |p| >= 1 && |q| >= 1
    ensures Join(p + q) == Join(p) + "." + Join(q)
  {
    if |p| > 1 {
      assert (p + q)[1..] == p[1..] + q;
      JoinAppend(p[1..], q);
    } else {
      assert (p + q)[0] == p[0];
      assert (p + q)[1..] == q;
    }
  }
}
