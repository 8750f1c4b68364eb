/** `de_dot(path, value)`: wraps `value` in one single-key mapping per segment
    of the dotted `path`, outermost first. */
module DeDotting {
  import opened Values
  import opened Paths
  import opened Flattening

  /** Nests `v` under the keys `segs`, one single-key mapping per key. */
  function Wrap(segs: seq<string>, v: Value): (r: Value)
    requires |segs| >= 1
    ensures Get(r, segs) == Some(v)
    decreases |segs|
  {
    if |segs| == 1 then Obj([Member(segs[0], v)])
    else Obj([Member(segs[0], Wrap(segs[1..], v))])
  }

  lemma {:induction false} WrapSingleKeys(segs: seq<string>, v: Value)
    requires |segs| >= 1
    ensures forall i :: 0 <= i < |segs| ==> SingleKeyAt(Wrap(segs, v), segs, i)
    decreases |segs|
  {
    var r := Wrap(segs, v);
    if |segs| > 1 {
      WrapSingleKeys(segs[1..], v);
    }
    forall i | 0 <= i < |segs| ensures SingleKeyAt(r, segs, i) {
      if i == 0 {
        assert segs[..0] == [];
      } else {
        SingleKeyShift(segs, v, i);
      }
    }
  }

  /** Level `i` of a wrapping is level `i - 1` of the wrapping one level down. */
  lemma SingleKeyShift(segs: seq<string>, v: Value, i: int)
    requires |segs| > 1 && 0 < i < |segs|
    requires SingleKeyAt(Wrap(segs[1..], v), segs[1..], i - 1)
    ensures SingleKeyAt(Wrap(segs, v), segs, i)
  {
    var r := Wrap(segs, v);
    var child := r.fields[0].val;
    assert child == Wrap(segs[1..], v);
    assert segs[..i] == [segs[0]] + segs[1..][..i - 1];
    assert Get(r, segs[..i]) == Get(child, segs[1..][..i - 1]);
  }

  /** Along `segs`, the `i`-th mapping reached holds the `i`-th key and no other. */
  ghost predicate SingleKeyAt(r: Value, segs: seq<string>, i: int)
    requires 0 <= i < |segs|
  {
    var node := Get(r, segs[..i]);
    node.Some? && node.value.Obj? && Keys(node.value.fields) == [segs[i]]
  }

  /** `de_dot(path, v)`: `v` sits unchanged at the path's segments, and every
      mapping on the way holds exactly one key, the next segment. */
  function DeDot(path: string, v: Value): (r: Value)
    ensures Get(r, Split(path)) == Some(v)
    ensures forall i :: 0 <= i < |Split(path)| ==> SingleKeyAt(r, Split(path), i)
  {
    WrapSingleKeys(Split(path), v);
    Wrap(Split(path), v)
  }

  /** Flattening a wrapped value walks down the keys to the last one. */
  lemma {:induction false} WrapLeaves(p: seq<string>, segs: seq<string>, v: Value)
    requires |segs| >= 1
    ensures Leaves(p, Wrap(segs, v).fields)
         == Leaves(p + segs[..|segs| - 1], [Member(segs[|segs| - 1], v)])
    decreases |segs|
  {
    var n := |segs|;
    if n == 1 {
      assert p + segs[..0] == p;
    } else {
      var w := Wrap(segs[1..], v);
      assert Wrap(segs, v).fields == [Member(segs[0], w)];
      LeavesNested(p, segs[0], w);
      WrapLeaves(p + [segs[0]], segs[1..], v);
      PathShift(p, segs);
    }
  }

  /** The leaves of a one-member mapping holding a mapping. */
  lemma LeavesNested(p: seq<string>, k: string, w: Value)
    requires w.Obj?
    ensures Leaves(p, [Member(k, w)]) == Leaves(p + [k], w.fields)
  {
    assert [Member(k, w)][1..] == [];
  }

  lemma PathShift(p: seq<string>, segs: seq<string>)
    requires |segs| >= 2
    ensures p + [segs[0]] + segs[1..][..|segs| - 2] == p + segs[..|segs| - 1]
    ensures segs[1..][|segs| - 2] == segs[|segs| - 1]
  {
  }

  /** De-dotting undoes flattening: `de_dot(path, v)` flattens exactly as the
      one-entry mapping `{path: v}` does. */
  lemma FlattenDeDot(path: string, v: Value)
    ensures Flatten(DeDot(path, v).fields) == Flatten([Member(path, v)])
  {
    assert DeDot(path, v) == Wrap(Split(path), v);
    LeavesDeDot(path, v);
    FlattenIntoSpec([], DeDot(path, v).fields, []);
    FlattenIntoSpec([], [Member(path, v)], []);
  }

  /** `de_dot(path, v)` has the leaves of `{path: v}`. */
  lemma LeavesDeDot(path: string, v: Value)
    ensures Leaves([], Wrap(Split(path), v).fields) == Leaves([], [Member(path, v)])
  {
    JoinSplit(path);
    LeavesWrapJoin(Split(path), path, v);
  }

  /** Wrapping `v` under segments that join to `path` gives the leaves of `{path: v}`. */
  lemma LeavesWrapJoin(segs: seq<string>, path: string, v: Value)
    requires |segs| >= 1 && Join(segs) == path
    ensures Leaves([], Wrap(segs, v).fields) == Leaves([], [Member(path, v)])
  {
    var n := |segs|;
    var q := segs[..n - 1];
    calc {
      Leaves([], Wrap(segs, v).fields);
      == { WrapLeaves([], segs, v); assert [] + q == q; }
      Leaves(q, [Member(segs[n - 1], v)]);
      == { LeavesOne(q, Member(segs[n - 1], v)); }
      MemberLeaves(q, Member(segs[n - 1], v));
      == { assert q + [segs[n - 1]] == segs; SameLeaves(q, segs[n - 1], path, v); }
      MemberLeaves([], Member(path, v));
      == { LeavesOne([], Member(path, v)); }
      Leaves([], [Member(path, v)]);
    }
  }

  /** A member whose full path joins to `path` has the leaves of `{path: v}`. */
  lemma SameLeaves(q: seq<string>, k: string, path: string, v: Value)
    requires Join(q + [k]) == path
    ensures MemberLeaves(q, Member(k, v)) == MemberLeaves([], Member(path, v))
  {
    assert [] + [path] == [path];
    if v.Obj? {
      LeavesPrefix(q + [k], [path], v.fields);
    }
  }
}
