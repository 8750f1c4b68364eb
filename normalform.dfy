/** When `normalize_dict` succeeds, and which mappings it leaves as they are.
    Flattening conflicts surface unchanged; past them, normalizing fails
    exactly when one leaf's path is a prefix of another's (`{"a": 1, "a.b": 2}`
    has to descend into the text `1`), and a fully nested mapping with no
    empty mapping inside comes back unchanged. */
module NormalForm {
  import opened Values
  import opened Paths
  import opened Flattening
  import opened DeDotting
  import opened Normalizing

  /** `p` is `q` or an initial part of it. */
  predicate IsPrefix(p: seq<string>, q: seq<string>) {
    |p| <= |q| && q[..|p|] == p
  }

  /** No leaf's path is a prefix of another leaf's path, segment-wise. */
  ghost predicate PrefixFree(flat: seq<Member>) {
    forall i, j :: 0 <= i < |flat| && 0 <= j < |flat| && i != j ==>
      !IsPrefix(Split(flat[i].key), Split(flat[j].key))
  }

  /** A de-dotted leaf at `segs` can be merged into `acc`: every key already
      present along the path holds a mapping, and the path does not end on a
      key already present. */
  ghost predicate Fits(acc: seq<Member>, segs: seq<string>)
    requires |segs| >= 1
    decreases |segs|
  {
    match Lookup(acc, segs[0])
    case None => true
    case Some(e) => |segs| > 1 && e.Obj? && Fits(e.fields, segs[1..])
  }

  /** Every leaf of `flat` fits into `acc`. */
  ghost predicate AllFit(acc: seq<Member>, flat: seq<Member>) {
    forall i :: 0 <= i < |flat| ==> Fits(acc, Split(flat[i].key))
  }

  /** `normalize_dict` succeeds exactly when flattening succeeds, every leaf
      normalizes, and no leaf's path is a prefix of another's. Past a
      flattening conflict or a failing leaf, every failure is a
      `TypeMismatch`. */
  lemma NormalizeObjectOk(fs: seq<Member>)
    ensures NormalizeObject(fs).Ok? <==>
      Flatten(fs).Ok? && NormalizeLeaves(Flatten(fs).value).Ok? && PrefixFree(Flatten(fs).value)
    ensures Flatten(fs).Ok? && NormalizeLeaves(Flatten(fs).value).Ok? && !PrefixFree(Flatten(fs).value) ==>
      NormalizeObject(fs).Err? && NormalizeObject(fs).error.TypeMismatch?
  {
    if Flatten(fs).Ok? && NormalizeLeaves(Flatten(fs).value).Ok? {
      var flat := Flatten(fs).value;
      var leaves := NormalizeLeaves(flat).value;
      assert PrefixFree(leaves) <==> PrefixFree(flat) by {
        assert forall i :: 0 <= i < |leaves| ==> leaves[i].key == Keys(leaves)[i] == Keys(flat)[i] == flat[i].key;
      }
      MergeAllOk([], leaves);
      assert NormalizeObject(fs) == match MergeAll([], leaves)
                                   case Err(e) => Err(e)
                                   case Ok(merged) => Ok(Obj(merged));
    }
  }

  /** Merging de-dotted leaves succeeds exactly when each fits into `acc` and
      no leaf's path is a prefix of another's. */
  lemma {:induction false} MergeAllOk(acc: seq<Member>, flat: seq<Member>)
    requires forall i :: 0 <= i < |flat| ==> !flat[i].val.Obj?
    ensures MergeAll(acc, flat).Ok? <==> AllFit(acc, flat) && PrefixFree(flat)
    decreases flat
  {
    if flat != [] {
      var m := flat[0];
      var segs := Split(m.key);
      MergeWrapOk(acc, segs, m.val);
      if Fits(acc, segs) {
        var next := DeepMerge(acc, Wrap(segs, m.val).fields).value;
        var rest := flat[1..];
        assert MergeAll(acc, flat) == MergeAll(next, rest);
        forall i | 0 <= i < |rest| ensures !rest[i].val.Obj? {
          assert rest[i] == flat[i + 1];
        }
        MergeAllOk(next, rest);
        MergeStepFits(acc, flat, next);
      }
    }
  }

  /** After merging the first leaf into `acc`, the others fit and are prefix
      free exactly when all of them fit into `acc` and are prefix free. */
  lemma MergeStepFits(acc: seq<Member>, flat: seq<Member>, next: seq<Member>)
    requires flat != [] && !flat[0].val.Obj? && Fits(acc, Split(flat[0].key))
    requires DeepMerge(acc, Wrap(Split(flat[0].key), flat[0].val).fields) == Ok(next)
    ensures AllFit(next, flat[1..]) && PrefixFree(flat[1..]) <==> AllFit(acc, flat) && PrefixFree(flat)
  {
    var segs := Split(flat[0].key);
    var v := flat[0].val;
    var rest := flat[1..];
    if AllFit(acc, flat) && PrefixFree(flat) {
      forall j | 0 <= j < |rest| ensures Fits(next, Split(rest[j].key)) {
        assert rest[j] == flat[j + 1];
        FitsAfter(acc, segs, v, Split(rest[j].key));
      }
      forall i, j | 0 <= i < |rest| && 0 <= j < |rest| && i != j
        ensures !IsPrefix(Split(rest[i].key), Split(rest[j].key))
      {
        assert rest[i] == flat[i + 1] && rest[j] == flat[j + 1];
      }
    }
    if AllFit(next, rest) && PrefixFree(rest) {
      forall j | 0 <= j < |flat| ensures Fits(acc, Split(flat[j].key)) {
        if j > 0 {
          assert flat[j] == rest[j - 1];
          if !Fits(acc, Split(flat[j].key)) {
            StaysUnfit(acc, segs, v, Split(flat[j].key));
          }
        }
      }
      forall i, j | 0 <= i < |flat| && 0 <= j < |flat| && i != j
        ensures !IsPrefix(Split(flat[i].key), Split(flat[j].key))
      {
        if i == 0 {
          assert flat[j] == rest[j - 1];
          if IsPrefix(segs, Split(flat[j].key)) {
            ClashUnfit(acc, segs, v, Split(flat[j].key));
          }
        } else if j == 0 {
          assert flat[i] == rest[i - 1];
          if IsPrefix(Split(flat[i].key), segs) {
            ClashUnfit(acc, segs, v, Split(flat[i].key));
          }
        } else {
          assert flat[i] == rest[i - 1] && flat[j] == rest[j - 1];
        }
      }
    }
  }

  /** One de-dotted leaf merges into `acc` exactly when it fits. */
  lemma {:induction false} MergeWrapOk(acc: seq<Member>, segs: seq<string>, v: Value)
    requires |segs| >= 1 && !v.Obj?
    ensures DeepMerge(acc, Wrap(segs, v).fields).Ok? <==> Fits(acc, segs)
    decreases |segs|
  {
    var x := WrapHead([], segs, v);
    MergeOne(acc, x);
    if Lookup(acc, segs[0]).Some? && |segs| > 1 && Lookup(acc, segs[0]).value.Obj? {
      MergeWrapOk(Lookup(acc, segs[0]).value.fields, segs[1..], v);
    }
  }

  /** Paths that agree on their first segment are prefixes of each other
      exactly when their tails are. */
  lemma PrefixTail(p: seq<string>, q: seq<string>)
    requires |p| >= 1 && |q| >= 1 && p[0] == q[0]
    ensures IsPrefix(p, q) <==> IsPrefix(p[1..], q[1..])
  {
    if IsPrefix(p[1..], q[1..]) {
      assert q[..|p|] == [q[0]] + q[1..][..|p| - 1];
      assert p == [p[0]] + p[1..];
    }
    if IsPrefix(p, q) {
      assert q[1..][..|p| - 1] == q[..|p|][1..];
    }
  }

  /** A one-segment path is a prefix of every path that starts with it. */
  lemma PrefixOne(p: seq<string>, q: seq<string>)
    requires |p| == 1 && |q| >= 1 && p[0] == q[0]
    ensures IsPrefix(p, q)
  {
    assert q[..1] == [q[0]];
  }

  /** Paths that are prefixes of each other start with the same segment. */
  lemma PrefixHead(p: seq<string>, q: seq<string>)
    requires |p| >= 1 && |q| >= 1 && (IsPrefix(p, q) || IsPrefix(q, p))
    ensures p[0] == q[0]
  {
    if IsPrefix(p, q) {
      assert q[..|p|][0] == q[0];
    } else {
      assert p[..|q|][0] == p[0];
    }
  }

  /** Merging a wrap into nothing gives the wrap's members. */
  lemma MergeIntoEmpty(segs: seq<string>, v: Value)
    requires |segs| >= 1 && !v.Obj?
    ensures DeepMerge([], Wrap(segs, v).fields) == Ok(Wrap(segs, v).fields)
  {
    var x := WrapHead([], segs, v);
    MergeOne([], x);
    assert [] + [x] == [x];
  }

  /** A path that fits, and shares no prefix with the merged leaf, still fits
      after the merge. */
  lemma {:induction false} FitsAfter(acc: seq<Member>, segs: seq<string>, v: Value, t: seq<string>)
    requires |segs| >= 1 && |t| >= 1 && !v.Obj?
    requires Fits(acc, segs) && Fits(acc, t)
    requires !IsPrefix(segs, t) && !IsPrefix(t, segs)
    ensures DeepMerge(acc, Wrap(segs, v).fields).Ok?
    ensures Fits(DeepMerge(acc, Wrap(segs, v).fields).value, t)
    decreases |segs|
  {
    MergeWrapOk(acc, segs, v);
    var x := WrapHead([], segs, v);
    MergeOne(acc, x);
    var merged := DeepMerge(acc, Wrap(segs, v).fields).value;
    if t[0] != segs[0] {
      if Lookup(acc, segs[0]).None? {
        LookupAppend(acc, [x], t[0]);
      } else {
        var existing, m := MergeExisting(acc, x);
        LookupUpdate(acc, segs[0], Obj(m), t[0]);
      }
      assert Lookup(merged, t[0]) == Lookup(acc, t[0]);
    } else {
      if |segs| == 1 {
        PrefixOne(segs, t);
      }
      if |t| == 1 {
        PrefixOne(t, segs);
      }
      PrefixTail(segs, t);
      PrefixTail(t, segs);
      if Lookup(acc, segs[0]).None? {
        LookupAppend(acc, [x], t[0]);
        assert Lookup(merged, t[0]) == Some(x.val);
        MergeIntoEmpty(segs[1..], v);
        FitsAfter([], segs[1..], v, t[1..]);
      } else {
        var existing, m := MergeExisting(acc, x);
        assert Lookup(merged, t[0]) == Some(Obj(m));
        FitsAfter(existing, segs[1..], v, t[1..]);
      }
    }
  }

  /** A path that does not fit still does not fit after a merge. */
  lemma {:induction false} StaysUnfit(acc: seq<Member>, segs: seq<string>, v: Value, t: seq<string>)
    requires |segs| >= 1 && |t| >= 1 && !v.Obj?
    requires DeepMerge(acc, Wrap(segs, v).fields).Ok? && !Fits(acc, t)
    ensures !Fits(DeepMerge(acc, Wrap(segs, v).fields).value, t)
    decreases |segs|
  {
    var x := WrapHead([], segs, v);
    MergeOne(acc, x);
    var merged := DeepMerge(acc, Wrap(segs, v).fields).value;
    if Lookup(acc, segs[0]).None? {
      LookupAppend(acc, [x], t[0]);
      assert t[0] != segs[0];
      assert Lookup(merged, t[0]) == Lookup(acc, t[0]);
    } else {
      var existing, m := MergeExisting(acc, x);
      if t[0] != segs[0] {
        LookupUpdate(acc, segs[0], Obj(m), t[0]);
        assert Lookup(merged, t[0]) == Lookup(acc, t[0]);
      } else {
        assert Lookup(merged, t[0]) == Some(Obj(m));
        if |t| > 1 {
          StaysUnfit(existing, segs[1..], v, t[1..]);
        }
      }
    }
  }

  /** After a merge, a path that is a prefix of the merged one, or has it as a
      prefix, no longer fits. */
  lemma {:induction false} ClashUnfit(acc: seq<Member>, segs: seq<string>, v: Value, t: seq<string>)
    requires |segs| >= 1 && |t| >= 1 && !v.Obj?
    requires DeepMerge(acc, Wrap(segs, v).fields).Ok?
    requires IsPrefix(segs, t) || IsPrefix(t, segs)
    ensures !Fits(DeepMerge(acc, Wrap(segs, v).fields).value, t)
    decreases |segs|
  {
    var x := WrapHead([], segs, v);
    MergeOne(acc, x);
    var merged := DeepMerge(acc, Wrap(segs, v).fields).value;
    PrefixHead(segs, t);
    if |segs| > 1 && |t| > 1 {
      PrefixTail(segs, t);
      PrefixTail(t, segs);
    }
    if Lookup(acc, segs[0]).None? {
      LookupAppend(acc, [x], t[0]);
      assert Lookup(merged, t[0]) == Some(x.val);
      if |segs| > 1 && |t| > 1 {
        MergeIntoEmpty(segs[1..], v);
        ClashUnfit([], segs[1..], v, t[1..]);
      }
    } else {
      var existing, m := MergeExisting(acc, x);
      assert Lookup(merged, t[0]) == Some(Obj(m));
      if |t| > 1 {
        ClashUnfit(existing, segs[1..], v, t[1..]);
      }
    }
  }

  /** No key holds an empty mapping, at any depth, lists included. (A list
      item may be `{}`: it is not the value of a key.) */
  ghost predicate NoEmpty(v: Value)
    decreases v
  {
    match v
    case Arr(items) => forall i :: 0 <= i < |items| ==> NoEmpty(items[i])
    case Obj(fs) => NoEmptyFields(fs)
    case _ => true
  }

  ghost predicate NoEmptyFields(fs: seq<Member>)
    decreases fs
  {
    forall i :: 0 <= i < |fs| ==> fs[i].val != Obj([]) && NoEmpty(fs[i].val)
  }

  /** A fully nested value with no empty mapping under a key is its own
      normal form. */
  lemma NormalizeFixedPoint(fs: seq<Member>)
    requires NestedFields(fs) && NoEmptyFields(fs)
    ensures NormalizeObject(fs) == Ok(Obj(fs))
  {
    NormalizeObjectCanonical(fs);
  }

  /** An empty mapping under a key leaves no leaf behind, so normalizing
      drops it. */
  lemma EmptyMappingDropped(k: string)
    ensures NormalizeObject([Member(k, Obj([]))]) == Ok(Obj([]))
  {
    var fs := [Member(k, Obj([]))];
    assert Leaves([], fs) == Leaves([] + [k], []) + Leaves([], []);
    assert Flatten(fs) == Ok([]);
  }

  /** `{"a": 1, "a.b": 2}` flattens without conflict, but `a.b` has to
      descend into the `1` already at `a`. */
  lemma PrefixClash()
    ensures NormalizeObject([Member("a", Int(1)), Member("a.b", Int(2))]) == Err(TypeMismatch("a"))
  {
    var fs := [Member("a", Int(1)), Member("a.b", Int(2))];
    LeavesOfFlat(fs);
    assert Flatten(fs) == Ok(fs);
    NormalizeLeavesCanonical(fs);
    PrefixClashMerge();
  }

  lemma PrefixClashMerge()
    ensures MergeAll([], [Member("a", Int(1)), Member("a.b", Int(2))]) == Err(TypeMismatch("a"))
  {
    var fs := [Member("a", Int(1)), Member("a.b", Int(2))];
    SplitDotted("a", "b");
    ScalarInTheWay("a", Int(1), ["b"], Int(2));
    assert ["a"] + ["b"] == ["a", "b"];
    MergeIntoEmpty(["a"], Int(1));
    assert MergeAll([], fs) == MergeAll([Member("a", Int(1))], fs[1..]);
  }

  /** A path that runs through a key holding a non-mapping cannot be merged. */
  lemma ScalarInTheWay(k: string, v: Value, rest: seq<string>, w: Value)
    requires !v.Obj? && !w.Obj? && |rest| >= 1
    ensures DeepMerge([Member(k, v)], Wrap([k] + rest, w).fields) == Err(TypeMismatch(k))
  {
    var x := WrapHead([], [k] + rest, w);
    MergeOne([Member(k, v)], x);
  }

  lemma {:induction false} NormalizeCanonical(v: Value)
    requires Nested(v) && NoEmpty(v)
    ensures Normalize(v) == Ok(v)
    decreases Size(v), 2
  {
    match v
    case Obj(fs) => NormalizeObjectCanonical(fs);
    case Arr(items) => NormalizeItemsCanonical(items);
    case _ =>
  }

  lemma {:induction false} NormalizeItemsCanonical(items: seq<Value>)
    requires forall i :: 0 <= i < |items| ==> Nested(items[i]) && NoEmpty(items[i])
    ensures NormalizeItems(items) == Ok(items)
    decreases ItemsSize(items), 1
  {
    if items != [] {
      NormalizeCanonical(items[0]);
      NormalizeItemsCanonical(items[1..]);
      assert [items[0]] + items[1..] == items;
    }
  }

  lemma {:induction false} NormalizeObjectCanonical(fs: seq<Member>)
    requires NestedFields(fs) && NoEmptyFields(fs)
    ensures NormalizeObject(fs) == Ok(Obj(fs))
    decreases FieldsSize(fs), 1
  {
    var flat := Leaves([], fs);
    LeavesUnique([], fs);
    assert Flatten(fs) == Ok(flat);
    LeavesSize([], fs);
    LeavesCanonical([], fs);
    NormalizeLeavesCanonical(flat);
    if fs == [] {
      assert MergeAll([], flat) == Ok([]);
    } else {
      MergeAllRebuild([], [], fs);
      DeepMergeFresh([], fs);
      assert [] + fs == fs;
    }
  }

  lemma {:induction false} NormalizeLeavesCanonical(flat: seq<Member>)
    requires forall i :: 0 <= i < |flat| ==> Nested(flat[i].val) && NoEmpty(flat[i].val)
    ensures NormalizeLeaves(flat) == Ok(flat)
    decreases FieldsSize(flat), 0
  {
    if flat != [] {
      NormalizeCanonical(flat[0].val);
      NormalizeLeavesCanonical(flat[1..]);
      assert [Member(flat[0].key, flat[0].val)] + flat[1..] == flat;
    }
  }

  /** The tail of a fully nested member list without empty mappings is one
      too. */
  lemma CanonicalTail(fs: seq<Member>)
    requires fs != [] && NestedFields(fs) && NoEmptyFields(fs)
    ensures NestedFields(fs[1..]) && NoEmptyFields(fs[1..])
    ensures forall j :: 0 <= j < |fs[1..]| ==> fs[1..][j].key != fs[0].key
  {
    UniqueTail(fs);
    forall j | 0 <= j < |fs[1..]|
      ensures DotFree(fs[1..][j].key) && Nested(fs[1..][j].val)
      ensures fs[1..][j].val != Obj([]) && NoEmpty(fs[1..][j].val)
    {
      assert fs[1..][j] == fs[j + 1];
    }
  }

  /** Every leaf of a fully nested mapping is fully nested and holds no empty
      mapping under a key. */
  lemma {:induction false} LeavesCanonical(p: seq<string>, fs: seq<Member>)
    requires NestedFields(fs) && NoEmptyFields(fs)
    ensures forall l :: l in Leaves(p, fs) ==> Nested(l.val) && NoEmpty(l.val)
    decreases fs
  {
    if fs != [] {
      var m := fs[0];
      CanonicalTail(fs);
      LeavesCanonical(p, fs[1..]);
      if m.val.Obj? {
        LeavesCanonical(p + [m.key], m.val.fields);
      }
    }
  }

  /** The leaves of a fully nested mapping sit at `p` followed by a path that
      starts with one of its keys. */
  lemma {:induction false} LeafSegments(p: seq<string>, fs: seq<Member>)
    requires forall i :: 0 <= i < |p| ==> DotFree(p[i])
    requires NestedFields(fs)
    ensures forall l :: l in Leaves(p, fs) ==>
      |Split(l.key)| > |p| && Split(l.key)[..|p|] == p && Split(l.key)[|p|] in Keys(fs)
    decreases fs
  {
    if fs != [] {
      var m := fs[0];
      var q := p + [m.key];
      assert Keys(fs)[0] == m.key;
      UniqueTail(fs);
      assert NestedFields(fs[1..]) by {
        forall j | 0 <= j < |fs[1..]| ensures DotFree(fs[1..][j].key) && Nested(fs[1..][j].val) {
          assert fs[1..][j] == fs[j + 1];
        }
      }
      LeafSegments(p, fs[1..]);
      forall l | l in Leaves(p, fs[1..]) ensures Split(l.key)[|p|] in Keys(fs) {
        var k := Split(l.key)[|p|];
        var j :| 0 <= j < |fs[1..]| && Keys(fs[1..])[j] == k;
        assert Keys(fs)[j + 1] == k;
      }
      if m.val.Obj? {
        LeafSegments(q, m.val.fields);
        forall l | l in Leaves(q, m.val.fields)
          ensures Split(l.key)[..|p|] == p && Split(l.key)[|p|] == m.key
        {
          assert Split(l.key)[..|p|] == Split(l.key)[..|q|][..|p|];
          assert Split(l.key)[|p|] == Split(l.key)[..|q|][|p|];
        }
      } else {
        SplitJoin(q);
      }
    }
  }

  /** The leaves of a fully nested mapping have distinct paths. */
  lemma {:induction false} LeavesUnique(p: seq<string>, fs: seq<Member>)
    requires forall i :: 0 <= i < |p| ==> DotFree(p[i])
    requires NestedFields(fs)
    ensures UniqueKeys(Leaves(p, fs))
    decreases fs
  {
    if fs != [] {
      var m := fs[0];
      var q := p + [m.key];
      var a := MemberLeaves(p, m);
      var b := Leaves(p, fs[1..]);
      UniqueTail(fs);
      assert NestedFields(fs[1..]) by {
        forall j | 0 <= j < |fs[1..]| ensures DotFree(fs[1..][j].key) && Nested(fs[1..][j].val) {
          assert fs[1..][j] == fs[j + 1];
        }
      }
      LeavesUnique(p, fs[1..]);
      LeafSegments(p, fs[1..]);
      if m.val.Obj? {
        LeavesUnique(q, m.val.fields);
        LeafSegments(q, m.val.fields);
      } else {
        SplitJoin(q);
      }
      forall x, y | x in a && y in b ensures x.key != y.key {
        assert Split(x.key)[..|q|] == q;
        assert Split(x.key)[|p|] == m.key;
      }
      UniqueAppend(a, b);
    }
  }

  /** `fs` nested under the keys `p`, one single-key mapping per key. */
  function WrapAll(p: seq<string>, fs: seq<Member>): (r: seq<Member>)
    ensures p != [] ==> Keys(r) == [p[0]]
    decreases |p|
  {
    if p == [] then fs else [Member(p[0], Obj(WrapAll(p[1..], fs)))]
  }

  /** What merging `b` into a merge result gives. */
  function MergeThen(r: Result<seq<Member>>, b: seq<Member>): Result<seq<Member>> {
    match r
    case Err(e) => Err(e)
    case Ok(x) => DeepMerge(x, b)
  }

  /** What merging the leaves `b` into a merge result gives. */
  function MergeAllThen(r: Result<seq<Member>>, b: seq<Member>): Result<seq<Member>> {
    match r
    case Err(e) => Err(e)
    case Ok(x) => MergeAll(x, b)
  }

  /** Merging the de-dotted leaves of a fully nested mapping without empty
      mappings, one at a time, is deep-merging the mapping at once. */
  lemma {:induction false} MergeAllRebuild(acc: seq<Member>, p: seq<string>, fs: seq<Member>)
    requires forall i :: 0 <= i < |p| ==> DotFree(p[i])
    requires fs != [] && NestedFields(fs) && NoEmptyFields(fs)
    ensures MergeAll(acc, Leaves(p, fs)) == DeepMerge(acc, WrapAll(p, fs))
    decreases fs
  {
    var m := fs[0];
    var rest := fs[1..];
    CanonicalTail(fs);
    MergeAllAppend(acc, MemberLeaves(p, m), Leaves(p, rest));
    MergeMemberRebuild(acc, p, m);
    if rest == [] {
      assert fs == [m];
      match DeepMerge(acc, WrapAll(p, [m]))
      case Err(e) =>
      case Ok(x) =>
    } else {
      WrapAllSplit(acc, p, [m], rest);
      assert [m] + rest == fs;
      match DeepMerge(acc, WrapAll(p, [m]))
      case Err(e) =>
      case Ok(x) =>
        MergeAllRebuild(x, p, rest);
    }
  }

  /** The leaves of one member, merged one at a time, are the member deep
      merged at once. */
  lemma {:induction false} MergeMemberRebuild(acc: seq<Member>, p: seq<string>, m: Member)
    requires forall i :: 0 <= i < |p| ==> DotFree(p[i])
    requires DotFree(m.key) && Nested(m.val) && NoEmpty(m.val) && m.val != Obj([])
    ensures MergeAll(acc, MemberLeaves(p, m)) == DeepMerge(acc, WrapAll(p, [m]))
    decreases m, 0
  {
    var q := p + [m.key];
    if m.val.Obj? {
      MergeAllRebuild(acc, q, m.val.fields);
      WrapAllSnoc(p, m.key, m.val.fields);
    } else {
      var l := Member(Join(q), m.val);
      SplitJoin(q);
      WrapIsWrapAll(p, m.key, m.val);
      assert MergeAll(acc, [l]) == DeepMerge(acc, Wrap(q, m.val).fields) by {
        assert [l][1..] == [];
      }
    }
  }

  lemma {:induction false} MergeAllAppend(acc: seq<Member>, a: seq<Member>, b: seq<Member>)
    ensures MergeAll(acc, a + b) == MergeAllThen(MergeAll(acc, a), b)
    decreases a
  {
    if a == [] {
      assert a + b == b;
    } else {
      assert (a + b)[0] == a[0];
      assert (a + b)[1..] == a[1..] + b;
      match DeepMerge(acc, DeDot(a[0].key, a[0].val).fields)
      case Err(e) =>
      case Ok(next) =>
        MergeAllAppend(next, a[1..], b);
    }
  }

  lemma {:induction false} DeepMergeAppend(acc: seq<Member>, a: seq<Member>, b: seq<Member>)
    ensures DeepMerge(acc, a + b) == MergeThen(DeepMerge(acc, a), b)
    decreases a
  {
    if a == [] {
      assert a + b == b;
    } else {
      assert (a + b)[0] == a[0];
      assert (a + b)[1..] == a[1..] + b;
      match MergeMember(acc, a[0])
      case Err(e) =>
      case Ok(next) =>
        DeepMergeAppend(next, a[1..], b);
    }
  }

  /** Members whose keys are new and distinct are appended as they are. */
  lemma {:induction false} DeepMergeFresh(into: seq<Member>, from: seq<Member>)
    requires UniqueKeys(from)
    requires forall i, j :: 0 <= i < |into| && 0 <= j < |from| ==> into[i].key != from[j].key
    ensures DeepMerge(into, from) == Ok(into + from)
    decreases from
  {
    if from == [] {
      assert into + from == into;
    } else {
      var x := from[0];
      assert x.key !in Keys(into) by {
        forall i | 0 <= i < |into| ensures Keys(into)[i] != x.key {
        }
      }
      var next := into + [x];
      assert MergeMember(into, x) == Ok(next);
      assert DeepMerge(into, from) == DeepMerge(next, from[1..]);
      UniqueTail(from);
      forall i, j | 0 <= i < |next| && 0 <= j < |from[1..]| ensures next[i].key != from[1..][j].key {
        assert from[1..][j] == from[j + 1];
      }
      DeepMergeFresh(next, from[1..]);
      ShiftFirst(into, from);
    }
  }

  lemma ShiftFirst<T>(a: seq<T>, b: seq<T>)
    requires b != []
    ensures a + [b[0]] + b[1..] == a + b
  {
    assert [b[0]] + b[1..] == b;
  }

  /** Wrapping under `p` then `k` is wrapping under `p` a single member `k`. */
  lemma {:induction false} WrapAllSnoc(p: seq<string>, k: string, fs: seq<Member>)
    ensures WrapAll(p + [k], fs) == WrapAll(p, [Member(k, Obj(fs))])
    decreases |p|
  {
    if p != [] {
      assert (p + [k])[1..] == p[1..] + [k];
      WrapAllSnoc(p[1..], k, fs);
    } else {
      assert [] + [k] == [k];
    }
  }

  lemma {:induction false} WrapIsWrapAll(p: seq<string>, k: string, v: Value)
    ensures Wrap(p + [k], v).fields == WrapAll(p, [Member(k, v)])
    decreases |p|
  {
    if p != [] {
      assert (p + [k])[1..] == p[1..] + [k];
      WrapIsWrapAll(p[1..], k, v);
    } else {
      assert [] + [k] == [k];
    }
  }

  /** Two members lists wrapped under the same keys merge into the wrap of
      both, when their keys are apart. */
  lemma {:induction false} WrapAllMerge(q: seq<string>, a: seq<Member>, b: seq<Member>)
    requires UniqueKeys(b)
    requires forall i, j :: 0 <= i < |a| && 0 <= j < |b| ==> a[i].key != b[j].key
    ensures DeepMerge(WrapAll(q, a), WrapAll(q, b)) == Ok(WrapAll(q, a + b))
    decreases |q|
  {
    if q == [] {
      DeepMergeFresh(a, b);
    } else {
      var x := Member(q[0], Obj(WrapAll(q[1..], a)));
      var y := Member(q[0], Obj(WrapAll(q[1..], b)));
      MergeOne([x], y);
      WrapAllMerge(q[1..], a, b);
      assert Lookup([x], q[0]) == Some(x.val);
      assert Update([x], q[0], Obj(WrapAll(q[1..], a + b))) == WrapAll(q, a + b) by {
        assert [x][1..] == [];
      }
    }
  }

  /** Deep-merging `a + b` wrapped under `p` is merging the wrap of `a`, then
      the wrap of `b`. */
  lemma {:induction false} WrapAllSplit(acc: seq<Member>, p: seq<string>, a: seq<Member>, b: seq<Member>)
    requires UniqueKeys(b)
    requires forall i, j :: 0 <= i < |a| && 0 <= j < |b| ==> a[i].key != b[j].key
    ensures DeepMerge(acc, WrapAll(p, a + b)) == MergeThen(DeepMerge(acc, WrapAll(p, a)), WrapAll(p, b))
    decreases |p|
  {
    if p == [] {
      DeepMergeAppend(acc, a, b);
    } else {
      var k := p[0];
      var xa := Member(k, Obj(WrapAll(p[1..], a)));
      var xb := Member(k, Obj(WrapAll(p[1..], b)));
      var xab := Member(k, Obj(WrapAll(p[1..], a + b)));
      MergeOne(acc, xab);
      MergeOne(acc, xa);
      match Lookup(acc, k)
      case None =>
        var first := acc + [xa];
        MergeOne(first, xb);
        LookupAppend(acc, [xa], k);
        WrapAllMerge(p[1..], a, b);
        UpdateLast(acc, xa, Obj(WrapAll(p[1..], a + b)));
      case Some(e) =>
        if e.Obj? {
          WrapAllSplit(e.fields, p[1..], a, b);
          match DeepMerge(e.fields, WrapAll(p[1..], a))
          case Err(err) =>
          case Ok(r1) =>
            var first := Update(acc, k, Obj(r1));
            MergeOne(first, xb);
            UpdateTwice(acc, k, Obj(r1), DeepMerge(r1, WrapAll(p[1..], b)));
        }
    }
  }

  /** Updating the last member, whose key is new, replaces its value. */
  lemma {:induction false} UpdateLast(acc: seq<Member>, x: Member, v: Value)
    requires x.key !in Keys(acc)
    ensures Update(acc + [x], x.key, v) == acc + [Member(x.key, v)]
    decreases acc
  {
    if acc == [] {
      assert [] + [x] == [x];
    } else {
      ConsAppend(acc, x);
      ConsAppend(acc, Member(x.key, v));
      assert Keys(acc) == [acc[0].key] + Keys(acc[1..]);
      UpdateCons(acc[0], acc[1..] + [x], x.key, v);
      UpdateLast(acc[1..], x, v);
    }
  }

  lemma ConsAppend<T>(a: seq<T>, y: T)
    requires a != []
    ensures a + [y] == [a[0]] + (a[1..] + [y])
  {
  }

  /** Updating past a member with another key keeps that member. */
  lemma UpdateCons(h: Member, t: seq<Member>, k: string, v: Value)
    requires h.key != k
    ensures Update([h] + t, k, v) == [h] + Update(t, k, v)
  {
    assert ([h] + t)[0] == h && ([h] + t)[1..] == t;
  }

  /** A second update of the same key overrides the first. */
  lemma {:induction false} UpdateTwice(fs: seq<Member>, k: string, v: Value, r: Result<seq<Member>>)
    ensures r.Ok? ==> Update(Update(fs, k, v), k, Obj(r.value)) == Update(fs, k, Obj(r.value))
    decreases fs
  {
    if fs != [] && fs[0].key != k {
      UpdateTwice(fs[1..], k, v, r);
    }
  }
}
