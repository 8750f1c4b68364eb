/** `normalize_dict`: the inverse of flattening. A mapping that mixes dotted and
    nested keys becomes a fully nested mapping with no dotted key at any level:
    it is flattened, each full path is de-dotted, and the single-path mappings
    are deep-merged. Mappings inside lists are normalized as well. */
module Normalizing {
  import opened Values
  import opened Paths
  import opened Flattening
  import opened DeDotting

  /** Fully nested: at every level, mappings inside lists included, the keys
      are distinct and none contains a dot. */
  ghost predicate Nested(v: Value)
    decreases v
  {
    match v
    case Arr(items) => forall i :: 0 <= i < |items| ==> Nested(items[i])
    case Obj(fs) => NestedFields(fs)
    case _ => true
  }

  ghost predicate NestedFields(fs: seq<Member>)
    decreases fs
  {
    && UniqueKeys(fs)
    && forall i :: 0 <= i < |fs| ==> DotFree(fs[i].key) && Nested(fs[i].val)
  }

  /** Merges the members of `from` into `into` key by key: a new key is
      appended, two mappings under one key are merged recursively, and any
      other meeting of two values under one key is a `TypeMismatch`. */
  function DeepMerge(into: seq<Member>, from: seq<Member>): (r: Result<seq<Member>>)
    ensures r.Err? ==> r.error.TypeMismatch?
    decreases from
  {
    if from == [] then Ok(into)
    else
      match MergeMember(into, from[0])
      case Err(e) => Err(e)
      case Ok(next) => DeepMerge(next, from[1..])
  }

  /** Merges one member into `into`. */
  function MergeMember(into: seq<Member>, m: Member): (r: Result<seq<Member>>)
    ensures r.Err? ==> r.error.TypeMismatch?
    decreases m
  {
    match Lookup(into, m.key)
    case None => Ok(into + [m])
    case Some(existing) =>
      if existing.Obj? && m.val.Obj? then
        match DeepMerge(existing.fields, m.val.fields)
        case Err(e) => Err(e)
        case Ok(merged) => Ok(Update(into, m.key, Obj(merged)))
      else Err(TypeMismatch(m.key))
  }

  /** De-dots every flattened entry in turn and merges it into `acc`. */
  function MergeAll(acc: seq<Member>, flat: seq<Member>): (r: Result<seq<Member>>)
    ensures r.Err? ==> r.error.TypeMismatch?
    decreases flat
  {
    if flat == [] then Ok(acc)
    else
      match DeepMerge(acc, DeDot(flat[0].key, flat[0].val).fields)
      case Err(e) => Err(e)
      case Ok(next) => MergeAll(next, flat[1..])
  }

  /** A deep merge keeps every key of `into`, adds every key of `from`, and
      no other. */
  lemma {:induction false} DeepMergeKeys(into: seq<Member>, from: seq<Member>)
    requires DeepMerge(into, from).Ok?
    ensures forall k :: k in Keys(DeepMerge(into, from).value) <==> k in Keys(into) || k in Keys(from)
    decreases from
  {
    if from != [] {
      assert Keys(from) == [from[0].key] + Keys(from[1..]);
      var next := MergeMember(into, from[0]).value;
      MergeMemberKeys(into, from[0]);
      DeepMergeKeys(next, from[1..]);
    }
  }

  lemma MergeMemberKeys(into: seq<Member>, m: Member)
    requires MergeMember(into, m).Ok?
    ensures forall k :: k in Keys(MergeMember(into, m).value) <==> k in Keys(into) || k == m.key
  {
    if Lookup(into, m.key).None? {
      KeysAppend(into, [m]);
    }
  }

  /** Some entry of `flat` has a path whose first segment is `k`. */
  ghost predicate FirstSegment(flat: seq<Member>, k: string) {
    exists i :: 0 <= i < |flat| && k == Split(flat[i].key)[0]
  }

  /** Merging de-dotted leaves keeps the keys of `acc` and adds the first
      segment of every leaf's path, and no other key. */
  lemma {:induction false} MergeAllKeys(acc: seq<Member>, flat: seq<Member>)
    requires MergeAll(acc, flat).Ok?
    ensures forall k :: k in Keys(MergeAll(acc, flat).value) <==> k in Keys(acc) || FirstSegment(flat, k)
    decreases flat
  {
    if flat != [] {
      var fields := DeDot(flat[0].key, flat[0].val).fields;
      var next := DeepMerge(acc, fields).value;
      assert Keys(fields) == [Split(flat[0].key)[0]];
      DeepMergeKeys(acc, fields);
      MergeAllKeys(next, flat[1..]);
      forall k ensures FirstSegment(flat, k) <==> k == Split(flat[0].key)[0] || FirstSegment(flat[1..], k) {
        FirstSegmentCons(flat, k);
      }
    }
  }

  lemma FirstSegmentCons(flat: seq<Member>, k: string)
    requires flat != []
    ensures FirstSegment(flat, k) <==> k == Split(flat[0].key)[0] || FirstSegment(flat[1..], k)
  {
    if FirstSegment(flat, k) && k != Split(flat[0].key)[0] {
      var i :| 0 <= i < |flat| && k == Split(flat[i].key)[0];
      assert flat[1..][i - 1] == flat[i];
    }
    if FirstSegment(flat[1..], k) {
      var i :| 0 <= i < |flat[1..]| && k == Split(flat[1..][i].key)[0];
      assert flat[1..][i] == flat[i + 1];
    }
  }

  /** `normalize_dict` on any value: mappings are rebuilt fully nested, lists
      are normalized element by element, scalars are kept. Only a mapping
      comes back a mapping, and the result is fully nested. */
  function Normalize(v: Value): (r: Result<Value>)
    ensures r.Ok? ==> Nested(r.value)
    ensures r.Ok? ==> (r.value.Obj? <==> v.Obj?)
    decreases Size(v), 2
  {
    match v
    case Obj(fs) => NormalizeObject(fs)
    case Arr(items) =>
      (match NormalizeItems(items)
       case Err(e) => Err(e)
       case Ok(xs) => Ok(Arr(xs)))
    case _ => Ok(v)
  }

  function NormalizeItems(items: seq<Value>): (r: Result<seq<Value>>)
    ensures r.Ok? ==> |r.value| == |items|
    ensures r.Ok? ==> forall i :: 0 <= i < |r.value| ==> Nested(r.value[i])
    decreases ItemsSize(items), 1
  {
    if items == [] then Ok([])
    else
      match Normalize(items[0])
      case Err(e) => Err(e)
      case Ok(x) =>
        match NormalizeItems(items[1..])
        case Err(e) => Err(e)
        case Ok(xs) => Ok([x] + xs)
  }

  /** Normalizes the value of every flattened entry, keeping its path. */
  function NormalizeLeaves(flat: seq<Member>): (r: Result<seq<Member>>)
    ensures r.Ok? ==> Keys(r.value) == Keys(flat)
    ensures r.Ok? ==> forall i :: 0 <= i < |r.value| ==>
      Nested(r.value[i].val) && (r.value[i].val.Obj? <==> flat[i].val.Obj?)
    decreases FieldsSize(flat), 0
  {
    if flat == [] then Ok([])
    else
      match Normalize(flat[0].val)
      case Err(e) => Err(e)
      case Ok(x) =>
        match NormalizeLeaves(flat[1..])
        case Err(e) => Err(e)
        case Ok(rest) => Ok([Member(flat[0].key, x)] + rest)
  }

  /** `normalize_dict(fs)`: flatten (its conflicts surface unchanged), normalize
      each leaf, then rebuild by de-dotting and deep-merging. */
  function NormalizeObject(fs: seq<Member>): (r: Result<Value>)
    ensures r.Ok? ==> r.value.Obj? && NestedFields(r.value.fields)
    ensures Flatten(fs).Err? ==> r == Err(Flatten(fs).error)
    decreases FieldsSize(fs), 1
  {
    match Flatten(fs)
    case Err(e) => Err(e)
    case Ok(flat) =>
      LeavesSize([], fs);
      match NormalizeLeaves(flat)
      case Err(e) => Err(e)
      case Ok(leaves) =>
        MergeAllNested([], leaves);
        match MergeAll([], leaves)
        case Err(e) => Err(e)
        case Ok(merged) => Ok(Obj(merged))
  }

  /** A wrapped fully nested value is fully nested. */
  lemma {:induction false} WrapNested(segs: seq<string>, v: Value)
    requires |segs| >= 1
    requires forall i :: 0 <= i < |segs| ==> DotFree(segs[i])
    requires Nested(v)
    ensures NestedFields(Wrap(segs, v).fields)
    decreases |segs|
  {
    if |segs| > 1 {
      WrapNested(segs[1..], v);
    }
  }

  /** Deep-merging fully nested mappings gives a fully nested mapping. */
  lemma {:induction false} DeepMergeNested(into: seq<Member>, from: seq<Member>)
    requires NestedFields(into) && NestedFields(from)
    ensures DeepMerge(into, from).Ok? ==> NestedFields(DeepMerge(into, from).value)
    decreases from
  {
    if from != [] {
      assert NestedFields(from[1..]) by {
        forall i, j | 0 <= i < j < |from[1..]| ensures from[1..][i].key != from[1..][j].key {
          assert from[1..][i] == from[i + 1] && from[1..][j] == from[j + 1];
        }
      }
      MergeMemberNested(into, from[0]);
      match MergeMember(into, from[0])
      case Err(e) =>
      case Ok(next) =>
        DeepMergeNested(next, from[1..]);
    }
  }

  lemma {:induction false} MergeMemberNested(into: seq<Member>, m: Member)
    requires NestedFields(into) && DotFree(m.key) && Nested(m.val)
    ensures MergeMember(into, m).Ok? ==> NestedFields(MergeMember(into, m).value)
    decreases m
  {
    match Lookup(into, m.key)
    case None =>
      NestedAppend(into, m);
    case Some(existing) =>
      if existing.Obj? && m.val.Obj? {
        var i :| 0 <= i < |into| && into[i] == Member(m.key, existing);
        assert Nested(into[i].val);
        DeepMergeNested(existing.fields, m.val.fields);
        match DeepMerge(existing.fields, m.val.fields)
        case Err(e) =>
        case Ok(merged) =>
          NestedUpdate(into, m.key, Obj(merged));
      }
  }

  lemma NestedAppend(into: seq<Member>, m: Member)
    requires NestedFields(into) && DotFree(m.key) && Nested(m.val)
    requires m.key !in Keys(into)
    ensures NestedFields(into + [m])
  {
    var next := into + [m];
    forall i | 0 <= i < |into| ensures next[i].key != m.key {
      assert Keys(into)[i] == into[i].key;
    }
  }

  lemma NestedUpdate(into: seq<Member>, k: string, v: Value)
    requires NestedFields(into) && Nested(v)
    ensures NestedFields(Update(into, k, v))
  {
    var next := Update(into, k, v);
    forall j, l | 0 <= j < l < |next| ensures next[j].key != next[l].key {
      assert Keys(next)[j] == Keys(into)[j] && Keys(next)[l] == Keys(into)[l];
    }
    forall j | 0 <= j < |next| ensures DotFree(next[j].key) && Nested(next[j].val) {
      assert Keys(next)[j] == Keys(into)[j];
    }
  }

  /** Merging de-dotted fully nested leaves keeps the result fully nested. */
  lemma {:induction false} MergeAllNested(acc: seq<Member>, leaves: seq<Member>)
    requires NestedFields(acc)
    requires forall i :: 0 <= i < |leaves| ==> Nested(leaves[i].val)
    ensures MergeAll(acc, leaves).Ok? ==> NestedFields(MergeAll(acc, leaves).value)
    decreases leaves
  {
    if leaves != [] {
      var m := leaves[0];
      WrapNested(Split(m.key), m.val);
      DeepMergeNested(acc, DeDot(m.key, m.val).fields);
      match DeepMerge(acc, DeDot(m.key, m.val).fields)
      case Err(e) =>
      case Ok(next) =>
        MergeAllNested(next, leaves[1..]);
    }
  }

  /** Replacing the mapping under `k` by one with `extra` more leaves adds
      exactly `extra` to the leaves of the whole. */
  lemma {:induction false} UpdateLeaves(p: seq<string>, acc: seq<Member>, k: string,
                                        before: seq<Member>, after: seq<Member>, extra: multiset<Member>)
    requires Lookup(acc, k) == Some(Obj(before))
    requires multiset(Leaves(p + [k], after)) == multiset(Leaves(p + [k], before)) + extra
    ensures multiset(Leaves(p, Update(acc, k, Obj(after)))) == multiset(Leaves(p, acc)) + extra
    decreases acc
  {
    if acc[0].key == k {
      var r := Update(acc, k, Obj(after));
      LeavesSplit(p, acc, acc[0], acc[1..]);
      assert acc[0] == Member(k, Obj(before));
      assert r == [Member(k, Obj(after))] + acc[1..];
      LeavesSplit(p, r, Member(k, Obj(after)), acc[1..]);
    } else {
      assert Lookup(acc[1..], k) == Some(Obj(before));
      UpdateLeaves(p, acc[1..], k, before, after, extra);
      UpdateLeavesPast(p, acc, k, after, extra);
    }
  }

  /** The step of `UpdateLeaves` past a member with another key. */
  lemma UpdateLeavesPast(p: seq<string>, acc: seq<Member>, k: string, after: seq<Member>, extra: multiset<Member>)
    requires acc != [] && acc[0].key != k
    requires multiset(Leaves(p, Update(acc[1..], k, Obj(after)))) == multiset(Leaves(p, acc[1..])) + extra
    ensures multiset(Leaves(p, Update(acc, k, Obj(after)))) == multiset(Leaves(p, acc)) + extra
  {
    var r := Update(acc, k, Obj(after));
    LeavesSplit(p, acc, acc[0], acc[1..]);
    assert r == [acc[0]] + Update(acc[1..], k, Obj(after));
    LeavesSplit(p, r, acc[0], Update(acc[1..], k, Obj(after)));
  }

  lemma LeavesSplit(p: seq<string>, fs: seq<Member>, head: Member, tail: seq<Member>)
    requires fs != [] && fs[0] == head && fs[1..] == tail
    ensures multiset(Leaves(p, fs)) == multiset(MemberLeaves(p, head)) + multiset(Leaves(p, tail))
  {
  }

  /** Merging a de-dotted leaf adds exactly that leaf, at the joined path. */
  lemma {:induction false} MergeWrapLeaves(p: seq<string>, acc: seq<Member>, segs: seq<string>, v: Value)
    requires |segs| >= 1 && !v.Obj?
    requires DeepMerge(acc, Wrap(segs, v).fields).Ok?
    ensures multiset(Leaves(p, DeepMerge(acc, Wrap(segs, v).fields).value))
         == multiset(Leaves(p, acc)) + multiset{Member(Join(p + segs), v)}
    decreases |segs|, 1
  {
    var x := WrapHead(p, segs, v);
    MergeOne(acc, x);
    if Lookup(acc, x.key).None? {
      MergeNewLeaves(p, acc, x);
    } else {
      MergeWrapExisting(p, acc, segs, v, x);
    }
  }

  /** The step of `MergeWrapLeaves` where the first key is already present:
      the rest of the path is merged into the mapping found there. */
  lemma {:induction false} MergeWrapExisting(p: seq<string>, acc: seq<Member>, segs: seq<string>, v: Value, x: Member)
    requires |segs| >= 1 && !v.Obj?
    requires x == Member(segs[0], if |segs| == 1 then v else Wrap(segs[1..], v))
    requires Lookup(acc, x.key).Some? && MergeMember(acc, x).Ok?
    ensures multiset(Leaves(p, MergeMember(acc, x).value))
         == multiset(Leaves(p, acc)) + multiset{Member(Join(p + segs), v)}
    decreases |segs|, 0
  {
    var existing, merged := MergeExisting(acc, x);
    assert |segs| > 1;
    MergeWrapLeaves(p + [segs[0]], existing, segs[1..], v);
    PathCons(p, segs);
    UpdateLeaves(p, acc, segs[0], existing, merged, multiset{Member(Join(p + segs), v)});
  }

  lemma PathCons(p: seq<string>, segs: seq<string>)
    requires segs != []
    ensures p + [segs[0]] + segs[1..] == p + segs
  {
  }

  /** A wrapped leaf is one member, whose leaves are the leaf at the joined
      path. */
  lemma WrapHead(p: seq<string>, segs: seq<string>, v: Value) returns (x: Member)
    requires |segs| >= 1 && !v.Obj?
    ensures Wrap(segs, v).fields == [x]
    ensures x == Member(segs[0], if |segs| == 1 then v else Wrap(segs[1..], v))
    ensures Leaves(p, [x]) == [Member(Join(p + segs), v)]
  {
    var n := |segs|;
    x := Wrap(segs, v).fields[0];
    WrapLeaves(p, segs, v);
    assert p + segs[..n - 1] + [segs[n - 1]] == p + segs;
    assert [Member(segs[n - 1], v)][1..] == [];
  }

  lemma MergeOne(acc: seq<Member>, x: Member)
    ensures DeepMerge(acc, [x]) == MergeMember(acc, x)
  {
    assert [x][1..] == [];
  }

  lemma MergeNewLeaves(p: seq<string>, acc: seq<Member>, x: Member)
    requires Lookup(acc, x.key).None?
    ensures MergeMember(acc, x) == Ok(acc + [x])
    ensures multiset(Leaves(p, acc + [x])) == multiset(Leaves(p, acc)) + multiset(Leaves(p, [x]))
  {
    LeavesAppend(p, acc, [x]);
  }

  /** A member merged into an existing key succeeds only when both sides are
      mappings, and then replaces the mapping by the merged one. */
  lemma MergeExisting(acc: seq<Member>, x: Member) returns (existing: seq<Member>, merged: seq<Member>)
    requires Lookup(acc, x.key).Some? && MergeMember(acc, x).Ok?
    ensures Lookup(acc, x.key) == Some(Obj(existing)) && x.val.Obj?
    ensures DeepMerge(existing, x.val.fields) == Ok(merged)
    ensures MergeMember(acc, x) == Ok(Update(acc, x.key, Obj(merged)))
  {
    existing := Lookup(acc, x.key).value.fields;
    merged := DeepMerge(existing, x.val.fields).value;
  }

  /** Merging all de-dotted leaves adds exactly those leaves. */
  lemma {:induction false} MergeAllLeaves(acc: seq<Member>, flat: seq<Member>)
    requires forall i :: 0 <= i < |flat| ==> !flat[i].val.Obj?
    requires MergeAll(acc, flat).Ok?
    ensures multiset(Leaves([], MergeAll(acc, flat).value)) == multiset(Leaves([], acc)) + multiset(flat)
    decreases flat
  {
    if flat != [] {
      var m := flat[0];
      var next := MergeFirstLeaves(acc, m);
      MergeAllStep(acc, flat, next);
      forall i | 0 <= i < |flat[1..]| ensures !flat[1..][i].val.Obj? {
        assert flat[1..][i] == flat[i + 1];
      }
      MergeAllLeaves(next, flat[1..]);
      MultisetCons(flat);
    }
  }

  lemma MergeAllStep(acc: seq<Member>, flat: seq<Member>, next: seq<Member>)
    requires flat != [] && DeepMerge(acc, DeDot(flat[0].key, flat[0].val).fields) == Ok(next)
    ensures MergeAll(acc, flat) == MergeAll(next, flat[1..])
  {
  }

  lemma MultisetCons<T>(s: seq<T>)
    requires s != []
    ensures multiset(s) == multiset{s[0]} + multiset(s[1..])
  {
    assert s == [s[0]] + s[1..];
  }

  /** The first step of `MergeAllLeaves`: one de-dotted leaf adds itself. */
  lemma MergeFirstLeaves(acc: seq<Member>, m: Member) returns (next: seq<Member>)
    requires !m.val.Obj? && DeepMerge(acc, DeDot(m.key, m.val).fields).Ok?
    ensures DeepMerge(acc, DeDot(m.key, m.val).fields) == Ok(next)
    ensures multiset(Leaves([], next)) == multiset(Leaves([], acc)) + multiset{m}
  {
    next := DeepMerge(acc, DeDot(m.key, m.val).fields).value;
    MergeWrapLeaves([], acc, Split(m.key), m.val);
    JoinSplit(m.key);
    assert [] + Split(m.key) == Split(m.key);
  }

  /** Distinct keys survive any reordering. */
  lemma {:induction false} UniqueKeysPermutation(a: seq<Member>, b: seq<Member>)
    requires multiset(a) == multiset(b) && UniqueKeys(a)
    ensures UniqueKeys(b)
    decreases |a|
  {
    if a == [] {
      assert |b| == |multiset(b)| == 0;
    } else {
      var k := RemoveFirst(a, b);
      var b' := b[..k] + b[k + 1..];
      UniqueTail(a);
      KeyAbsent(a[1..], b', a[0].key);
      UniqueKeysPermutation(a[1..], b');
      UniqueInsert(b, k);
    }
  }

  /** Taking the first member of `a` out of both sides keeps them permutations
      of each other. */
  lemma RemoveFirst<T>(a: seq<T>, b: seq<T>) returns (k: int)
    requires a != [] && multiset(a) == multiset(b)
    ensures 0 <= k < |b| && b[k] == a[0]
    ensures multiset(a[1..]) == multiset(b[..k] + b[k + 1..])
  {
    k := FindIn(a[0], b);
    MultisetPick(b, k);
    MultisetCons(a);
  }

  lemma FindIn<T>(x: T, b: seq<T>) returns (k: int)
    requires x in multiset(b)
    ensures 0 <= k < |b| && b[k] == x
  {
    assert x in b;
    k :| 0 <= k < |b| && b[k] == x;
  }

  lemma MultisetPick<T>(s: seq<T>, k: int)
    requires 0 <= k < |s|
    ensures multiset(s[..k] + s[k + 1..]) == multiset(s) - multiset{s[k]}
  {
    assert s == s[..k] + ([s[k]] + s[k + 1..]);
  }

  lemma UniqueTail(a: seq<Member>)
    requires a != [] && UniqueKeys(a)
    ensures UniqueKeys(a[1..])
    ensures forall j :: 0 <= j < |a[1..]| ==> a[1..][j].key != a[0].key
  {
    forall i, j | 0 <= i < j < |a[1..]| ensures a[1..][i].key != a[1..][j].key {
      assert a[1..][i] == a[i + 1] && a[1..][j] == a[j + 1];
    }
    forall j | 0 <= j < |a[1..]| ensures a[1..][j].key != a[0].key {
      assert a[1..][j] == a[j + 1];
    }
  }

  lemma KeyAbsent(t: seq<Member>, s: seq<Member>, k: string)
    requires multiset(t) == multiset(s)
    requires forall j :: 0 <= j < |t| ==> t[j].key != k
    ensures forall m :: m in s ==> m.key != k
  {
    forall m | m in s ensures m.key != k {
      assert m in multiset(t);
      assert m in t;
    }
  }

  lemma UniqueInsert(s: seq<Member>, k: int)
    requires 0 <= k < |s| && UniqueKeys(s[..k] + s[k + 1..])
    requires forall m :: m in s[..k] + s[k + 1..] ==> m.key != s[k].key
    ensures UniqueKeys(s)
  {
    var t := s[..k] + s[k + 1..];
    forall i, j | 0 <= i < j < |s| ensures s[i].key != s[j].key {
      if i != k && j != k {
        var ti := if i < k then i else i - 1;
        var tj := if j < k then j else j - 1;
        assert s[i] == t[ti] && s[j] == t[tj];
      } else if i == k {
        assert s[j] == t[j - 1];
      } else {
        assert s[i] == t[i];
      }
    }
  }

  /** No mapping anywhere: a scalar, or a list of such values. */
  ghost predicate Plain(v: Value)
    decreases v
  {
    match v
    case Arr(items) => forall i :: 0 <= i < |items| ==> Plain(items[i])
    case Obj(_) => false
    case _ => true
  }

  /** A value holding no mapping normalizes to itself: scalars, and lists of
      scalars such as `["1", "2"]`, are fixed points. */
  lemma {:induction false} NormalizePlain(v: Value)
    requires Plain(v)
    ensures Normalize(v) == Ok(v)
    decreases v
  {
    if v.Arr? {
      NormalizeItemsPlain(v.items);
    }
  }

  lemma {:induction false} NormalizeItemsPlain(items: seq<Value>)
    requires forall i :: 0 <= i < |items| ==> Plain(items[i])
    ensures NormalizeItems(items) == Ok(items)
    decreases items
  {
    if items != [] {
      NormalizePlain(items[0]);
      NormalizeItemsPlain(items[1..]);
      assert [items[0]] + items[1..] == items;
    }
  }

  lemma {:induction false} NormalizeLeavesPlain(flat: seq<Member>)
    requires forall i :: 0 <= i < |flat| ==> Plain(flat[i].val)
    ensures NormalizeLeaves(flat) == Ok(flat)
    decreases flat
  {
    if flat != [] {
      NormalizePlain(flat[0].val);
      NormalizeLeavesPlain(flat[1..]);
      assert [Member(flat[0].key, flat[0].val)] + flat[1..] == flat;
    }
  }

  /** Normalizing is undone by flattening: flattening the normalized mapping
      succeeds and gives the flattened input, up to the order of entries,
      with each leaf's value normalized (mappings inside lists expanded). */
  lemma NormalizeThenFlatten(fs: seq<Member>)
    requires NormalizeObject(fs).Ok?
    ensures Flatten(fs).Ok? && NormalizeLeaves(Flatten(fs).value).Ok?
    ensures Flatten(NormalizeObject(fs).value.fields).Ok?
    ensures multiset(Flatten(NormalizeObject(fs).value.fields).value)
         == multiset(NormalizeLeaves(Flatten(fs).value).value)
  {
    var flat := Flatten(fs).value;
    var leaves := NormalizeLeaves(flat).value;
    var r := NormalizeObject(fs).value.fields;
    assert MergeAll([], leaves) == Ok(r);
    MergeAllLeaves([], leaves);
    assert multiset(Leaves([], r)) == multiset(leaves);
    assert UniqueKeys(leaves) by {
      forall i, j | 0 <= i < j < |leaves| ensures leaves[i].key != leaves[j].key {
        assert Keys(leaves)[i] == Keys(flat)[i] && Keys(leaves)[j] == Keys(flat)[j];
      }
    }
    UniqueKeysPermutation(leaves, Leaves([], r));
  }

  /** For a record whose lists hold no mappings, flattening the normalized
      mapping gives exactly the flattened input, up to order. */
  lemma NormalizeThenFlattenPlain(fs: seq<Member>)
    requires NormalizeObject(fs).Ok?
    requires forall i :: 0 <= i < |Leaves([], fs)| ==> Plain(Leaves([], fs)[i].val)
    ensures Flatten(fs).Ok? && Flatten(NormalizeObject(fs).value.fields).Ok?
    ensures multiset(Flatten(NormalizeObject(fs).value.fields).value) == multiset(Flatten(fs).value)
  {
    NormalizeThenFlatten(fs);
    NormalizeLeavesPlain(Flatten(fs).value);
  }
}
