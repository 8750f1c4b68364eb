/** `flatten_dict`: a nested mapping whose keys may contain dots becomes a
    single-level mapping keyed by full dot-joined paths. Nested mappings are
    descended, lists are opaque leaves, and two entries that land on the same
    path are refused. */
module Flattening {
  import opened Values
  import opened Paths

  /** Reference definition: every non-mapping value of `fs` with its full path
      (the enclosing keys `prefix`, then its own key), in input order. Nested
      mappings are descended; lists and scalars are leaves. */
  function Leaves(prefix: seq<string>, fs: seq<Member>): (ls: seq<Member>)
    ensures forall i :: 0 <= i < |ls| ==> !ls[i].val.Obj?
    decreases fs
  {
    if fs == [] then [] else MemberLeaves(prefix, fs[0]) + Leaves(prefix, fs[1..])
  }

  /** The leaves of one member: itself at its full path, or the leaves of the
      mapping it holds. */
  function MemberLeaves(prefix: seq<string>, m: Member): (ls: seq<Member>)
    ensures forall i :: 0 <= i < |ls| ==> !ls[i].val.Obj?
    decreases m
  {
    if m.val.Obj? then Leaves(prefix + [m.key], m.val.fields)
    else [Member(Join(prefix + [m.key]), m.val)]
  }

  /** The first member of `ls` whose key is already among `seen` or among the
      members of `ls` before it. */
  function FirstClash(seen: seq<Member>, ls: seq<Member>): Option<string>
    decreases ls
  {
    if ls == [] then None
    else if ls[0].key in Keys(seen) then Some(ls[0].key)
    else FirstClash(seen + [ls[0]], ls[1..])
  }

  /** Key `p` occurs at two positions of `ms`. */
  ghost predicate Repeated(ms: seq<Member>, p: string) {
    exists i, j :: 0 <= i < j < |ms| && ms[i].key == p && ms[j].key == p
  }

  /** What writing the paths `ls` into the accumulator `acc` one by one gives:
      the first path already written is reported, otherwise all are kept. */
  function Outcome(acc: seq<Member>, ls: seq<Member>): Result<seq<Member>> {
    match FirstClash(acc, ls)
    case None => Ok(acc + ls)
    case Some(p) => Err(DuplicateEntry(p))
  }

  /** Walks `fs` in order, writing each leaf at its full path into `acc`;
      a path already present is a `DuplicateEntry` for that full path. */
  function FlattenInto(prefix: seq<string>, fs: seq<Member>, acc: seq<Member>): Result<seq<Member>>
    decreases fs
  {
    if fs == [] then Ok(acc)
    else
      var m := fs[0];
      if m.val.Obj? then
        match FlattenInto(prefix + [m.key], m.val.fields, acc)
        case Err(e) => Err(e)
        case Ok(acc') => FlattenInto(prefix, fs[1..], acc')
      else
        var path := Join(prefix + [m.key]);
        if path in Keys(acc) then Err(DuplicateEntry(path))
        else FlattenInto(prefix, fs[1..], acc + [Member(path, m.val)])
  }

  /** `flatten_dict(fs)`: succeeds exactly when no two leaves share a full path,
      and then holds every leaf at its path in input order; otherwise it names
      a path that two leaves share. */
  function Flatten(fs: seq<Member>): (r: Result<seq<Member>>)
    ensures r.Ok? <==> UniqueKeys(Leaves([], fs))
    ensures r.Ok? ==> r.value == Leaves([], fs)
    ensures r.Err? ==> r.error.DuplicateEntry? && Repeated(Leaves([], fs), r.error.path)
    ensures r.Ok? ==> UniqueKeys(r.value) && forall i :: 0 <= i < |r.value| ==> !r.value[i].val.Obj?
  {
    FlattenFromEmpty(fs);
    FlattenInto([], fs, [])
  }

  /** The walk started with nothing written: `Flatten`'s contract. */
  lemma FlattenFromEmpty(fs: seq<Member>)
    ensures FlattenInto([], fs, []).Ok? <==> UniqueKeys(Leaves([], fs))
    ensures FlattenInto([], fs, []).Ok? ==> FlattenInto([], fs, []).value == Leaves([], fs)
    ensures FlattenInto([], fs, []).Err? ==>
              FlattenInto([], fs, []).error.DuplicateEntry? && Repeated(Leaves([], fs), FlattenInto([], fs, []).error.path)
  {
    FlattenIntoSpec([], fs, []);
    FirstClashUnique([], Leaves([], fs));
    assert [] + Leaves([], fs) == Leaves([], fs);
  }

  lemma {:induction false} FirstClashAppend(seen: seq<Member>, a: seq<Member>, b: seq<Member>)
    ensures FirstClash(seen, a + b)
         == if FirstClash(seen, a).Some? then FirstClash(seen, a) else FirstClash(seen + a, b)
    decreases a
  {
    if a == [] {
      assert a + b == b;
      assert seen + a == seen;
    } else {
      assert (a + b)[0] == a[0];
      assert (a + b)[1..] == a[1..] + b;
      if a[0].key !in Keys(seen) {
        FirstClashAppend(seen + [a[0]], a[1..], b);
        assert seen + [a[0]] + a[1..] == seen + a;
      }
    }
  }

  /** Over a duplicate-free accumulator, no clash means the keys stay distinct,
      and a reported clash is a key that occurs twice. */
  lemma {:induction false} FirstClashUnique(seen: seq<Member>, ls: seq<Member>)
    requires UniqueKeys(seen)
    ensures FirstClash(seen, ls).None? <==> UniqueKeys(seen + ls)
    ensures FirstClash(seen, ls).Some? ==> Repeated(seen + ls, FirstClash(seen, ls).value)
    decreases ls
  {
    if ls == [] {
      assert seen + ls == seen;
    } else {
      var all := seen + ls;
      var k := ls[0].key;
      assert all[|seen|] == ls[0];
      if k in Keys(seen) {
        var i :| 0 <= i < |seen| && Keys(seen)[i] == k;
        assert all[i].key == k;
        assert !UniqueKeys(all);
        assert Repeated(all, k);
      } else {
        var seen' := seen + [ls[0]];
        assert UniqueKeys(seen') by {
          forall i | 0 <= i < |seen| ensures seen'[i].key != k {
            assert Keys(seen)[i] == seen[i].key;
          }
        }
        FirstClashUnique(seen', ls[1..]);
        assert seen' + ls[1..] == all;
      }
    }
  }

  /** The accumulating walk computes exactly `Outcome` over the leaves. */
  lemma {:induction false} FlattenIntoSpec(prefix: seq<string>, fs: seq<Member>, acc: seq<Member>)
    ensures FlattenInto(prefix, fs, acc) == Outcome(acc, Leaves(prefix, fs))
    decreases fs
  {
    if fs == [] {
      assert acc + [] == acc;
    } else if fs[0].val.Obj? {
      var m := fs[0];
      FlattenIntoSpec(prefix + [m.key], m.val.fields, acc);
      OutcomeAppend(acc, Leaves(prefix + [m.key], m.val.fields), Leaves(prefix, fs[1..]));
      match FlattenInto(prefix + [m.key], m.val.fields, acc)
      case Err(e) =>
      case Ok(acc') =>
        FlattenIntoSpec(prefix, fs[1..], acc');
    } else {
      var m := fs[0];
      var path := Join(prefix + [m.key]);
      if path !in Keys(acc) {
        FlattenIntoSpec(prefix, fs[1..], acc + [Member(path, m.val)]);
      }
      OutcomeAppend(acc, [Member(path, m.val)], Leaves(prefix, fs[1..]));
    }
  }

  /** Writing `a` then `b` is writing `a + b`. */
  lemma OutcomeAppend(acc: seq<Member>, a: seq<Member>, b: seq<Member>)
    ensures Outcome(acc, a + b)
         == match Outcome(acc, a)
            case Err(e) => Err(e)
            case Ok(acc') => Outcome(acc', b)
  {
    FirstClashAppend(acc, a, b);
    assert acc + a + b == acc + (a + b);
  }

  /** The leaves depend on the enclosing keys only through their joined path. */
  lemma {:induction false} LeavesPrefix(p: seq<string>, q: seq<string>, fs: seq<Member>)
    requires |p| >= 1 && |q| >= 1 && Join(p) == Join(q)
    ensures Leaves(p, fs) == Leaves(q, fs)
    decreases fs
  {
    if fs != [] {
      var m := fs[0];
      JoinSnoc(p, m.key);
      JoinSnoc(q, m.key);
      if m.val.Obj? {
        LeavesPrefix(p + [m.key], q + [m.key], m.val.fields);
      }
      LeavesPrefix(p, q, fs[1..]);
    }
  }

  /** A nested mapping `{k1: {k2: v}}` and a dotted key `{"k1.k2": v}` flatten
      alike, whatever else the mapping holds. */
  lemma FlattenNestedIsDotted(k1: string, k2: string, v: Value, rest: seq<Member>)
    ensures Flatten([Member(k1, Obj([Member(k2, v)]))] + rest)
         == Flatten([Member(k1 + "." + k2, v)] + rest)
  {
    var nested := [Member(k1, Obj([Member(k2, v)]))] + rest;
    var dotted := [Member(k1 + "." + k2, v)] + rest;
    assert nested[0] == Member(k1, Obj([Member(k2, v)])) && nested[1..] == rest;
    assert dotted[0] == Member(k1 + "." + k2, v) && dotted[1..] == rest;
    assert [] + [k1] == [k1];
    assert [k1] + [k2] == [k1, k2];
    assert [] + [k1 + "." + k2] == [k1 + "." + k2];
    assert Join([k1, k2]) == k1 + "." + k2;
    var inner := Leaves([k1], [Member(k2, v)]);
    assert [Member(k2, v)][0] == Member(k2, v) && [Member(k2, v)][1..] == [];
    assert Leaves([k1], []) == [];
    assert inner == MemberLeaves([k1], Member(k2, v)) + Leaves([k1], []);
    assert inner == (if v.Obj? then Leaves([k1] + [k2], v.fields)
                     else [Member(Join([k1] + [k2]), v)]) + Leaves([k1], []);
    if v.Obj? {
      LeavesPrefix([k1, k2], [k1 + "." + k2], v.fields);
      assert inner == Leaves([k1 + "." + k2], v.fields);
    } else {
      assert inner == [Member(k1 + "." + k2, v)];
    }
    assert Leaves([], nested) == inner + Leaves([], rest);
    assert Leaves([], dotted) == inner + Leaves([], rest);
    FlattenIntoSpec([], nested, []);
    FlattenIntoSpec([], dotted, []);
  }

  /** Already-flat members are their own leaves. */
  lemma {:induction false} LeavesOfFlat(fs: seq<Member>)
    requires forall i :: 0 <= i < |fs| ==> !fs[i].val.Obj?
    ensures Leaves([], fs) == fs
  {
    if fs != [] {
      LeavesOfFlat(fs[1..]);
      assert [] + [fs[0].key] == [fs[0].key];
      assert [fs[0]] + fs[1..] == fs;
    }
  }

  lemma LeavesCons(p: seq<string>, m: Member, rest: seq<Member>)
    ensures Leaves(p, [m] + rest) == MemberLeaves(p, m) + Leaves(p, rest)
  {
    assert ([m] + rest)[0] == m && ([m] + rest)[1..] == rest;
  }

  lemma LeavesOne(p: seq<string>, m: Member)
    ensures Leaves(p, [m]) == MemberLeaves(p, m)
  {
    LeavesCons(p, m, []);
    assert [m] + [] == [m];
  }

  /** Flattening is idempotent: a flattened mapping flattens to itself. */
  lemma FlattenIdempotent(fs: seq<Member>)
    requires Flatten(fs).Ok?
    ensures Flatten(Flatten(fs).value) == Flatten(fs)
  {
    LeavesOfFlat(Flatten(fs).value);
  }

  lemma {:induction false} LeavesAppend(p: seq<string>, a: seq<Member>, b: seq<Member>)
    ensures Leaves(p, a + b) == Leaves(p, a) + Leaves(p, b)
    decreases a
  {
    if a == [] {
      assert a + b == b;
    } else {
      assert (a + b)[0] == a[0];
      assert (a + b)[1..] == a[1..] + b;
      LeavesAppend(p, a[1..], b);
    }
  }

  /** Flattening never makes a mapping larger. */
  lemma {:induction false} LeavesSize(p: seq<string>, fs: seq<Member>)
    ensures FieldsSize(Leaves(p, fs)) <= FieldsSize(fs)
    decreases fs
  {
    if fs != [] {
      var m := fs[0];
      var first := if m.val.Obj? then Leaves(p + [m.key], m.val.fields)
                   else [Member(Join(p + [m.key]), m.val)];
      if m.val.Obj? {
        LeavesSize(p + [m.key], m.val.fields);
      } else {
        assert [Member(Join(p + [m.key]), m.val)][1..] == [];
      }
      LeavesSize(p, fs[1..]);
      FieldsSizeAppend(first, Leaves(p, fs[1..]));
    }
  }
}
