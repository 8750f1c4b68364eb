/** The tagged value type that the log-record utilities work on: the JSON-like
    values a Python log record holds (text, integers, booleans, None, lists and
    dicts), with dicts kept as insertion-ordered member lists. */
module Values {

  datatype Option<+T> = None | Some(value: T)

  /** The two ways shaping a record can fail. `DuplicateEntry` is flattening's
      `ValueError`; `TypeMismatch` is the deep merge meeting a non-mapping where
      it has to descend. */
  datatype Error = DuplicateEntry(path: string) | TypeMismatch(key: string)

  datatype Result<+T> = Ok(value: T) | Err(error: Error)

  datatype Value =
    | Str(s: string)
    | Int(i: int)
    | Bool(b: bool)
    | Null
    | Arr(items: seq<Value>)
    | Obj(fields: seq<Member>)

  /** One key/value pair of a mapping, in insertion order. */
  datatype Member = Member(key: string, val: Value)

  /** The text flattening raises its `ValueError` with. */
  function DuplicateMessage(path: string): string {
    "Duplicate entry for '" + path + "' with different nesting"
  }

  function Keys(fs: seq<Member>): (ks: seq<string>)
    ensures |ks| == |fs|
    ensures forall i :: 0 <= i < |fs| ==> ks[i] == fs[i].key
  {
    if fs == [] then [] else [fs[0].key] + Keys(fs[1..])
  }

  /** Keys are pairwise distinct, as in a Python dict. */
  predicate UniqueKeys(fs: seq<Member>) {
    forall i, j :: 0 <= i < j < |fs| ==> fs[i].key != fs[j].key
  }

  /** `fs[k]`, or None when `k` is absent (the first occurrence wins). */
  function Lookup(fs: seq<Member>, k: string): (r: Option<Value>)
    ensures r.None? <==> k !in Keys(fs)
    ensures r.Some? ==> Member(k, r.value) in fs
  {
    if fs == [] then None
    else if fs[0].key == k then Some(fs[0].val)
    else Lookup(fs[1..], k)
  }

  /** The value reached from `v` through the keys `segs`, one mapping per key. */
  function Get(v: Value, segs: seq<string>): Option<Value>
    decreases |segs|
  {
    if segs == [] then Some(v)
    else if v.Obj? then
      match Lookup(v.fields, segs[0])
      case None => None
      case Some(child) => Get(child, segs[1..])
    else None
  }

  /** `fs` without key `k`, the other members in their order. */
  function Remove(fs: seq<Member>, k: string): (r: seq<Member>)
    ensures k !in Keys(r)
    ensures forall m :: m in r <==> m in fs && m.key != k
  {
    if fs == [] then []
    else if fs[0].key == k then Remove(fs[1..], k)
    else [fs[0]] + Remove(fs[1..], k)
  }

  /** `fs` with the value at key `k` replaced in place by `v`. */
  function Update(fs: seq<Member>, k: string, v: Value): (r: seq<Member>)
    ensures Keys(r) == Keys(fs)
    ensures k in Keys(fs) ==> Lookup(r, k) == Some(v)
    ensures forall i :: 0 <= i < |r| ==> r[i] == fs[i] || r[i] == Member(k, v)
  {
    if fs == [] then []
    else if fs[0].key == k then [Member(k, v)] + fs[1..]
    else [fs[0]] + Update(fs[1..], k, v)
  }

  /** A measure that every member and list item makes strictly larger. */
  function Size(v: Value): (n: nat)
    ensures n >= 1
  {
    match v
    case Arr(items) => 1 + ItemsSize(items)
    case Obj(fields) => 1 + FieldsSize(fields)
    case _ => 1
  }

  function ItemsSize(items: seq<Value>): (n: nat)
    ensures items != [] ==> n > Size(items[0])
  {
    if items == [] then 0 else 1 + Size(items[0]) + ItemsSize(items[1..])
  }

  function FieldsSize(fs: seq<Member>): (n: nat)
    ensures fs != [] ==> n > Size(fs[0].val)
  {
    if fs == [] then 0 else 1 + Size(fs[0].val) + FieldsSize(fs[1..])
  }

  lemma {:induction false} FieldsSizeAppend(a: seq<Member>, b: seq<Member>)
    ensures FieldsSize(a + b) == FieldsSize(a) + FieldsSize(b)
  {
    if a == [] {
      assert a + b == b;
    } else {
      assert (a + b)[0] == a[0];
      assert (a + b)[1..] == a[1..] + b;
      FieldsSizeAppend(a[1..], b);
    }
  }

  /** A member of `fs` has its key among `fs`'s keys. */
  lemma MemberKey(fs: seq<Member>, m: Member)
    requires m in fs
    ensures m.key in Keys(fs)
  {
    var i :| 0 <= i < |fs| && fs[i] == m;
    assert Keys(fs)[i] == m.key;
  }

  /** Looking up in a concatenation looks in the first part, then the second. */
  lemma {:induction false} LookupAppend(a: seq<Member>, b: seq<Member>, k: string)
    ensures Lookup(a + b, k) == if k in Keys(a) then Lookup(a, k) else Lookup(b, k)
  {
    if a == [] {
      assert a + b == b;
    } else {
      assert (a + b)[0] == a[0];
      assert (a + b)[1..] == a[1..] + b;
      LookupAppend(a[1..], b, k);
      assert Keys(a) == [a[0].key] + Keys(a[1..]);
    }
  }

  /** Removing key `k` hides it and leaves every other key's value alone. */
  lemma {:induction false} LookupRemove(fs: seq<Member>, k: string, j: string)
    ensures Lookup(Remove(fs, k), j) == if j == k then None else Lookup(fs, j)
  {
    if fs != [] {
      LookupRemove(fs[1..], k, j);
      if fs[0].key != k {
        assert ([fs[0]] + Remove(fs[1..], k))[1..] == Remove(fs[1..], k);
      }
    }
  }

  /** Replacing the value at `k` leaves every other key's value alone. */
  lemma {:induction false} LookupUpdate(fs: seq<Member>, k: string, v: Value, j: string)
    requires j != k
    ensures Lookup(Update(fs, k, v), j) == Lookup(fs, j)
  {
    if fs != [] {
      if fs[0].key == k {
        assert ([Member(k, v)] + fs[1..])[1..] == fs[1..];
      } else {
        LookupUpdate(fs[1..], k, v, j);
        assert ([fs[0]] + Update(fs[1..], k, v))[1..] == Update(fs[1..], k, v);
      }
    }
  }

  /** Removing an absent key changes nothing. */
  lemma {:induction false} RemoveAbsent(fs: seq<Member>, k: string)
    requires k !in Keys(fs)
    ensures Remove(fs, k) == fs
  {
    if fs != [] {
      assert Keys(fs)[0] == fs[0].key;
      assert Keys(fs[1..]) == Keys(fs)[1..];
      RemoveAbsent(fs[1..], k);
      assert [fs[0]] + fs[1..] == fs;
    }
  }

  lemma {:induction false} KeysAppend(a: seq<Member>, b: seq<Member>)
    ensures Keys(a + b) == Keys(a) + Keys(b)
  {
    var l, r := Keys(a + b), Keys(a) + Keys(b);
    forall i | 0 <= i < |l| ensures l[i] == r[i] {
      if i < |a| {
        assert (a + b)[i] == a[i];
      } else {
        assert (a + b)[i] == b[i - |a|];
      }
    }
  }

  /** Removing `k` takes exactly `k` out of the keys. */
  lemma {:induction false} KeysRemove(fs: seq<Member>, k: string)
    ensures forall j :: j in Keys(Remove(fs, k)) <==> j in Keys(fs) && j != k
  {
    var r := Remove(fs, k);
    forall j | j in Keys(r) ensures j in Keys(fs) && j != k {
      var i :| 0 <= i < |r| && Keys(r)[i] == j;
      assert r[i] in r;
      MemberKey(fs, r[i]);
    }
    forall j | j in Keys(fs) && j != k ensures j in Keys(r) {
      var i :| 0 <= i < |fs| && Keys(fs)[i] == j;
      assert fs[i] in fs;
      MemberKey(r, fs[i]);
    }
  }

  /** Two lists with distinct keys and no key in common concatenate into one
      with distinct keys. */
  lemma UniqueAppend(a: seq<Member>, b: seq<Member>)
    requires UniqueKeys(a) && UniqueKeys(b)
    requires forall x, y :: x in a && y in b ==> x.key != y.key
    ensures UniqueKeys(a + b)
  {
    var s := a + b;
    forall i, j | 0 <= i < j < |s| ensures s[i].key != s[j].key {
      if j < |a| {
        assert s[i] == a[i] && s[j] == a[j];
      } else if i >= |a| {
        assert s[i] == b[i - |a|] && s[j] == b[j - |a|];
      } else {
        assert s[i] in a && s[j] in b;
      }
    }
  }

  /** Removing a key keeps the keys distinct. */
  lemma {:induction false} RemoveUnique(fs: seq<Member>, k: string)
    requires UniqueKeys(fs)
    ensures UniqueKeys(Remove(fs, k))
  {
    if fs != [] {
      var tail := fs[1..];
      assert UniqueKeys(tail) by {
        forall i, j | 0 <= i < j < |tail| ensures tail[i].key != tail[j].key {
          assert tail[i] == fs[i + 1] && tail[j] == fs[j + 1];
        }
      }
      RemoveUnique(tail, k);
      if fs[0].key != k {
        KeysRemove(tail, k);
        forall y | y in Remove(tail, k) ensures fs[0].key != y.key {
          MemberKey(Remove(tail, k), y);
          var j :| 0 <= j < |tail| && Keys(tail)[j] == y.key;
          assert tail[j] == fs[j + 1];
        }
        UniqueAppend([fs[0]], Remove(tail, k));
      }
    }
  }
}
