/** `json_dumps`: a log record as compact JSON whose first fields are the ones
    the Elastic Common Schema wants first: `@timestamp`, then `log.level`, then
    `message`, then everything else. `log.level` is promoted out of a nested
    `"log": {"level": ...}` mapping, or else taken from a literal `"log.level"`
    key; whatever the `log` mapping still holds stays nested under `"log"`,
    which disappears once it is empty. */
module EcsJson {
  import opened Values
  import opened Json

  /** The promoted `log.level` value, if any, and the mapping left behind. */
  datatype Popped = Popped(level: Option<Value>, rest: seq<Member>)

  /** The `level` inside a `"log"` mapping, when `"log"` holds one. */
  function NestedLevel(fs: seq<Member>): Option<Value> {
    if LogIsMapping(fs) then Lookup(LogFields(fs), "level") else None
  }

  predicate LogIsMapping(fs: seq<Member>) {
    Lookup(fs, "log").Some? && Lookup(fs, "log").value.Obj?
  }

  /** The `"log"` mapping, or the empty one when `"log"` is absent or is not a
      mapping. */
  function LogFields(fs: seq<Member>): seq<Member> {
    if LogIsMapping(fs) then Lookup(fs, "log").value.fields else []
  }

  /** Takes `log.level` out of `fs`: the nested `level` first, leaving the rest
      of the `log` mapping (or no `log` at all once nothing is left in it);
      otherwise a literal `"log.level"` key. */
  function PopLevel(fs: seq<Member>): (r: Popped)
    ensures r.level.None? <==> NestedLevel(fs).None? && "log.level" !in Keys(fs)
    ensures NestedLevel(fs).None? ==> "log.level" !in Keys(r.rest)
  {
    KeysRemove(fs, "log.level");
    if NestedLevel(fs).Some? then
      var left := Remove(LogFields(fs), "level");
      Popped(NestedLevel(fs), if left == [] then Remove(fs, "log") else Update(fs, "log", Obj(left)))
    else if "log.level" in Keys(fs) then
      Popped(Lookup(fs, "log.level"), Remove(fs, "log.level"))
    else
      Popped(None, fs)
  }

  /** The one-member mapping `{k: v}` when there is a `v`, else nothing. */
  function Field(k: string, o: Option<Value>): seq<Member> {
    if o.Some? then [Member(k, o.value)] else []
  }

  /** What remains once `@timestamp`, `log.level` and `message` are taken out. */
  function Residual(fs: seq<Member>): seq<Member> {
    Remove(PopLevel(Remove(fs, "@timestamp")).rest, "message")
  }

  /** The top-level fields in the order they are written. */
  function EcsFields(fs: seq<Member>): (r: seq<Member>)
  {
    var popped := PopLevel(Remove(fs, "@timestamp"));
    Field("@timestamp", Lookup(fs, "@timestamp"))
      + (Field("log.level", popped.level)
      + (Field("message", Lookup(popped.rest, "message"))
      + Residual(fs)))
  }

  /** `json_dumps(fs)`: compact JSON text of the reordered record. */
  function JsonDumps(fs: seq<Member>): (r: string)
    ensures |r| >= 2 && r[0] == '{' && r[|r| - 1] == '}'
  {
    Encode(Obj(EcsFields(fs)))
  }

  /** `PopLevel` adds no key. */
  lemma PopLevelKeys(fs: seq<Member>)
    ensures forall k :: k in Keys(PopLevel(fs).rest) ==> k in Keys(fs)
  {
    KeysRemove(fs, "log");
    KeysRemove(fs, "log.level");
  }

  /** The keys of the reordered record come from the record, `log.level`
      aside. */
  lemma EcsFieldsKeys(fs: seq<Member>)
    ensures forall k :: k in Keys(EcsFields(fs)) ==> k in Keys(fs) || k == "log.level"
  {
    var popped := PopLevel(Remove(fs, "@timestamp"));
    var a := Field("@timestamp", Lookup(fs, "@timestamp"));
    var b := Field("log.level", popped.level);
    var c := Field("message", Lookup(popped.rest, "message"));
    var r := Residual(fs);
    KeysAppend(a, b + (c + r));
    KeysAppend(b, c + r);
    KeysAppend(c, r);
    KeysRemove(fs, "@timestamp");
    KeysRemove(popped.rest, "message");
    PopLevelKeys(Remove(fs, "@timestamp"));
  }

  // ---------------------------------------------------------------------------
  // What each field of the output holds.

  /** Where a key goes: `@timestamp`, `log.level`, `message`, then the rest. */
  function Rank(k: string): nat {
    if k == "@timestamp" then 0
    else if k == "log.level" then 1
    else if k == "message" then 2
    else 3
  }

  lemma NestedLevelSkipsTimestamp(fs: seq<Member>)
    ensures NestedLevel(Remove(fs, "@timestamp")) == NestedLevel(fs)
    ensures LogFields(Remove(fs, "@timestamp")) == LogFields(fs)
  {
    LookupRemove(fs, "@timestamp", "log");
  }

  /** Looking up any key other than `log.level` and `log` after `PopLevel`. */
  lemma PopLevelLookup(fs: seq<Member>, k: string)
    requires k != "log.level" && k != "log"
    ensures Lookup(PopLevel(fs).rest, k) == Lookup(fs, k)
  {
    if NestedLevel(fs).Some? {
      LookupRemove(fs, "log", k);
      LookupUpdate(fs, "log", Obj(Remove(LogFields(fs), "level")), k);
    } else {
      LookupRemove(fs, "log.level", k);
    }
  }

  lemma ResidualLookup(fs: seq<Member>, k: string)
    requires k != "@timestamp" && k != "log.level" && k != "message" && k != "log"
    ensures Lookup(Residual(fs), k) == Lookup(fs, k)
  {
    var popped := PopLevel(Remove(fs, "@timestamp"));
    LookupRemove(popped.rest, "message", k);
    PopLevelLookup(Remove(fs, "@timestamp"), k);
    LookupRemove(fs, "@timestamp", k);
  }

  /** Looking up past a promoted field. */
  lemma LookupPast(name: string, o: Option<Value>, rest: seq<Member>, k: string)
    ensures Lookup(Field(name, o) + rest, k)
         == if k == name && o.Some? then o else Lookup(rest, k)
  {
    LookupAppend(Field(name, o), rest, k);
  }

  /** The keys taken out before the residual are not in it. */
  lemma ResidualMisses(fs: seq<Member>)
    ensures Lookup(Residual(fs), "@timestamp").None?
    ensures Lookup(Residual(fs), "message").None?
    ensures PopLevel(Remove(fs, "@timestamp")).level.None? ==> Lookup(Residual(fs), "log.level").None?
  {
    var popped := PopLevel(Remove(fs, "@timestamp"));
    LookupRemove(popped.rest, "message", "@timestamp");
    LookupRemove(popped.rest, "message", "log.level");
    PopLevelLookup(Remove(fs, "@timestamp"), "@timestamp");
    LookupRemove(fs, "@timestamp", "@timestamp");
  }

  /** Regrouping the four parts of the output. */
  lemma RegroupFields<T>(a: seq<T>, b: seq<T>, c: seq<T>, d: seq<T>)
    ensures a + (b + (c + d)) == a + b + c + d
  {
  }

  /** The output is the promoted fields followed by the residual, and looking a
      key up in it looks in the promoted ones first. */
  lemma EcsFieldsLookup(fs: seq<Member>, k: string)
    ensures Lookup(EcsFields(fs), k)
         == if k == "@timestamp" then Lookup(fs, "@timestamp")
            else if k == "log.level" then PopLevel(Remove(fs, "@timestamp")).level
            else if k == "message" then Lookup(PopLevel(Remove(fs, "@timestamp")).rest, "message")
            else Lookup(Residual(fs), k)
  {
    var t := Lookup(fs, "@timestamp");
    var popped := PopLevel(Remove(fs, "@timestamp"));
    var m := Lookup(popped.rest, "message");
    var r := Residual(fs);
    ResidualMisses(fs);
    LookupPast("@timestamp", t, Field("log.level", popped.level) + (Field("message", m) + r), k);
    if k != "@timestamp" {
      LookupPast("log.level", popped.level, Field("message", m) + r, k);
      if k != "log.level" {
        LookupPast("message", m, r, k);
      }
    } else {
      LookupPast("log.level", popped.level, Field("message", m) + r, k);
      LookupPast("message", m, r, k);
    }
  }

  /** `@timestamp` is written first, unchanged. */
  lemma TimestampFirst(fs: seq<Member>)
    ensures Lookup(EcsFields(fs), "@timestamp") == Lookup(fs, "@timestamp")
    ensures Lookup(fs, "@timestamp").Some?
        ==> EcsFields(fs)[0] == Member("@timestamp", Lookup(fs, "@timestamp").value)
  {
    EcsFieldsLookup(fs, "@timestamp");
  }

  /** `message` is written unchanged. */
  lemma MessageKept(fs: seq<Member>)
    ensures Lookup(EcsFields(fs), "message") == Lookup(fs, "message")
  {
    EcsFieldsLookup(fs, "message");
    PopLevelLookup(Remove(fs, "@timestamp"), "message");
    LookupRemove(fs, "@timestamp", "message");
  }

  /** `log.level` comes from the nested `level` when there is one, else from a
      literal `"log.level"` key. */
  lemma LevelPromoted(fs: seq<Member>)
    ensures Lookup(EcsFields(fs), "log.level")
         == if NestedLevel(fs).Some? then NestedLevel(fs) else Lookup(fs, "log.level")
  {
    EcsFieldsLookup(fs, "log.level");
    NestedLevelSkipsTimestamp(fs);
    LookupRemove(fs, "@timestamp", "log.level");
  }

  /** After a nested `level` is promoted, `log` keeps its other sub-keys in
      their order, and is gone when none is left; without a nested `level`,
      `log` is written unchanged. */
  lemma LogResidual(fs: seq<Member>)
    ensures Lookup(EcsFields(fs), "log")
         == if NestedLevel(fs).None? then Lookup(fs, "log")
            else if Remove(LogFields(fs), "level") == [] then None
            else Some(Obj(Remove(LogFields(fs), "level")))
  {
    var fs' := Remove(fs, "@timestamp");
    var popped := PopLevel(fs');
    EcsFieldsLookup(fs, "log");
    NestedLevelSkipsTimestamp(fs);
    LookupRemove(popped.rest, "message", "log");
    LookupRemove(fs, "@timestamp", "log");
    if NestedLevel(fs).Some? {
      var left := Remove(LogFields(fs), "level");
      if left == [] {
        LookupRemove(fs', "log", "log");
      } else {
        assert "log" in Keys(fs');
      }
    } else {
      LookupRemove(fs', "log.level", "log");
    }
  }

  /** Every other key is written unchanged. */
  lemma OthersKept(fs: seq<Member>, k: string)
    requires Rank(k) == 3 && k != "log"
    ensures Lookup(EcsFields(fs), k) == Lookup(fs, k)
  {
    EcsFieldsLookup(fs, k);
    ResidualLookup(fs, k);
  }

  /** A record with none of the special keys is written as it is. */
  lemma PlainRecordUnchanged(fs: seq<Member>)
    requires forall k :: k in Keys(fs) ==> Rank(k) == 3 && k != "log"
    ensures EcsFields(fs) == fs
  {
    RemoveAbsent(fs, "@timestamp");
    assert Lookup(fs, "log").None?;
    RemoveAbsent(fs, "message");
  }

  // ---------------------------------------------------------------------------
  // Order of the output fields.

  /** Only members already in `fs`, or the shortened `log` mapping, make up
      what `PopLevel` leaves. */
  lemma PopLevelMembers(fs: seq<Member>, m: Member)
    requires m in PopLevel(fs).rest
    ensures m in fs || m == Member("log", Obj(Remove(LogFields(fs), "level")))
    ensures m.key != "log.level" || (NestedLevel(fs).Some? && m in fs)
  {
    var rest := PopLevel(fs).rest;
    if NestedLevel(fs).Some? {
      var left := Remove(LogFields(fs), "level");
      if left != [] {
        var i :| 0 <= i < |rest| && rest[i] == m;
      }
    }
  }

  /** Ranks never go down from one member to a later one. */
  ghost predicate Ordered(ms: seq<Member>) {
    forall i, j :: 0 <= i < j < |ms| ==> Rank(ms[i].key) <= Rank(ms[j].key)
  }

  lemma PromotedOrdered(t: Option<Value>, l: Option<Value>, m: Option<Value>)
    ensures Ordered(Field("@timestamp", t) + Field("log.level", l) + Field("message", m))
  {
  }

  lemma OrderedAppend(a: seq<Member>, b: seq<Member>)
    requires Ordered(a) && forall m | m in b :: Rank(m.key) == 3
    ensures Ordered(a + b)
  {
    forall i, j | 0 <= i < j < |a + b| ensures Rank((a + b)[i].key) <= Rank((a + b)[j].key) {
      if j >= |a| {
        assert (a + b)[j] == b[j - |a|];
        if i >= |a| {
          assert (a + b)[i] == b[i - |a|];
        }
      }
    }
  }

  /** Without two sources for `log.level`, nothing in the residual has a
      promoted key. */
  lemma ResidualUnranked(fs: seq<Member>)
    requires NestedLevel(fs).Some? ==> "log.level" !in Keys(fs)
    ensures forall m | m in Residual(fs) :: Rank(m.key) == 3
  {
    var fs' := Remove(fs, "@timestamp");
    NestedLevelSkipsTimestamp(fs);
    forall m | m in Residual(fs) ensures Rank(m.key) == 3 {
      PopLevelMembers(fs', m);
      if m.key == "log.level" {
        MemberKey(fs, m);
      }
    }
  }

  /** A record with distinct keys, and at most one source for `log.level`, is
      written with distinct keys. */
  lemma EcsFieldsUnique(fs: seq<Member>)
    requires UniqueKeys(fs)
    requires NestedLevel(fs).Some? ==> "log.level" !in Keys(fs)
    ensures UniqueKeys(EcsFields(fs))
  {
    var popped := PopLevel(Remove(fs, "@timestamp"));
    var head := Field("@timestamp", Lookup(fs, "@timestamp"))
              + Field("log.level", popped.level)
              + Field("message", Lookup(popped.rest, "message"));
    RegroupFields(Field("@timestamp", Lookup(fs, "@timestamp")), Field("log.level", popped.level),
            Field("message", Lookup(popped.rest, "message")), Residual(fs));
    PromotedUnique(Lookup(fs, "@timestamp"), popped.level, Lookup(popped.rest, "message"));
    ResidualUnique(fs);
    ResidualUnranked(fs);
    forall x: Member, y: Member | x in head && y in Residual(fs) ensures x.key != y.key {
      assert Rank(x.key) < 3;
    }
    UniqueAppend(head, Residual(fs));
  }

  /** The promoted fields have distinct keys, none of them residual. */
  lemma PromotedUnique(t: Option<Value>, l: Option<Value>, m: Option<Value>)
    ensures UniqueKeys(Field("@timestamp", t) + Field("log.level", l) + Field("message", m))
    ensures forall x :: x in Field("@timestamp", t) + Field("log.level", l) + Field("message", m) ==> Rank(x.key) < 3
  {
  }

  lemma ResidualUnique(fs: seq<Member>)
    requires UniqueKeys(fs)
    ensures UniqueKeys(Residual(fs))
  {
    var t := Remove(fs, "@timestamp");
    RemoveUnique(fs, "@timestamp");
    RemoveUnique(t, "log");
    RemoveUnique(t, "log.level");
    var rest := PopLevel(t).rest;
    assert UniqueKeys(rest) by {
      forall i, j | 0 <= i < j < |rest| ensures rest[i].key != rest[j].key {
        if NestedLevel(t).Some? && Remove(LogFields(t), "level") != [] {
          assert Keys(rest)[i] == Keys(t)[i] && Keys(rest)[j] == Keys(t)[j];
        }
      }
    }
    RemoveUnique(rest, "message");
  }

  /** With at most one source for `log.level`, the output lists `@timestamp`,
      then `log.level`, then `message`, then the remaining fields. */
  lemma FieldsInOrder(fs: seq<Member>)
    requires NestedLevel(fs).Some? ==> "log.level" !in Keys(fs)
    ensures forall i, j :: 0 <= i < j < |EcsFields(fs)|
              ==> Rank(EcsFields(fs)[i].key) <= Rank(EcsFields(fs)[j].key)
  {
    var popped := PopLevel(Remove(fs, "@timestamp"));
    var head := Field("@timestamp", Lookup(fs, "@timestamp"))
              + Field("log.level", popped.level)
              + Field("message", Lookup(popped.rest, "message"));
    RegroupFields(Field("@timestamp", Lookup(fs, "@timestamp")), Field("log.level", popped.level),
            Field("message", Lookup(popped.rest, "message")), Residual(fs));
    PromotedOrdered(Lookup(fs, "@timestamp"), popped.level, Lookup(popped.rest, "message"));
    ResidualUnranked(fs);
    OrderedAppend(head, Residual(fs));
  }

  // ---------------------------------------------------------------------------
  // The text reads back as the reordered record.

  lemma EscapeFreeMember(fs: seq<Member>, m: Member)
    requires EscapeFreeFields(fs) && m in fs
    ensures EscapeFree(m.key) && EscapeFreeValue(m.val)
  {
    var i :| 0 <= i < |fs| && fs[i] == m;
  }

  lemma EscapeFreeRemove(fs: seq<Member>, k: string)
    requires EscapeFreeFields(fs)
    ensures EscapeFreeFields(Remove(fs, k))
  {
    var r := Remove(fs, k);
    forall i | 0 <= i < |r| ensures EscapeFree(r[i].key) && EscapeFreeValue(r[i].val) {
      EscapeFreeMember(fs, r[i]);
    }
  }

  lemma EscapeFreeAppend(a: seq<Member>, b: seq<Member>)
    requires EscapeFreeFields(a) && EscapeFreeFields(b)
    ensures EscapeFreeFields(a + b)
  {
    forall i | 0 <= i < |a + b| ensures EscapeFree((a + b)[i].key) && EscapeFreeValue((a + b)[i].val) {
      if i >= |a| {
        assert (a + b)[i] == b[i - |a|];
      }
    }
  }

  lemma EscapeFreeField(fs: seq<Member>, k: string)
    requires EscapeFreeFields(fs) && EscapeFree(k)
    ensures EscapeFreeFields(Field(k, Lookup(fs, k)))
  {
    if Lookup(fs, k).Some? {
      EscapeFreeMember(fs, Member(k, Lookup(fs, k).value));
    }
  }

  lemma EscapeFreeNestedPop(fs: seq<Member>)
    requires EscapeFreeFields(fs) && NestedLevel(fs).Some?
    ensures EscapeFreeFields(PopLevel(fs).rest) && EscapeFreeValue(NestedLevel(fs).value)
  {
    var rest := PopLevel(fs).rest;
    var log := LogFields(fs);
    assert Member("log", Obj(log)) in fs;
    EscapeFreeMember(fs, Member("log", Obj(log)));
    assert Member("level", NestedLevel(fs).value) in log;
    EscapeFreeMember(log, Member("level", NestedLevel(fs).value));
    EscapeFreeRemove(log, "level");
    forall i | 0 <= i < |rest| ensures EscapeFree(rest[i].key) && EscapeFreeValue(rest[i].val) {
      PopLevelMembers(fs, rest[i]);
      if rest[i] in fs {
        EscapeFreeMember(fs, rest[i]);
      }
    }
  }

  lemma EscapeFreePopLevel(fs: seq<Member>)
    requires EscapeFreeFields(fs)
    ensures EscapeFreeFields(PopLevel(fs).rest)
    ensures EscapeFreeFields(Field("log.level", PopLevel(fs).level))
  {
    if NestedLevel(fs).Some? {
      EscapeFreeNestedPop(fs);
      EscapeFreeLiteral();
      EscapeFreeOne("log.level", NestedLevel(fs).value);
    } else if "log.level" in Keys(fs) {
      EscapeFreeField(fs, "log.level");
      EscapeFreeRemove(fs, "log.level");
    }
  }

  lemma EscapeFreeOne(k: string, v: Value)
    requires EscapeFree(k) && EscapeFreeValue(v)
    ensures EscapeFreeFields([Member(k, v)])
  {
  }

  /** The promoted keys are written without escapes. */
  lemma EscapeFreeLiteral()
    ensures EscapeFree("@timestamp") && EscapeFree("log.level") && EscapeFree("message")
  {
  }

  lemma EscapeFreeEcsFields(fs: seq<Member>)
    requires EscapeFreeFields(fs)
    ensures EscapeFreeFields(EcsFields(fs))
  {
    var fs' := Remove(fs, "@timestamp");
    var popped := PopLevel(fs');
    var t := Field("@timestamp", Lookup(fs, "@timestamp"));
    var l := Field("log.level", popped.level);
    var m := Field("message", Lookup(popped.rest, "message"));
    EscapeFreeRemove(fs, "@timestamp");
    EscapeFreePopLevel(fs');
    EscapeFreeRemove(popped.rest, "message");
    EscapeFreeLiteral();
    EscapeFreeField(fs, "@timestamp");
    EscapeFreeField(popped.rest, "message");
    EscapeFreeAppend(m, Residual(fs));
    EscapeFreeAppend(l, m + Residual(fs));
    EscapeFreeAppend(t, l + (m + Residual(fs)));
  }

  /** Reading the text back gives the reordered record: nothing is lost or
      altered in writing it. */
  lemma JsonDumpsDecodes(fs: seq<Member>)
    requires EscapeFreeFields(fs)
    ensures Decode(JsonDumps(fs)) == Some(Obj(EcsFields(fs)))
  {
    EscapeFreeEcsFields(fs);
    DecodeEncode(Obj(EcsFields(fs)));
  }
}
