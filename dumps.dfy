/** The `json_dumps` records of the utilities' test module, each worked
    through the model: first the output fields, then their text. */
module DumpCases {
  import opened Values
  import opened Json
  import opened EcsJson

  // ---------------------------------------------------------------------------
  // Output fields.

  /** The four steps that make up the output fields, one at a time. */
  lemma EcsFieldsOf(fs: seq<Member>, ts: Option<Value>, popped: Popped, msg: Option<Value>, residual: seq<Member>)
    requires Lookup(fs, "@timestamp") == ts
    requires PopLevel(Remove(fs, "@timestamp")) == popped
    requires Lookup(popped.rest, "message") == msg
    requires Remove(popped.rest, "message") == residual
    ensures EcsFields(fs)
         == Field("@timestamp", ts) + Field("log.level", popped.level) + Field("message", msg) + residual
  {
    RegroupFields(Field("@timestamp", ts), Field("log.level", popped.level), Field("message", msg), residual);
  }

  /** `{"log": {"level": v}}` gives `{"log.level": v}`. */
  lemma NestedLevelOnly(v: Value)
    ensures EcsFields([Member("log", Obj([Member("level", v)]))]) == [Member("log.level", v)]
  {
    var fs := [Member("log", Obj([Member("level", v)]))];
    assert Remove(fs, "@timestamp") == fs;
    assert NestedLevel(fs) == Some(v);
    assert Remove([Member("level", v)], "level") == [];
    assert Remove(fs, "log") == [];
    EcsFieldsOf(fs, None, Popped(Some(v), []), None, []);
  }

  /** `{"log.level": v}` is kept as it is. */
  lemma DottedLevelOnly(v: Value)
    ensures EcsFields([Member("log.level", v)]) == [Member("log.level", v)]
  {
    var fs := [Member("log.level", v)];
    assert Remove(fs, "@timestamp") == fs;
    assert Lookup(fs, "log") == None;
    assert Remove(fs, "log.level") == [];
    EcsFieldsOf(fs, None, Popped(Some(v), []), None, []);
  }

  /** `{"@timestamp": v}` is kept as it is. */
  lemma TimestampOnly(v: Value)
    ensures EcsFields([Member("@timestamp", v)]) == [Member("@timestamp", v)]
  {
    var fs := [Member("@timestamp", v)];
    assert Remove(fs, "@timestamp") == [];
    EcsFieldsOf(fs, Some(v), Popped(None, []), None, []);
  }

  /** `{"message": v}` is kept as it is, whatever the value. */
  lemma MessageOnly(v: Value)
    ensures EcsFields([Member("message", v)]) == [Member("message", v)]
  {
    var fs := [Member("message", v)];
    assert Remove(fs, "@timestamp") == fs;
    assert Lookup(fs, "log") == None;
    assert Remove(fs, "message") == [];
    EcsFieldsOf(fs, None, Popped(None, fs), Some(v), []);
  }

  function Ts(): Member { Member("@timestamp", Str("2021-01-01...")) }
  function Level(): Member { Member("log.level", Str("info")) }
  function Msg(): Member { Member("message", Str("hello")) }
  function LogMsg(): Member { Member("log", Obj([Msg()])) }

  /** `{"log": {"level": "info", "message": "hello"}}`: `level` is promoted
      and `message` stays in the `log` mapping. */
  function SplitLog(): seq<Member> {
    [Member("log", Obj([Member("level", Str("info")), Msg()]))]
  }

  lemma SplitLogFields()
    ensures EcsFields(SplitLog()) == [Level()] + [LogMsg()]
  {
    var fs := SplitLog();
    assert Remove(fs, "@timestamp") == fs;
    assert Remove([Member("level", Str("info")), Msg()], "level") == [Msg()];
    assert Update(fs, "log", Obj([Msg()])) == [LogMsg()];
    assert PopLevel(fs) == Popped(Some(Str("info")), [LogMsg()]);
    EcsFieldsOf(fs, None, Popped(Some(Str("info")), [LogMsg()]), None, [LogMsg()]);
  }

  /** `{"log": {"message": "hello"}, "message": "hello"}`: `message` comes
      before the `log` mapping that preceded it. */
  function MessageAfterLog(): seq<Member> {
    [LogMsg(), Msg()]
  }

  lemma MessageAfterLogFields()
    ensures EcsFields(MessageAfterLog()) == [Msg()] + [LogMsg()]
  {
    var fs := MessageAfterLog();
    assert Remove(fs, "@timestamp") == fs;
    assert NestedLevel(fs) == None;
    assert Remove(fs, "log.level") == fs;
    LogThenMessage();
    EcsFieldsOf(fs, None, Popped(None, fs), Some(Str("hello")), [LogMsg()]);
  }

  lemma LogThenMessage()
    ensures Lookup([LogMsg(), Msg()], "message") == Some(Str("hello"))
    ensures Remove([LogMsg(), Msg()], "message") == [LogMsg()]
  {
  }

  /** The record of lines 73-80: fields come out in the fixed order whatever
      the input order. */
  function FullRecord(): seq<Member> {
    [Member("log", Obj([Msg(), Member("level", Str("info"))])), Msg(), Ts()]
  }

  lemma FullRecordPop()
    ensures PopLevel(Remove(FullRecord(), "@timestamp")) == Popped(Some(Str("info")), [LogMsg(), Msg()])
  {
    var log := Member("log", Obj([Msg(), Member("level", Str("info"))]));
    FullRecordNoTimestamp();
    LevelOut();
    LogUpdated();
    assert NestedLevel([log, Msg()]) == Some(Str("info"));
  }

  lemma FullRecordNoTimestamp()
    ensures Remove(FullRecord(), "@timestamp")
         == [Member("log", Obj([Msg(), Member("level", Str("info"))])), Msg()]
  {
    var log := Member("log", Obj([Msg(), Member("level", Str("info"))]));
    assert Remove([Ts()], "@timestamp") == [];
    assert Remove([Msg(), Ts()], "@timestamp") == [Msg()];
  }

  lemma LevelOut()
    ensures Remove([Msg(), Member("level", Str("info"))], "level") == [Msg()]
  {
  }

  lemma LogUpdated()
    ensures Update([Member("log", Obj([Msg(), Member("level", Str("info"))])), Msg()], "log", Obj([Msg()]))
         == [LogMsg(), Msg()]
  {
  }

  lemma FieldsChain(a: Member, b: Member, c: Member, r: seq<Member>)
    ensures Field(a.key, Some(a.val)) + Field(b.key, Some(b.val)) + Field(c.key, Some(c.val)) + r
         == [a] + ([b] + ([c] + r))
  {
  }

  lemma FullRecordShape(fs: seq<Member>)
    requires Lookup(fs, "@timestamp") == Some(Ts().val)
    requires PopLevel(Remove(fs, "@timestamp")) == Popped(Some(Str("info")), [LogMsg(), Msg()])
    ensures EcsFields(fs) == [Ts()] + ([Level()] + ([Msg()] + [LogMsg()]))
  {
    LogThenMessage();
    EcsFieldsOf(fs, Some(Ts().val), Popped(Some(Str("info")), [LogMsg(), Msg()]), Some(Str("hello")), [LogMsg()]);
    FieldsChain(Ts(), Level(), Msg(), [LogMsg()]);
  }

  lemma FullRecordFields()
    ensures EcsFields(FullRecord()) == [Ts()] + ([Level()] + ([Msg()] + [LogMsg()]))
  {
    assert Lookup(FullRecord(), "@timestamp") == Some(Ts().val);
    FullRecordPop();
    FullRecordShape(FullRecord());
  }

  /** The record of lines 81-88: a `log` mapping holding only `level` leaves
      no `log` behind. */
  function LevelOnlyLog(): seq<Member> {
    [Member("log", Obj([Member("level", Str("info"))])), Msg(), Ts()]
  }

  lemma LevelOnlyLogPop()
    ensures PopLevel(Remove(LevelOnlyLog(), "@timestamp")) == Popped(Some(Str("info")), [Msg()])
  {
    var log := Member("log", Obj([Member("level", Str("info"))]));
    LevelOnlyNoTimestamp();
    assert Remove([Member("level", Str("info"))], "level") == [];
    LevelOnlyLogOut();
    assert NestedLevel([log, Msg()]) == Some(Str("info"));
  }

  lemma LevelOnlyNoTimestamp()
    ensures Remove(LevelOnlyLog(), "@timestamp") == [Member("log", Obj([Member("level", Str("info"))])), Msg()]
  {
    assert Remove([Ts()], "@timestamp") == [];
    assert Remove([Msg(), Ts()], "@timestamp") == [Msg()];
  }

  lemma LevelOnlyLogOut()
    ensures Remove([Member("log", Obj([Member("level", Str("info"))])), Msg()], "log") == [Msg()]
  {
  }

  lemma LevelOnlyLogShape(fs: seq<Member>)
    requires Lookup(fs, "@timestamp") == Some(Ts().val)
    requires PopLevel(Remove(fs, "@timestamp")) == Popped(Some(Str("info")), [Msg()])
    ensures EcsFields(fs) == [Ts()] + ([Level()] + [Msg()])
  {
    assert Remove([Msg()], "message") == [];
    EcsFieldsOf(fs, Some(Ts().val), Popped(Some(Str("info")), [Msg()]), Some(Str("hello")), []);
    FieldsChain(Ts(), Level(), Msg(), []);
    assert [Msg()] + [] == [Msg()];
  }

  lemma LevelOnlyLogFields()
    ensures EcsFields(LevelOnlyLog()) == [Ts()] + ([Level()] + [Msg()])
  {
    assert Lookup(LevelOnlyLog(), "@timestamp") == Some(Ts().val);
    LevelOnlyLogPop();
    LevelOnlyLogShape(LevelOnlyLog());
  }

  // ---------------------------------------------------------------------------
  // Text.

  lemma AppendAssoc<T>(x: seq<T>, y: seq<T>, z: seq<T>)
    ensures x + (y + z) == x + y + z
  {
  }

  lemma ObjText(fs: seq<Member>, t: string)
    requires EncodeMembers(fs) == t
    ensures Encode(Obj(fs)) == "{" + t + "}"
  {
  }

  lemma MembersOne(m: Member, a: string)
    requires EncodeMember(m) == a
    ensures EncodeMembers([m]) == a
  {
  }

  lemma MembersCons(m: Member, rest: seq<Member>, a: string, t: string)
    requires rest != [] && EncodeMember(m) == a && EncodeMembers(rest) == t
    ensures EncodeMembers([m] + rest) == a + "," + t
  {
    assert ([m] + rest)[0] == m && ([m] + rest)[1..] == rest;
  }

  lemma ObjTextOne(m: Member, a: string)
    requires EncodeMember(m) == a
    ensures Encode(Obj([m])) == "{" + a + "}"
  {
    MembersOne(m, a);
    ObjText([m], a);
  }

  lemma ObjTextTwo(m1: Member, m2: Member, a: string, b: string)
    requires EncodeMember(m1) == a && EncodeMember(m2) == b
    ensures Encode(Obj([m1] + [m2])) == "{" + a + "," + b + "}"
  {
    MembersOne(m2, b);
    MembersCons(m1, [m2], a, b);
    ObjText([m1] + [m2], a + "," + b);
  }

  lemma MembersThree(m1: Member, m2: Member, m3: Member, a: string, b: string, c: string)
    requires EncodeMember(m1) == a && EncodeMember(m2) == b && EncodeMember(m3) == c
    ensures EncodeMembers([m1] + ([m2] + [m3])) == a + "," + b + "," + c
  {
    MembersOne(m3, c);
    MembersCons(m2, [m3], b, c);
    MembersCons(m1, [m2] + [m3], a, b + "," + c);
    AppendAssoc(a + ",", b + ",", c);
    AppendAssoc(a + ",", b, ",");
  }

  lemma ObjTextThree(m1: Member, m2: Member, m3: Member, a: string, b: string, c: string)
    requires EncodeMember(m1) == a && EncodeMember(m2) == b && EncodeMember(m3) == c
    ensures Encode(Obj([m1] + ([m2] + [m3]))) == "{" + a + "," + b + "," + c + "}"
  {
    MembersThree(m1, m2, m3, a, b, c);
    ObjText([m1] + ([m2] + [m3]), a + "," + b + "," + c);
  }

  lemma CommaFour(a: string, b: string, c: string, d: string)
    ensures a + "," + (b + "," + c + "," + d) == a + "," + b + "," + c + "," + d
  {
    var x := a + ",";
    AppendAssoc(x, b + "," + c + ",", d);
    AppendAssoc(x, b + "," + c, ",");
    AppendAssoc(x, b + ",", c);
    AppendAssoc(x, b, ",");
  }

  lemma MembersFour(m1: Member, m2: Member, m3: Member, m4: Member, a: string, b: string, c: string, d: string)
    requires EncodeMember(m1) == a && EncodeMember(m2) == b && EncodeMember(m3) == c && EncodeMember(m4) == d
    ensures EncodeMembers([m1] + ([m2] + ([m3] + [m4]))) == a + "," + b + "," + c + "," + d
  {
    MembersThree(m2, m3, m4, b, c, d);
    MembersCons(m1, [m2] + ([m3] + [m4]), a, b + "," + c + "," + d);
    CommaFour(a, b, c, d);
  }

  lemma ObjTextFour(m1: Member, m2: Member, m3: Member, m4: Member, a: string, b: string, c: string, d: string)
    requires EncodeMember(m1) == a && EncodeMember(m2) == b && EncodeMember(m3) == c && EncodeMember(m4) == d
    ensures Encode(Obj([m1] + ([m2] + ([m3] + [m4])))) == "{" + a + "," + b + "," + c + "," + d + "}"
  {
    MembersFour(m1, m2, m3, m4, a, b, c, d);
    ObjText([m1] + ([m2] + ([m3] + [m4])), a + "," + b + "," + c + "," + d);
    AppendAssoc("{", a + "," + b + "," + c + ",", d);
    AppendAssoc("{", a + "," + b + "," + c, ",");
    AppendAssoc("{", a + "," + b + ",", c);
    AppendAssoc("{", a + "," + b, ",");
    AppendAssoc("{", a + ",", b);
    AppendAssoc("{", a, ",");
  }

  lemma TsText()
    ensures EncodeMember(Ts()) == "\"@timestamp\":\"2021-01-01...\""
  {
  }

  lemma LevelText()
    ensures EncodeMember(Level()) == "\"log.level\":\"info\""
  {
  }

  lemma MsgText()
    ensures EncodeMember(Msg()) == "\"message\":\"hello\""
  {
  }

  lemma LogMsgText()
    ensures EncodeMember(LogMsg()) == "\"log\":{\"message\":\"hello\"}"
  {
  }

  lemma MsgIntText()
    ensures EncodeMember(Member("message", Int(1))) == "\"message\":1"
  {
  }

  lemma MsgListText()
    ensures EncodeMember(Member("message", Arr([Str("hello")]))) == "\"message\":[\"hello\"]"
  {
  }

  lemma MsgMappingText()
    ensures EncodeMember(Member("message", Obj([Member("key", Str("val"))]))) == "\"message\":{\"key\":\"val\"}"
  {
  }

  lemma CustomText()
    ensures EncodeMember(Member("custom", Str("value"))) == "\"custom\":\"value\""
  {
  }

  // ---------------------------------------------------------------------------
  // The records of the test, lines 55-88.

  lemma DumpsEmpty()
    ensures JsonDumps([]) == "{}"
  {
    assert EcsFields([]) == [];
  }

  lemma LevelLiteral()
    ensures "{" + "\"log.level\":\"info\"" + "}"
         == "{\"log.level\":\"info\"}"
  {
    assert "{" + "\"log.level\":\"info\"" == "{\"log.level\":\"info\"";
  }

  /** `{"log": {"level": "info"}}` (line 56). */
  lemma DumpsNestedLevel()
    ensures JsonDumps([Member("log", Obj([Member("level", Str("info"))]))])
         == "{\"log.level\":\"info\"}"
  {
    NestedLevelOnly(Str("info"));
    LevelText();
    ObjTextOne(Level(), "\"log.level\":\"info\"");
    LevelLiteral();
  }

  /** `{"log.level": "info"}` (lines 57 and 68). */
  lemma DumpsDottedLevel()
    ensures JsonDumps([Level()])
         == "{\"log.level\":\"info\"}"
  {
    DottedLevelOnly(Str("info"));
    LevelText();
    ObjTextOne(Level(), "\"log.level\":\"info\"");
    LevelLiteral();
  }

  lemma SplitLogPrefix3()
    ensures "{" + "\"log.level\":\"info\"" + ","
         == "{\"log.level\":\"info\","
  {
    assert "{" + "\"log.level\":\"info\"" == "{\"log.level\":\"info\"";
  }

  lemma SplitLogLiteral()
    ensures "{" + "\"log.level\":\"info\"" + "," + "\"log\":{\"message\":\"hello\"}" + "}"
         == "{\"log.level\":\"info\",\"log\":{\"message\":\"hello\"}}"
  {
    SplitLogPrefix3();
    assert "{\"log.level\":\"info\"," + "\"log\":{\"message\":\"hello\"}" == "{\"log.level\":\"info\",\"log\":{\"message\":\"hello\"}";
  }

  /** `{"log": {"level": "info", "message": "hello"}}` (lines 58-61). */
  lemma DumpsSplitLog()
    ensures JsonDumps(SplitLog())
         == "{\"log.level\":\"info\",\"log\":{\"message\":\"hello\"}}"
  {
    SplitLogFields();
    LevelText();
    LogMsgText();
    ObjTextTwo(Level(), LogMsg(), "\"log.level\":\"info\"", "\"log\":{\"message\":\"hello\"}");
    SplitLogLiteral();
  }

  lemma TimestampLiteral()
    ensures "{" + "\"@timestamp\":\"2021-01-01...\"" + "}"
         == "{\"@timestamp\":\"2021-01-01...\"}"
  {
    assert "{" + "\"@timestamp\":\"2021-01-01...\"" == "{\"@timestamp\":\"2021-01-01...\"";
  }

  /** `{"@timestamp": "2021-01-01..."}` (line 62). */
  lemma DumpsTimestamp()
    ensures JsonDumps([Ts()])
         == "{\"@timestamp\":\"2021-01-01...\"}"
  {
    TimestampOnly(Str("2021-01-01..."));
    TsText();
    ObjTextOne(Ts(), "\"@timestamp\":\"2021-01-01...\"");
    TimestampLiteral();
  }

  lemma MessageLiteral()
    ensures "{" + "\"message\":\"hello\"" + "}"
         == "{\"message\":\"hello\"}"
  {
    assert "{" + "\"message\":\"hello\"" == "{\"message\":\"hello\"";
  }

  /** `{"message": "hello"}` (line 63). */
  lemma DumpsMessage()
    ensures JsonDumps([Msg()])
         == "{\"message\":\"hello\"}"
  {
    MessageOnly(Str("hello"));
    MsgText();
    ObjTextOne(Msg(), "\"message\":\"hello\"");
    MessageLiteral();
  }

  lemma MessageIntLiteral()
    ensures "{" + "\"message\":1" + "}"
         == "{\"message\":1}"
  {
    assert "{" + "\"message\":1" == "{\"message\":1";
  }

  /** `{"message": 1}` (line 64). */
  lemma DumpsMessageInt()
    ensures JsonDumps([Member("message", Int(1))])
         == "{\"message\":1}"
  {
    MessageOnly(Int(1));
    MsgIntText();
    ObjTextOne(Member("message", Int(1)), "\"message\":1");
    MessageIntLiteral();
  }

  lemma MessageListLiteral()
    ensures "{" + "\"message\":[\"hello\"]" + "}"
         == "{\"message\":[\"hello\"]}"
  {
    assert "{" + "\"message\":[\"hello\"]" == "{\"message\":[\"hello\"]";
  }

  /** `{"message": ["hello"]}` (line 65). */
  lemma DumpsMessageList()
    ensures JsonDumps([Member("message", Arr([Str("hello")]))])
         == "{\"message\":[\"hello\"]}"
  {
    MessageOnly(Arr([Str("hello")]));
    MsgListText();
    ObjTextOne(Member("message", Arr([Str("hello")])), "\"message\":[\"hello\"]");
    MessageListLiteral();
  }

  lemma MessageMappingLiteral()
    ensures "{" + "\"message\":{\"key\":\"val\"}" + "}"
         == "{\"message\":{\"key\":\"val\"}}"
  {
    assert "{" + "\"message\":{\"key\":\"val\"}" == "{\"message\":{\"key\":\"val\"}";
  }

  /** `{"message": {"key": "val"}}` (line 66). */
  lemma DumpsMessageMapping()
    ensures JsonDumps([Member("message", Obj([Member("key", Str("val"))]))])
         == "{\"message\":{\"key\":\"val\"}}"
  {
    MessageOnly(Obj([Member("key", Str("val"))]));
    MsgMappingText();
    ObjTextOne(Member("message", Obj([Member("key", Str("val"))])), "\"message\":{\"key\":\"val\"}");
    MessageMappingLiteral();
  }

  lemma CustomLiteral()
    ensures "{" + "\"custom\":\"value\"" + "}"
         == "{\"custom\":\"value\"}"
  {
    assert "{" + "\"custom\":\"value\"" == "{\"custom\":\"value\"";
  }

  /** `{"custom": "value"}` (line 67). */
  lemma CustomFields()
    ensures EcsFields([Member("custom", Str("value"))]) == [Member("custom", Str("value"))]
  {
    PlainRecordUnchanged([Member("custom", Str("value"))]);
  }

  lemma DumpsCustom()
    ensures JsonDumps([Member("custom", Str("value"))])
         == "{\"custom\":\"value\"}"
  {
    CustomFields();
    CustomText();
    ObjTextOne(Member("custom", Str("value")), "\"custom\":\"value\"");
    CustomLiteral();
  }

  lemma MessageAfterLogPrefix3()
    ensures "{" + "\"message\":\"hello\"" + ","
         == "{\"message\":\"hello\","
  {
    assert "{" + "\"message\":\"hello\"" == "{\"message\":\"hello\"";
  }

  lemma MessageAfterLogLiteral()
    ensures "{" + "\"message\":\"hello\"" + "," + "\"log\":{\"message\":\"hello\"}" + "}"
         == "{\"message\":\"hello\",\"log\":{\"message\":\"hello\"}}"
  {
    MessageAfterLogPrefix3();
    assert "{\"message\":\"hello\"," + "\"log\":{\"message\":\"hello\"}" == "{\"message\":\"hello\",\"log\":{\"message\":\"hello\"}";
  }

  /** `{"log": {"message": "hello"}, "message": "hello"}` (lines 69-72). */
  lemma DumpsMessageAfterLog()
    ensures JsonDumps(MessageAfterLog())
         == "{\"message\":\"hello\",\"log\":{\"message\":\"hello\"}}"
  {
    MessageAfterLogFields();
    MsgText();
    LogMsgText();
    ObjTextTwo(Msg(), LogMsg(), "\"message\":\"hello\"", "\"log\":{\"message\":\"hello\"}");
    MessageAfterLogLiteral();
  }

  lemma RecordPrefix3()
    ensures "{" + "\"@timestamp\":\"2021-01-01...\"" + ","
         == "{\"@timestamp\":\"2021-01-01...\","
  {
    assert "{" + "\"@timestamp\":\"2021-01-01...\"" == "{\"@timestamp\":\"2021-01-01...\"";
  }

  lemma RecordPrefix5()
    ensures "{" + "\"@timestamp\":\"2021-01-01...\"" + "," + "\"log.level\":\"info\"" + ","
         == "{\"@timestamp\":\"2021-01-01...\",\"log.level\":\"info\","
  {
    RecordPrefix3();
    assert "{\"@timestamp\":\"2021-01-01...\"," + "\"log.level\":\"info\"" == "{\"@timestamp\":\"2021-01-01...\",\"log.level\":\"info\"";
  }

  lemma RecordPrefix7()
    ensures "{" + "\"@timestamp\":\"2021-01-01...\"" + "," + "\"log.level\":\"info\"" + "," + "\"message\":\"hello\"" + ","
         == "{\"@timestamp\":\"2021-01-01...\",\"log.level\":\"info\",\"message\":\"hello\","
  {
    RecordPrefix5();
    assert "{\"@timestamp\":\"2021-01-01...\",\"log.level\":\"info\"," + "\"message\":\"hello\"" == "{\"@timestamp\":\"2021-01-01...\",\"log.level\":\"info\",\"message\":\"hello\"";
  }

  lemma FullRecordLiteral()
    ensures "{" + "\"@timestamp\":\"2021-01-01...\"" + "," + "\"log.level\":\"info\"" + "," + "\"message\":\"hello\"" + "," + "\"log\":{\"message\":\"hello\"}" + "}"
         == "{\"@timestamp\":\"2021-01-01...\",\"log.level\":\"info\",\"message\":\"hello\",\"log\":{\"message\":\"hello\"}}"
  {
    RecordPrefix7();
    assert "{\"@timestamp\":\"2021-01-01...\",\"log.level\":\"info\",\"message\":\"hello\"," + "\"log\":{\"message\":\"hello\"}" == "{\"@timestamp\":\"2021-01-01...\",\"log.level\":\"info\",\"message\":\"hello\",\"log\":{\"message\":\"hello\"}";
  }

  /** The record of lines 73-80. */
  lemma DumpsFullRecord()
    ensures JsonDumps(FullRecord())
         == "{\"@timestamp\":\"2021-01-01...\",\"log.level\":\"info\",\"message\":\"hello\",\"log\":{\"message\":\"hello\"}}"
  {
    FullRecordFields();
    TsText();
    LevelText();
    MsgText();
    LogMsgText();
    ObjTextFour(Ts(), Level(), Msg(), LogMsg(), "\"@timestamp\":\"2021-01-01...\"", "\"log.level\":\"info\"", "\"message\":\"hello\"", "\"log\":{\"message\":\"hello\"}");
    FullRecordLiteral();
  }

  lemma LevelOnlyLogLiteral()
    ensures "{" + "\"@timestamp\":\"2021-01-01...\"" + "," + "\"log.level\":\"info\"" + "," + "\"message\":\"hello\"" + "}"
         == "{\"@timestamp\":\"2021-01-01...\",\"log.level\":\"info\",\"message\":\"hello\"}"
  {
    RecordPrefix5();
    assert "{\"@timestamp\":\"2021-01-01...\",\"log.level\":\"info\"," + "\"message\":\"hello\"" == "{\"@timestamp\":\"2021-01-01...\",\"log.level\":\"info\",\"message\":\"hello\"";
  }

  /** The record of lines 81-88. */
  lemma DumpsLevelOnlyLog()
    ensures JsonDumps(LevelOnlyLog())
         == "{\"@timestamp\":\"2021-01-01...\",\"log.level\":\"info\",\"message\":\"hello\"}"
  {
    LevelOnlyLogFields();
    TsText();
    LevelText();
    MsgText();
    ObjTextThree(Ts(), Level(), Msg(), "\"@timestamp\":\"2021-01-01...\"", "\"log.level\":\"info\"", "\"message\":\"hello\"");
    LevelOnlyLogLiteral();
  }
}
