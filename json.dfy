/** Compact JSON text (`separators=(",", ":")`, no whitespace) for values whose
    text needs no escaping, and a strict reader for it that undoes the writer. */
module Json {
  import opened Values

  /** Text that JSON writes verbatim between quotes: printable ASCII other than
      the quote and the backslash. */
  predicate EscapeFree(s: string) {
    forall i :: 0 <= i < |s| ==> ' ' <= s[i] <= '~' && s[i] != '"' && s[i] != '\\'
  }

  /** Every key and every text in `v`, at every depth, needs no escaping. */
  ghost predicate EscapeFreeValue(v: Value)
    decreases v
  {
    match v
    case Str(s) => EscapeFree(s)
    case Arr(items) => forall i :: 0 <= i < |items| ==> EscapeFreeValue(items[i])
    case Obj(fs) => EscapeFreeFields(fs)
    case _ => true
  }

  ghost predicate EscapeFreeFields(fs: seq<Member>)
    decreases fs
  {
    forall i :: 0 <= i < |fs| ==> EscapeFree(fs[i].key) && EscapeFreeValue(fs[i].val)
  }

  predicate IsDigit(c: char) {
    '0' <= c <= '9'
  }

  function DigitChar(d: nat): (c: char)
    requires d < 10
    ensures IsDigit(c) && c as int - '0' as int == d
  {
    ('0' as int + d) as char
  }

  /** Decimal digits of `n`, most significant first, without leading zeros. */
  function NatText(n: nat): (t: string)
    ensures |t| >= 1 && forall i :: 0 <= i < |t| ==> IsDigit(t[i])
    ensures |t| > 1 ==> t[0] != '0'
  {
    if n < 10 then [DigitChar(n)] else NatText(n / 10) + [DigitChar(n % 10)]
  }

  function IntText(i: int): string {
    if i < 0 then "-" + NatText(-i) else NatText(i)
  }

  function Quote(s: string): string {
    "\"" + s + "\""
  }

  /** `json.dumps(v, separators=(",", ":"))` for text needing no escapes. */
  function Encode(v: Value): (r: string)
    ensures |r| >= 1
    decreases v
  {
    match v
    case Str(s) => Quote(s)
    case Int(i) => IntText(i)
    case Bool(b) => if b then "true" else "false"
    case Null => "null"
    case Arr(items) => "[" + EncodeItems(items) + "]"
    case Obj(fs) => "{" + EncodeMembers(fs) + "}"
  }

  function EncodeItems(items: seq<Value>): string
    decreases items
  {
    if items == [] then ""
    else if |items| == 1 then Encode(items[0])
    else Encode(items[0]) + "," + EncodeItems(items[1..])
  }

  function EncodeMember(m: Member): string
    decreases m
  {
    Quote(m.key) + ":" + Encode(m.val)
  }

  function EncodeMembers(fs: seq<Member>): string
    decreases fs
  {
    if fs == [] then ""
    else if |fs| == 1 then EncodeMember(fs[0])
    else EncodeMember(fs[0]) + "," + EncodeMembers(fs[1..])
  }

  // ---------------------------------------------------------------------------
  // The reader: each function takes the text that follows what was already
  // read and gives what it read and the text after it.

  /** Value of a run of decimal digits. */
  function DigitsValue(ds: string): nat
    requires forall i :: 0 <= i < |ds| ==> IsDigit(ds[i])
  {
    if ds == [] then 0
    else
      var d := ds[|ds| - 1];
      assert IsDigit(d);
      DigitsValue(ds[..|ds| - 1]) * 10 + (d as int - '0' as int)
  }

  /** The longest run of digits at the front of `s`. */
  function DigitRun(s: string): (n: nat)
    ensures n <= |s| && forall i :: 0 <= i < n ==> IsDigit(s[i])
    ensures n < |s| ==> !IsDigit(s[n])
  {
    if s != [] && IsDigit(s[0]) then 1 + DigitRun(s[1..]) else 0
  }

  function ReadNat(s: string): (r: Option<(nat, string)>)
    ensures r.Some? ==> |r.value.1| < |s|
  {
    var n := DigitRun(s);
    if n == 0 then None else Some((DigitsValue(s[..n]), s[n..]))
  }

  /** The text up to the next quote, and what follows that quote. */
  function ReadText(s: string): (r: Option<(string, string)>)
    ensures r.Some? ==> |r.value.1| < |s|
  {
    if s == [] then None
    else if s[0] == '"' then Some(("", s[1..]))
    else
      match ReadText(s[1..])
      case None => None
      case Some((t, rest)) => Some(([s[0]] + t, rest))
  }

  function ReadWord(s: string, word: string, v: Value): (r: Option<(Value, string)>)
    requires |word| > 0
    ensures r.Some? ==> |r.value.1| < |s|
  {
    if |word| <= |s| && s[..|word|] == word then Some((v, s[|word|..])) else None
  }

  function ReadValue(s: string): (r: Option<(Value, string)>)
    ensures r.Some? ==> |r.value.1| < |s|
    decreases |s|, 0
  {
    if s == [] then None
    else if s[0] == '"' then
      match ReadText(s[1..])
      case None => None
      case Some((t, rest)) => Some((Str(t), rest))
    else if s[0] == '-' then
      match ReadNat(s[1..])
      case None => None
      case Some((n, rest)) => Some((Int(-(n as int)), rest))
    else if IsDigit(s[0]) then
      match ReadNat(s)
      case None => None
      case Some((n, rest)) => Some((Int(n), rest))
    else if s[0] == 't' then ReadWord(s, "true", Bool(true))
    else if s[0] == 'f' then ReadWord(s, "false", Bool(false))
    else if s[0] == 'n' then ReadWord(s, "null", Null)
    else if s[0] == '[' then
      if |s| > 1 && s[1] == ']' then Some((Arr([]), s[2..]))
      else
        match ReadItems(s[1..])
        case None => None
        case Some((items, rest)) => Some((Arr(items), rest))
    else if s[0] == '{' then
      if |s| > 1 && s[1] == '}' then Some((Obj([]), s[2..]))
      else
        match ReadMembers(s[1..])
        case None => None
        case Some((fs, rest)) => Some((Obj(fs), rest))
    else None
  }

  /** One or more values separated by commas, then the closing bracket. */
  function ReadItems(s: string): (r: Option<(seq<Value>, string)>)
    ensures r.Some? ==> |r.value.1| < |s|
    decreases |s|, 1
  {
    match ReadValue(s)
    case None => None
    case Some((v, rest)) =>
      if rest != [] && rest[0] == ']' then Some(([v], rest[1..]))
      else if rest != [] && rest[0] == ',' then
        match ReadItems(rest[1..])
        case None => None
        case Some((vs, rest')) => Some(([v] + vs, rest'))
      else None
  }

  function ReadMember(s: string): (r: Option<(Member, string)>)
    ensures r.Some? ==> |r.value.1| < |s|
    decreases |s|, 1
  {
    if s == [] || s[0] != '"' then None
    else
      match ReadText(s[1..])
      case None => None
      case Some((k, rest)) =>
        if rest == [] || rest[0] != ':' then None
        else
          match ReadValue(rest[1..])
          case None => None
          case Some((v, rest')) => Some((Member(k, v), rest'))
  }

  /** One or more members separated by commas, then the closing brace. */
  function ReadMembers(s: string): (r: Option<(seq<Member>, string)>)
    ensures r.Some? ==> |r.value.1| < |s|
    decreases |s|, 2
  {
    match ReadMember(s)
    case None => None
    case Some((m, rest)) =>
      if rest != [] && rest[0] == '}' then Some(([m], rest[1..]))
      else if rest != [] && rest[0] == ',' then
        match ReadMembers(rest[1..])
        case None => None
        case Some((ms, rest')) => Some(([m] + ms, rest'))
      else None
  }

  /** The reader parses a whole text into one value. */
  function Decode(s: string): Option<Value> {
    match ReadValue(s)
    case Some((v, rest)) => if rest == [] then Some(v) else None
    case None => None
  }

  // ---------------------------------------------------------------------------
  // The reader undoes the writer.

  /** What may follow a value in the writer's output: nothing, a comma, or a
      closing bracket or brace. */
  predicate Delimited(rest: string) {
    rest == [] || rest[0] == ',' || rest[0] == ']' || rest[0] == '}'
  }

  lemma DigitsValueSnoc(ds: string, d: nat)
    requires forall i :: 0 <= i < |ds| ==> IsDigit(ds[i])
    requires d < 10
    ensures DigitsValue(ds + [DigitChar(d)]) == DigitsValue(ds) * 10 + d
  {
    var s := ds + [DigitChar(d)];
    assert s[..|s| - 1] == ds;
  }

  /** Reading back the decimal text of `n` gives `n`. */
  lemma {:induction false} NatTextValue(n: nat)
    ensures DigitsValue(NatText(n)) == n
  {
    if n < 10 {
      DigitsValueSnoc([], n);
      assert [] + [DigitChar(n)] == NatText(n);
    } else {
      NatTextValue(n / 10);
      DigitsValueSnoc(NatText(n / 10), n % 10);
    }
  }

  /** The digits of `n` are read back as `n` when no digit follows them. */
  lemma ReadNatText(n: nat, rest: string)
    requires rest == [] || !IsDigit(rest[0])
    ensures ReadNat(NatText(n) + rest) == Some((n, rest))
  {
    var t := NatText(n);
    var s := t + rest;
    assert DigitRun(s) == |t| by {
      assert forall i :: 0 <= i < |t| ==> s[i] == t[i];
      assert |s| > |t| ==> s[|t|] == rest[0];
    }
    assert s[..|t|] == t && s[|t|..] == rest;
    NatTextValue(n);
  }

  /** Text needing no escapes is read back up to its closing quote. */
  lemma {:induction false} ReadTextQuoted(t: string, rest: string)
    requires EscapeFree(t)
    ensures ReadText(t + "\"" + rest) == Some((t, rest))
  {
    var s := t + "\"" + rest;
    if t == [] {
      assert s == "\"" + rest;
      assert s[1..] == rest;
    } else {
      assert s[0] == t[0];
      assert s[1..] == t[1..] + "\"" + rest;
      ReadTextQuoted(t[1..], rest);
      assert [t[0]] + t[1..] == t;
    }
  }

  /** The writer's text for a value is never empty and never starts with a
      closing bracket or brace. */
  /** The first character tells the kind of value: `{` a mapping, `[` a list,
      `"` a string, never a closing bracket; a mapping also ends with `}`. */
  lemma EncodeStart(v: Value)
    ensures |Encode(v)| >= 1 && Encode(v)[0] != ']' && Encode(v)[0] != '}'
    ensures Encode(v)[0] == '{' <==> v.Obj?
    ensures Encode(v)[0] == '[' <==> v.Arr?
    ensures Encode(v)[0] == '"' <==> v.Str?
    ensures v.Obj? ==> Encode(v)[|Encode(v)| - 1] == '}'
  {
    match v
    case Int(i) =>
      if i < 0 {
        assert Encode(v)[0] == '-';
      } else {
        assert Encode(v)[0] == NatText(i)[0];
      }
    case _ =>
  }

  /** The reader takes back exactly the text the writer made for `v`, and
      leaves what follows it. */
  lemma {:induction false} ReadEncoded(v: Value, rest: string)
    requires EscapeFreeValue(v) && Delimited(rest)
    ensures ReadValue(Encode(v) + rest) == Some((v, rest))
    decreases v
  {
    match v
    case Str(t) => ReadEncodedStr(t, rest);
    case Int(i) => ReadEncodedInt(i, rest);
    case Bool(b) => ReadEncodedWord(v, rest);
    case Null => ReadEncodedWord(v, rest);
    case Arr(items) =>
      if items == [] {
        assert Encode(v) + rest == "[]" + rest;
      } else {
        ReadEncodedItems(items, rest);
        ReadEncodedArr(items, rest);
      }
    case Obj(fs) =>
      if fs == [] {
        assert Encode(v) + rest == "{}" + rest;
      } else {
        ReadEncodedMembers(fs, rest);
        ReadEncodedObj(fs, rest);
      }
  }

  lemma ReadEncodedStr(t: string, rest: string)
    requires EscapeFree(t)
    ensures ReadValue(Encode(Str(t)) + rest) == Some((Str(t), rest))
  {
    var s := Encode(Str(t)) + rest;
    assert s == "\"" + (t + "\"" + rest);
    assert s[1..] == t + "\"" + rest;
    ReadTextQuoted(t, rest);
  }

  lemma ReadEncodedInt(i: int, rest: string)
    requires Delimited(rest)
    ensures ReadValue(Encode(Int(i)) + rest) == Some((Int(i), rest))
  {
    var s := Encode(Int(i)) + rest;
    if i < 0 {
      assert s == "-" + (NatText(-i) + rest);
      assert s[1..] == NatText(-i) + rest;
      ReadNatText(-i, rest);
    } else {
      assert s[0] == NatText(i)[0];
      ReadNatText(i, rest);
    }
  }

  lemma ReadEncodedWord(v: Value, rest: string)
    requires v.Bool? || v.Null?
    ensures ReadValue(Encode(v) + rest) == Some((v, rest))
  {
    var s := Encode(v) + rest;
    if v == Bool(true) {
      assert s[..4] == "true";
    } else if v == Bool(false) {
      assert s[..5] == "false";
    } else {
      assert s[..4] == "null";
    }
  }

  /** A list's text: an opening bracket, then items up to the closing one. */
  lemma ReadBracketed(inner: string, items: seq<Value>, rest: string)
    requires inner != [] && inner[0] != ']'
    requires ReadItems(inner) == Some((items, rest))
    ensures ReadValue("[" + inner) == Some((Arr(items), rest))
  {
    var s := "[" + inner;
    assert s[0] == '[' && s[1] == inner[0] && s[1..] == inner;
  }

  /** A mapping's text: an opening brace, then members up to the closing one. */
  lemma ReadBraced(inner: string, fs: seq<Member>, rest: string)
    requires inner != [] && inner[0] != '}'
    requires ReadMembers(inner) == Some((fs, rest))
    ensures ReadValue("{" + inner) == Some((Obj(fs), rest))
  {
    var s := "{" + inner;
    assert s[0] == '{' && s[1] == inner[0] && s[1..] == inner;
  }

  lemma Enclosed(open: string, t: string, close: string, rest: string)
    ensures open + t + close + rest == open + (t + close + rest)
  {
    assert open + t + close == open + (t + close);
  }

  lemma ReadEncodedArr(items: seq<Value>, rest: string)
    requires items != []
    requires ReadItems(EncodeItems(items) + "]" + rest) == Some((items, rest))
    ensures ReadValue(Encode(Arr(items)) + rest) == Some((Arr(items), rest))
  {
    var inner := EncodeItems(items) + "]" + rest;
    EncodeStart(items[0]);
    ItemsText(items, rest);
    assert inner[0] == Encode(items[0])[0];
    ReadBracketed(inner, items, rest);
    Enclosed("[", EncodeItems(items), "]", rest);
  }

  lemma ReadEncodedObj(fs: seq<Member>, rest: string)
    requires fs != []
    requires ReadMembers(EncodeMembers(fs) + "}" + rest) == Some((fs, rest))
    ensures ReadValue(Encode(Obj(fs)) + rest) == Some((Obj(fs), rest))
  {
    var inner := EncodeMembers(fs) + "}" + rest;
    if |fs| > 1 {
      MembersTextHead(fs, rest);
    }
    assert inner[0] == EncodeMember(fs[0])[0] == '"';
    ReadBraced(inner, fs, rest);
    Enclosed("{", EncodeMembers(fs), "}", rest);
  }

  lemma {:induction false} ReadEncodedItems(items: seq<Value>, rest: string)
    requires items != []
    requires forall i :: 0 <= i < |items| ==> EscapeFreeValue(items[i])
    ensures ReadItems(EncodeItems(items) + "]" + rest) == Some((items, rest))
    decreases items
  {
    var s := EncodeItems(items) + "]" + rest;
    ItemsText(items, rest);
    if |items| == 1 {
      ReadEncoded(items[0], "]" + rest);
      ReadItemsLast(s, items[0], rest);
      assert [items[0]] == items;
    } else {
      var tail := EncodeItems(items[1..]) + "]" + rest;
      ReadEncoded(items[0], "," + tail);
      ReadEncodedItems(items[1..], rest);
      ReadItemsCons(s, items[0], tail, items[1..], rest);
      assert [items[0]] + items[1..] == items;
    }
  }

  /** The text of a list's items, split after the first item. */
  lemma ItemsText(items: seq<Value>, rest: string)
    requires items != []
    ensures |items| == 1 ==> EncodeItems(items) + "]" + rest == Encode(items[0]) + ("]" + rest)
    ensures |items| > 1 ==>
      EncodeItems(items) + "]" + rest == Encode(items[0]) + ("," + (EncodeItems(items[1..]) + "]" + rest))
  {
    if |items| > 1 {
      Regroup(Encode(items[0]), EncodeItems(items[1..]), "]", rest);
    }
  }

  lemma ReadItemsLast(t: string, v: Value, rest: string)
    requires ReadValue(t) == Some((v, "]" + rest))
    ensures ReadItems(t) == Some(([v], rest))
  {
    assert ("]" + rest)[0] == ']' && ("]" + rest)[1..] == rest;
  }

  lemma ReadItemsCons(t: string, v: Value, after: string, vs: seq<Value>, rest: string)
    requires ReadValue(t) == Some((v, "," + after))
    requires ReadItems(after) == Some((vs, rest))
    ensures ReadItems(t) == Some(([v] + vs, rest))
  {
    assert ("," + after)[0] == ',' && ("," + after)[1..] == after;
  }

  lemma {:induction false} ReadEncodedMember(m: Member, rest: string)
    requires EscapeFree(m.key) && EscapeFreeValue(m.val) && Delimited(rest)
    ensures ReadMember(EncodeMember(m) + rest) == Some((m, rest))
    decreases m
  {
    var after := ":" + Encode(m.val) + rest;
    MemberText(m, rest);
    ReadEncoded(m.val, rest);
    ReadMemberStep(m.key, after, m.val, rest);
  }

  lemma MemberText(m: Member, rest: string)
    ensures EncodeMember(m) + rest == "\"" + (m.key + "\"" + (":" + Encode(m.val) + rest))
    ensures (":" + Encode(m.val) + rest)[1..] == Encode(m.val) + rest
  {
  }

  /** A quoted key, a colon, then a value. */
  lemma ReadMemberStep(key: string, after: string, v: Value, rest: string)
    requires EscapeFree(key)
    requires after != [] && after[0] == ':' && ReadValue(after[1..]) == Some((v, rest))
    ensures ReadMember("\"" + (key + "\"" + after)) == Some((Member(key, v), rest))
  {
    var s := "\"" + (key + "\"" + after);
    assert s[0] == '"' && s[1..] == key + "\"" + after;
    ReadTextQuoted(key, after);
  }

  lemma EscapeFreeTail(fs: seq<Member>)
    requires fs != [] && EscapeFreeFields(fs)
    ensures EscapeFree(fs[0].key) && EscapeFreeValue(fs[0].val) && EscapeFreeFields(fs[1..])
  {
    forall i | 0 <= i < |fs[1..]|
      ensures EscapeFree(fs[1..][i].key) && EscapeFreeValue(fs[1..][i].val)
    {
      assert fs[1..][i] == fs[i + 1];
    }
  }

  lemma ReadMembersLast(t: string, m: Member, rest: string)
    requires ReadMember(t) == Some((m, "}" + rest))
    ensures ReadMembers(t) == Some(([m], rest))
  {
    assert ("}" + rest)[0] == '}' && ("}" + rest)[1..] == rest;
  }

  lemma ReadMembersCons(t: string, m: Member, after: string, ms: seq<Member>, rest: string)
    requires ReadMember(t) == Some((m, "," + after))
    requires ReadMembers(after) == Some((ms, rest))
    ensures ReadMembers(t) == Some(([m] + ms, rest))
  {
    assert ("," + after)[0] == ',' && ("," + after)[1..] == after;
  }

  lemma {:induction false} ReadEncodedMembers(fs: seq<Member>, rest: string)
    requires fs != [] && EscapeFreeFields(fs)
    ensures ReadMembers(EncodeMembers(fs) + "}" + rest) == Some((fs, rest))
    decreases fs
  {
    var s := EncodeMembers(fs) + "}" + rest;
    EscapeFreeTail(fs);
    if |fs| == 1 {
      ReadEncodedLast(fs, rest);
    } else {
      var tail := EncodeMembers(fs[1..]) + "}" + rest;
      MembersTextHead(fs, rest);
      assert Delimited("," + tail);
      ReadEncodedMember(fs[0], "," + tail);
      ReadEncodedMembers(fs[1..], rest);
      ReadMembersCons(s, fs[0], tail, fs[1..], rest);
      assert [fs[0]] + fs[1..] == fs;
    }
  }

  lemma {:induction false} ReadEncodedLast(fs: seq<Member>, rest: string)
    requires |fs| == 1 && EscapeFree(fs[0].key) && EscapeFreeValue(fs[0].val)
    ensures ReadMembers(EncodeMembers(fs) + "}" + rest) == Some((fs, rest))
    decreases fs, 0
  {
    var s := EncodeMembers(fs) + "}" + rest;
    assert s == EncodeMember(fs[0]) + ("}" + rest);
    assert Delimited("}" + rest);
    ReadEncodedMember(fs[0], "}" + rest);
    ReadMembersLast(s, fs[0], rest);
    assert [fs[0]] == fs;
  }

  lemma MembersTextHead(fs: seq<Member>, rest: string)
    requires |fs| > 1
    ensures EncodeMembers(fs) + "}" + rest == EncodeMember(fs[0]) + ("," + (EncodeMembers(fs[1..]) + "}" + rest))
  {
    var a := EncodeMember(fs[0]);
    var t := EncodeMembers(fs[1..]);
    assert EncodeMembers(fs) == a + "," + t;
    Regroup(a, t, "}", rest);
  }

  lemma Regroup(a: string, t: string, close: string, rest: string)
    ensures a + "," + t + close + rest == a + ("," + (t + close + rest))
  {
    var x := a + ",";
    assert x + t + close + rest == x + (t + close + rest) by {
      assert x + t + close == x + (t + close);
    }
  }

  /** `Decode` inverts `Encode` on every value whose text needs no escapes. */
  lemma DecodeEncode(v: Value)
    requires EscapeFreeValue(v)
    ensures Decode(Encode(v)) == Some(v)
  {
    ReadEncoded(v, "");
    assert Encode(v) + "" == Encode(v);
  }
}
