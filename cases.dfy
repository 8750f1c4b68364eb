/** The concrete records of the utilities' test module, each worked through the
    model. */
module TestCases {
  import opened Values
  import opened Paths
  import opened Flattening
  import opened DeDotting
  import opened Normalizing

  // ---------------------------------------------------------------------------
  // Small steps of evaluation.

  lemma JoinTwo(a: string, b: string)
    ensures Join([a, b]) == a + "." + b
  {
    assert [a, b][1..] == [b];
  }

  lemma JoinThree(a: string, b: string, c: string)
    ensures Join([a, b, c]) == a + "." + b + "." + c
  {
    assert [a, b, c][1..] == [b, c];
    JoinTwo(b, c);
  }

  // ---------------------------------------------------------------------------
  // flatten_dict

  /** `{"a": {"b": 1}, "a.c": {"d.e": {"f": 1}, "d.e.g": [{"f.c": 2}]}}` */
  function Sample(): seq<Member> {
    [ Member("a", Obj([Member("b", Int(1))])),
      Member("a.c", Obj([ Member("d.e", Obj([Member("f", Int(1))])),
                          Member("d.e.g", Arr([Obj([Member("f.c", Int(2))])])) ])) ]
  }

  /** The list under `"d.e.g"`, whose mapping keeps its dotted key. */
  function SampleList(): Value {
    Arr([Obj([Member("f.c", Int(2))])])
  }

  function SampleFlat(): seq<Member> {
    [ Member("a.b", Int(1)),
      Member("a.c.d.e.f", Int(1)),
      Member("a.c.d.e.g", SampleList()) ]
  }

  lemma SampleLeavesA()
    ensures Leaves([], [Member("a", Obj([Member("b", Int(1))]))]) == [Member("a.b", Int(1))]
  {
    var a := Member("a", Obj([Member("b", Int(1))]));
    LeavesOne([], a);
    LeavesOne(["a"], Member("b", Int(1)));
    assert [] + ["a"] + ["b"] == ["a", "b"];
    JoinTwo("a", "b");
    assert "a" + "." + "b" == "a.b";
  }

  lemma SampleLeavesE()
    ensures Leaves(["a.c"], [Member("d.e", Obj([Member("f", Int(1))]))]) == [Member("a.c.d.e.f", Int(1))]
  {
    LeavesOne(["a.c"], Member("d.e", Obj([Member("f", Int(1))])));
    assert ["a.c"] + ["d.e"] == ["a.c", "d.e"];
    LeavesOne(["a.c", "d.e"], Member("f", Int(1)));
    assert ["a.c", "d.e"] + ["f"] == ["a.c", "d.e", "f"];
    JoinThree("a.c", "d.e", "f");
    assert "a.c" + "." + "d.e" + "." + "f" == "a.c.d.e.f";
  }

  lemma SampleLeavesG()
    ensures Leaves(["a.c"], [Member("d.e.g", SampleList())]) == [Member("a.c.d.e.g", SampleList())]
  {
    LeavesOne(["a.c"], Member("d.e.g", SampleList()));
    assert ["a.c"] + ["d.e.g"] == ["a.c", "d.e.g"];
    JoinTwo("a.c", "d.e.g");
    assert "a.c" + "." + "d.e.g" == "a.c.d.e.g";
  }

  lemma SampleLeavesAC()
    ensures Leaves([], [Member("a.c", Obj([ Member("d.e", Obj([Member("f", Int(1))])),
                                            Member("d.e.g", SampleList()) ]))])
         == [Member("a.c.d.e.f", Int(1)), Member("a.c.d.e.g", SampleList())]
  {
    var e := Member("d.e", Obj([Member("f", Int(1))]));
    var g := Member("d.e.g", SampleList());
    LeavesOne([], Member("a.c", Obj([e, g])));
    assert [] + ["a.c"] == ["a.c"];
    assert [e, g] == [e] + [g];
    LeavesAppend(["a.c"], [e], [g]);
    SampleLeavesE();
    SampleLeavesG();
  }

  lemma SampleLeaves()
    ensures Leaves([], Sample()) == SampleFlat()
  {
    var a := Member("a", Obj([Member("b", Int(1))]));
    var ac := Member("a.c", Obj([ Member("d.e", Obj([Member("f", Int(1))])),
                                  Member("d.e.g", SampleList()) ]));
    assert Sample() == [a] + [ac];
    LeavesAppend([], [a], [ac]);
    SampleLeavesA();
    SampleLeavesAC();
  }

  /** Nested and dotted keys alike end up as full paths; the list is a leaf. */
  lemma FlattenSample()
    ensures Flatten(Sample()) == Ok(SampleFlat())
  {
    SampleLeaves();
    SampleFlatUnique();
  }

  /** The three full paths of the sample are distinct. */
  lemma SampleFlatUnique()
    ensures UniqueKeys(SampleFlat())
  {
    var fs := SampleFlat();
    assert fs[0].key[1..] == ".b" && fs[1].key[1..] == ".c.d.e.f" && fs[2].key[1..] == ".c.d.e.g";
    assert fs[0].key != fs[1].key by { assert |fs[0].key| != |fs[1].key|; }
    assert fs[0].key != fs[2].key by { assert |fs[0].key| != |fs[2].key|; }
    assert fs[1].key != fs[2].key by { assert fs[1].key[8] != fs[2].key[8]; }
  }

  /** `{"a": {"b": 1}, "a.b": 2}` is refused, naming `a.b`. */
  lemma FlattenNestedAgainstDotted()
    ensures Flatten([Member("a", Obj([Member("b", Int(1))])), Member("a.b", Int(2))])
         == Err(DuplicateEntry("a.b"))
  {
    var a := Member("a", Obj([Member("b", Int(1))]));
    var ab := Member("a.b", Int(2));
    LeavesCons([], a, [ab]);
    LeavesOne(["a"], Member("b", Int(1)));
    assert [] + ["a"] + ["b"] == ["a", "b"];
    JoinTwo("a", "b");
    assert "a" + "." + "b" == "a.b";
    LeavesOne([], ab);
    assert [] + ["a.b"] == ["a.b"];
    var ls := Leaves([], [a, ab]);
    assert ls == [Member("a.b", Int(1)), Member("a.b", Int(2))];
    assert !UniqueKeys(ls) by {
      assert ls[0].key == ls[1].key;
    }
  }

  /** `{"a": {"b": {"c": 1}}, "a.b": {"c": 2}, "a.b.c": 1}` */
  function ThreeWay(): seq<Member> {
    [ Member("a", Obj([Member("b", Obj([Member("c", Int(1))]))])),
      Member("a.b", Obj([Member("c", Int(2))])),
      Member("a.b.c", Int(1)) ]
  }

  lemma ThreeWayLeaves()
    ensures Leaves([], ThreeWay())
         == [Member("a.b.c", Int(1)), Member("a.b.c", Int(2)), Member("a.b.c", Int(1))]
  {
    var a := Member("a", Obj([Member("b", Obj([Member("c", Int(1))]))]));
    var ab := Member("a.b", Obj([Member("c", Int(2))]));
    var abc := Member("a.b.c", Int(1));
    assert ThreeWay() == [a] + ([ab] + [abc]);
    NestedThreeLeaves();
    NestedTwoLeaves();
    assert MemberLeaves([], abc) == [Member("a.b.c", Int(1))] by {
      assert [] + ["a.b.c"] == ["a.b.c"];
    }
    LeavesOne([], abc);
    LeavesCons([], ab, [abc]);
    LeavesCons([], a, [ab] + [abc]);
  }

  /** `{"a": {"b": {"c": 1}}}` reaches `a.b.c`. */
  lemma NestedThreeLeaves()
    ensures MemberLeaves([], Member("a", Obj([Member("b", Obj([Member("c", Int(1))]))])))
         == [Member("a.b.c", Int(1))]
  {
    LeavesOne(["a"], Member("b", Obj([Member("c", Int(1))])));
    LeavesOne(["a", "b"], Member("c", Int(1)));
    assert [] + ["a"] == ["a"] && ["a"] + ["b"] == ["a", "b"];
    assert ["a", "b"] + ["c"] == ["a", "b", "c"];
    JoinThree("a", "b", "c");
    assert "a" + "." + "b" + "." + "c" == "a.b.c";
  }

  /** `{"a.b": {"c": 2}}` reaches `a.b.c` too. */
  lemma NestedTwoLeaves()
    ensures MemberLeaves([], Member("a.b", Obj([Member("c", Int(2))]))) == [Member("a.b.c", Int(2))]
  {
    LeavesOne(["a.b"], Member("c", Int(2)));
    assert [] + ["a.b"] == ["a.b"] && ["a.b"] + ["c"] == ["a.b", "c"];
    JoinTwo("a.b", "c");
    assert "a.b" + "." + "c" == "a.b.c";
  }

  /** The three-way collision is refused, naming the full path `a.b.c`. */
  lemma FlattenThreeWay()
    ensures Flatten(ThreeWay()) == Err(DuplicateEntry("a.b.c"))
  {
    ThreeWayLeaves();
    var ls := Leaves([], ThreeWay());
    assert !UniqueKeys(ls) by {
      assert ls[0].key == ls[1].key;
    }
    assert forall i | 0 <= i < |ls| :: ls[i].key == "a.b.c";
    var r := Flatten(ThreeWay());
    assert r.Err? && Repeated(ls, r.error.path);
  }

  /** The text of both refusals names the full path of the collision. */
  lemma DuplicateMessages()
    ensures DuplicateMessage("a.b") == "Duplicate entry for 'a.b' with different nesting"
    ensures DuplicateMessage("a.b.c") == "Duplicate entry for 'a.b.c' with different nesting"
  {
    DuplicateMessageThree();
  }

  lemma DuplicateMessageThree()
    ensures DuplicateMessage("a.b.c") == "Duplicate entry for 'a.b.c' with different nesting"
  {
  }

  // ---------------------------------------------------------------------------
  // de_dot

  /** `de_dot("x.y.z", {"a": {"b": 1}})` nests the mapping three levels deep,
      unchanged. */
  lemma DeDotSample()
    ensures DeDot("x.y.z", Obj([Member("a", Obj([Member("b", Int(1))]))]))
         == Obj([Member("x", Obj([Member("y", Obj([Member("z",
              Obj([Member("a", Obj([Member("b", Int(1))]))]))]))]))])
  {
    var v := Obj([Member("a", Obj([Member("b", Int(1))]))]);
    assert Split("x.y.z") == ["x", "y", "z"] by {
      JoinThree("x", "y", "z");
      assert "x" + "." + "y" + "." + "z" == "x.y.z";
      SplitJoin(["x", "y", "z"]);
    }
    assert DeDot("x.y.z", v) == Wrap(["x", "y", "z"], v);
    assert ["x", "y", "z"][1..] == ["y", "z"] && ["y", "z"][1..] == ["z"];
    assert Wrap(["z"], v) == Obj([Member("z", v)]);
    assert Wrap(["y", "z"], v) == Obj([Member("y", Wrap(["z"], v))]);
  }

  // ---------------------------------------------------------------------------
  // normalize_dict

  lemma DeDotPlain(k: string, v: Value)
    requires DotFree(k)
    ensures DeDot(k, v) == Obj([Member(k, v)])
  {
  }

  lemma DeDotDotted(k: string, rest: string, v: Value)
    requires DotFree(k)
    ensures DeDot(k + "." + rest, v) == Obj([Member(k, DeDot(rest, v))])
  {
    SplitDotted(k, rest);
    var segs := [k] + Split(rest);
    assert segs[0] == k && segs[1..] == Split(rest);
  }

  lemma MergeNew(into: seq<Member>, m: Member)
    requires m.key !in Keys(into)
    ensures DeepMerge(into, [m]) == Ok(into + [m])
  {
    assert [m][0] == m && [m][1..] == [];
  }

  lemma MergeDescend(into: seq<Member>, k: string, fs: seq<Member>, gs: seq<Member>, merged: seq<Member>)
    requires Lookup(into, k) == Some(Obj(fs))
    requires DeepMerge(fs, gs) == Ok(merged)
    ensures DeepMerge(into, [Member(k, Obj(gs))]) == Ok(Update(into, k, Obj(merged)))
  {
    var m := Member(k, Obj(gs));
    assert [m][0] == m && [m][1..] == [];
  }

  lemma MergeAllCons(acc: seq<Member>, m: Member, rest: seq<Member>, next: seq<Member>)
    requires DeepMerge(acc, DeDot(m.key, m.val).fields) == Ok(next)
    ensures MergeAll(acc, [m] + rest) == MergeAll(next, rest)
  {
    assert ([m] + rest)[0] == m && ([m] + rest)[1..] == rest;
  }

  /** `{"f.c": 2}`, the mapping inside the list, becomes `{"f": {"c": 2}}`. */
  lemma NormalizeListEntry()
    ensures NormalizeObject([Member("f.c", Int(2))])
         == Ok(Obj([Member("f", Obj([Member("c", Int(2))]))]))
  {
    var fc := [Member("f.c", Int(2))];
    LeavesOfFlat(fc);
    assert Flatten(fc) == Ok(fc);
    assert Normalize(Int(2)) == Ok(Int(2));
    assert fc[1..] == [];
    assert NormalizeLeaves(fc) == Ok(fc);
    DeDotDotted("f", "c", Int(2));
    assert "f" + "." + "c" == "f.c";
    DeDotPlain("c", Int(2));
    var m := Member("f", Obj([Member("c", Int(2))]));
    MergeNew([], m);
    assert [] + [m] == [m];
    MergeAllCons([], fc[0], [], [m]);
    assert [fc[0]] + [] == fc;
  }

  function NormalList(): Value {
    Arr([Obj([Member("f", Obj([Member("c", Int(2))]))])])
  }

  lemma NormalizeLeavesCons(m: Member, rest: seq<Member>, x: Value, xs: seq<Member>)
    requires Normalize(m.val) == Ok(x) && NormalizeLeaves(rest) == Ok(xs)
    ensures NormalizeLeaves([m] + rest) == Ok([Member(m.key, x)] + xs)
  {
    assert ([m] + rest)[0] == m && ([m] + rest)[1..] == rest;
  }

  lemma NormalizeSampleList()
    ensures Normalize(SampleList()) == Ok(NormalList())
  {
    NormalizeListEntry();
    var items := [Obj([Member("f.c", Int(2))])];
    assert items[1..] == [];
    assert Normalize(items[0]) == NormalizeObject([Member("f.c", Int(2))]);
    assert NormalizeItems(items[1..]) == Ok([]);
    var x := Obj([Member("f", Obj([Member("c", Int(2))]))]);
    assert [x] + [] == [x];
    assert NormalizeItems(items) == Ok([x]);
  }

  lemma NormalizeSampleLeaves()
    ensures NormalizeLeaves(SampleFlat())
         == Ok([ Member("a.b", Int(1)), Member("a.c.d.e.f", Int(1)), Member("a.c.d.e.g", NormalList()) ])
  {
    NormalizeSampleList();
    assert Normalize(Int(1)) == Ok(Int(1));
    NormalizeLeavesThree(Member("a.b", Int(1)), Member("a.c.d.e.f", Int(1)),
      Member("a.c.d.e.g", SampleList()), Int(1), Int(1), NormalList());
  }

  /** Normalizing three leaves normalizes each value in place. */
  lemma NormalizeLeavesThree(m1: Member, m2: Member, m3: Member, x1: Value, x2: Value, x3: Value)
    requires Normalize(m1.val) == Ok(x1) && Normalize(m2.val) == Ok(x2) && Normalize(m3.val) == Ok(x3)
    ensures NormalizeLeaves([m1, m2, m3])
         == Ok([Member(m1.key, x1), Member(m2.key, x2), Member(m3.key, x3)])
  {
    var n1, n2, n3 := Member(m1.key, x1), Member(m2.key, x2), Member(m3.key, x3);
    NormalizeLeavesCons(m3, [], x3, []);
    assert [m3] + [] == [m3] && [n3] + [] == [n3];
    NormalizeLeavesCons(m2, [m3], x2, [n3]);
    assert [m2] + [m3] == [m2, m3] && [n2] + [n3] == [n2, n3];
    NormalizeLeavesCons(m1, [m2, m3], x1, [n2, n3]);
    assert [m1] + [m2, m3] == [m1, m2, m3] && [n1] + [n2, n3] == [n1, n2, n3];
  }

  /** The three full paths de-dotted, one nesting level per segment. */
  lemma DeDotShort()
    ensures DeDot("a.b", Int(1)) == Obj([Member("a", Obj([Member("b", Int(1))]))])
  {
    assert "a" + "." + "b" == "a.b";
    DeDotDotted("a", "b", Int(1));
    DeDotPlain("b", Int(1));
  }

  lemma DeDotFourDeep(last: string, v: Value)
    requires last == "f" || last == "g"
    ensures DeDot("a.c.d.e." + last, v) == Wrap(["a"], Wrap(["c"], Wrap(["d"], Wrap(["e"], Wrap([last], v)))))
  {
    assert "a" + "." + ("c.d.e." + last) == "a.c.d.e." + last;
    assert "c" + "." + ("d.e." + last) == "c.d.e." + last;
    assert "d" + "." + ("e." + last) == "d.e." + last;
    assert "e" + "." + last == "e." + last;
    DeDotDotted("a", "c.d.e." + last, v);
    DeDotDotted("c", "d.e." + last, v);
    DeDotDotted("d", "e." + last, v);
    DeDotDotted("e", last, v);
    DeDotPlain(last, v);
  }

  /** Merging the third path descends `a`, `c`, `d`, `e` and appends `g`. */
  lemma MergeThirdPath(b: Member, l: Value)
    requires b == Member("b", Int(1))
    ensures DeepMerge([Member("a", Obj([b, Member("c", Wrap(["d"], Wrap(["e"], Wrap(["f"], Int(1)))))]))],
                      [Member("a", Wrap(["c"], Wrap(["d"], Wrap(["e"], Wrap(["g"], l)))))])
         == Ok([Member("a", Obj([b, Member("c", Wrap(["d"], Obj([Member("e",
              Obj([Member("f", Int(1)), Member("g", l)]))])))]))])
  {
    var cMerged := [Member("d", Obj([Member("e", Obj([Member("f", Int(1)), Member("g", l)]))]))];
    var aFields := [b, Member("c", Wrap(["d"], Wrap(["e"], Wrap(["f"], Int(1)))))];
    MergeThirdC(b, l);
    var top := [Member("a", Obj(aFields))];
    MergeDescend(top, "a", aFields, [Member("c", Wrap(["d"], Wrap(["e"], Wrap(["g"], l))))],
                 [b, Member("c", Obj(cMerged))]);
    assert Update(top, "a", Obj([b, Member("c", Obj(cMerged))])) == [Member("a", Obj([b, Member("c", Obj(cMerged))]))];
  }

  /** The third path under `a`: `c` is descended. */
  lemma MergeThirdC(b: Member, l: Value)
    requires b == Member("b", Int(1))
    ensures DeepMerge([b, Member("c", Wrap(["d"], Wrap(["e"], Wrap(["f"], Int(1)))))],
                      [Member("c", Wrap(["d"], Wrap(["e"], Wrap(["g"], l))))])
         == Ok([b, Member("c", Obj([Member("d", Obj([Member("e", Obj([Member("f", Int(1)), Member("g", l)]))]))]))])
  {
    var dMerged := [Member("e", Obj([Member("f", Int(1)), Member("g", l)]))];
    var cMerged := [Member("d", Obj(dMerged))];
    MergeThirdD(l);
    var aFields := [b, Member("c", Wrap(["d"], Wrap(["e"], Wrap(["f"], Int(1)))))];
    MergeDescend(aFields, "c", [Member("d", Wrap(["e"], Wrap(["f"], Int(1))))],
                 [Member("d", Wrap(["e"], Wrap(["g"], l)))], cMerged);
    assert Update(aFields, "c", Obj(cMerged)) == [b, Member("c", Obj(cMerged))];
  }

  /** The third path under `a.c`: `d` and `e` are descended and `g` appended. */
  lemma MergeThirdD(l: Value)
    ensures DeepMerge([Member("d", Wrap(["e"], Wrap(["f"], Int(1))))], [Member("d", Wrap(["e"], Wrap(["g"], l)))])
         == Ok([Member("d", Obj([Member("e", Obj([Member("f", Int(1)), Member("g", l)]))]))])
  {
    var f := Member("f", Int(1));
    var g := Member("g", l);
    MergeNew([f], g);
    var eMerged := [f, g];
    assert [f] + [g] == eMerged;
    MergeDescend([Member("e", Wrap(["f"], Int(1)))], "e", [f], [g], eMerged);
    assert Update([Member("e", Wrap(["f"], Int(1)))], "e", Obj(eMerged)) == [Member("e", Obj(eMerged))];
    var dMerged := [Member("e", Obj(eMerged))];
    MergeDescend([Member("d", Wrap(["e"], Wrap(["f"], Int(1))))], "d",
                 [Member("e", Wrap(["f"], Int(1)))], [Member("e", Wrap(["g"], l))], dMerged);
    assert Update([Member("d", Wrap(["e"], Wrap(["f"], Int(1))))], "d", Obj(dMerged)) == [Member("d", Obj(dMerged))];
  }

  /** The merged tree after the first, the second and all three paths. */
  function AfterFirst(): seq<Member> {
    [Member("a", Wrap(["b"], Int(1)))]
  }

  function AfterSecond(): seq<Member> {
    [Member("a", Obj([Member("b", Int(1)), Member("c", Wrap(["d"], Wrap(["e"], Wrap(["f"], Int(1)))))]))]
  }

  function AfterThird(): seq<Member> {
    [Member("a", Obj([
      Member("b", Int(1)),
      Member("c", Obj([Member("d", Obj([Member("e", Obj([
        Member("f", Int(1)),
        Member("g", NormalList())
      ]))]))]))
    ]))]
  }

  lemma MergeFirst()
    ensures DeepMerge([], DeDot("a.b", Int(1)).fields) == Ok(AfterFirst())
  {
    DeDotShort();
    MergeNew([], AfterFirst()[0]);
    assert [] + AfterFirst() == AfterFirst();
  }

  lemma MergeSecond()
    ensures DeepMerge(AfterFirst(), DeDot("a.c.d.e.f", Int(1)).fields) == Ok(AfterSecond())
  {
    var b := Member("b", Int(1));
    assert "a.c.d.e." + "f" == "a.c.d.e.f";
    DeDotFourDeep("f", Int(1));
    var cChain := Member("c", Wrap(["d"], Wrap(["e"], Wrap(["f"], Int(1)))));
    MergeNew([b], cChain);
    assert [b] + [cChain] == [b, cChain];
    MergeDescend(AfterFirst(), "a", [b], [cChain], [b, cChain]);
    assert Update(AfterFirst(), "a", Obj([b, cChain])) == AfterSecond();
  }

  lemma MergeThird()
    ensures DeepMerge(AfterSecond(), DeDot("a.c.d.e.g", NormalList()).fields) == Ok(AfterThird())
  {
    assert "a.c.d.e." + "g" == "a.c.d.e.g";
    DeDotFourDeep("g", NormalList());
    MergeThirdPath(Member("b", Int(1)), NormalList());
  }

  /** The normalized leaves of the example. */
  function NormalLeaves(): seq<Member> {
    [ Member("a.b", Int(1)), Member("a.c.d.e.f", Int(1)), Member("a.c.d.e.g", NormalList()) ]
  }

  lemma MergeAllThree(acc0: seq<Member>, m1: Member, m2: Member, m3: Member,
                      acc1: seq<Member>, acc2: seq<Member>, acc3: seq<Member>)
    requires DeepMerge(acc0, DeDot(m1.key, m1.val).fields) == Ok(acc1)
    requires DeepMerge(acc1, DeDot(m2.key, m2.val).fields) == Ok(acc2)
    requires DeepMerge(acc2, DeDot(m3.key, m3.val).fields) == Ok(acc3)
    ensures MergeAll(acc0, [m1, m2, m3]) == Ok(acc3)
  {
    MergeAllCons(acc2, m3, [], acc3);
    MergeAllCons(acc1, m2, [m3], acc2);
    MergeAllCons(acc0, m1, [m2, m3], acc1);
    assert [m3] + [] == [m3] && [m2] + [m3] == [m2, m3] && [m1] + [m2, m3] == [m1, m2, m3];
  }

  /** De-dotting and merging the three normalized leaves one by one. */
  lemma MergeSampleLeaves()
    ensures MergeAll([], NormalLeaves()) == Ok(AfterThird())
  {
    MergeFirst();
    MergeSecond();
    MergeThird();
    MergeAllThree([], Member("a.b", Int(1)), Member("a.c.d.e.f", Int(1)), Member("a.c.d.e.g", NormalList()),
                  AfterFirst(), AfterSecond(), AfterThird());
  }

  /** The example of the test module: dotted and nested keys merge into one
      fully nested tree, the mapping inside the list included. */
  lemma NormalizeSample()
    ensures NormalizeObject(Sample())
         == Ok(Obj([Member("a", Obj([
              Member("b", Int(1)),
              Member("c", Obj([Member("d", Obj([Member("e", Obj([
                Member("f", Int(1)),
                Member("g", NormalList())
              ]))]))]))
            ]))]))
  {
    FlattenSample();
    NormalizeSampleLeaves();
    MergeSampleLeaves();
  }

  /** `{"a": ["1", "2"]}` is already fully nested and comes back unchanged. */
  lemma NormalizeScalarList()
    ensures NormalizeObject([Member("a", Arr([Str("1"), Str("2")]))])
         == Ok(Obj([Member("a", Arr([Str("1"), Str("2")]))]))
  {
    var fs := [Member("a", Arr([Str("1"), Str("2")]))];
    LeavesOfFlat(fs);
    assert Flatten(fs) == Ok(fs);
    NormalizePlain(Arr([Str("1"), Str("2")]));
    assert fs[1..] == [];
    assert NormalizeLeaves(fs) == Ok(fs);
    DeDotPlain("a", Arr([Str("1"), Str("2")]));
    MergeNew([], fs[0]);
    assert [] + fs == fs;
    MergeAllCons([], fs[0], [], fs);
    assert [fs[0]] + [] == fs;
  }
}
