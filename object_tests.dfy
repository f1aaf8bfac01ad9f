/** The five test cases of test/object.cpp, each as a method that performs
    the same calls on RLPValue objects and returns what the test inspects;
    the postconditions are the test's expectations. The lemmas before each
    method establish the concrete facts about the texts involved. */
module ObjectTests {
  import opened Wrappers
  import opened Numerals
  import opened JsonValue
  import opened Accessors
  import Reader
  import Writer
  import opened RoundTrip
  import opened Container

  // ---------------------------------------------------------------------
  // The integer texts the tests expect, one fact each

  lemma Text1() ensures IntText(1) == "1" && IsNumeral("1") { IntTextIsNumeral(1); }
  lemma Text10() ensures IntText(10) == "10" && IsNumeral("10") { IntTextIsNumeral(10); }
  lemma Text82() ensures IntText(82) == "82" && IsNumeral("82") { IntTextIsNumeral(82); }
  lemma TextMinus82() ensures IntText(-82) == "-82" { }
  lemma Text400() ensures IntText(400) == "400" { }
  lemma TextMinus400() ensures IntText(-400) == "-400" { }
  lemma TextMinus401() ensures IntText(-401) == "-401" { }
  lemma TextMinus688() ensures IntText(-688) == "-688" && IsNumeral("-688") { IntTextIsNumeral(-688); }
  lemma Text1000() ensures IntText(1000) == "1000" && IsNumeral("1000") { IntTextIsNumeral(1000); }
  lemma Text1023() ensures IntText(1023) == "1023" { }
  lemma TextMinus1023() ensures IntText(-1023) == "-1023" { }

  lemma Text2147483648()
    ensures IntText(2147483648) == "2147483648" && IsNumeral("2147483648")
  {
    NatTextSnoc(2, 1);
    NatTextSnoc(21, 4);
    NatTextSnoc(214, 7);
    NatTextSnoc(2147, 4);
    NatTextSnoc(21474, 8);
    NatTextSnoc(214748, 3);
    NatTextSnoc(2147483, 6);
    NatTextSnoc(21474836, 4);
    NatTextSnoc(214748364, 8);
    IntTextIsNumeral(2147483648);
  }

  lemma NotNumeralZombocom()
    ensures !IsNumeral("zombocom")
  {
    assert SignLen("zombocom") == 0 && !IsDigit("zombocom"[0]);
  }

  // ---------------------------------------------------------------------
  // univalue_constructor

  method ConstructorCase() returns (v1: Value, v2: Value, v3: Value, numOk: bool, numTest: Value,
                                    v4: Value, v5: Value, v6: Value, v8: Value, v9: Value)
    ensures v1 == Null
    ensures v2 == Str("")
    ensures v3 == Str("foo") && ValStr(v3) == "foo"
    ensures numOk && numTest == Num("82") && ValStr(numTest) == "82"
    ensures v4 == Num("82") && ValStr(v4) == "82"
    ensures v5 == Num("-82") && ValStr(v5) == "-82"
    ensures v6 == Num("-688") && ValStr(v6) == "-688"
    ensures v8 == Str("yawn") && ValStr(v8) == "yawn"
    ensures v9 == Str("zappa") && ValStr(v9) == "zappa"
  {
    Text82();
    TextMinus82();
    TextMinus688();
    var r1 := new RLPValue();
    v1 := r1.val;
    var r2 := new RLPValue.OfType(VSTR, "");
    v2 := r2.val;
    var r3 := new RLPValue.OfType(VSTR, "foo");
    v3 := r3.val;
    var n := new RLPValue();
    numOk := n.SetNumStr("82");
    numTest := n.val;
    var r4 := new RLPValue.OfUInt64(82);
    v4 := r4.val;
    var r5 := new RLPValue.OfInt64(-82);
    v5 := r5.val;
    var r6 := new RLPValue.OfInt32(-688);
    v6 := r6.val;
    var r8 := new RLPValue.OfStr("yawn");
    v8 := r8.val;
    var r9 := new RLPValue.OfStr("zappa");
    v9 := r9.val;
  }

  // ---------------------------------------------------------------------
  // univalue_typecheck

  const Big: string := "32482348723847471234"

  lemma BigNumeral()
    ensures IsNumeral(Big) && GetInt64(Num(Big)) == Err(OutOfRange)
  {
    assert SignLen(Big) == 0 && Big[0..] == Big;
    IntegerNumeral(Big);
    LongIntegerOutOfRange(Big);
  }

  /** The last element of the array text of the test: a blank, then 10. */
  lemma TenElems()
    ensures Reader.ParseElements(" 10]") == Some(([Num("10")], ""))
  {
    Text10();
    assert Reader.ParseValue(" 10]") == Some((Num("10"), "]")) by {
      ParseValueWs(" ", "10]");
      ParseWrite(Num("10"), "]");
      assert " " + "10]" == " 10]";
      assert Writer.Write(Num("10")) + "]" == "10]";
    }
    ParseElementsLast(" 10]", Num("10"), "]");
  }

  /** The first element of the array text of the test. */
  lemma TrueFirst()
    ensures Reader.ParseValue("true, 10]") == Some((Bool(true), ", 10]"))
  {
    ParseWrite(Bool(true), ", 10]");
    assert Writer.Write(Bool(true)) + ", 10]" == "true, 10]";
  }

  /** The elements of the array text of the test: true, then 10. */
  lemma TrueTenElems()
    ensures Reader.ParseElements("true, 10]") == Some(([Bool(true), Num("10")], ""))
  {
    TenElems();
    TrueFirst();
    ParseElementsNext("true, 10]", Bool(true), ", 10]", [Num("10")], "");
    assert [Bool(true)] + [Num("10")] == [Bool(true), Num("10")];
  }

  /** The array text of the test reads as true followed by the number 10;
      the blank after the comma is skipped. */
  lemma ReadTrueTen()
    ensures Reader.Read("[true, 10]") == Some(Arr([Bool(true), Num("10")]))
  {
    var s := "[true, 10]";
    assert Reader.ParseValue(s) == Some((Arr([Bool(true), Num("10")]), "")) by {
      TrueTenElems();
      ParseValueAt(s);
      assert s[1..] == "true, 10]";
      ParseArrayAt("true, 10]");
    }
    ReadAt(s, Arr([Bool(true), Num("10")]), "");
  }

  method TypecheckCase() returns (ok1: bool, v1: Value,
                                  ok3: bool, big: Result<Int64, AccessError>,
                                  ok3b: bool, thousand64: Result<Int64, AccessError>,
                                  ok4: bool, i64: Result<Int64, AccessError>, i32: Result<Int32, AccessError>,
                                  ok4b: bool, thousand32: Result<Int32, AccessError>,
                                  str4: Result<string, AccessError>, arr4: Result<Value, AccessError>,
                                  vals4: Result<seq<Value>, AccessError>,
                                  ok5: bool, arr5: Result<Value, AccessError>,
                                  int0: Result<Int32, AccessError>, int1: Result<Int32, AccessError>)
    ensures ok1 && v1 == Num("1")
    ensures ok3 && big == Err(OutOfRange)
    ensures ok3b && thousand64 == Ok(1000)
    ensures ok4 && i64 == Ok(2147483648) && i32 == Err(OutOfRange)
    ensures ok4b && thousand32 == Ok(1000)
    ensures str4 == Err(TypeMismatch) && arr4 == Err(TypeMismatch) && vals4 == Err(TypeMismatch)
    ensures ok5 && arr5 == Ok(Arr([Bool(true), Num("10")]))
    ensures int0 == Err(TypeMismatch) && int1 == Ok(10)
  {
    Text1();
    Text10();
    Text1000();
    BigNumeral();
    Text2147483648();
    var r1 := new RLPValue();
    ok1 := r1.SetNumStr("1");
    v1 := r1.val;

    var r3 := new RLPValue();
    ok3 := r3.SetNumStr(Big);
    big := GetInt64(r3.val);
    ok3b := r3.SetNumStr("1000");
    GetInt64OfIntText(1000);
    thousand64 := GetInt64(r3.val);

    var r4 := new RLPValue();
    ok4 := r4.SetNumStr("2147483648");
    GetInt64OfIntText(2147483648);
    GetIntOfIntText(2147483648);
    i64 := GetInt64(r4.val);
    i32 := GetInt(r4.val);
    ok4b := r4.SetNumStr("1000");
    GetIntOfIntText(1000);
    thousand32 := GetInt(r4.val);
    str4 := GetStr(r4.val);
    arr4 := GetArray(r4.val);
    vals4 := GetValues(r4.val);

    var r5 := new RLPValue();
    ReadTrueTen();
    ok5 := r5.Read("[true, 10]");
    arr5 := GetArray(r5.val);
    var vals := GetValues(r5.val).value;
    int0 := GetInt(vals[0]);
    GetIntOfIntText(10);
    int1 := GetInt(vals[1]);
  }

  // ---------------------------------------------------------------------
  // univalue_set

  method SetCase() returns (cleared: Value, okArr: bool, arr: Value, okStr: bool, str: Value,
                            okI32: bool, i32: Value, okI64: bool, i64: Value, okU64: bool, u64: Value,
                            okNum: bool, num: Value, okBad: bool, okNull: bool, nulled: Value)
    ensures cleared == Null && ValStr(cleared) == ""
    ensures okArr && arr == Arr([]) && Size(arr) == 0
    ensures okStr && str == Str("zum") && ValStr(str) == "zum"
    ensures okI32 && i32 == Num("1023") && ValStr(i32) == "1023"
    ensures okI64 && i64 == Num("-1023") && ValStr(i64) == "-1023"
    ensures okU64 && u64 == Num("1023") && ValStr(u64) == "1023"
    ensures okNum && num == Num("-688") && ValStr(num) == "-688"
    ensures !okBad
    ensures okNull && nulled == Null
  {
    Text1023();
    TextMinus1023();
    TextMinus688();
    NotNumeralZombocom();
    var v := new RLPValue.OfType(VSTR, "foo");
    v.Clear();
    cleared := v.val;
    okArr := v.SetArray();
    arr := v.val;
    okStr := v.SetStr("zum");
    str := v.val;
    okI32 := v.SetInt32(1023);
    i32 := v.val;
    okI64 := v.SetInt64(-1023);
    i64 := v.val;
    okU64 := v.SetUInt64(1023);
    u64 := v.val;
    okNum := v.SetNumStr("-688");
    num := v.val;
    okBad := v.SetNumStr("zombocom");
    okNull := v.SetNull();
    nulled := v.val;
  }

  // ---------------------------------------------------------------------
  // univalue_array

  /** The array the test builds: the values it appends, in order. */
  function ArrayCaseValue(): (r: Value)
  {
    Arr([Num(IntText(1023)), Str("zippy"), Str("pippy"), Str("boing"), Str("going"),
         Num(IntText(400)), Num(IntText(-400)), Num(IntText(-401))])
  }

  /** Three single appends are one append of the three. */
  lemma Regroup3Appends<T>(e: seq<T>, x: T, y: T, z: T)
    ensures e + [x] + [y] + [z] == e + [x, y, z]
  {
  }

  /** The three stages from an empty array give the test's array. */
  lemma ArrayCaseValueOf(a: Value)
    requires a == Arr([] + [Num(IntText(1023)), Str("zippy"), Str("pippy")] + [Str("boing"), Str("going")]
                      + [Num(IntText(400)), Num(IntText(-400)), Num(IntText(-401))])
    ensures a == ArrayCaseValue()
  {
  }

  /** What the test reads back from the array it built. */
  lemma ArrayCaseReads(a: Value)
    requires a == ArrayCaseValue()
    ensures !IsEmpty(a) && Size(a) == 8 &&
      ValStr(At(a, 0)) == "1023" && ValStr(At(a, 1)) == "zippy" && ValStr(At(a, 2)) == "pippy" &&
      ValStr(At(a, 3)) == "boing" && ValStr(At(a, 4)) == "going" && ValStr(At(a, 5)) == "400" &&
      ValStr(At(a, 6)) == "-400" && ValStr(At(a, 7)) == "-401" && ValStr(At(a, 999)) == ""
  {
    Text1023();
    Text400();
    TextMinus400();
    TextMinus401();
  }

  /** The size check of the test does not hold: it appends eight values and
      expects nine. */
  lemma ArraySizeAsAsserted()
    ensures Size(ArrayCaseValue()) == 8 && Size(ArrayCaseValue()) != 9
  {
  }

  // The test appends in three stages; each stage is stated for whatever
  // array it starts from, and ArrayCase puts them together.

  /** An integer and two strings appended; the integer's holder is returned
      for reuse. */
  method AppendScalars(arr: RLPValue) returns (v: RLPValue, oks: seq<bool>)
    requires arr.Valid() && arr.val.Arr?
    modifies arr
    ensures fresh(v) && v.Valid() && arr.Valid()
    ensures arr.val == Arr(old(arr.val.elems) + [Num(IntText(1023)), Str("zippy"), Str("pippy")])
    ensures oks == [true, true, true]
  {
    ghost var e := arr.val.elems;
    v := new RLPValue.OfInt64(1023);
    var ok1 := arr.PushBack(v.val);
    var vStr := new RLPValue.OfStr("zippy");
    var ok2 := arr.PushBack(vStr.val);
    var vcs := new RLPValue.OfStr("pippy");
    var ok3 := arr.PushBack(vcs.val);
    oks := [ok1, ok2, ok3];
    Regroup3Appends(e, Num(IntText(1023)), Str("zippy"), Str("pippy"));
  }

  /** The reused holder set to two strings in turn, each copied into a
      vector, and the vector appended at once. */
  method AppendVector(arr: RLPValue, v: RLPValue) returns (ok: bool)
    requires arr != v && arr.Valid() && arr.val.Arr? && v.Valid()
    modifies arr, v
    ensures arr.Valid()
    ensures arr.val == Arr(old(arr.val.elems) + [Str("boing"), Str("going")])
    ensures ok
    ensures v.Valid() && v.val == Str("going")
  {
    var vec: seq<Value> := [];
    var _ := v.SetStr("boing");
    vec := vec + [v.val];
    var _ := v.SetStr("going");
    vec := vec + [v.val];
    ok := arr.PushBackV(vec);
  }

  /** Three more integers appended. */
  method AppendIntegers(arr: RLPValue) returns (oks: seq<bool>)
    requires arr.Valid() && arr.val.Arr?
    modifies arr
    ensures arr.Valid()
    ensures arr.val == Arr(old(arr.val.elems) + [Num(IntText(400)), Num(IntText(-400)), Num(IntText(-401))])
    ensures oks == [true, true, true]
  {
    ghost var e := arr.val.elems;
    var u := new RLPValue.OfUInt64(400);
    var ok5 := arr.PushBack(u.val);
    var n := new RLPValue.OfInt64(-400);
    var ok6 := arr.PushBack(n.val);
    var m := new RLPValue.OfInt32(-401);
    var ok7 := arr.PushBack(m.val);
    oks := [ok5, ok6, ok7];
    Regroup3Appends(e, Num(IntText(400)), Num(IntText(-400)), Num(IntText(-401)));
  }

  /** The whole test: the three stages on a new array, then the array
      cleared. */
  method ArrayCase() returns (oks: seq<bool>, a: Value, cleared: Value)
    ensures oks == [true, true, true, true, true, true, true]
    ensures a == ArrayCaseValue()
    ensures IsEmpty(cleared) && Size(cleared) == 0
  {
    var arr := new RLPValue.OfType(VARR, "");
    var v, oks1 := AppendScalars(arr);
    var ok4 := AppendVector(arr, v);
    var oks2 := AppendIntegers(arr);
    oks := oks1 + [ok4] + oks2;
    a := arr.val;
    ArrayCaseValueOf(a);
    arr.Clear();
    cleared := arr.val;
  }

  // ---------------------------------------------------------------------
  // univalue_readwrite

  /** A token of the document as it appears in the text: between double
      quotes, escapes already written out. */
  function Quoted(s: string): string
  {
    "\"" + s + "\""
  }

  /** The test's document, split at its tokens and grouped as the writer
      nests them. */
  const Json1: string :=
    "[" + ("1.10000000" + "," +
      ("{" + (Quoted("key1") + ":" + Quoted("str\\u0000") + "," +
             (Quoted("key2") + ":" + "800" + "," +
             (Quoted("key3") + ":" + ("{" + (Quoted("name") + ":" + Quoted("martian http://test.com")) + "}"))))
       + "}")) + "]"

  /** The document the test reads: a number and an object of three members,
      the first a string ending in NUL. */
  const Doc1: Value :=
    Arr([Num("1.10000000"),
         Obj([("key1", Str("str" + ['\U{0}'])),
              ("key2", Num("800")),
              ("key3", Obj([("name", Str("martian http://test.com"))]))])])

  lemma Doc1WellFormed()
    ensures WellFormed(Doc1)
  {
    var t := "1.10000000";
    assert IntPartIn(t, 0, 1) && FracIn(t, 1, 10) && ExpIn(t, 10, 10);
    assert IsNumeral(t);
    var e := "800";
    assert IntPartIn(e, 0, 3) && FracIn(e, 3, 3) && ExpIn(e, 3, 3);
    assert IsNumeral(e);
    var inner := Obj([("name", Str("martian http://test.com"))]);
    assert WellFormed(inner);
    var o := Doc1.elems[1];
    assert forall i :: 0 <= i < 3 ==> WellFormed(o.members[i].1);
  }

  lemma WriteArr2(a: Value, b: Value)
    ensures Writer.Write(Arr([a, b])) == "[" + (Writer.Write(a) + "," + Writer.Write(b)) + "]"
  {
    assert [a, b][1..] == [b];
    assert Writer.WriteElems([b]) == Writer.Write(b);
    assert Writer.WriteElems([a, b]) == Writer.Write(a) + "," + Writer.WriteElems([b]);
  }

  lemma WriteObj1(k: string, v: Value)
    ensures Writer.Write(Obj([(k, v)])) == "{" + (Writer.Quote(k) + ":" + Writer.Write(v)) + "}"
  {
    WriteMembersHead([(k, v)]);
  }

  lemma WriteObj3(k1: string, v1: Value, k2: string, v2: Value, k3: string, v3: Value)
    ensures Writer.Write(Obj([(k1, v1), (k2, v2), (k3, v3)])) ==
      "{" + (Writer.Quote(k1) + ":" + Writer.Write(v1) + "," +
            (Writer.Quote(k2) + ":" + Writer.Write(v2) + "," +
            (Writer.Quote(k3) + ":" + Writer.Write(v3)))) + "}"
  {
    var ms := [(k1, v1), (k2, v2), (k3, v3)];
    WriteMembersHead(ms);
    assert ms[1..] == [(k2, v2), (k3, v3)];
    WriteMembersHead(ms[1..]);
    assert ms[1..][1..] == [(k3, v3)];
    WriteMembersHead(ms[1..][1..]);
  }

  lemma QuoteKey1() ensures Writer.Quote("key1") == Quoted("key1") { Writer.QuotePlain("key1"); }
  lemma QuoteKey2() ensures Writer.Quote("key2") == Quoted("key2") { Writer.QuotePlain("key2"); }
  lemma QuoteKey3() ensures Writer.Quote("key3") == Quoted("key3") { Writer.QuotePlain("key3"); }
  lemma QuoteName() ensures Writer.Quote("name") == Quoted("name") { Writer.QuotePlain("name"); }

  lemma WriteMartian()
    ensures Writer.Write(Str("martian http://test.com")) == Quoted("martian http://test.com")
  {
    WritePlainStr("martian http://test.com");
  }

  lemma WritePlainStr(s: string)
    requires forall i :: 0 <= i < |s| ==> Writer.PlainChar(s[i])
    ensures Writer.Write(Str(s)) == Quoted(s)
  {
    Writer.QuotePlain(s);
  }

  /** The NUL at the end of the first string is written as \u0000. */
  lemma WriteStrNul()
    ensures Writer.Write(Str("str" + ['\U{0}'])) == Quoted("str\\u0000")
  {
    Writer.EscapePlain("str");
    Writer.EscapeAppend("str", ['\U{0}']);
    assert Writer.Escape(['\U{0}']) == "\\u0000";
    assert "str" + "\\u0000" == "str\\u0000";
  }

  lemma WriteDoc1()
    ensures Writer.Write(Doc1) == Json1
  {
    QuoteKey1();
    QuoteKey2();
    QuoteKey3();
    QuoteName();
    WriteMartian();
    WriteStrNul();
    var inner := Obj([("name", Str("martian http://test.com"))]);
    WriteObj1("name", Str("martian http://test.com"));
    var o := Obj([("key1", Str("str" + ['\U{0}'])), ("key2", Num("800")), ("key3", inner)]);
    WriteObj3("key1", Str("str" + ['\U{0}']), "key2", Num("800"), "key3", inner);
    WriteArr2(Num("1.10000000"), o);
  }

  /** A document with whitespace around it, as the test writes it. */
  lemma ReadPaddedCases()
    ensures Reader.Read("  {}\n  ") == Some(Obj([]))
    ensures Reader.Read("  []\n  ") == Some(Arr([]))
  {
    ReadPadded("  ", Obj([]), "\n  ");
    assert "  " + Writer.Write(Obj([])) + "\n  " == "  {}\n  ";
    ReadPadded("  ", Arr([]), "\n  ");
    assert "  " + Writer.Write(Arr([])) + "\n  " == "  []\n  ";
  }

  // The texts the test expects to be refused, one lemma each.

  /** A document cannot start with '@'. */
  lemma RejectAt()
    ensures Reader.Read("@{}") == None
  {
    SkipWsNone("@{}");
  }

  /** A document followed by a word. */
  lemma RejectGarbage()
    ensures Reader.Read("{} garbage") == None
  {
    assert !Reader.IsWs(" garbage"[1]);
    ReadRejectsTrailing("", Obj([]), " garbage");
    assert "" + Writer.Write(Obj([])) + " garbage" == "{} garbage";
  }

  /** An array followed by an object. */
  lemma RejectArrObj()
    ensures Reader.Read("[]{}") == None
  {
    assert !Reader.IsWs("{}"[0]);
    ReadRejectsTrailing("", Arr([]), "{}");
    assert "" + Writer.Write(Arr([])) + "{}" == "[]{}";
  }

  /** An object followed by an array. */
  lemma RejectObjArr()
    ensures Reader.Read("{}[]") == None
  {
    assert !Reader.IsWs("[]"[0]);
    ReadRejectsTrailing("", Obj([]), "[]");
    assert "" + Writer.Write(Obj([])) + "[]" == "{}[]";
  }

  /** An object followed by a number. */
  lemma RejectNumber()
    ensures Reader.Read("{} 42") == None
  {
    assert !Reader.IsWs(" 42"[1]);
    ReadRejectsTrailing("", Obj([]), " 42");
    assert "" + Writer.Write(Obj([])) + " 42" == "{} 42";
  }

  /** The shape of the document the test reads back. */
  lemma Doc1Shape()
    ensures Doc1.Arr? && Size(Doc1) == 2
    ensures ValStr(At(Doc1, 0)) == "1.10000000"
    ensures At(Doc1, 1).Obj? && Size(At(Doc1, 1)) == 3
  {
  }

  method ReadWriteCase() returns (ok1: bool, ok2: bool, v: Value, written: string,
                                  ok3: bool, ok4: bool, last: Value, rejected: seq<bool>)
    ensures ok1 && ok2 && v == Doc1
    ensures v.Arr? && Size(v) == 2
    ensures ValStr(At(v, 0)) == "1.10000000"
    ensures At(v, 1).Obj? && Size(At(v, 1)) == 3
    ensures written == Json1
    ensures ok3 && ok4 && last == Arr([])
    ensures rejected == [false, false, false, false, false]
  {
    Doc1WellFormed();
    WriteDoc1();
    ReadWrite(Doc1);
    Doc1Shape();
    ReadPaddedCases();
    RejectAt();
    RejectGarbage();
    RejectArrObj();
    RejectObjArr();
    RejectNumber();
    var r := new RLPValue();
    ok1 := r.Read(Json1);
    ok2 := r.Read(Json1);
    v := r.val;
    written := Writer.Write(r.val);
    ok3 := r.Read("  {}\n  ");
    ok4 := r.Read("  []\n  ");
    last := r.val;
    var b1 := r.Read("@{}");
    var b2 := r.Read("{} garbage");
    var b3 := r.Read("[]{}");
    var b4 := r.Read("{}[]");
    var b5 := r.Read("{} 42");
    rejected := [b1, b2, b3, b4, b5];
  }
}
