/** What the reader and the writer promise about each other: reading what
    was written gives back the value, whitespace around a document is
    ignored, and anything else after it makes the read fail. */
module RoundTrip {
  import opened Wrappers
  import opened Numerals
  import opened JsonValue
  import opened Reader
  import opened Writer

  /** What may follow a written value so that it still reads back whole: a
      number must not be followed by a character that would continue it. */
  predicate Delimits(v: Value, rest: string)
  {
    v.Num? ==> rest == [] || !NumberChar(rest[0])
  }

  predicate AllWs(s: string)
  {
    forall i :: 0 <= i < |s| ==> IsWs(s[i])
  }

  lemma {:induction false} HexDigitValue(k: nat)
    requires k < 16
    ensures IsHex(HexDigits[k]) && HexVal(HexDigits[k]) == k
  {
  }

  /** A control character without a short escape, written as \u00xx,
      decodes to itself. */
  lemma {:induction false} UnicodeEscapeDecodes(c: char, t: string)
    requires (c as int) < 0x20 || (c as int) == 0x7f
    requires c != '\U{8}' && c != '\t' && c != '\n' && c != '\U{C}' && c != '\r'
    ensures DecodeEscape(EscapeChar(c)[1..] + t) == Some((c, t))
  {
    var n := c as int;
    var h := [HexDigits[n / 16], HexDigits[n % 16]];
    HexDigitValue(n / 16);
    HexDigitValue(n % 16);
    var s := EscapeChar(c)[1..] + t;
    assert s == ['u', '0', '0'] + h + t;
    assert s[1..][..4] == ['0', '0'] + h;
    assert Hex4(s[1..]) == Some(n);
    assert s[5..] == t;
  }

  /** Reading the escaped form of one character yields that character and
      then whatever the following text yields. */
  lemma {:induction false} EscapeCharDecodes(c: char, t: string)
    ensures ParseChars(EscapeChar(c) + t) ==
      match ParseChars(t)
      case Some((body, after)) => Some(([c] + body, after))
      case None => None
  {
    var e := EscapeChar(c);
    var s := e + t;
    if |e| == 1 {
      assert s[1..] == t;
    } else {
      assert s[0] == '\\';
      assert s[1..] == e[1..] + t;
      if ((c as int) < 0x20 || (c as int) == 0x7f)
        && c != '\U{8}' && c != '\t' && c != '\n' && c != '\U{C}' && c != '\r'
      {
        UnicodeEscapeDecodes(c, t);
      }
      assert DecodeEscape(s[1..]) == Some((c, t));
    }
  }

  /** Strings survive escaping: the reader recovers the exact text, embedded
      NUL and other control characters included. */
  lemma {:induction false} EscapeRoundTrip(s: string, rest: string)
    ensures ParseChars(Escape(s) + "\"" + rest) == Some((s, rest))
  {
    if s == [] {
      assert Escape(s) + "\"" + rest == "\"" + rest;
    } else {
      var tail := Escape(s[1..]) + "\"" + rest;
      assert Escape(s) == EscapeChar(s[0]) + Escape(s[1..]);
      Regroup4(EscapeChar(s[0]), Escape(s[1..]), "\"", rest);
      EscapeRoundTrip(s[1..], rest);
      EscapeCharDecodes(s[0], tail);
      assert [s[0]] + s[1..] == s;
    }
  }

  /** Text that starts with a non-whitespace character is left alone by
      SkipWs. */
  lemma {:induction false} SkipWsNone(s: string)
    requires s != [] && !IsWs(s[0])
    ensures SkipWs(s) == s
  {
  }

  /** The first character of a written well-formed value: never whitespace
      and never a closing bracket, brace or comma. */
  lemma {:induction false} WriteStart(v: Value)
    requires WellFormed(v)
    ensures Write(v) != []
    ensures var c := Write(v)[0]; !IsWs(c) && c != ']' && c != '}' && c != ','
    ensures v.Num? ==> Write(v)[0] == '-' || IsDigit(Write(v)[0])
  {
    if v.Num? {
      var t := v.numText;
      var a := SignLen(t);
      var i, j :| a < i <= j <= |t| && IntPartIn(t, a, i) && FracIn(t, i, j) && ExpIn(t, j, |t|);
    }
  }

  // ---------------------------------------------------------------------
  // One step of each parse function, each in a small proof context

  lemma {:induction false} ParseValueAt(s: string)
    requires s != [] && !IsWs(s[0])
    ensures ParseValue(s) ==
      if s[0] == '{' then ParseObject(s[1..])
      else if s[0] == '[' then ParseArray(s[1..])
      else ParseScalar(s)
  {
    SkipWsNone(s);
  }

  lemma {:induction false} ParseArrayAt(s: string)
    requires s != [] && !IsWs(s[0])
    ensures ParseArray(s) ==
      if s[0] == ']' then Some((Arr([]), s[1..]))
      else match ParseElements(s)
        case None => None
        case Some((es, rest)) => Some((Arr(es), rest))
  {
    SkipWsNone(s);
  }

  lemma {:induction false} ParseObjectAt(s: string)
    requires s != [] && !IsWs(s[0])
    ensures ParseObject(s) ==
      if s[0] == '}' then Some((Obj([]), s[1..]))
      else match ParseMembers(s)
        case None => None
        case Some((ms, rest)) => Some((Obj(ms), rest))
  {
    SkipWsNone(s);
  }

  lemma {:induction false} ParseElementsLast(s: string, v: Value, rest: string)
    requires ParseValue(s) == Some((v, rest))
    requires rest != [] && rest[0] == ']'
    ensures ParseElements(s) == Some(([v], rest[1..]))
  {
    SkipWsNone(rest);
  }

  lemma {:induction false} ParseElementsNext(s: string, v: Value, rest: string, vs: seq<Value>, after: string)
    requires ParseValue(s) == Some((v, rest))
    requires rest != [] && rest[0] == ','
    requires ParseElements(rest[1..]) == Some((vs, after))
    ensures ParseElements(s) == Some(([v] + vs, after))
  {
    SkipWsNone(rest);
  }

  lemma {:induction false} ParseMembersLast(s: string, m: (string, Value), rest: string)
    requires ParseMember(s) == Some((m, rest))
    requires rest != [] && rest[0] == '}'
    ensures ParseMembers(s) == Some(([m], rest[1..]))
  {
    SkipWsNone(rest);
  }

  lemma {:induction false} ParseMembersNext(s: string, m: (string, Value), rest: string, ms: seq<(string, Value)>, after: string)
    requires ParseMember(s) == Some((m, rest))
    requires rest != [] && rest[0] == ','
    requires ParseMembers(rest[1..]) == Some((ms, after))
    ensures ParseMembers(s) == Some(([m] + ms, after))
  {
    SkipWsNone(rest);
  }

  /** A written scalar reads back as itself, leaving the rest of the text. */
  lemma {:induction false} ParseWriteScalar(v: Value, rest: string)
    requires !v.Arr? && !v.Obj?
    requires WellFormed(v) && Delimits(v, rest)
    ensures Write(v) + rest != [] && ParseScalar(Write(v) + rest) == Some((v, rest))
  {
    match v
    case Null => ParseWriteLiteral(v, rest);
    case Bool(_) => ParseWriteLiteral(v, rest);
    case Num(t) => ParseWriteNum(t, rest);
    case Str(x) => ParseWriteStr(x, rest);
  }

  lemma {:induction false} ParseWriteLiteral(v: Value, rest: string)
    requires v.Null? || v.Bool?
    ensures Write(v) + rest != [] && ParseScalar(Write(v) + rest) == Some((v, rest))
  {
    var s := Write(v) + rest;
    if v.Null? {
      assert s[..4] == "null" && s[4..] == rest;
    } else if v.b {
      assert s[..4] == "true" && s[4..] == rest;
    } else {
      assert s[..5] == "false" && s[5..] == rest;
    }
  }

  lemma {:induction false} ParseWriteNum(t: string, rest: string)
    requires IsNumeral(t) && Delimits(Num(t), rest)
    ensures Write(Num(t)) + rest != [] && ParseScalar(Write(Num(t)) + rest) == Some((Num(t), rest))
  {
    var s := t + rest;
    assert Write(Num(t)) == t;
    assert s != [] && (s[0] == '-' || IsDigit(s[0])) by {
      WriteStart(Num(t));
    }
    assert ParseNumber(s) == Some((t, rest)) by {
      ParseNumberExact(t, rest);
    }
    ParseScalarNumber(s);
  }

  lemma {:induction false} ParseScalarNumber(s: string)
    requires s != [] && (s[0] == '-' || IsDigit(s[0]))
    ensures ParseScalar(s) ==
      match ParseNumber(s)
      case None => None
      case Some((num, rest)) => Some((Num(num), rest))
  {
  }

  lemma {:induction false} ParseWriteStr(x: string, rest: string)
    ensures Write(Str(x)) + rest != [] && ParseScalar(Write(Str(x)) + rest) == Some((Str(x), rest))
  {
    var s := Write(Str(x)) + rest;
    assert s == "\"" + (Escape(x) + "\"" + rest) by {
      Regroup4("\"", Escape(x), "\"", rest);
    }
    EscapeRoundTrip(x, rest);
  }

  // ---------------------------------------------------------------------
  // Reading what was written

  /** A written value reads back as itself, leaving the rest of the text. */
  lemma {:induction false} ParseWrite(v: Value, rest: string)
    requires WellFormed(v) && Delimits(v, rest)
    ensures ParseValue(Write(v) + rest) == Some((v, rest))
    decreases v, 2
  {
    match v
    case Arr(es) => ParseWriteArr(es, rest);
    case Obj(ms) => ParseWriteObj(ms, rest);
    case _ =>
      var s := Write(v) + rest;
      ParseWriteScalar(v, rest);
      WriteStart(v);
      assert s[0] == Write(v)[0];
      ParseValueAt(s);
  }

  lemma {:induction false} ParseWriteArr(es: seq<Value>, rest: string)
    requires forall i :: 0 <= i < |es| ==> WellFormed(es[i])
    ensures ParseValue(Write(Arr(es)) + rest) == Some((Arr(es), rest))
    decreases Arr(es), 1
  {
    if es == [] {
      ArrayReadsEmpty(rest);
    } else {
      ParseWriteElems(es, rest);
      ArrayReads(es, rest);
    }
  }

  lemma {:induction false} ParseWriteObj(ms: seq<(string, Value)>, rest: string)
    requires forall i :: 0 <= i < |ms| ==> WellFormed(ms[i].1)
    ensures ParseValue(Write(Obj(ms)) + rest) == Some((Obj(ms), rest))
    decreases Obj(ms), 1
  {
    if ms == [] {
      ObjectReadsEmpty(rest);
    } else {
      ParseWriteMembers(ms, rest);
      ObjectReads(ms, rest);
    }
  }

  lemma {:induction false} ArrayReadsEmpty(rest: string)
    ensures ParseValue(Write(Arr([])) + rest) == Some((Arr([]), rest))
  {
    var s := Write(Arr([])) + rest;
    assert s == "[" + ("]" + rest);
    ParseValueAt(s);
    assert s[1..] == "]" + rest;
    ParseArrayAt(s[1..]);
  }

  lemma {:induction false} ObjectReadsEmpty(rest: string)
    ensures ParseValue(Write(Obj([])) + rest) == Some((Obj([]), rest))
  {
    var s := Write(Obj([])) + rest;
    assert s == "{" + ("}" + rest);
    ParseValueAt(s);
    assert s[1..] == "}" + rest;
    ParseObjectAt(s[1..]);
  }

  lemma {:induction false} ArrayReads(es: seq<Value>, rest: string)
    requires es != [] && WellFormed(es[0])
    requires ParseElements(WriteElems(es) + "]" + rest) == Some((es, rest))
    ensures ParseValue(Write(Arr(es)) + rest) == Some((Arr(es), rest))
  {
    var inner := WriteElems(es) + "]" + rest;
    var s := Write(Arr(es)) + rest;
    Bracketed(Write(Arr(es)), WriteElems(es), rest, '[', ']');
    assert inner != [] && !IsWs(inner[0]) && inner[0] != ']' by {
      WriteElemsStart(es);
      WriteStart(es[0]);
    }
    ParseValueAt(s);
    ParseArrayAt(inner);
  }

  lemma {:induction false} ObjectReads(ms: seq<(string, Value)>, rest: string)
    requires ms != []
    requires ParseMembers(WriteMembers(ms) + "}" + rest) == Some((ms, rest))
    ensures ParseValue(Write(Obj(ms)) + rest) == Some((Obj(ms), rest))
  {
    var inner := WriteMembers(ms) + "}" + rest;
    var s := Write(Obj(ms)) + rest;
    Bracketed(Write(Obj(ms)), WriteMembers(ms), rest, '{', '}');
    assert inner != [] && inner[0] == '"' by {
      WriteMembersStart(ms);
    }
    ParseValueAt(s);
    ParseObjectAt(inner);
  }

  /** A bracketed text followed by more text: its first character is the
      opening bracket, and the text after that is the body, the closing
      bracket and the rest. */
  lemma {:induction false} Bracketed(w: string, body: string, rest: string, open: char, close: char)
    requires w == [open] + body + [close]
    ensures w + rest != [] && (w + rest)[0] == open
    ensures (w + rest)[1..] == body + [close] + rest
  {
    assert w + rest == [open] + (body + [close] + rest);
  }

  lemma {:induction false} WriteElemsStart(es: seq<Value>)
    requires es != [] && WellFormed(es[0])
    ensures WriteElems(es) != [] && WriteElems(es)[0] == Write(es[0])[0]
  {
    WriteStart(es[0]);
    if |es| > 1 {
      assert WriteElems(es) == Write(es[0]) + ("," + WriteElems(es[1..]));
    }
  }

  lemma {:induction false} WriteMembersStart(ms: seq<(string, Value)>)
    requires ms != []
    ensures WriteMembers(ms) != [] && WriteMembers(ms)[0] == '"'
  {
    WriteMembersHead(ms);
  }

  /** Written elements and the closing bracket read back as the elements. */
  lemma {:induction false} ParseWriteElems(es: seq<Value>, rest: string)
    requires es != [] && forall i :: 0 <= i < |es| ==> WellFormed(es[i])
    ensures ParseElements(WriteElems(es) + "]" + rest) == Some((es, rest))
    decreases es, 1
  {
    if |es| == 1 {
      ParseWriteLastElem(es, rest);
    } else {
      ParseWriteMoreElems(es, rest);
    }
  }

  lemma {:induction false} ParseWriteLastElem(es: seq<Value>, rest: string)
    requires |es| == 1 && WellFormed(es[0])
    ensures ParseElements(WriteElems(es) + "]" + rest) == Some((es, rest))
    decreases es, 0
  {
    var s := WriteElems(es) + "]" + rest;
    assert s == Write(es[0]) + ("]" + rest);
    ParseWrite(es[0], "]" + rest);
    ParseElementsLast(s, es[0], "]" + rest);
    assert ("]" + rest)[1..] == rest;
    assert [es[0]] == es;
  }

  lemma {:induction false} ParseWriteMoreElems(es: seq<Value>, rest: string)
    requires |es| > 1 && forall i :: 0 <= i < |es| ==> WellFormed(es[i])
    ensures ParseElements(WriteElems(es) + "]" + rest) == Some((es, rest))
    decreases es, 0
  {
    var s := WriteElems(es) + "]" + rest;
    var tail := WriteElems(es[1..]) + "]" + rest;
    assert s == Write(es[0]) + ("," + tail);
    ParseWrite(es[0], "," + tail);
    assert ("," + tail)[1..] == tail;
    ParseWriteElems(es[1..], rest);
    ParseElementsNext(s, es[0], "," + tail, es[1..], rest);
    assert [es[0]] + es[1..] == es;
  }

  /** A written member reads back as itself, leaving the rest of the text. */
  lemma {:induction false} ParseWriteMember(key: string, v: Value, rest: string)
    requires WellFormed(v) && Delimits(v, rest)
    ensures ParseMember(Quote(key) + (":" + (Write(v) + rest))) == Some(((key, v), rest))
    decreases v, 3
  {
    var afterKey := ":" + (Write(v) + rest);
    var s := Quote(key) + afterKey;
    assert s != [] && s[0] == '"' && ParseChars(s[1..]) == Some((key, afterKey)) by {
      ParseKey(key, afterKey);
    }
    assert ParseValue(afterKey[1..]) == Some((v, rest)) by {
      assert afterKey[1..] == Write(v) + rest;
      ParseWrite(v, rest);
    }
    ParseMemberAt(s, key, afterKey, v, rest);
  }

  lemma {:induction false} ParseMemberAt(s: string, key: string, afterKey: string, v: Value, rest: string)
    requires s != [] && s[0] == '"' && ParseChars(s[1..]) == Some((key, afterKey))
    requires afterKey != [] && afterKey[0] == ':'
    requires ParseValue(afterKey[1..]) == Some((v, rest))
    ensures ParseMember(s) == Some(((key, v), rest))
  {
    SkipWsNone(s);
    SkipWsNone(afterKey);
  }

  lemma {:induction false} ParseKey(key: string, afterKey: string)
    ensures var s := Quote(key) + afterKey;
      s != [] && s[0] == '"' && SkipWs(s) == s && ParseChars(s[1..]) == Some((key, afterKey))
  {
    var s := Quote(key) + afterKey;
    assert s == "\"" + (Escape(key) + "\"" + afterKey);
    SkipWsNone(s);
    EscapeRoundTrip(key, afterKey);
  }

  /** Written members and the closing brace read back as the members. */
  lemma {:induction false} ParseWriteMembers(ms: seq<(string, Value)>, rest: string)
    requires ms != [] && forall i :: 0 <= i < |ms| ==> WellFormed(ms[i].1)
    ensures ParseMembers(WriteMembers(ms) + "}" + rest) == Some((ms, rest))
    decreases ms, 1
  {
    if |ms| == 1 {
      ParseWriteLastMember(ms, rest);
    } else {
      ParseWriteMoreMembers(ms, rest);
    }
  }

  lemma {:induction false} ParseWriteLastMember(ms: seq<(string, Value)>, rest: string)
    requires |ms| == 1 && WellFormed(ms[0].1)
    ensures ParseMembers(WriteMembers(ms) + "}" + rest) == Some((ms, rest))
    decreases ms, 0
  {
    var (key, v) := ms[0];
    assert v < ms[0];
    ParseWriteMember(key, v, "}" + rest);
    MembersLastStep(ms, key, v, rest);
  }

  lemma {:induction false} ParseWriteMoreMembers(ms: seq<(string, Value)>, rest: string)
    requires |ms| > 1 && forall i :: 0 <= i < |ms| ==> WellFormed(ms[i].1)
    ensures ParseMembers(WriteMembers(ms) + "}" + rest) == Some((ms, rest))
    decreases ms, 0
  {
    var (key, v) := ms[0];
    assert v < ms[0];
    var tail := WriteMembers(ms[1..]) + "}" + rest;
    ParseWriteMember(key, v, "," + tail);
    ParseWriteMembers(ms[1..], rest);
    MembersNextStep(ms, key, v, rest);
  }

  lemma {:induction false} MembersLastStep(ms: seq<(string, Value)>, key: string, v: Value, rest: string)
    requires |ms| == 1 && ms[0] == (key, v)
    requires ParseMember(Quote(key) + (":" + (Write(v) + ("}" + rest)))) == Some(((key, v), "}" + rest))
    ensures ParseMembers(WriteMembers(ms) + "}" + rest) == Some((ms, rest))
  {
    var after := "}" + rest;
    var s := WriteMembers(ms) + "}" + rest;
    assert s == Quote(key) + (":" + (Write(v) + after)) by {
      WriteMembersHead(ms);
      Regroup(Quote(key), ":", Write(v), "}", rest);
    }
    ParseMembersLast(s, (key, v), after);
    assert after[1..] == rest;
    assert [(key, v)] == ms;
  }

  lemma {:induction false} MembersNextStep(ms: seq<(string, Value)>, key: string, v: Value, rest: string)
    requires |ms| > 1 && ms[0] == (key, v)
    requires var tail := WriteMembers(ms[1..]) + "}" + rest;
      ParseMember(Quote(key) + (":" + (Write(v) + ("," + tail)))) == Some(((key, v), "," + tail))
    requires ParseMembers(WriteMembers(ms[1..]) + "}" + rest) == Some((ms[1..], rest))
    ensures ParseMembers(WriteMembers(ms) + "}" + rest) == Some((ms, rest))
  {
    var tail := WriteMembers(ms[1..]) + "}" + rest;
    var after := "," + tail;
    var s := WriteMembers(ms) + "}" + rest;
    assert s == Quote(key) + (":" + (Write(v) + after)) by {
      WriteMembersHead(ms);
      Regroup6(Quote(key), ":", Write(v), ",", WriteMembers(ms[1..]), "}", rest);
    }
    assert after[1..] == tail;
    ParseMembersNext(s, (key, v), after, ms[1..], rest);
    assert [(key, v)] + ms[1..] == ms;
  }

  /** The first member's text heads the written members. */
  lemma {:induction false} WriteMembersHead(ms: seq<(string, Value)>)
    requires ms != []
    ensures var m := Quote(ms[0].0) + ":" + Write(ms[0].1);
      WriteMembers(ms) == if |ms| == 1 then m else m + "," + WriteMembers(ms[1..])
  {
  }

  lemma {:induction false} Regroup3(a: string, b: string, c: string)
    ensures a + b + c == a + (b + c)
  {
  }

  lemma {:induction false} Regroup4(a: string, b: string, c: string, d: string)
    ensures a + b + c + d == a + (b + c + d)
  {
  }

  lemma {:induction false} Regroup(a: string, b: string, c: string, d: string, e: string)
    ensures a + b + c + d + e == a + (b + (c + (d + e)))
  {
  }

  lemma {:induction false} Regroup6(a: string, b: string, c: string, d: string, e: string, f: string, g: string)
    ensures a + b + c + d + e + f + g == a + (b + (c + (d + (e + f + g))))
  {
  }

  // ---------------------------------------------------------------------
  // Whole documents

  /** SkipWs drops exactly the leading whitespace: what it returns is a
      suffix of its input, everything before that suffix is whitespace, and
      the suffix does not start with whitespace. */
  lemma {:induction false} SkipWsSpec(s: string)
    ensures var r := SkipWs(s);
      |r| <= |s| && r == s[|s| - |r|..] &&
      (forall i :: 0 <= i < |s| - |r| ==> IsWs(s[i])) &&
      (r == [] || !IsWs(r[0]))
  {
    if s != [] && IsWs(s[0]) {
      SkipWsSpec(s[1..]);
    }
  }

  /** Leading whitespace is skipped entirely. */
  lemma {:induction false} SkipWsPrefix(ws: string, x: string)
    requires AllWs(ws)
    ensures SkipWs(ws + x) == SkipWs(x)
  {
    if ws != [] {
      assert (ws + x)[1..] == ws[1..] + x;
      SkipWsPrefix(ws[1..], x);
    } else {
      assert ws + x == x;
    }
  }

  /** A value reads the same after any amount of leading whitespace. */
  lemma {:induction false} ParseValueWs(ws: string, x: string)
    requires AllWs(ws)
    ensures ParseValue(ws + x) == ParseValue(x)
  {
    SkipWsPrefix(ws, x);
  }

  /** write then read gives back every well-formed value. */
  lemma {:induction false} ReadWrite(v: Value)
    requires WellFormed(v)
    ensures Read(Write(v)) == Some(v)
  {
    ParseWrite(v, []);
    assert Write(v) + [] == Write(v);
  }

  /** Reading is stable under writing: whatever a text reads as, its written
      form reads as the same value. */
  lemma {:induction false} ReadWriteRead(s: string, v: Value)
    requires Read(s) == Some(v)
    ensures Read(Write(v)) == Some(v)
  {
    ReadWrite(v);
  }

  /** Whitespace skipping consumes a text entirely exactly when the text is
      all whitespace. */
  lemma {:induction false} SkipWsEmpty(s: string)
    ensures SkipWs(s) == [] <==> AllWs(s)
  {
    SkipWsSpec(s);
  }

  /** A document surrounded by whitespace reads as the document. */
  lemma {:induction false} ReadPadded(ws1: string, v: Value, ws2: string)
    requires AllWs(ws1) && AllWs(ws2) && WellFormed(v)
    ensures Read(ws1 + Write(v) + ws2) == Some(v)
  {
    var s := ws1 + Write(v) + ws2;
    assert ParseValue(s) == Some((v, ws2)) by {
      ParseValueWs(ws1, Write(v) + ws2);
      Regroup3(ws1, Write(v), ws2);
      ParseWrite(v, ws2);
    }
    ReadAt(s, v, ws2);
  }

  /** Anything but whitespace after a complete document makes the read fail. */
  lemma {:induction false} ReadRejectsTrailing(ws1: string, v: Value, rest: string)
    requires AllWs(ws1) && WellFormed(v) && Delimits(v, rest)
    requires !AllWs(rest)
    ensures Read(ws1 + Write(v) + rest) == None
  {
    var s := ws1 + Write(v) + rest;
    assert ParseValue(s) == Some((v, rest)) by {
      ParseValueWs(ws1, Write(v) + rest);
      Regroup3(ws1, Write(v), rest);
      ParseWrite(v, rest);
    }
    ReadAt(s, v, rest);
  }

  /** Once the text begins with a document, it reads as that document exactly
      when only whitespace follows it. */
  lemma {:induction false} ReadAt(s: string, v: Value, rest: string)
    requires ParseValue(s) == Some((v, rest))
    ensures Read(s) == if AllWs(rest) then Some(v) else None
  {
    SkipWsEmpty(rest);
  }
}
