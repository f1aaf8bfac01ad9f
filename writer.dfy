/** The JSON writer, without indentation: numbers are emitted as their stored
    text, strings are escaped, and members and elements keep their order. */
module Writer {
  import opened JsonValue

  const HexDigits: string := "0123456789abcdef"

  /** How one character of a string is written (section 7 of RFC 8259): the
      quote and the backslash are escaped, the usual control characters get
      their short escapes, the other control characters and DEL are written
      as \u00xx with lower-case hexadecimal digits, and everything else is
      written as itself. */
  function EscapeChar(c: char): (r: string)
    ensures PlainChar(c) ==> r == [c]
    ensures !PlainChar(c) ==> 2 <= |r| <= 6 && r[0] == '\\'
  {
    if c == '"' then "\\\""
    else if c == '\\' then "\\\\"
    else if c == '\U{8}' then "\\b"
    else if c == '\U{C}' then "\\f"
    else if c == '\n' then "\\n"
    else if c == '\r' then "\\r"
    else if c == '\t' then "\\t"
    else if (c as int) < 0x20 || (c as int) == 0x7f then
      "\\u00" + [HexDigits[(c as int) / 16], HexDigits[(c as int) % 16]]
    else [c]
  }

  /** A string's characters, each as EscapeChar writes it. */
  function Escape(s: string): (r: string)
    ensures |s| <= |r| <= 6 * |s|
  {
    if s == [] then [] else EscapeChar(s[0]) + Escape(s[1..])
  }

  function Quote(s: string): string
  {
    "\"" + Escape(s) + "\""
  }

  /** write(): a number verbatim, a string between quotes, a container
      between its brackets. */
  function Write(v: Value): (r: string)
    ensures v.Num? ==> r == v.numText
    ensures v.Str? ==> |r| >= 2 && r[0] == '"' && r[|r| - 1] == '"'
    ensures v.Arr? ==> |r| >= 2 && r[0] == '[' && r[|r| - 1] == ']'
    ensures v.Obj? ==> |r| >= 2 && r[0] == '{' && r[|r| - 1] == '}'
  {
    match v
    case Null => "null"
    case Bool(b) => if b then "true" else "false"
    case Num(t) => t
    case Str(t) => Quote(t)
    case Arr(es) => "[" + WriteElems(es) + "]"
    case Obj(ms) => "{" + WriteMembers(ms) + "}"
  }

  /** Elements separated by commas. */
  function WriteElems(es: seq<Value>): string
  {
    if es == [] then ""
    else if |es| == 1 then Write(es[0])
    else Write(es[0]) + "," + WriteElems(es[1..])
  }

  /** Members written as "key":value, separated by commas. */
  function WriteMembers(ms: seq<(string, Value)>): string
  {
    if ms == [] then ""
    else
      var (key, v) := ms[0];
      assert v < ms[0];
      var m := Quote(key) + ":" + Write(v);
      if |ms| == 1 then m else m + "," + WriteMembers(ms[1..])
  }

  /** A character the writer copies unchanged. */
  predicate PlainChar(c: char)
  {
    c != '"' && c != '\\' && (c as int) >= 0x20 && (c as int) != 0x7f
  }

  /** Escaping works character by character, so it distributes over
      concatenation. */
  lemma {:induction false} EscapeAppend(a: string, b: string)
    ensures Escape(a + b) == Escape(a) + Escape(b)
  {
    if a == [] {
      assert a + b == b;
    } else {
      assert (a + b)[1..] == a[1..] + b;
      EscapeAppend(a[1..], b);
    }
  }

  /** Text made only of plain characters is written as itself. */
  lemma {:induction false} EscapePlain(s: string)
    requires forall i :: 0 <= i < |s| ==> PlainChar(s[i])
    ensures Escape(s) == s
  {
    if s != [] {
      EscapePlain(s[1..]);
      assert [s[0]] + s[1..] == s;
    }
  }

  /** Text made only of plain characters is quoted without escapes. */
  lemma QuotePlain(s: string)
    requires forall i :: 0 <= i < |s| ==> PlainChar(s[i])
    ensures Quote(s) == "\"" + s + "\""
  {
    EscapePlain(s);
  }
}
