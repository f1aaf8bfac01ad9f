/** The JSON reader: recursive descent over the grammar of RFC 8259. Every
    parse function takes the remaining text and returns what it recognised
    together with the text that follows, always strictly shorter. */
module Reader {
  import opened Wrappers
  import opened Numerals
  import opened JsonValue

  /** Insignificant whitespace, section 2 of RFC 8259. */
  predicate IsWs(c: char) { c == ' ' || c == '\t' || c == '\n' || c == '\r' }

  /** Drops leading whitespace. */
  function SkipWs(s: string): (r: string)
    ensures |r| <= |s|
  {
    if s != [] && IsWs(s[0]) then SkipWs(s[1..]) else s
  }

  predicate IsHex(c: char) { '0' <= c <= '9' || 'a' <= c <= 'f' || 'A' <= c <= 'F' }

  function HexVal(c: char): (n: nat)
    requires IsHex(c)
    ensures n < 16
  {
    if '0' <= c <= '9' then (c as int) - ('0' as int)
    else if 'a' <= c <= 'f' then (c as int) - ('a' as int) + 10
    else (c as int) - ('A' as int) + 10
  }

  /** The code unit written as four hexadecimal digits at the start of s. */
  function Hex4(s: string): (r: Option<nat>)
    ensures r.Some? ==> r.value < 0x10000
  {
    if |s| >= 4 && IsHex(s[0]) && IsHex(s[1]) && IsHex(s[2]) && IsHex(s[3]) then
      Some(HexVal(s[0]) * 0x1000 + HexVal(s[1]) * 0x100 + HexVal(s[2]) * 0x10 + HexVal(s[3]))
    else None
  }

  /** The character of an escape sequence, given the text after its
      backslash (section 7 of RFC 8259). A high surrogate must be followed by
      an escaped low surrogate and the pair denotes one character; a lone
      surrogate is refused. */
  function DecodeEscape(s: string): (r: Option<(char, string)>)
    ensures r.Some? ==> |r.value.1| < |s|
  {
    if s == [] then None
    else if s[0] == '"' then Some(('"', s[1..]))
    else if s[0] == '\\' then Some(('\\', s[1..]))
    else if s[0] == '/' then Some(('/', s[1..]))
    else if s[0] == 'b' then Some(('\U{8}', s[1..]))
    else if s[0] == 'f' then Some(('\U{C}', s[1..]))
    else if s[0] == 'n' then Some(('\n', s[1..]))
    else if s[0] == 'r' then Some(('\r', s[1..]))
    else if s[0] == 't' then Some(('\t', s[1..]))
    else if s[0] == 'u' then
      match Hex4(s[1..])
      case None => None
      case Some(cu) =>
        if 0xD800 <= cu < 0xDC00 then
          var t := s[5..];
          if |t| >= 2 && t[0] == '\\' && t[1] == 'u' then
            match Hex4(t[2..])
            case None => None
            case Some(lo) =>
              if 0xDC00 <= lo < 0xE000 then
                Some(((0x10000 + (cu - 0xD800) * 0x400 + (lo - 0xDC00)) as char, t[6..]))
              else None
          else None
        else if 0xDC00 <= cu < 0xE000 then None
        else Some((cu as char, s[5..]))
    else None
  }

  /** The characters of a string up to its closing quote, given the text
      after the opening quote; unescaped control characters are refused. */
  function ParseChars(s: string): (r: Option<(string, string)>)
    ensures r.Some? ==> |r.value.1| < |s|
    decreases |s|
  {
    if s == [] then None
    else if s[0] == '"' then Some(([], s[1..]))
    else if s[0] == '\\' then
      match DecodeEscape(s[1..])
      case None => None
      case Some((c, rest)) =>
        match ParseChars(rest)
        case None => None
        case Some((body, after)) => Some(([c] + body, after))
    else if (s[0] as int) < 0x20 then None
    else
      match ParseChars(s[1..])
      case None => None
      case Some((body, after)) => Some(([s[0]] + body, after))
  }

  /** A string, given the text after its opening quote. */
  function ParseString(s: string): (r: Option<(Value, string)>)
    ensures r.Some? ==> |r.value.1| < |s| && r.value.0.Str?
  {
    match ParseChars(s)
    case None => None
    case Some((str, rest)) => Some((Str(str), rest))
  }

  /** A value that is not a container: a string, a literal or a number. */
  function ParseScalar(t: string): (r: Option<(Value, string)>)
    requires t != []
    ensures r.Some? ==> |r.value.1| < |t| && WellFormed(r.value.0)
  {
    if t[0] == '"' then ParseString(t[1..])
    else if t[0] == 'n' then
      if |t| >= 4 && t[1] == 'u' && t[2] == 'l' && t[3] == 'l' then Some((Null, t[4..])) else None
    else if t[0] == 't' then
      if |t| >= 4 && t[1] == 'r' && t[2] == 'u' && t[3] == 'e' then Some((Bool(true), t[4..])) else None
    else if t[0] == 'f' then
      if |t| >= 5 && t[1] == 'a' && t[2] == 'l' && t[3] == 's' && t[4] == 'e' then Some((Bool(false), t[5..])) else None
    else
      match ParseNumber(t)
      case None => None
      case Some((num, rest)) => Some((Num(num), rest))
  }

  /** One value, after optional leading whitespace. */
  function ParseValue(s: string): (r: Option<(Value, string)>)
    ensures r.Some? ==> |r.value.1| < |s| && WellFormed(r.value.0)
    decreases |s|, 0
  {
    var t := SkipWs(s);
    if t == [] then None
    else if t[0] == '{' then ParseObject(t[1..])
    else if t[0] == '[' then ParseArray(t[1..])
    else ParseScalar(t)
  }

  /** An array, given the text after its opening bracket. */
  function ParseArray(s: string): (r: Option<(Value, string)>)
    ensures r.Some? ==> |r.value.1| < |s| && WellFormed(r.value.0)
    decreases |s|, 2
  {
    var t := SkipWs(s);
    if t != [] && t[0] == ']' then Some((Arr([]), t[1..]))
    else
      match ParseElements(t)
      case None => None
      case Some((es, rest)) => Some((Arr(es), rest))
  }

  /** One or more comma-separated values and the closing bracket. */
  function ParseElements(s: string): (r: Option<(seq<Value>, string)>)
    ensures r.Some? ==> |r.value.1| < |s|
    ensures r.Some? ==> forall i :: 0 <= i < |r.value.0| ==> WellFormed(r.value.0[i])
    decreases |s|, 1
  {
    match ParseValue(s)
    case None => None
    case Some((v, rest)) =>
      var t := SkipWs(rest);
      if t != [] && t[0] == ']' then Some(([v], t[1..]))
      else if t != [] && t[0] == ',' then
        match ParseElements(t[1..])
        case None => None
        case Some((vs, after)) => Some(([v] + vs, after))
      else None
  }

  /** An object, given the text after its opening brace. */
  function ParseObject(s: string): (r: Option<(Value, string)>)
    ensures r.Some? ==> |r.value.1| < |s| && WellFormed(r.value.0)
    decreases |s|, 2
  {
    var t := SkipWs(s);
    if t != [] && t[0] == '}' then Some((Obj([]), t[1..]))
    else
      match ParseMembers(t)
      case None => None
      case Some((ms, rest)) => Some((Obj(ms), rest))
  }

  /** One "key": value member, after optional leading whitespace. */
  function ParseMember(s: string): (r: Option<((string, Value), string)>)
    ensures r.Some? ==> |r.value.1| < |s| && WellFormed(r.value.0.1)
    decreases |s|, 0
  {
    var t := SkipWs(s);
    if t == [] || t[0] != '"' then None
    else
      match ParseChars(t[1..])
      case None => None
      case Some((key, afterKey)) =>
        var u := SkipWs(afterKey);
        if u == [] || u[0] != ':' then None
        else
          match ParseValue(u[1..])
          case None => None
          case Some((v, rest)) => Some(((key, v), rest))
  }

  /** One or more comma-separated members and the closing brace; members
      keep their order and duplicate keys are kept. */
  function ParseMembers(s: string): (r: Option<(seq<(string, Value)>, string)>)
    ensures r.Some? ==> |r.value.1| < |s|
    ensures r.Some? ==> forall i :: 0 <= i < |r.value.0| ==> WellFormed(r.value.0[i].1)
    decreases |s|, 1
  {
    match ParseMember(s)
    case None => None
    case Some((m, rest)) =>
      var w := SkipWs(rest);
      if w != [] && w[0] == '}' then Some(([m], w[1..]))
      else if w != [] && w[0] == ',' then
        match ParseMembers(w[1..])
        case None => None
        case Some((ms, after)) => Some(([m] + ms, after))
      else None
  }

  /** read: exactly one document, with only whitespace around it. */
  function Read(s: string): (r: Option<Value>)
    ensures r.Some? ==> WellFormed(r.value)
  {
    match ParseValue(s)
    case None => None
    case Some((v, rest)) => if SkipWs(rest) == [] then Some(v) else None
  }
}
