/** The dynamically typed value container: exactly one kind at a time. */
module JsonValue {
  import opened Numerals

  /** A number is kept as the decimal text it was set or read with, never as a
      machine number; an object is an ordered list of (key, value) members in
      which duplicate keys may coexist. */
  datatype Value =
    | Null
    | Bool(b: bool)
    | Num(numText: string)
    | Str(strText: string)
    | Arr(elems: seq<Value>)
    | Obj(members: seq<(string, Value)>)

  /** The raw text accessor: the stored text of a string or a number, and the
      empty text for every other kind. */
  function ValStr(v: Value): (r: string)
    ensures v.Str? ==> r == v.strText
    ensures v.Num? ==> r == v.numText
    ensures !v.Str? && !v.Num? ==> r == ""
  {
    match v
    case Str(t) => t
    case Num(t) => t
    case _ => ""
  }

  /** The values held by a container: the elements of an array, or the member
      values of an object in order. */
  function Children(v: Value): (r: seq<Value>)
    ensures v.Arr? ==> r == v.elems
    ensures v.Obj? ==> |r| == |v.members| && forall i :: 0 <= i < |r| ==> r[i] == v.members[i].1
    ensures !v.Arr? && !v.Obj? ==> r == []
  {
    match v
    case Arr(es) => es
    case Obj(ms) => seq(|ms|, i requires 0 <= i < |ms| => ms[i].1)
    case _ => []
  }

  /** Number of children; zero for every kind that is not a container. */
  function Size(v: Value): (n: nat)
    ensures v.Arr? ==> n == |v.elems|
    ensures v.Obj? ==> n == |v.members|
    ensures !v.Arr? && !v.Obj? ==> n == 0
  {
    |Children(v)|
  }

  /** True exactly when the value has no children. */
  function IsEmpty(v: Value): (r: bool)
    ensures r <==> (v.Arr? ==> v.elems == []) && (v.Obj? ==> v.members == [])
  {
    Size(v) == 0
  }

  /** Positional indexing, lenient: an index past the end, or any index into a
      value that is not a container, yields Null instead of failing. */
  function At(v: Value, i: nat): (r: Value)
    ensures i < Size(v) ==> r == Children(v)[i]
    ensures i >= Size(v) ==> r == Null && ValStr(r) == ""
  {
    var cs := Children(v);
    if i < |cs| then cs[i] else Null
  }

  /** The invariant every value keeps: each number, at any depth, holds a
      numeral of the JSON number grammar. */
  ghost predicate WellFormed(v: Value)
  {
    match v
    case Num(t) => IsNumeral(t)
    case Arr(es) => forall i :: 0 <= i < |es| ==> WellFormed(es[i])
    case Obj(ms) => forall i :: 0 <= i < |ms| ==> WellFormed(ms[i].1)
    case _ => true
  }
}
