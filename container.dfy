/** RLPValue: the mutable holder of one Value. Every mutator replaces the held
    value as a whole, so the previous kind and payload are discarded; the
    invariant it keeps is that every number, at any depth, holds a numeral. */
module Container {
  import opened Numerals
  import opened JsonValue
  import Reader

  /** The kinds a value can be created with. */
  datatype VType = VNULL | VOBJ | VARR | VSTR | VNUM | VBOOL

  /** The value a typed constructor creates: an empty container, a string or
      number holding the given text, false, or null. */
  function Initial(t: VType, text: string): (r: Value)
    ensures t == VSTR ==> r == Str(text) && ValStr(r) == text
    ensures t == VNUM ==> r == Num(text) && ValStr(r) == text
    ensures (t == VARR ==> r.Arr? && Size(r) == 0) && (t == VOBJ ==> r.Obj? && Size(r) == 0)
    ensures t == VNULL ==> r.Null? && ValStr(r) == ""
    ensures t == VBOOL ==> r == Bool(false)
  {
    match t
    case VNULL => Null
    case VOBJ => Obj([])
    case VARR => Arr([])
    case VSTR => Str(text)
    case VNUM => Num(text)
    case VBOOL => Bool(false)
  }

  class RLPValue {
    var val: Value

    ghost predicate Valid()
      reads this
    {
      WellFormed(val)
    }

    /** A new value is null. */
    constructor ()
      ensures val == Null && Valid()
    {
      val := Null;
    }

    /** A value of the given kind; a number kind must be given a numeral. */
    constructor OfType(t: VType, text: string)
      requires t == VNUM ==> ValidNumStr(text)
      ensures val == Initial(t, text) && Valid()
    {
      val := Initial(t, text);
    }

    /** A string value, from a string or from C text. */
    constructor OfStr(s: string)
      ensures val == Str(s) && Valid()
    {
      val := Str(s);
    }

    constructor OfInt32(x: Int32)
      ensures val == Num(IntText(x as int)) && Valid()
    {
      val := Num(IntText(x as int));
      IntTextIsNumeral(x as int);
    }

    constructor OfInt64(x: Int64)
      ensures val == Num(IntText(x as int)) && Valid()
    {
      val := Num(IntText(x as int));
      IntTextIsNumeral(x as int);
    }

    constructor OfUInt64(x: UInt64)
      ensures val == Num(IntText(x as int)) && Valid()
    {
      val := Num(IntText(x as int));
      IntTextIsNumeral(x as int);
    }

    method SetNull() returns (ok: bool)
      modifies this
      ensures ok && val == Null && Valid()
    {
      val := Null;
      ok := true;
    }

    method SetBool(b: bool) returns (ok: bool)
      modifies this
      ensures ok && val == Bool(b) && Valid()
    {
      val := Bool(b);
      ok := true;
    }

    method SetStr(s: string) returns (ok: bool)
      modifies this
      ensures ok && val == Str(s) && Valid()
    {
      val := Str(s);
      ok := true;
    }

    method SetArray() returns (ok: bool)
      modifies this
      ensures ok && val == Arr([]) && Valid()
    {
      val := Arr([]);
      ok := true;
    }

    method SetObject() returns (ok: bool)
      modifies this
      ensures ok && val == Obj([]) && Valid()
    {
      val := Obj([]);
      ok := true;
    }

    /** setNumStr: the whole text must be a numeral; then it is stored
        verbatim, and otherwise nothing changes. */
    method SetNumStr(t: string) returns (ok: bool)
      requires Valid()
      modifies this
      ensures ok <==> IsNumeral(t)
      ensures ok ==> val == Num(t)
      ensures !ok ==> val == old(val)
      ensures Valid()
    {
      if ValidNumStr(t) {
        val := Num(t);
        ok := true;
      } else {
        ok := false;
      }
    }

    method SetInt32(x: Int32) returns (ok: bool)
      modifies this
      ensures ok && val == Num(IntText(x as int)) && Valid()
    {
      val := Num(IntText(x as int));
      IntTextIsNumeral(x as int);
      ok := true;
    }

    method SetInt64(x: Int64) returns (ok: bool)
      modifies this
      ensures ok && val == Num(IntText(x as int)) && Valid()
    {
      val := Num(IntText(x as int));
      IntTextIsNumeral(x as int);
      ok := true;
    }

    method SetUInt64(x: UInt64) returns (ok: bool)
      modifies this
      ensures ok && val == Num(IntText(x as int)) && Valid()
    {
      val := Num(IntText(x as int));
      IntTextIsNumeral(x as int);
      ok := true;
    }

    /** clear: back to null, with empty text. */
    method Clear()
      modifies this
      ensures val == Null && ValStr(val) == "" && Size(val) == 0 && Valid()
    {
      val := Null;
    }

    /** push_back: appends to an array; a null receiver first becomes an
        empty array; any other receiver is left alone and the call fails. */
    method PushBack(x: Value) returns (ok: bool)
      requires Valid() && WellFormed(x)
      modifies this
      ensures ok <==> old(val).Arr? || old(val).Null?
      ensures ok ==> val == Arr(Children(old(val)) + [x])
      ensures !ok ==> val == old(val)
      ensures Valid()
    {
      if val.Arr? || val.Null? {
        val := Arr(Children(val) + [x]);
        ok := true;
      } else {
        ok := false;
      }
    }

    /** push_backV: appends every value in order, or none of them. */
    method PushBackV(xs: seq<Value>) returns (ok: bool)
      requires Valid() && forall i :: 0 <= i < |xs| ==> WellFormed(xs[i])
      modifies this
      ensures ok <==> old(val).Arr? || old(val).Null?
      ensures ok ==> val == Arr(Children(old(val)) + xs)
      ensures !ok ==> val == old(val)
      ensures Valid()
    {
      if val.Arr? || val.Null? {
        val := Arr(Children(val) + xs);
        ok := true;
      } else {
        ok := false;
      }
    }

    /** read: replaces the value with the document the text holds; a text
        that is not exactly one document (with whitespace around it) fails
        and leaves null behind. */
    method Read(text: string) returns (ok: bool)
      modifies this
      ensures ok <==> Reader.Read(text).Some?
      ensures ok ==> val == Reader.Read(text).value
      ensures !ok ==> val == Null
      ensures Valid()
    {
      match Reader.Read(text)
      case Some(v) =>
        val := v;
        ok := true;
      case None =>
        val := Null;
        ok := false;
    }
  }
}
