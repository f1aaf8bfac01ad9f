/** Typed accessors: each checks the kind, and the integer ones the width,
    and reports a failure as an error value instead of defaulting. */
module Accessors {
  import opened Wrappers
  import opened Numerals
  import opened JsonValue

  /** The two ways a typed read fails: the value has another kind, or its
      numeral is not an integer of the requested width. */
  datatype AccessError = TypeMismatch | OutOfRange

  function GetStr(v: Value): (r: Result<string, AccessError>)
    ensures r.Ok? <==> v.Str?
    ensures r.Ok? ==> r.value == ValStr(v)
    ensures r.Err? ==> r.error == TypeMismatch
  {
    if v.Str? then Ok(v.strText) else Err(TypeMismatch)
  }

  function GetBool(v: Value): (r: Result<bool, AccessError>)
    ensures r.Ok? <==> v.Bool?
    ensures r.Ok? ==> r.value == v.b
    ensures r.Err? ==> r.error == TypeMismatch
  {
    if v.Bool? then Ok(v.b) else Err(TypeMismatch)
  }

  /** The array itself, when the value is one. */
  function GetArray(v: Value): (r: Result<Value, AccessError>)
    ensures r.Ok? <==> v.Arr?
    ensures r.Ok? ==> r.value == v
    ensures r.Err? ==> r.error == TypeMismatch
  {
    if v.Arr? then Ok(v) else Err(TypeMismatch)
  }

  /** The object itself, when the value is one. */
  function GetObj(v: Value): (r: Result<Value, AccessError>)
    ensures r.Ok? <==> v.Obj?
    ensures r.Ok? ==> r.value == v
    ensures r.Err? ==> r.error == TypeMismatch
  {
    if v.Obj? then Ok(v) else Err(TypeMismatch)
  }

  /** The children of an array or of an object, in order. */
  function GetValues(v: Value): (r: Result<seq<Value>, AccessError>)
    ensures r.Ok? <==> v.Arr? || v.Obj?
    ensures r.Ok? ==> r.value == Children(v) && |r.value| == Size(v)
    ensures r.Err? ==> r.error == TypeMismatch
  {
    if v.Arr? || v.Obj? then Ok(Children(v)) else Err(TypeMismatch)
  }

  /** get_int64: a number whose text is an optionally signed run of digits
      denoting a value in the signed 64-bit range. */
  function GetInt64(v: Value): (r: Result<Int64, AccessError>)
    ensures r.Ok? <==> v.Num? && ParseInt(v.numText).Some? && InInt64(ParseInt(v.numText).value)
    ensures r.Ok? ==> ParseInt(v.numText) == Some(r.value as int)
    ensures r.Err? ==> (r.error == TypeMismatch <==> !v.Num?)
  {
    if !v.Num? then Err(TypeMismatch)
    else match ParseInt(v.numText)
      case Some(n) => if InInt64(n) then Ok(n as Int64) else Err(OutOfRange)
      case None => Err(OutOfRange)
  }

  /** get_int: as get_int64, for the signed 32-bit range. */
  function GetInt(v: Value): (r: Result<Int32, AccessError>)
    ensures r.Ok? <==> v.Num? && ParseInt(v.numText).Some? && InInt32(ParseInt(v.numText).value)
    ensures r.Ok? ==> ParseInt(v.numText) == Some(r.value as int)
    ensures r.Err? ==> (r.error == TypeMismatch <==> !v.Num?)
  {
    if !v.Num? then Err(TypeMismatch)
    else match ParseInt(v.numText)
      case Some(n) => if InInt32(n) then Ok(n as Int32) else Err(OutOfRange)
      case None => Err(OutOfRange)
  }

  /** A number set from an integer reads back as that integer exactly when it
      fits the signed 64-bit range. */
  lemma GetInt64OfIntText(n: int)
    ensures GetInt64(Num(IntText(n))) == if InInt64(n) then Ok(n as Int64) else Err(OutOfRange)
  {
    IntTextRoundTrip(n);
  }

  /** The same for the signed 32-bit range. */
  lemma GetIntOfIntText(n: int)
    ensures GetInt(Num(IntText(n))) == if InInt32(n) then Ok(n as Int32) else Err(OutOfRange)
  {
    IntTextRoundTrip(n);
  }

  /** A numeral with a fraction or an exponent is not an integer for either
      accessor, however small its value. */
  lemma NonIntegerNumeral(t: string, k: nat)
    requires 0 < k < |t| && (t[k] == '.' || t[k] == 'e' || t[k] == 'E')
    ensures GetInt64(Num(t)) == Err(OutOfRange) && GetInt(Num(t)) == Err(OutOfRange)
  {
    var a := SignLen(t);
    assert t[a..][k - a] == t[k];
  }

  /** An integer numeral of twenty or more digits is beyond the signed 64-bit
      range, whatever its sign. */
  lemma LongIntegerOutOfRange(t: string)
    requires var u := t[SignLen(t)..]; |u| >= 20 && u[0] != '0' && AllDigits(u)
    ensures GetInt64(Num(t)) == Err(OutOfRange)
  {
    var u := t[SignLen(t)..];
    DigitsValueLowerBound(u);
    PowMonotone(19, |u| - 1);
    assert Pow10(10) == 10_000_000_000;
    assert Pow10(19) == 10_000_000_000_000_000_000;
  }
}
