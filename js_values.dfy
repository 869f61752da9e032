/** How the packet builders use decoded values in JavaScript: `x?.at(i)`, `x[i]`,
    `[...x]`, `new Uint8Array(x)`, numeric comparison and `x.toString()`.

    A decoded value is an `Option<Value>`, `None` being undefined. The JavaScript
    shapes behind the values are: arrays for Array, ObjectArray, IntegerArray and
    StringArray; a Buffer for ByteArray; a bigint for Long; plain objects for
    Dictionary, OperationRequest and OperationResponse; numbers for Byte, Short,
    Integer, Float and Double. Results that depend on UTF-8 string contents, on
    IEEE-754 arithmetic or on the string form of arrays are reported as
    CoercionNotModelled. */
module JsValues {
  import opened Bytes
  import opened Results
  import opened Protocol16

  /** `Map.get`: the stored value, or undefined. */
  function Get(m: map<int, Value>, k: int): (v: Option<Value>)
    ensures v.Some? <==> k in m
    ensures v.Some? ==> v.value == m[k]
  {
    if k in m then Some(m[k]) else None
  }

  /** The elements of an array-like value, in the form iteration yields them. */
  function ElementsOf(v: Value): (es: Option<seq<Value>>)
    ensures es.Some? <==> v.Array? || v.ObjectArray? || v.IntegerArray? || v.StringArray? || v.ByteArray?
  {
    match v
    case Array(es) => Some(es)
    case ObjectArray(es) => Some(es)
    case IntegerArray(ns) => Some(seq(|ns|, i requires 0 <= i < |ns| => Integer(ns[i])))
    case StringArray(ss) => Some(seq(|ss|, i requires 0 <= i < |ss| => String(ss[i])))
    case ByteArray(bs) => Some(seq(|bs|, i requires 0 <= i < |bs| => Byte(bs[i] as int)))
    case _ => None
  }

  /** The element at index i of a sequence, undefined past its end. */
  function Nth(es: seq<Value>, i: nat): (e: Option<Value>)
    ensures e.Some? <==> i < |es|
    ensures e.Some? ==> e.value == es[i]
  {
    if i < |es| then Some(es[i]) else None
  }

  /** A value that holds no method or index: a number, a boolean or a bigint. */
  predicate IsScalar(v: Value)
  {
    v.Byte? || v.Boolean? || v.Short? || v.Integer? || v.Long? || v.Float? || v.Double?
  }

  /** `x?.at(i)` for i >= 0: undefined for undefined or null, the element for an
      array or Buffer, and a TypeError where the value has no `at` method. */
  function At(x: Option<Value>, i: nat): (r: Result<Option<Value>>)
    ensures r.Ok? <==> x.None? || x.value.Null? || ElementsOf(x.value).Some?
    ensures r.Ok? && r.value.Some? ==>
              x.Some? && ElementsOf(x.value).Some? && i < |ElementsOf(x.value).value| &&
              r.value.value == ElementsOf(x.value).value[i]
  {
    if x.None? || x.value.Null? then Ok(None)
    else if ElementsOf(x.value).Some? then Ok(Nth(ElementsOf(x.value).value, i))
    else if x.value.String? then Err(CoercionNotModelled)
    else Err(TypeError)
  }

  /** `x[i]`: a TypeError on undefined or null, the element of an array or Buffer, and
      undefined on a number, a boolean, a bigint or an operation record. */
  function Index(x: Option<Value>, i: nat): (r: Result<Option<Value>>)
    ensures r == Err(TypeError) <==> x.None? || x.value.Null?
    ensures r.Ok? && r.value.Some? ==>
              x.Some? && ElementsOf(x.value).Some? && i < |ElementsOf(x.value).value| &&
              r.value.value == ElementsOf(x.value).value[i]
  {
    if x.None? || x.value.Null? then Err(TypeError)
    else if ElementsOf(x.value).Some? then Ok(Nth(ElementsOf(x.value).value, i))
    else if x.value.String? || x.value.Dictionary? then Err(CoercionNotModelled)
    else Ok(None)
  }

  /** `[...x]`: only arrays and Buffers are iterable here; strings iterate over code
      points, which are not modelled. */
  function Spread(x: Option<Value>): (r: Result<seq<Value>>)
    ensures r.Ok? <==> x.Some? && ElementsOf(x.value).Some?
    ensures r.Ok? ==> r.value == ElementsOf(x.value).value
  {
    if x.Some? && ElementsOf(x.value).Some? then Ok(ElementsOf(x.value).value)
    else if x.Some? && x.value.String? then Err(CoercionNotModelled)
    else Err(TypeError)
  }

  /** The spread sees exactly the elements `at` and indexing see. */
  lemma SpreadAgreesWithIndex(x: Option<Value>, i: nat)
    requires Spread(x).Ok?
    ensures At(x, i) == Index(x, i) == Ok(Nth(Spread(x).value, i))
  {
  }

  /** `at` and indexing differ exactly on undefined/null (no throw against a TypeError)
      and on scalars (a TypeError against undefined). */
  lemma AtVersusIndex(x: Option<Value>, i: nat)
    ensures (x.None? || x.value.Null?) ==> At(x, i) == Ok(None) && Index(x, i) == Err(TypeError)
    ensures x.Some? && IsScalar(x.value) ==> At(x, i) == Err(TypeError) && Index(x, i) == Ok(None)
  {
  }

  /** What a relational comparison with a number sees: undefined is NaN (`None`), null
      and false are 0, true is 1; Float and Double hold only their bits, so they, like
      strings and arrays, are not modelled; plain objects become NaN. */
  function NumericValue(x: Option<Value>): (r: Result<Option<int>>)
    ensures r == Ok(None) <==> x.None? || x.value.Dictionary? || x.value.OperationRequest? || x.value.OperationResponse?
    ensures r.Err? <==> x.Some? && (x.value.Float? || x.value.Double? || x.value.String? || x.value.StringArray? ||
                                    x.value.ByteArray? || x.value.IntegerArray? || x.value.Array? || x.value.ObjectArray?)
    ensures r.Err? ==> r.error == CoercionNotModelled
  {
    if x.None? then Ok(None)
    else
      match x.value
      case Null => Ok(Some(0))
      case Boolean(b) => Ok(Some(if b then 1 else 0))
      case Byte(n) => Ok(Some(n))
      case Short(n) => Ok(Some(n))
      case Integer(n) => Ok(Some(n))
      case Long(n) => Ok(Some(n))
      case Dictionary(_) => Ok(None)
      case OperationRequest(_, _) => Ok(None)
      case OperationResponse(_, _, _, _) => Ok(None)
      case _ => Err(CoercionNotModelled)
  }

  /** `new Uint8Array(x)`: a copy of a Buffer's bytes, the low byte of each element of
      a number array, n zero bytes for a non-negative integer n (a RangeError for a
      negative one), and no bytes for undefined, null or a plain object (their
      `length` is undefined). A bigint throws a TypeError. */
  function Uint8ArrayFrom(x: Option<Value>): (r: Result<seq<byte>>)
    ensures r == Err(TypeError) <==> x.Some? && x.value.Long?
    ensures r == Err(RangeError) <==> x.Some? && (x.value.Byte? || x.value.Short? || x.value.Integer?) &&
                                        NumericValue(x).value.value < 0
    ensures r.Ok? && x.Some? && (x.value.Byte? || x.value.Short? || x.value.Integer?) ==>
              r.value == seq(NumericValue(x).value.value, _ => 0)
  {
    if x.None? then Ok([])
    else
      match x.value
      case Null => Ok([])
      case ByteArray(bs) => Ok(bs)
      case IntegerArray(ns) => Ok(seq(|ns|, i requires 0 <= i < |ns| => (ns[i] % 256) as byte))
      case Boolean(b) => Ok(if b then [0] else [])
      case Byte(n) => ZeroBytes(n)
      case Short(n) => ZeroBytes(n)
      case Integer(n) => ZeroBytes(n)
      case Long(_) => Err(TypeError)
      case Dictionary(_) => Ok([])
      case OperationRequest(_, _) => Ok([])
      case OperationResponse(_, _, _, _) => Ok([])
      case _ => Err(CoercionNotModelled)
  }

  function ZeroBytes(n: int): (r: Result<seq<byte>>)
    ensures r.Ok? <==> n >= 0
    ensures r.Ok? ==> |r.value| == n && forall i :: 0 <= i < n ==> r.value[i] == 0
    ensures r.Err? ==> r.error == RangeError
  {
    if n < 0 then Err(RangeError) else Ok(seq(n, _ => 0 as byte))
  }

  /** A Buffer survives `new Uint8Array` unchanged, and a number array keeps one byte
      per element, congruent to it modulo 256. */
  lemma Uint8ArrayOfArrays(x: Value)
    ensures x.ByteArray? ==> Uint8ArrayFrom(Some(x)) == Ok(x.bytes)
    ensures x.IntegerArray? ==>
              Uint8ArrayFrom(Some(x)).Ok? && |Uint8ArrayFrom(Some(x)).value| == |x.ints| &&
              forall i :: 0 <= i < |x.ints| ==> (Uint8ArrayFrom(Some(x)).value[i] as int - x.ints[i]) % 256 == 0
  {
    if x.IntegerArray? {
      var bs := Uint8ArrayFrom(Some(x)).value;
      forall i | 0 <= i < |x.ints|
        ensures (bs[i] as int - x.ints[i]) % 256 == 0
      {
        var n := x.ints[i];
        assert bs[i] as int == n % 256;
        assert n == 256 * (n / 256) + n % 256;
        assert bs[i] as int - n == 256 * (-(n / 256));
      }
    }
  }

  /** The decimal digits of n as ASCII bytes, most significant first, with no leading
      zero: what `toString()` writes for a non-negative integer. */
  function Digits(n: nat): (s: seq<byte>)
    ensures |s| >= 1 && forall i :: 0 <= i < |s| ==> 48 <= s[i] < 58
    ensures s[0] == 48 <==> n == 0
  {
    if n < 10 then [(48 + n) as byte] else Digits(n / 10) + [(48 + n % 10) as byte]
  }

  /** The number a string of ASCII decimal digits spells. */
  function DigitsValue(s: seq<byte>): nat
    requires forall i :: 0 <= i < |s| ==> 48 <= s[i] < 58
  {
    if s == [] then 0 else DigitsValue(s[..|s| - 1]) * 10 + (s[|s| - 1] as int - 48)
  }

  /** The digits spell the number they were written from. */
  lemma {:induction false} DigitsRoundTrip(n: nat)
    ensures DigitsValue(Digits(n)) == n
  {
    if n >= 10 {
      DigitsRoundTrip(n / 10);
      var s := Digits(n);
      assert s[..|s| - 1] == Digits(n / 10);
    }
  }

  /** `toString()` of an integer-valued number or a bigint: a minus sign, then the
      digits of the magnitude. */
  function DecimalString(i: int): (s: seq<byte>)
    ensures |s| >= 1 && (s[0] == 45 <==> i < 0)
  {
    if i < 0 then [45] + Digits(-i) else Digits(i)
  }

  /** Distinct integers have distinct decimal strings. */
  lemma {:induction false} DecimalStringInjective(i: int, j: int)
    ensures DecimalString(i) == DecimalString(j) <==> i == j
  {
    if DecimalString(i) == DecimalString(j) {
      DigitsRoundTrip(if i < 0 then -i else i);
      DigitsRoundTrip(if j < 0 then -j else j);
      if i < 0 {
        assert Digits(-i) == DecimalString(i)[1..] == DecimalString(j)[1..] == Digits(-j);
      }
    }
  }

  /** "true", "false" and "[object Object]" in ASCII. */
  const TrueString: seq<byte> := [116, 114, 117, 101]
  const FalseString: seq<byte> := [102, 97, 108, 115, 101]
  const ObjectString: seq<byte> := [91, 111, 98, 106, 101, 99, 116, 32, 79, 98, 106, 101, 99, 116, 93]

  /** `x.toString()`: a TypeError on undefined or null; the decimal form of a
      number or bigint, "true" or "false", the string itself, and "[object Object]"
      for a plain object. Arrays, Buffers and floating-point numbers are not
      modelled. */
  function Stringified(x: Option<Value>): (r: Result<Option<Value>>)
    ensures r == Err(TypeError) <==> x.None? || x.value.Null?
    ensures r.Ok? <==> x.Some? && (x.value.Byte? || x.value.Short? || x.value.Integer? || x.value.Long? ||
                                   x.value.Boolean? || x.value.String? || x.value.Dictionary? ||
                                   x.value.OperationRequest? || x.value.OperationResponse?)
    ensures r.Ok? ==> r.value.Some? && r.value.value.String?
    ensures r.Ok? && x.value.String? ==> r.value == x
    ensures r.Ok? && NumericValue(x).Ok? && NumericValue(x).value.Some? && !x.value.Boolean? ==>
              r.value.value.utf8 == DecimalString(NumericValue(x).value.value)
    ensures r.Err? && r.error != TypeError ==> r.error == CoercionNotModelled
  {
    if x.None? then Err(TypeError)
    else
      match x.value
      case Null => Err(TypeError)
      case Byte(n) => Ok(Some(String(DecimalString(n))))
      case Short(n) => Ok(Some(String(DecimalString(n))))
      case Integer(n) => Ok(Some(String(DecimalString(n))))
      case Long(n) => Ok(Some(String(DecimalString(n))))
      case Boolean(b) => Ok(Some(String(if b then TrueString else FalseString)))
      case String(_) => Ok(x)
      case Dictionary(_) => Ok(Some(String(ObjectString)))
      case OperationRequest(_, _) => Ok(Some(String(ObjectString)))
      case OperationResponse(_, _, _, _) => Ok(Some(String(ObjectString)))
      case _ => Err(CoercionNotModelled)
  }

  /** The string form forgets the width a number was read with: a byte, a short, an
      integer, a bigint and the string of its digits all give the same string, and
      two numbers give the same string only when they are equal. */
  lemma StringifiedForgetsWidth(n: int, m: int)
    ensures Stringified(Some(Byte(n))) == Stringified(Some(Short(n))) == Stringified(Some(Integer(n)))
         == Stringified(Some(Long(n))) == Stringified(Some(String(DecimalString(n))))
    ensures Stringified(Some(Integer(n))) == Stringified(Some(Long(m))) <==> n == m
  {
    DecimalStringInjective(n, m);
  }
}
