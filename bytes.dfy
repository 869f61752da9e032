/** Raw bytes and their big-endian interpretation, with the reference encoders
    that the round-trip lemmas of the decoders are stated against. */
module Bytes {

  newtype byte = x: int | 0 <= x < 256

  /** 256 to the power n: one more than the largest n-byte unsigned value. */
  function Pow256(n: nat): (p: nat)
    ensures p >= 1
  {
    if n == 0 then 1 else 256 * Pow256(n - 1)
  }

  /** The unsigned value of a big-endian byte string (Buffer.readUIntBE). */
  function Unsigned(s: seq<byte>): (u: nat)
    ensures u < Pow256(|s|)
  {
    if s == [] then 0 else Unsigned(s[..|s| - 1]) * 256 + s[|s| - 1] as int
  }

  /** The two's-complement value of a big-endian byte string (Buffer.readIntBE). */
  function Signed(s: seq<byte>): (v: int)
    ensures |s| > 0 ==> -(Pow256(|s|) as int) <= 2 * v < Pow256(|s|)
    ensures v >= 0 <==> 2 * Unsigned(s) < Pow256(|s|)
  {
    var u := Unsigned(s);
    if 2 * u >= Pow256(|s|) then u - Pow256(|s|) else u
  }

  /** The bytes in reverse order: a little-endian string read as big-endian. */
  function Reversed(s: seq<byte>): (r: seq<byte>)
    ensures |r| == |s|
    ensures forall i :: 0 <= i < |s| ==> r[i] == s[|s| - 1 - i]
  {
    if s == [] then [] else [s[|s| - 1]] + Reversed(s[..|s| - 1])
  }

  /** The unsigned value of a little-endian byte string (DataView getters with littleEndian = true). */
  function UnsignedLE(s: seq<byte>): (u: nat)
    ensures u < Pow256(|s|)
  {
    Unsigned(Reversed(s))
  }

  /** Reference encoder: the k-byte big-endian form of n. */
  function EncodeUnsigned(n: nat, k: nat): (s: seq<byte>)
    requires n < Pow256(k)
    ensures |s| == k
    ensures Unsigned(s) == n
  {
    if k == 0 then []
    else
      var s := EncodeUnsigned(n / 256, k - 1) + [(n % 256) as byte];
      assert s[..|s| - 1] == EncodeUnsigned(n / 256, k - 1);
      s
  }

  /** Reference encoder: the k-byte little-endian form of n. */
  function EncodeUnsignedLE(n: nat, k: nat): (s: seq<byte>)
    requires n < Pow256(k)
    ensures |s| == k
    ensures UnsignedLE(s) == n
  {
    var be := EncodeUnsigned(n, k);
    var s := Reversed(be);
    assert Reversed(s) == be;
    s
  }

  /** Reference encoder: the k-byte two's-complement big-endian form of v. */
  function EncodeSigned(v: int, k: nat): (s: seq<byte>)
    requires k > 0 && -(Pow256(k) as int) <= 2 * v < Pow256(k)
    ensures |s| == k
    ensures Signed(s) == v
  {
    if v >= 0 then EncodeUnsigned(v, k) else EncodeUnsigned(v + Pow256(k), k)
  }

  /** The one-byte form of a byte value. */
  lemma UnsignedOfOneByte(b: byte)
    ensures Unsigned([b]) == b as int
  {
    assert [b][..0] == [];
  }

  /** Unsigned reading is injective on strings of one length: the encoders are the only preimages. */
  lemma {:induction false} UnsignedInjective(s: seq<byte>, t: seq<byte>)
    requires |s| == |t| && Unsigned(s) == Unsigned(t)
    ensures s == t
  {
    if s != [] {
      var n := |s| - 1;
      assert Unsigned(s[..n]) * 256 + s[n] as int == Unsigned(t[..n]) * 256 + t[n] as int;
      assert s[n] == t[n];
      UnsignedInjective(s[..n], t[..n]);
      assert s == s[..n] + [s[n]] && t == t[..n] + [t[n]];
    }
  }
}

/** Outcomes of operations that the source can abort by throwing. */
module Results {

  /** What a thrown error means; the message texts are not modelled. */
  datatype Error =
    | RangeError                  // a read, seek or allocation beyond the buffer
    | UnknownTypeCode(code: int)  // Protocol16Deserializer.deserialize on an unhandled tag
    | TypeError                   // a property or method used on undefined, null or the wrong kind of value
    | CoercionNotModelled         // a JavaScript coercion of a value shape the model does not interpret

  datatype Option<+T> = None | Some(value: T)

  datatype Result<+T> = Ok(value: T) | Err(error: Error) {
    predicate IsFailure() { Err? }

    function PropagateFailure<U>(): Result<U>
      requires Err?
    {
      Err(error)
    }

    function Extract(): T
      requires Ok?
    {
      value
    }
  }
}
