/** BufferCursor (src/utils/BufferCursor.ts): a byte buffer with one mutable read
    position. Every bounds-checked read takes an extra offset: it reads at
    cursor+offset and advances by size+offset, or throws and leaves the cursor
    where it was. The pure functions below describe each operation on
    (bytes, position) pairs; the class methods mirror the source and are proved
    equal to them. */
module Cursor {
  import opened Bytes
  import opened Results

  /** What an operation on a cursor returns or throws, and where it leaves the cursor. */
  datatype Read<+T> = Read(result: Result<T>, pos: nat)

  /** A failed read, re-typed for a caller that propagates the throw. */
  function Fail<T, U>(r: Read<T>): Read<U>
    requires r.result.Err?
  {
    Read(Err(r.result.error), r.pos)
  }

  /** A cursor that moved from p to q only forwards, and only past p when something was
      read, which keeps it inside the buffer. Every decoder satisfies this. */
  predicate Advances(data: seq<byte>, p: nat, q: nat)
  {
    p <= q && (q == p || q <= |data|)
  }

  /** The guard of assertThatStepsMoveIsWithinLimits. */
  predicate StepWithinLimits(pos: nat, step: int, length: nat)
  {
    pos + step <= length
  }

  /** readSafelyAndMoveCursorPosition for a reader of `size` bytes at cursor+offset. */
  function TakeAt(data: seq<byte>, pos: nat, size: nat, offset: nat): (r: Read<seq<byte>>)
    ensures Advances(data, pos, r.pos)
    ensures r.result.Err? ==> r.result.error == RangeError
  {
    if StepWithinLimits(pos, size + offset, |data|) then
      Read(Ok(data[pos + offset .. pos + offset + size]), pos + size + offset)
    else
      Read(Err(RangeError), pos)
  }

  /** readUInt8 / readUInt16BE / readUInt32BE, and the raw bits of readFloatBE / readDoubleBE. */
  function UnsignedAt(data: seq<byte>, pos: nat, size: nat, offset: nat): (r: Read<int>)
    ensures Advances(data, pos, r.pos)
    ensures r.result.Err? ==> r.result.error == RangeError
    ensures r.result.Ok? ==> 0 <= r.result.value < Pow256(size)
  {
    var t := TakeAt(data, pos, size, offset);
    if t.result.Err? then Fail(t) else Read(Ok(Unsigned(t.result.value)), t.pos)
  }

  /** readInt16BE / readInt32BE, and Buffer.readBigInt64BE. */
  function SignedAt(data: seq<byte>, pos: nat, size: nat, offset: nat): (r: Read<int>)
    ensures Advances(data, pos, r.pos)
    ensures r.result.Err? ==> r.result.error == RangeError
  {
    var t := TakeAt(data, pos, size, offset);
    if t.result.Err? then Fail(t) else Read(Ok(Signed(t.result.value)), t.pos)
  }

  /** The end position that subarray and toString compute: the buffer's length
      when no length is given, otherwise cursor + length (which may be negative). */
  function EndOf(pos: nat, size: Option<int>, length: nat): int
  {
    match size
    case None => length
    case Some(n) => pos + n
  }

  /** Buffer.subarray(from, to) for an end inside the buffer: empty when from is past to. */
  function Slice(data: seq<byte>, from: nat, to: int): (s: seq<byte>)
    requires 0 <= to <= |data|
  {
    if from <= to then data[from..to] else []
  }

  /** subarray(size) and toString(encoding, size): the bytes between the cursor and
      the end, then seek(end), which throws when end is negative or past the buffer. */
  function RegionAt(data: seq<byte>, pos: nat, size: Option<int>): (r: Read<seq<byte>>)
    ensures r.result.Err? ==> r.result.error == RangeError
  {
    var end := EndOf(pos, size, |data|);
    if 0 <= end <= |data| then Read(Ok(Slice(data, pos, end)), end)
    else Read(Err(RangeError), pos)
  }

  /** getBuffer: a copy of the bytes from the cursor on; allocating a negative size throws. */
  function RestFrom(data: seq<byte>, pos: nat): (r: Result<seq<byte>>)
    ensures r.Ok? <==> pos <= |data|
    ensures r.Ok? ==> pos + |r.value| == |data| && forall i :: 0 <= i < |r.value| ==> r.value[i] == data[pos + i]
    ensures r.Err? ==> r.error == RangeError
  {
    if pos <= |data| then Ok(data[pos..]) else Err(RangeError)
  }

  class BufferCursor {
    var cursorPosition: nat
    var buffer: seq<byte>
    const length: nat

    /** `length` is fixed at construction and `copy` writes without resizing. */
    ghost predicate Valid()
      reads this
    {
      |buffer| == length
    }

    constructor (buff: seq<byte>)
      ensures Valid() && buffer == buff && cursorPosition == 0
    {
      cursorPosition := 0;
      buffer := buff;
      length := |buff|;
    }

    function Tell(): nat
      reads this
    {
      cursorPosition
    }

    /** Unchecked: the cursor may end up past the end of the buffer. */
    method MoveCursorPosition(numberOfStepsToMove: nat)
      modifies this`cursorPosition
      ensures cursorPosition == old(cursorPosition) + numberOfStepsToMove
    {
      cursorPosition := cursorPosition + numberOfStepsToMove;
    }

    method ReadSafelyAndMoveCursorPosition(size: nat, offset: nat) returns (r: Result<seq<byte>>)
      requires Valid()
      modifies this`cursorPosition
      ensures Read(r, cursorPosition) == TakeAt(buffer, old(cursorPosition), size, offset)
    {
      if !StepWithinLimits(cursorPosition, size + offset, length) {
        return Err(RangeError);
      }
      r := Ok(buffer[cursorPosition + offset .. cursorPosition + offset + size]);
      MoveCursorPosition(size + offset);
    }

    /** getBuffer only reads the cursor. */
    function GetBuffer(): Result<seq<byte>>
      reads this
    {
      RestFrom(buffer, cursorPosition)
    }

    method Seek(pos: int) returns (r: Result<()>)
      modifies this`cursorPosition
      ensures r.Ok? <==> 0 <= pos <= length
      ensures r.Err? ==> r.error == RangeError
      ensures cursorPosition == if r.Ok? then pos else old(cursorPosition)
    {
      if pos < 0 {
        return Err(RangeError);
      }
      if pos > length {
        return Err(RangeError);
      }
      cursorPosition := pos;
      r := Ok(());
    }

    /** A new cursor at 0 over the bytes up to the end, moving this cursor to the end. */
    method Subarray(size: Option<int>) returns (r: Result<BufferCursor>)
      requires Valid()
      modifies this`cursorPosition
      ensures RegionAt(buffer, old(cursorPosition), size).pos == cursorPosition
      ensures RegionAt(buffer, old(cursorPosition), size).result.Ok? <==> r.Ok?
      ensures r.Err? ==> r.error == RangeError
      ensures r.Ok? ==> fresh(r.value) && r.value.Valid() && r.value.cursorPosition == 0
      ensures r.Ok? ==> r.value.buffer == RegionAt(buffer, old(cursorPosition), size).result.value
    {
      var start := cursorPosition;
      var end := EndOf(cursorPosition, size, length);
      var _ :- Seek(end);
      var buf := new BufferCursor(Slice(buffer, start, end));
      r := Ok(buf);
    }

    /** The bytes up to the end (UTF-8 decoding is not modelled), moving the cursor to the end. */
    method ToString(size: Option<int>) returns (r: Result<seq<byte>>)
      requires Valid()
      modifies this`cursorPosition
      ensures Read(r, cursorPosition) == RegionAt(buffer, old(cursorPosition), size)
    {
      var start := cursorPosition;
      var end := EndOf(cursorPosition, size, length);
      var _ :- Seek(end);
      r := Ok(Slice(buffer, start, end));
    }

    /** copy(source, sourceStart, sourceEnd): writes source[sourceStart..sourceEnd) at the
        cursor and advances past it. A falsy (absent or zero) sourceEnd means the source's
        length, a falsy sourceStart the source's own cursor (0 for a plain Buffer). */
    method Copy(source: seq<byte>, sourceCursor: nat, sourceStart: Option<int>, sourceEnd: Option<int>)
      returns (r: Result<()>)
      requires Valid()
      modifies this
      ensures Valid()
      ensures
        var s := if sourceStart == None || sourceStart == Some(0) then sourceCursor else sourceStart.value;
        var e := if sourceEnd == None || sourceEnd == Some(0) then |source| else sourceEnd.value;
        && (r.Ok? <==> old(cursorPosition) + (e - s) <= length && 0 <= s <= e <= |source|)
        && (r.Ok? ==> buffer == old(buffer[..cursorPosition]) + source[s..e] + old(buffer[cursorPosition + e - s..])
                      && cursorPosition == old(cursorPosition) + (e - s))
        && (r.Err? ==> buffer == old(buffer) && cursorPosition == old(cursorPosition))
    {
      var e := if sourceEnd == None || sourceEnd == Some(0) then |source| else sourceEnd.value;
      var s := if sourceStart == None || sourceStart == Some(0) then sourceCursor else sourceStart.value;
      var size := e - s;
      if !StepWithinLimits(cursorPosition, size, length) {
        return Err(RangeError);
      }
      if !(0 <= s <= e <= |source|) {
        return Err(RangeError);
      }
      buffer := buffer[..cursorPosition] + source[s..e] + buffer[cursorPosition + size..];
      MoveCursorPosition(size);
      r := Ok(());
    }

    method ReadUInt8(offset: nat) returns (r: Result<int>)
      requires Valid()
      modifies this`cursorPosition
      ensures Read(r, cursorPosition) == UnsignedAt(buffer, old(cursorPosition), 1, offset)
    {
      var bytes :- ReadSafelyAndMoveCursorPosition(1, offset);
      r := Ok(Unsigned(bytes));
    }

    method ReadInt16BE(offset: nat) returns (r: Result<int>)
      requires Valid()
      modifies this`cursorPosition
      ensures Read(r, cursorPosition) == SignedAt(buffer, old(cursorPosition), 2, offset)
    {
      var bytes :- ReadSafelyAndMoveCursorPosition(2, offset);
      r := Ok(Signed(bytes));
    }

    method ReadUInt16BE(offset: nat) returns (r: Result<int>)
      requires Valid()
      modifies this`cursorPosition
      ensures Read(r, cursorPosition) == UnsignedAt(buffer, old(cursorPosition), 2, offset)
    {
      var bytes :- ReadSafelyAndMoveCursorPosition(2, offset);
      r := Ok(Unsigned(bytes));
    }

    method ReadUInt32BE(offset: nat) returns (r: Result<int>)
      requires Valid()
      modifies this`cursorPosition
      ensures Read(r, cursorPosition) == UnsignedAt(buffer, old(cursorPosition), 4, offset)
    {
      var bytes :- ReadSafelyAndMoveCursorPosition(4, offset);
      r := Ok(Unsigned(bytes));
    }

    method ReadInt32BE(offset: nat) returns (r: Result<int>)
      requires Valid()
      modifies this`cursorPosition
      ensures Read(r, cursorPosition) == SignedAt(buffer, old(cursorPosition), 4, offset)
    {
      var bytes :- ReadSafelyAndMoveCursorPosition(4, offset);
      r := Ok(Signed(bytes));
    }

    /** The IEEE-754 bit pattern of the single-precision value (its interpretation is not modelled). */
    method ReadFloatBE(offset: nat) returns (r: Result<int>)
      requires Valid()
      modifies this`cursorPosition
      ensures Read(r, cursorPosition) == UnsignedAt(buffer, old(cursorPosition), 4, offset)
    {
      var bytes :- ReadSafelyAndMoveCursorPosition(4, offset);
      r := Ok(Unsigned(bytes));
    }

    /** The IEEE-754 bit pattern of the double-precision value (its interpretation is not modelled). */
    method ReadDoubleBE(offset: nat) returns (r: Result<int>)
      requires Valid()
      modifies this`cursorPosition
      ensures Read(r, cursorPosition) == UnsignedAt(buffer, old(cursorPosition), 8, offset)
    {
      var bytes :- ReadSafelyAndMoveCursorPosition(8, offset);
      r := Ok(Unsigned(bytes));
    }
  }
}
