/** The byte cursor every decoder reads through: a read position over an immutable buffer,
    with the semantics of an in-memory byte reader (a failed read consumes what was left,
    a seek may go past the end, a zero-length read never fails).

    The first half gives each read as a function of the buffer and the position before it,
    returning the decoded value or the error together with the position after it; the class
    `DataReader` below performs the same reads by updating its position, and each of its
    methods is proved to agree with the function of the same read. */
module Reader {
  import opened Wire
  import opened Results

  /** What a read decodes and where it leaves the cursor. */
  datatype Outcome<+T> = Parsed(value: T, pos: nat) | Failed(error: Error, pos: nat) {
    predicate IsFailure() { Failed? }

    function PropagateFailure<U>(): Outcome<U>
      requires Failed?
    {
      Failed(error, pos)
    }

    function Extract(): Outcome<T>
      requires Parsed?
    {
      this
    }

    /** Forget the position. */
    function Res(): Result<T>
    {
      if Parsed? then Ok(value) else Err(error)
    }
  }

  /** Pair a method's result with the position it left. */
  function AtPos<T>(r: Result<T>, pos: nat): Outcome<T>
  {
    if r.Ok? then Parsed(r.value, pos) else Failed(r.error, pos)
  }

  /** A result paired with its position, with the position forgotten again. */
  lemma ResOfAtPos<T>(r: Result<T>, pos: nat, o: Outcome<T>)
    requires AtPos(r, pos) == o
    ensures r == o.Res()
  {
  }

  /** No terminator byte occurs in `s`. */
  predicate NoZero(s: seq<Byte>)
  {
    0 !in s
  }

  /** Number of unread bytes (never negative, also after a seek past the end). */
  function Remaining(data: seq<Byte>, pos: nat): nat
  {
    if pos >= |data| then 0 else |data| - pos
  }

  /** A read that runs out reports plain EOF when nothing was left, and unexpected EOF
      when it found part of what it needed. */
  function ShortReadError(data: seq<Byte>, pos: nat): Error
  {
    if pos < |data| then UnexpectedEof else Eof
  }

  /** A read that runs out has consumed everything that was left. */
  function ShortReadPos(data: seq<Byte>, pos: nat): nat
  {
    if pos < |data| then |data| else pos
  }

  /** Read exactly `n` bytes, or fail. Reading nothing always succeeds. */
  function BytesAt(data: seq<Byte>, pos: nat, n: nat): (o: Outcome<seq<Byte>>)
    ensures o.Parsed? <==> n == 0 || pos + n <= |data|
    ensures o.Parsed? ==> o.pos == pos + n && |o.value| == n
    ensures o.Parsed? && n > 0 ==> o.value == data[pos..pos + n]
    ensures o.Failed? ==> o.error == ShortReadError(data, pos) && o.pos == ShortReadPos(data, pos)
  {
    if n == 0 then Parsed([], pos)
    else if pos + n <= |data| then Parsed(data[pos..pos + n], pos + n)
    else Failed(ShortReadError(data, pos), ShortReadPos(data, pos))
  }

  // Fixed-width reads. Each consumes exactly its width or fails without a value.

  function U8At(data: seq<Byte>, pos: nat): (o: Outcome<Byte>)
    ensures o.Parsed? <==> pos + 1 <= |data|
    ensures o.Parsed? ==> o.pos == pos + 1 && o.value == data[pos]
    ensures o.Failed? ==> o.error == Eof && o.pos == pos
  {
    var b :- BytesAt(data, pos, 1);
    Parsed(b.value[0], b.pos)
  }

  function I8At(data: seq<Byte>, pos: nat): (o: Outcome<I8>)
    ensures o.Parsed? <==> pos + 1 <= |data|
    ensures o.Parsed? ==> o.pos == pos + 1 && o.value == AsI8(data[pos])
    ensures o.Failed? ==> o.error == Eof && o.pos == pos
  {
    var b :- BytesAt(data, pos, 1);
    Parsed(AsI8(b.value[0]), b.pos)
  }

  function U16At(data: seq<Byte>, pos: nat, little: bool): (o: Outcome<U16>)
    ensures o.Parsed? <==> pos + 2 <= |data|
    ensures o.Parsed? ==> o.pos == pos + 2 && o.value == Unsigned(data[pos..pos + 2], little)
    ensures o.Failed? ==> o.error == ShortReadError(data, pos) && o.pos == ShortReadPos(data, pos)
  {
    var b :- BytesAt(data, pos, 2);
    Parsed(Unsigned(b.value, little), b.pos)
  }

  function I16At(data: seq<Byte>, pos: nat, little: bool): (o: Outcome<I16>)
    ensures o.Parsed? <==> pos + 2 <= |data|
    ensures o.Parsed? ==> o.pos == pos + 2 && o.value == AsI16(Unsigned(data[pos..pos + 2], little))
    ensures o.Failed? ==> o.error == ShortReadError(data, pos) && o.pos == ShortReadPos(data, pos)
  {
    var b :- BytesAt(data, pos, 2);
    Parsed(AsI16(Unsigned(b.value, little)), b.pos)
  }

  function U32At(data: seq<Byte>, pos: nat, little: bool): (o: Outcome<U32>)
    ensures o.Parsed? <==> pos + 4 <= |data|
    ensures o.Parsed? ==> o.pos == pos + 4 && o.value == Unsigned(data[pos..pos + 4], little)
    ensures o.Failed? ==> o.error == ShortReadError(data, pos) && o.pos == ShortReadPos(data, pos)
  {
    var b :- BytesAt(data, pos, 4);
    Parsed(Unsigned(b.value, little), b.pos)
  }

  function I32At(data: seq<Byte>, pos: nat, little: bool): (o: Outcome<I32>)
    ensures o.Parsed? <==> pos + 4 <= |data|
    ensures o.Parsed? ==> o.pos == pos + 4 && o.value == AsI32(Unsigned(data[pos..pos + 4], little))
    ensures o.Failed? ==> o.error == ShortReadError(data, pos) && o.pos == ShortReadPos(data, pos)
  {
    var b :- BytesAt(data, pos, 4);
    Parsed(AsI32(Unsigned(b.value, little)), b.pos)
  }

  function U64At(data: seq<Byte>, pos: nat, little: bool): (o: Outcome<U64>)
    ensures o.Parsed? <==> pos + 8 <= |data|
    ensures o.Parsed? ==> o.pos == pos + 8 && o.value == Unsigned(data[pos..pos + 8], little)
    ensures o.Failed? ==> o.error == ShortReadError(data, pos) && o.pos == ShortReadPos(data, pos)
  {
    var b :- BytesAt(data, pos, 8);
    Parsed(Unsigned(b.value, little), b.pos)
  }

  function I64At(data: seq<Byte>, pos: nat, little: bool): (o: Outcome<I64>)
    ensures o.Parsed? <==> pos + 8 <= |data|
    ensures o.Parsed? ==> o.pos == pos + 8 && o.value == AsI64(Unsigned(data[pos..pos + 8], little))
    ensures o.Failed? ==> o.error == ShortReadError(data, pos) && o.pos == ShortReadPos(data, pos)
  {
    var b :- BytesAt(data, pos, 8);
    Parsed(AsI64(Unsigned(b.value, little)), b.pos)
  }

  /** Read bytes up to a 0x00 terminator, which is consumed but not returned, reading at
      most `limit` bytes; running out of input first is an error. */
  function CStringAt(data: seq<Byte>, pos: nat, limit: nat): (o: Outcome<seq<Byte>>)
    decreases limit
    ensures o.Parsed? ==> |o.value| <= limit && NoZero(o.value)
    ensures o.Parsed? ==> pos + |o.value| <= o.pos <= pos + limit
    ensures o.Parsed? && limit > 0 ==> pos < o.pos <= |data|
    ensures o.Failed? ==> o.error == Eof && o.pos == ShortReadPos(data, pos)
  {
    if limit == 0 then Parsed([], pos)
    else if pos >= |data| then Failed(Eof, pos)
    else if data[pos] == 0 then Parsed([], pos + 1)
    else
      var rest := CStringAt(data, pos + 1, limit - 1);
      if rest.Failed? then rest else Parsed([data[pos]] + rest.value, rest.pos)
  }

  /** A string followed by a terminator within the limit is returned without it, and the
      cursor ends just after the terminator. */
  lemma {:induction false} CStringAtTerminated(data: seq<Byte>, pos: nat, limit: nat, k: nat)
    requires k < limit && pos + k < |data|
    requires data[pos + k] == 0 && NoZero(data[pos..pos + k])
    ensures CStringAt(data, pos, limit) == Parsed(data[pos..pos + k], pos + k + 1)
    decreases k
  {
    if k > 0 {
      assert data[pos] == data[pos..pos + k][0];
      assert data[pos + 1..pos + k] == data[pos..pos + k][1..];
      CStringAtTerminated(data, pos + 1, limit - 1, k - 1);
      assert data[pos..pos + k] == [data[pos]] + data[pos + 1..pos + k];
    } else {
      assert data[pos..pos + k] == [];
    }
  }

  /** `limit` non-zero bytes are returned as they are, and nothing more is consumed. */
  lemma {:induction false} CStringAtLimit(data: seq<Byte>, pos: nat, limit: nat)
    requires pos + limit <= |data| && NoZero(data[pos..pos + limit])
    ensures CStringAt(data, pos, limit) == Parsed(data[pos..pos + limit], pos + limit)
    decreases limit
  {
    if limit > 0 {
      assert data[pos] == data[pos..pos + limit][0];
      assert data[pos + 1..pos + limit] == data[pos..pos + limit][1..];
      CStringAtLimit(data, pos + 1, limit - 1);
      assert data[pos..pos + limit] == [data[pos]] + data[pos + 1..pos + limit];
    } else {
      assert data[pos..pos + limit] == [];
    }
  }

  /** Input that ends before a terminator and before the limit is an EOF error. */
  lemma {:induction false} CStringAtEof(data: seq<Byte>, pos: nat, limit: nat)
    requires limit > 0 && |data| < pos + limit
    requires pos < |data| ==> NoZero(data[pos..])
    ensures CStringAt(data, pos, limit) == Failed(Eof, ShortReadPos(data, pos))
    decreases limit
  {
    if pos < |data| {
      assert data[pos] == data[pos..][0];
      if pos + 1 < |data| {
        assert data[pos + 1..] == data[pos..][1..];
      }
      CStringAtEof(data, pos + 1, limit - 1);
    }
  }

  /** Writing a terminated string and reading it back gives the string. */
  lemma CStringRoundTrip(prefix: seq<Byte>, s: seq<Byte>, suffix: seq<Byte>, limit: nat)
    requires NoZero(s) && |s| < limit
    ensures CStringAt(prefix + s + [0] + suffix, |prefix|, limit)
         == Parsed(s, |prefix| + |s| + 1)
  {
    var data := prefix + s + [0] + suffix;
    assert data[|prefix|..|prefix| + |s|] == s;
    CStringAtTerminated(data, |prefix|, limit, |s|);
  }

  /** A prefix of a prefix is a prefix. */
  lemma PrefixOfPrefix<T>(s: seq<T>, q: seq<T>, p: seq<T>)
    requires |p| <= |q| <= |s| && s[..|q|] == q && p == q[..|p|]
    ensures s[..|p|] == p
  {
    assert s[..|p|] == s[..|q|][..|p|];
  }

  /** The middle part of a concatenation is the slice at its offset. */
  lemma MiddleSlice<T>(x: seq<T>, m: seq<T>, y: seq<T>)
    ensures (x + m + y)[|x|..|x| + |m|] == m
  {
  }

  /** Clear the low two bits of `c + 3`: the smallest multiple of 4 not below `c`. */
  function RoundUp4(c: nat): nat
  {
    (c + 3) - (c + 3) % 4
  }

  /** Alignment measures the consumed count from the reader's own buffer start as its length
      minus what is left, and skips forward to the next multiple of 4. */
  function AlignedPos(data: seq<Byte>, pos: nat): (p: nat)
    ensures pos <= p < pos + 4
    ensures pos <= |data| ==> p % 4 == 0
    ensures |data| < pos ==> p == pos + (RoundUp4(|data|) - |data|)
  {
    var consumed := |data| - Remaining(data, pos);
    var target := RoundUp4(consumed);
    if target > consumed then pos + (target - consumed) else pos
  }

  /** No multiple of 4 lies between the old position and the aligned one. */
  lemma AlignedPosIsSmallest(data: seq<Byte>, pos: nat, q: nat)
    requires pos <= |data| && pos <= q && q % 4 == 0
    ensures AlignedPos(data, pos) <= q
  {
  }

  /** The position an absolute, relative or end-relative seek asks for. */
  function SeekTarget(data: seq<Byte>, pos: nat, offset: int, whence: int): int
  {
    if whence == SeekStart then offset
    else if whence == SeekCurrent then pos + offset
    else |data| + offset
  }

  const SeekStart := 0
  const SeekCurrent := 1
  const SeekEnd := 2

  /** The cursor. Its buffer never changes; every operation moves its position. */
  class DataReader {
    const data: seq<Byte>
    var pos: nat

    constructor (b: seq<Byte>)
      ensures data == b && pos == 0
    {
      data := b;
      pos := 0;
    }

    /** Read exactly `n` bytes: the unexported primitive every fixed-width read uses. */
    method Take(n: nat) returns (r: Result<seq<Byte>>)
      modifies this
      ensures AtPos(r, pos) == BytesAt(data, old(pos), n)
    {
      if n == 0 {
        r := Ok([]);
      } else if pos + n <= |data| {
        r := Ok(data[pos..pos + n]);
        pos := pos + n;
      } else {
        r := Err(ShortReadError(data, pos));
        pos := ShortReadPos(data, pos);
      }
    }

    method ReadByte() returns (r: Result<Byte>)
      modifies this
      ensures AtPos(r, pos) == U8At(data, old(pos))
    {
      if pos < |data| {
        r := Ok(data[pos]);
        pos := pos + 1;
      } else {
        r := Err(Eof);
      }
    }

    method ReadChar(little: bool) returns (r: Result<I8>)
      modifies this
      ensures AtPos(r, pos) == I8At(data, old(pos))
    {
      var b :- Take(1);
      return Ok(AsI8(b[0]));
    }

    method ReadUchar(little: bool) returns (r: Result<Byte>)
      modifies this
      ensures AtPos(r, pos) == U8At(data, old(pos))
    {
      var b :- Take(1);
      return Ok(b[0]);
    }

    method ReadShort(little: bool) returns (r: Result<I16>)
      modifies this
      ensures AtPos(r, pos) == I16At(data, old(pos), little)
    {
      var b :- Take(2);
      return Ok(AsI16(Unsigned(b, little)));
    }

    method ReadUshort(little: bool) returns (r: Result<U16>)
      modifies this
      ensures AtPos(r, pos) == U16At(data, old(pos), little)
    {
      var b :- Take(2);
      return Ok(Unsigned(b, little));
    }

    method ReadInt(little: bool) returns (r: Result<I32>)
      modifies this
      ensures AtPos(r, pos) == I32At(data, old(pos), little)
    {
      var b :- Take(4);
      return Ok(AsI32(Unsigned(b, little)));
    }

    method ReadUint(little: bool) returns (r: Result<U32>)
      modifies this
      ensures AtPos(r, pos) == U32At(data, old(pos), little)
    {
      var b :- Take(4);
      return Ok(Unsigned(b, little));
    }

    method ReadLong(little: bool) returns (r: Result<I64>)
      modifies this
      ensures AtPos(r, pos) == I64At(data, old(pos), little)
    {
      var b :- Take(8);
      return Ok(AsI64(Unsigned(b, little)));
    }

    method ReadUlong(little: bool) returns (r: Result<U64>)
      modifies this
      ensures AtPos(r, pos) == U64At(data, old(pos), little)
    {
      var b :- Take(8);
      return Ok(Unsigned(b, little));
    }

    /** The next `n` bytes verbatim; the byte-order flag has no effect on them. */
    method ReadBytes(n: nat, little: bool) returns (r: Result<seq<Byte>>)
      modifies this
      ensures AtPos(r, pos) == BytesAt(data, old(pos), n)
    {
      r := Take(n);
    }

    /** Carve the next `n` bytes into an independent reader positioned at its start. */
    method ReNew(n: nat, little: bool) returns (r: Result<DataReader>)
      modifies this
      ensures pos == BytesAt(data, old(pos), n).pos
      ensures r.Ok? <==> BytesAt(data, old(pos), n).Parsed?
      ensures r.Ok? ==>
                fresh(r.value) && r.value.pos == 0 && r.value.data == BytesAt(data, old(pos), n).value
      ensures r.Err? ==> r.error == BytesAt(data, old(pos), n).error
    {
      var b :- Take(n);
      var sub := new DataReader(b);
      return Ok(sub);
    }

    method ReadStringNull(limit: nat) returns (r: Result<seq<Byte>>)
      modifies this
      ensures AtPos(r, pos) == CStringAt(data, old(pos), limit)
    {
      var b: seq<Byte> := [];
      var i := 0;
      PrefixedEmpty(CStringAt(data, pos, limit));
      while i < limit
        invariant 0 <= i <= limit
        invariant CStringAt(data, old(pos), limit) == Prefixed(b, CStringAt(data, pos, limit - i))
      {
        var c := ReadByte();
        if c.Err? {
          return Err(c.error);
        }
        if c.value == 0 {
          assert b + [] == b;
          return Ok(b);
        }
        var rest := CStringAt(data, pos, limit - i - 1);
        if rest.Parsed? {
          assert b + [c.value] + rest.value == b + ([c.value] + rest.value);
        }
        b := b + [c.value];
        i := i + 1;
      }
      assert b + [] == b;
      r := Ok(b);
    }

    /** Move to an absolute (`SeekStart`), relative (`SeekCurrent`) or end-relative
        (`SeekEnd`) position; a negative target or an unknown `whence` leaves the position. */
    method Seek(offset: int, whence: int) returns (r: Result<nat>)
      modifies this
      ensures whence !in {SeekStart, SeekCurrent, SeekEnd} ==> r == Err(InvalidWhence) && pos == old(pos)
      ensures whence in {SeekStart, SeekCurrent, SeekEnd} ==>
        var target := SeekTarget(data, old(pos), offset, whence);
        if target < 0 then r == Err(NegativePosition) && pos == old(pos)
        else r == Ok(target) && pos == target
    {
      if whence !in {SeekStart, SeekCurrent, SeekEnd} {
        return Err(InvalidWhence);
      }
      var target := SeekTarget(data, pos, offset, whence);
      if target < 0 {
        return Err(NegativePosition);
      }
      pos := target;
      r := Ok(target);
    }

    method Len() returns (n: nat)
      ensures n == Remaining(data, pos)
    {
      n := if pos >= |data| then 0 else |data| - pos;
    }

    /** Skip to the next 4-byte boundary of this reader's own buffer. The relative seek it
        performs cannot fail, so no error is returned. */
    method Align()
      modifies this
      ensures pos == AlignedPos(data, old(pos))
    {
      var size := |data|;
      var remaining := Len();
      var oldPos := size - remaining;
      var newPos := RoundUp4(oldPos);
      if newPos > oldPos {
        var _ := Seek(newPos - oldPos, SeekCurrent);
      }
    }
  }

  /** Prepend `s` to a successful read of a sequence. */
  function Prefixed<T>(s: seq<T>, o: Outcome<seq<T>>): Outcome<seq<T>>
  {
    if o.Parsed? then Parsed(s + o.value, o.pos) else o
  }

  lemma PrefixedPrefixed<T>(s: seq<T>, t: seq<T>, o: Outcome<seq<T>>)
    ensures Prefixed(s, Prefixed(t, o)) == Prefixed(s + t, o)
  {
    if o.Parsed? {
      assert s + (t + o.value) == s + t + o.value;
    }
  }

  lemma PrefixedEmpty<T>(o: Outcome<seq<T>>)
    ensures Prefixed([], o) == o
  {
    if o.Parsed? {
      assert [] + o.value == o.value;
    }
  }
}
