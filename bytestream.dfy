/**
 * Model of u_byte_stream.h: read and write cursors over a byte buffer and the
 * `DEF(type, name, bytes, read, write)` template that generates, for one
 * field type, the unchecked and checked get, put and peek operations.
 *
 * The template's parameters become a `Field`: how many bytes the field takes,
 * how its value is read from those bytes and which bytes write stores for a
 * value. A pointer into the buffer is an index into it.
 */
module ByteStream {

  /** The template parameters `bytes`, `read` and `write`; `zero` is the type's 0, which a failed checked read returns. */
  datatype Field<!T> = Field(bytes: nat, read: seq<bv8> -> T, write: T -> seq<bv8>, zero: T)

  /** `write` always stores exactly `bytes` bytes. */
  ghost predicate WellFormed<T(!new)>(f: Field<T>)
  {
    forall v :: |f.write(v)| == f.bytes
  }

  /** get_byte_context_t: a read cursor `buffer` between `buffer_start` and `buffer_end`. */
  class GetByteContext {
    const memory: seq<bv8>
    const bufferStart: nat
    const bufferEnd: nat
    var buffer: nat

    ghost predicate Valid()
      reads this
    {
      bufferStart <= buffer <= bufferEnd <= |memory|
    }

    /** A cursor over memory[start..end], positioned at its start. */
    constructor (memory: seq<bv8>, start: nat, end: nat)
      requires start <= end <= |memory|
      ensures Valid()
      ensures this.memory == memory && bufferStart == start && bufferEnd == end && buffer == start
    {
      this.memory := memory;
      bufferStart := start;
      bufferEnd := end;
      buffer := start;
    }

    /** How many bytes are left before `buffer_end`. */
    function Left(): (n: int)
      reads this
      requires Valid()
      ensures n >= 0 && buffer + n == bufferEnd
    {
      bufferEnd - buffer
    }

    /**
     * bytestream2_peek_<name>u: the field at the cursor, without a bounds
     * check; the caller must know that the field lies before `buffer_end`.
     */
    function PeekUnchecked<T>(f: Field<T>): (v: T)
      reads this
      requires Valid() && buffer + f.bytes <= bufferEnd
      ensures v == f.read(memory[buffer..buffer + f.bytes])
    {
      f.read(memory[buffer..buffer + f.bytes])
    }

    /**
     * bytestream2_peek_<name>: the field at the cursor, or the type's zero when
     * fewer than `bytes` bytes are left. The cursor never moves.
     */
    function Peek<T>(f: Field<T>): (v: T)
      reads this
      requires Valid()
      ensures Left() < f.bytes ==> v == f.zero
      ensures Left() >= f.bytes ==> v == PeekUnchecked(f)
    {
      if bufferEnd - buffer < f.bytes then f.zero else PeekUnchecked(f)
    }

    /**
     * bytestream2_get_<name>u (and u_byte_stream_get_<name> on the cursor):
     * reads the field at the cursor and moves past it, without a bounds check.
     */
    method GetUnchecked<T>(f: Field<T>) returns (v: T)
      requires Valid() && buffer + f.bytes <= bufferEnd
      modifies this
      ensures Valid()
      ensures v == old(PeekUnchecked(f))
      ensures buffer == old(buffer) + f.bytes
    {
      buffer := buffer + f.bytes;
      v := f.read(memory[buffer - f.bytes..buffer]);
    }

    /**
     * bytestream2_get_<name>: like GetUnchecked when the field fits before
     * `buffer_end`; otherwise the cursor jumps to `buffer_end` and the result
     * is the type's zero. Either way it returns what Peek returned before.
     */
    method Get<T>(f: Field<T>) returns (v: T)
      requires Valid()
      modifies this
      ensures Valid()
      ensures v == old(Peek(f))
      ensures old(Left()) >= f.bytes ==> buffer == old(buffer) + f.bytes
      ensures old(Left()) < f.bytes ==> buffer == bufferEnd
    {
      if bufferEnd - buffer < f.bytes {
        buffer := bufferEnd;
        return f.zero;
      }
      v := GetUnchecked(f);
    }
  }

  /** put_byte_context_t: a write cursor `buffer` between `buffer_start` and `buffer_end`, and the sticky `eof` flag. */
  class PutByteContext {
    const memory: array<bv8>
    const bufferStart: nat
    const bufferEnd: nat
    var buffer: nat
    var eof: bool

    ghost predicate Valid()
      reads this
    {
      bufferStart <= buffer <= bufferEnd <= memory.Length
    }

    /** A cursor over memory[start..end], positioned at its start, not at end of file. */
    constructor (memory: array<bv8>, start: nat, end: nat)
      requires start <= end <= memory.Length
      ensures Valid()
      ensures this.memory == memory && bufferStart == start && bufferEnd == end
      ensures buffer == start && !eof
    {
      this.memory := memory;
      bufferStart := start;
      bufferEnd := end;
      buffer := start;
      eof := false;
    }

    /**
     * bytestream2_put_<name>u (and bytestream_put_<name> on the cursor):
     * stores the bytes of v at the cursor and moves past them, without a
     * bounds check. Nothing else in memory changes.
     */
    method PutUnchecked<T(!new)>(f: Field<T>, v: T)
      requires Valid() && WellFormed(f) && buffer + f.bytes <= bufferEnd
      modifies this, memory
      ensures Valid() && eof == old(eof)
      ensures buffer == old(buffer) + f.bytes
      ensures memory[old(buffer)..buffer] == f.write(v)
      ensures forall i :: 0 <= i < memory.Length && !(old(buffer) <= i < buffer) ==> memory[i] == old(memory[i])
    {
      var b := f.write(v);
      assert |b| == f.bytes;
      for k := 0 to |b|
        modifies memory
        invariant memory[buffer..buffer + k] == b[..k]
        invariant forall i :: 0 <= i < memory.Length && !(buffer <= i < buffer + k) ==> memory[i] == old(memory[i])
      {
        memory[buffer + k] := b[k];
      }
      buffer := buffer + f.bytes;
    }

    /**
     * bytestream2_put_<name>: stores v like PutUnchecked when the context is
     * not at end of file and the field fits before `buffer_end`; otherwise
     * stores nothing and sets `eof`, which no later put clears.
     */
    method Put<T(!new)>(f: Field<T>, v: T)
      requires Valid() && WellFormed(f)
      modifies this, memory
      ensures Valid()
      ensures old(eof) ==> eof
      ensures !old(eof) && bufferEnd - old(buffer) >= f.bytes ==>
        !eof && buffer == old(buffer) + f.bytes && memory[old(buffer)..buffer] == f.write(v)
      ensures old(eof) || bufferEnd - old(buffer) < f.bytes ==>
        eof && buffer == old(buffer) && memory[..] == old(memory[..])
      ensures forall i :: 0 <= i < memory.Length && !(old(buffer) <= i < buffer) ==> memory[i] == old(memory[i])
    {
      if !eof && bufferEnd - buffer >= f.bytes {
        PutUnchecked(f, v);
      } else {
        eof := true;
      }
    }
  }

  /**
   * A cursor that sits on bytes a put stored for v peeks v back, with or
   * without the bounds check, as long as the field's read undoes its write.
   */
  lemma PeekReadsWhatWasPut<T(!new)>(g: GetByteContext, f: Field<T>, v: T)
    requires g.Valid() && WellFormed(f)
    requires forall x :: f.read(f.write(x)) == x
    requires g.buffer + f.bytes <= g.bufferEnd && g.memory[g.buffer..g.buffer + f.bytes] == f.write(v)
    ensures g.PeekUnchecked(f) == v
    ensures g.Peek(f) == v
  {
  }
}
