/** The pooled, growable buffer every message is built in (ArrayPoolBufferWriter.cs), and the pool it rents from. */
module BufferWriter {
  import opened Prelude

  const MINIMUM_BUFFER_SIZE := 32767

  /** The shared pool. A returned array may be handed out again, with its old contents. */
  class ArrayPool {
    var free: set<array<byte>>
    ghost var rented: set<array<byte>>
    ghost var rentCount: nat
    ghost var returnCount: nat

    ghost predicate Valid()
      reads this
    {
      free !! rented
    }

    constructor ()
      ensures Valid() && free == {} && rented == {} && rentCount == returnCount == 0
    {
      free := {};
      rented := {};
      rentCount, returnCount := 0, 0;
    }

    method Rent(minimumLength: nat) returns (a: array<byte>)
      requires Valid() && minimumLength <= INT32_MAX
      modifies this
      ensures Valid()
      ensures minimumLength <= a.Length <= INT32_MAX
      ensures a !in old(rented) && rented == old(rented) + {a}
      ensures a in old(free) || fresh(a)
      ensures free <= old(free)
      ensures rentCount == old(rentCount) + 1 && returnCount == old(returnCount)
    {
      if x: array<byte> :| x in free && minimumLength <= x.Length <= INT32_MAX {
        a := x;
        free := free - {x};
      } else {
        a := new byte[minimumLength];
      }
      rented := rented + {a};
      rentCount := rentCount + 1;
    }

    /** Returning an array twice, or one that was not rented, is a caller's error. */
    method Return(a: array<byte>)
      requires Valid() && a in rented
      modifies this
      ensures Valid()
      ensures rented == old(rented) - {a} && free == old(free) + {a}
      ensures returnCount == old(returnCount) + 1 && rentCount == old(rentCount)
    {
      rented := rented - {a};
      free := free + {a};
      returnCount := returnCount + 1;
    }
  }

  datatype Reservation = Reserved | NegativeHint | SizeOverflow

  function EffectiveHint(sizeHint: nat): nat {
    if sizeHint == 0 then MINIMUM_BUFFER_SIZE else sizeHint
  }

  /** The size asked of the pool when the free part is too small. */
  function GrownSize(capacity: nat, hint: nat): nat {
    capacity + if hint >= capacity then hint else capacity
  }

  /** One use of the writer: reserve `hint` bytes, fill in `data`, advance by `|data|`. */
  datatype Chunk = Chunk(hint: nat, data: bytes)

  /** What `IBufferWriter` asks of its user: no more is written than was reserved. */
  predicate IsLegal(chunks: seq<Chunk>) {
    forall c | c in chunks :: |c.data| <= EffectiveHint(c.hint)
  }

  function Flatten(chunks: seq<Chunk>): bytes {
    if chunks == [] then [] else Flatten(chunks[..|chunks| - 1]) + chunks[|chunks| - 1].data
  }

  /** The reservation for chunk i would end beyond half of the largest array. */
  predicate Overflows(chunks: seq<Chunk>, i: nat) {
    i < |chunks| && |Flatten(chunks[..i])| + EffectiveHint(chunks[i].hint) > INT32_MAX / 2
  }

  class ArrayPoolBufferWriter {
    const pool: ArrayPool
    var buffer: array?<byte>
    var index: nat
    /** Bytes moved by resizes since the buffer was rented. */
    ghost var copied: nat

    ghost predicate Valid()
      reads this, pool
    {
      && pool.Valid()
      && (buffer != null ==>
            && buffer in pool.rented
            && index <= buffer.Length <= INT32_MAX
            && copied <= buffer.Length)
    }

    /** The abstract value: an append-only sequence of bytes. */
    function Written(): bytes
      requires buffer != null && index <= buffer.Length
      reads this, buffer
    {
      buffer[..index]
    }

    constructor (pool: ArrayPool)
      requires pool.Valid()
      ensures Valid() && this.pool == pool && buffer == null
    {
      this.pool := pool;
      buffer := null;
      index, copied := 0, 0;
    }

    /** `Prepare`: start over, keeping a buffer that was not given back. */
    method Prepare()
      requires Valid()
      modifies this, pool
      ensures Valid() && buffer != null && Written() == []
      ensures pool.free <= old(pool.free)
      ensures old(buffer) != null ==> buffer == old(buffer) && unchanged(pool)
      ensures old(buffer) == null ==>
                && buffer !in old(pool.rented) && pool.rented == old(pool.rented) + {buffer}
                && (buffer in old(pool.free) || fresh(buffer))
                && pool.rentCount == old(pool.rentCount) + 1 && pool.returnCount == old(pool.returnCount)
    {
      if buffer == null {
        buffer := pool.Rent(MINIMUM_BUFFER_SIZE);
        copied := 0;
      }
      index := 0;
    }

    /** `CheckAndResizeBuffer`, behind `GetSpan` and `GetMemory`. */
    method CheckAndResizeBuffer(sizeHint: int) returns (r: Reservation)
      requires Valid() && buffer != null
      modifies this`buffer, this`copied, pool, pool.free
      ensures Valid() && buffer != null
      ensures Written() == old(Written())
      ensures r.NegativeHint? <==> sizeHint < 0
      ensures r.SizeOverflow? <==>
                && sizeHint >= 0 && EffectiveHint(sizeHint) > old(buffer.Length) - index
                && GrownSize(old(buffer.Length), EffectiveHint(sizeHint)) > INT32_MAX
      ensures r.Reserved? ==> buffer.Length - index >= EffectiveHint(sizeHint)
      ensures buffer == old(buffer) ==> unchanged(pool) && copied == old(copied)
      ensures buffer != old(buffer) ==>
                && r.Reserved? && (buffer in old(pool.free) || fresh(buffer))
                && pool.rented == old(pool.rented) - {old(buffer)} + {buffer}
                && pool.rentCount == old(pool.rentCount) + 1 && pool.returnCount == old(pool.returnCount) + 1
                && pool.free <= old(pool.free) + {old(buffer)}
                && buffer.Length >= 2 * old(buffer.Length) && copied == old(copied) + index
    {
      if sizeHint < 0 { return NegativeHint; }
      var hint := EffectiveHint(sizeHint);
      var availableSpace := buffer.Length - index;
      if hint > availableSpace {
        var newSize := GrownSize(buffer.Length, hint);
        if newSize > INT32_MAX { return SizeOverflow; }
        var oldBuffer := buffer;
        var newBuffer := pool.Rent(newSize);
        forall i | 0 <= i < index { newBuffer[i] := oldBuffer[i]; }
        buffer := newBuffer;
        copied := copied + index;
        pool.Return(oldBuffer);
      }
      return Reserved;
    }

    /** Writing through the span that a reservation handed out. */
    method Fill(data: bytes)
      requires Valid() && buffer != null && |data| <= buffer.Length - index
      modifies buffer
      ensures Valid() && Written() == old(Written())
      ensures buffer[index..index + |data|] == data
    {
      forall i | 0 <= i < |data| { buffer[index + i] := data[i]; }
    }

    /** `Advance`; a negative count is refused, an overshoot is a caller's error. */
    method Advance(count: int) returns (ok: bool)
      requires Valid() && buffer != null && count <= buffer.Length - index
      modifies this`index
      ensures Valid()
      ensures ok == (count >= 0)
      ensures ok ==> Written() == old(Written()) + old(buffer[index..index + count])
      ensures !ok ==> index == old(index)
    {
      if count < 0 { return false; }
      index := index + count;
      assert buffer[..index] == old(buffer[..index]) + buffer[old(index)..index];
      return true;
    }

    method Dispose()
      requires Valid()
      modifies this`buffer, pool
      ensures Valid() && buffer == null
      ensures old(buffer) == null ==> unchanged(pool)
      ensures old(buffer) != null ==>
                && pool.rented == old(pool.rented) - {old(buffer)} && pool.free == old(pool.free) + {old(buffer)}
                && pool.returnCount == old(pool.returnCount) + 1 && pool.rentCount == old(pool.rentCount)
    {
      if buffer == null { return; }
      pool.Return(buffer);
      buffer := null;
    }

    /** Reserve, fill, advance: one chunk is appended, or nothing changes because the size overflows. */
    method Append(c: Chunk) returns (ok: bool)
      requires Valid() && buffer != null && IsLegal([c])
      modifies this, pool, pool.free, buffer
      ensures Valid() && buffer != null
      ensures Written() == if ok then old(Written()) + c.data else old(Written())
      ensures !ok ==> |Written()| + EffectiveHint(c.hint) > INT32_MAX / 2
      ensures buffer == old(buffer) || buffer in old(pool.free) || fresh(buffer)
      ensures pool.rented - {buffer} == old(pool.rented) - {old(buffer)}
      ensures pool.rentCount - pool.returnCount == old(pool.rentCount) - old(pool.returnCount)
      ensures pool.free <= old(pool.free) + {old(buffer)}
    {
      assert c in [c];
      var r := CheckAndResizeBuffer(c.hint);
      if !r.Reserved? { return false; }
      Fill(c.data);
      var _ := Advance(|c.data|);
      return true;
    }

    /** Every `BuildMessage`: rent, write the chunks, copy the result out, give the buffer back. Whatever was
        rented before is rented after; on overflow the buffer is given back too. */
    method Build(chunks: seq<Chunk>) returns (message: Option<bytes>)
      requires Valid() && buffer == null && IsLegal(chunks)
      modifies this, pool, pool.free
      ensures Valid() && buffer == null
      ensures message.Some? ==> message.value == Flatten(chunks)
      ensures message.None? ==> exists i :: Overflows(chunks, i)
      ensures pool.rented == old(pool.rented)
      ensures pool.rentCount - pool.returnCount == old(pool.rentCount) - old(pool.returnCount)
      ensures forall x | x in pool.free && x !in old(pool.free) :: fresh(x)
    {
      Prepare();
      message := Some([]);
      ghost var others := pool.rented - {buffer};
      assert others == old(pool.rented);
      for i := 0 to |chunks|
        invariant Valid() && buffer != null
        invariant buffer in old(pool.free) || fresh(buffer)
        invariant pool.rented - {buffer} == others
        invariant pool.rentCount - pool.returnCount == old(pool.rentCount) - old(pool.returnCount) + 1
        invariant forall x | x in pool.free && x !in old(pool.free) :: fresh(x)
        invariant message.Some? ==> Written() == Flatten(chunks[..i])
        invariant message.None? ==> exists k :: Overflows(chunks, k)
      {
        if message.Some? {
          var ok := Append(chunks[i]);
          if !ok {
            assert Overflows(chunks, i);
            message := None;
          }
          assert chunks[..i + 1][..i] == chunks[..i];
        }
      }
      if message.Some? {
        message := Some(buffer[..index]);
        assert chunks[..|chunks|] == chunks;
      }
      Dispose();
    }
  }
}
