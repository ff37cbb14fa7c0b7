/** The bounded character buffer under both layers of the logger. */
module FixedBuffers {
  import opened Limits
  import opened Sequences

  const SMALL_BUFFER := 4000
  const LARGE_BUFFER := 4000 * 1000

  class FixedBuffer {
    const data: array<char>
    var cur: nat                  // cur_ - data_
    ghost var items: seq<string>  // what was appended since the last reset, piece by piece

    ghost predicate Valid()
      reads this, data
    {
      cur <= data.Length <= INT_MAX && Flatten(items) == data[..cur]
    }

    constructor (size: nat)
      requires size <= INT_MAX
      ensures Valid() && fresh(data) && data.Length == size && cur == 0 && items == []
    {
      data := new char[size];
      cur := 0;
      items := [];
    }

    function Size(): nat
      reads this
    {
      cur
    }

    /** Free space. A piece has to be strictly shorter to be taken. */
    function Avail(): int
      reads this
    {
      data.Length - cur
    }

    ghost function Contents(): string
      reads this, data
      requires Valid()
    {
      data[..cur]
    }

    /** All of the piece, or nothing when it would fill the buffer. */
    method Append(piece: string)
      requires Valid() && |piece| <= INT_MAX  // the length is cast to int
      modifies this, data
      ensures Valid()
      ensures items == if data.Length - old(cur) > |piece| then old(items) + [piece] else old(items)
    {
      if Avail() > |piece| {
        forall i | 0 <= i < |piece| {
          data[cur + i] := piece[i];
        }
        assert data[..cur + |piece|] == old(data[..cur]) + piece;
        FlattenSnoc(items, piece);
        items := items + [piece];
        cur := cur + |piece|;
      }
    }

    /** Takes over `len` characters written at the cursor by somebody else. */
    method Add(len: nat)
      requires Valid() && cur + len <= data.Length
      modifies this
      ensures Valid() && cur == old(cur) + len
      ensures items == old(items) + [data[old(cur)..old(cur) + len]]
    {
      ghost var piece := data[cur..cur + len];
      FlattenSnoc(items, piece);
      assert data[..cur + len] == data[..cur] + piece;
      items := items + [piece];
      cur := cur + len;
    }

    method Reset()
      requires data.Length <= INT_MAX
      modifies this
      ensures Valid() && cur == 0 && items == []
    {
      cur := 0;
      items := [];
    }

    /** Zeroes the storage; the cursor stays, so a used buffer then reads as zeros. */
    method Bzero()
      requires Valid()
      modifies this, data
      ensures Valid() && cur == old(cur)
      ensures forall i :: 0 <= i < cur ==> Contents()[i] == '\0'
      ensures old(items) == [] ==> items == []
    {
      forall i | 0 <= i < data.Length {
        data[i] := '\0';
      }
      if items != [] {
        items := [data[..cur]];
      }
    }
  }
}
