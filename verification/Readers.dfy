/** A reader over a byte slice, as bytes.Reader and io.ReadFull. */
module Readers {
  import opened Bytes
  import opened Wrappers

  class Reader {
    const data: bytes
    var pos: nat

    ghost predicate Valid()
      reads this
    {
      pos <= |data|
    }

    /** What is still to be read. */
    ghost function Rest(): bytes
      reads this
      requires Valid()
    {
      data[pos..]
    }

    constructor (data: bytes)
      ensures Valid() && Rest() == data && this.data == data
    {
      this.data, pos := data, 0;
    }

    method ReadByte() returns (r: Option<byte>)
      requires Valid()
      modifies this
      ensures Valid()
      ensures if old(Rest()) == [] then r == None && Rest() == []
              else r == Some(old(Rest())[0]) && Rest() == old(Rest())[1..]
    {
      if pos == |data| { return None; }
      r := Some(data[pos]);
      pos := pos + 1;
    }

    /** All of the next `n` bytes, or an error. */
    method ReadFull(n: nat) returns (r: Result<bytes>)
      requires Valid()
      modifies this
      ensures Valid()
      ensures if n <= |old(Rest())|
              then r == Ok(old(Rest())[..n]) && Rest() == old(Rest())[n..]
              else r == Err(Malformed)
    {
      if pos + n > |data| {
        pos := |data|;
        return Err(Malformed);
      }
      r := Ok(data[pos..pos + n]);
      assert data[pos..][..n] == data[pos..pos + n];
      pos := pos + n;
    }
  }
}
