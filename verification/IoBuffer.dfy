/** The command and reply buffer: one array, a cursor and a length. */
module IoBuffer {
  import opened Bytes

  const MONERO_IO_BUFFER_LENGTH := 300

  class Io {
    const buffer: array<byte>
    var offset: nat
    var length: nat

    /** offset <= length <= capacity, at every moment. */
    predicate Valid()
      reads this
    {
      buffer.Length == MONERO_IO_BUFFER_LENGTH && offset <= length <= MONERO_IO_BUFFER_LENGTH
    }

    /** What is before the cursor, and what is still to fetch. */
    function Before(): bytes
      requires Valid()
      reads this, buffer
    {
      buffer[..offset]
    }

    function Rest(): bytes
      requires Valid()
      reads this, buffer
    {
      buffer[offset..length]
    }

    constructor ()
      ensures Valid() && fresh(buffer) && Before() == Rest() == []
    {
      buffer := new byte[MONERO_IO_BUFFER_LENGTH];
      offset, length := 0, 0;
    }

    /** A command arrives: at most 255 bytes, the cursor in front of them. */
    method Receive(data: bytes)
      requires Valid() && |data| <= 255
      modifies this, buffer
      ensures Valid() && Before() == [] && Rest() == data
    {
      offset, length := 0, 0;
      for i := 0 to |data|
        invariant Valid() && offset == 0
        invariant forall j :: 0 <= j < i ==> buffer[j] == data[j]
      {
        buffer[i] := data[i];
      }
      length := |data|;
    }

    method Discard(clear: bool)
      requires Valid()
      modifies this, buffer
      ensures Valid() && Before() == Rest() == []
      ensures clear ==> forall i :: 0 <= i < buffer.Length ==> buffer[i] == 0
      ensures !clear ==> buffer[..] == old(buffer[..])
    {
      length, offset := 0, 0;
      if clear {
        for i := 0 to buffer.Length
          invariant Valid() && offset == length == 0
          invariant forall j :: 0 <= j < i ==> buffer[j] == 0
        {
          buffer[i] := 0;
        }
      }
    }

    /** Opens `sz` bytes at the cursor, moving the rest up: the loop is the overlapping
        `memmove`, from the top down. False means the app is killed instead. */
    method Hole(sz: nat) returns (ok: bool)
      requires Valid()
      modifies this`length, buffer
      ensures Valid() && ok == (sz <= MONERO_IO_BUFFER_LENGTH - old(length))
      ensures ok ==> length == old(length) + sz && buffer[offset + sz..length] == old(Rest())
      ensures ok ==> Before() == old(Before())
      ensures !ok ==> length == old(length) && buffer[..] == old(buffer[..])
    {
      if sz > MONERO_IO_BUFFER_LENGTH - length { return false; }
      var n := length - offset;
      ghost var was := buffer[..];
      for k := n downto 0
        invariant buffer.Length == MONERO_IO_BUFFER_LENGTH && offset + n == length == old(length)
        invariant forall j :: offset + sz + k <= j < offset + sz + n ==> buffer[j] == was[j - sz]
        invariant forall j :: 0 <= j < offset + k ==> buffer[j] == was[j]
      {
        buffer[offset + sz + k] := buffer[offset + k];
      }
      ghost var moved := buffer[offset + sz..offset + sz + n];
      assert forall j :: 0 <= j < n ==> moved[j] == buffer[offset + sz + j] == was[offset + j];
      assert moved == was[offset..offset + n];
      length := length + sz;
      ok := true;
    }

    /** `monero_io_insert`: new bytes before the cursor, the rest untouched. */
    method Insert(data: bytes) returns (ok: bool)
      requires Valid()
      modifies this, buffer
      ensures Valid() && ok == (|data| <= MONERO_IO_BUFFER_LENGTH - old(length))
      ensures ok ==> Before() == old(Before()) + data && Rest() == old(Rest())
    {
      ok := Hole(|data|);
      if !ok { return; }
      ghost var tail := buffer[offset + |data|..length];
      for i := 0 to |data|
        invariant buffer.Length == MONERO_IO_BUFFER_LENGTH && offset == old(offset) && length == old(length) + |data|
        invariant offset + |data| <= length <= MONERO_IO_BUFFER_LENGTH
        invariant buffer[..offset] == old(Before()) && buffer[offset + |data|..length] == tail
        invariant forall j :: 0 <= j < i ==> buffer[offset + j] == data[j]
      {
        buffer[offset + i] := data[i];
      }
      offset := offset + |data|;
      assert buffer[old(offset)..offset] == data;
      assert buffer[..offset] == buffer[..old(offset)] + buffer[old(offset)..offset];
    }

    /** `monero_io_inserted`: the caller wrote `len` bytes at the cursor itself. */
    method Inserted(len: nat) returns (ok: bool)
      requires Valid()
      modifies this
      ensures Valid() && ok == (len <= MONERO_IO_BUFFER_LENGTH - old(length))
      ensures ok ==> offset == old(offset) + len && length == old(length) + len
      ensures !ok ==> offset == old(offset) && length == old(length)
    {
      if len > MONERO_IO_BUFFER_LENGTH - length { return false; }
      offset := offset + len;
      length := length + len;
      ok := true;
    }

    /** `monero_io_fetch`: the next `len` bytes, or the app is killed. */
    method Fetch(len: nat) returns (ok: bool, data: bytes)
      requires Valid()
      modifies this`offset
      ensures Valid() && ok == (len <= |old(Rest())|)
      ensures ok ==> data == old(Rest())[..len] && Rest() == old(Rest())[len..]
      ensures !ok ==> offset == old(offset)
    {
      if length - offset < len { return false, []; }
      data := buffer[offset..offset + len];
      offset := offset + len;
      ok := true;
    }
  }
}
