/** Fixed character buffers: what `recv`/`read` and `memset` do to them. */
module Buffers {
  import opened Text

  /** The bytes land at the front of the buffer; the rest of it keeps its contents. */
  method Fill(buffer: array<byte>, bytes: Bytes)
    requires |bytes| <= buffer.Length
    modifies buffer
    ensures buffer[..] == bytes + old(buffer[|bytes|..])
  {
    for i := 0 to |bytes|
      invariant buffer[..i] == bytes[..i]
      invariant buffer[i..] == old(buffer[i..])
    {
      buffer[i] := bytes[i];
      assert bytes[..i + 1] == bytes[..i] + [bytes[i]];
      assert buffer[..i + 1] == buffer[..i] + [buffer[i]];
    }
    assert buffer[..] == buffer[..|bytes|] + buffer[|bytes|..];
  }

  method Clear(buffer: array<byte>)
    modifies buffer
    ensures buffer[..] == Zeros(buffer.Length)
  {
    for i := 0 to buffer.Length
      invariant forall j :: 0 <= j < i ==> buffer[j] == NUL
    {
      buffer[i] := NUL;
    }
  }

  /** The memory from the start of a buffer of `size` zeros after `data` arrived in it. */
  function Memory(size: nat, data: Bytes, beyond: Bytes): Bytes
    requires |data| <= size
  {
    data + Zeros(size - |data|) + beyond
  }

  /** Data that leaves room for the terminator is read as it is, whatever lies behind the buffer. */
  lemma ReadsWhole(size: nat, data: Bytes, beyond: Bytes)
    requires NUL !in data && |data| < size
    ensures CStr(Memory(size, data, beyond)) == data
  {
    var pad := Zeros(size - |data|);
    assert Memory(size, data, beyond) == data + [NUL] + (pad[1..] + beyond);
    CStrStopsAtNul(data, pad[1..] + beyond);
  }

  /** Data that fills the buffer is read on into whatever lies behind it. */
  lemma ReadsOn(data: Bytes, beyond: Bytes)
    requires NUL !in data
    ensures CStr(Memory(|data|, data, beyond)) == data + CStr(beyond)
  {
    assert Memory(|data|, data, beyond) == data + beyond;
    CStrSkips(data, beyond);
  }

  lemma {:induction false} CStrSkips(a: Bytes, b: Bytes)
    requires NUL !in a
    ensures CStr(a + b) == a + CStr(b)
  {
    if a == [] {
      assert a + b == b;
    } else {
      assert a[0] in a;
      assert (a + b)[1..] == a[1..] + b;
      CStrSkips(a[1..], b);
    }
  }

  /** A read into a zeroed buffer with room to spare reads back up to its first NUL. */
  lemma {:induction false} CStrOfPadded(bytes: Bytes, size: nat)
    requires |bytes| < size
    ensures CStr(bytes + Zeros(size)[|bytes|..]) == CStr(bytes)
  {
    var s := bytes + Zeros(size)[|bytes|..];
    if bytes != [] && bytes[0] != NUL {
      assert s[1..] == bytes[1..] + Zeros(size - 1)[|bytes| - 1..];
      CStrOfPadded(bytes[1..], size - 1);
    }
  }
}
