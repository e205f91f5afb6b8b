/** Dynamic buffers: a NUL-terminated character buffer that starts in a
    128-character static area and doubles its heap allocation whenever an
    append would leave no room for the terminator.

    `malloc` is modelled by the buffer's `mallocLimit`: a request for more
    characters than the limit fails, any other request succeeds. */
module DynBuf {
  import opened Errors
  import opened Chars

  /** DBUF_STATIC_SIZE */
  const DBUF_STATIC_SIZE: int := 128

  /** The size `DBufMakeRoom` arrives at: `size` doubled until it exceeds `n`. */
  function Grown(size: int, n: int): (r: int)
    requires size > 0
    ensures r > n && r >= size
    ensures size > n ==> r == size
    ensures size <= n ==> r <= 2 * n
    decreases n - size
  {
    if size > n then size else Grown(size * 2, n)
  }

  class DynamicBuffer {
    var buffer: array<char>
    var len: int
    var allocatedLen: int
    const staticBuf: array<char>
    /** The largest block the modelled `malloc` grants. */
    const mallocLimit: int
    ghost var Repr: set<object>

    /** The representation invariant: `buffer` holds `len` characters, none
        of them NUL, followed by the terminator, within `allocatedLen`. */
    ghost predicate Valid()
      reads this, Repr
    {
      Repr == {this, buffer, staticBuf} &&
      staticBuf.Length == DBUF_STATIC_SIZE &&
      buffer.Length == allocatedLen && allocatedLen >= DBUF_STATIC_SIZE &&
      0 <= len < allocatedLen && buffer[len] == NUL &&
      forall i :: 0 <= i < len ==> buffer[i] != NUL
    }

    /** `DBufValue`: the string the buffer holds. */
    function Contents(): (r: string)
      requires Valid()
      reads this, Repr
      ensures |r| == len && NulFree(r)
    {
      buffer[..len]
    }

    /** `DBufInit` of a fresh buffer. */
    constructor Init(limit: int)
      ensures Valid() && fresh(Repr)
      ensures Contents() == [] && buffer == staticBuf
      ensures allocatedLen == DBUF_STATIC_SIZE && mallocLimit == limit
    {
      staticBuf := new char[DBUF_STATIC_SIZE];
      mallocLimit := limit;
      new;
      buffer := staticBuf;
      len := 0;
      allocatedLen := DBUF_STATIC_SIZE;
      buffer[0] := NUL;
      Repr := {this, buffer, staticBuf};
    }

    /** `DBufMakeRoom`: makes room for `n` characters and the terminator by
        doubling the allocation.  On failure nothing changes. */
    method MakeRoom(n: int) returns (r: Outcome)
      requires Valid()
      modifies this
      ensures Valid() && fresh(Repr - old(Repr))
      ensures Contents() == old(Contents())
      ensures old(allocatedLen) > n ==> r == Pass && allocatedLen == old(allocatedLen)
      ensures r == Pass <==> (old(allocatedLen) > n || Grown(old(allocatedLen), n) <= mallocLimit)
      ensures r == Pass ==> allocatedLen == Grown(old(allocatedLen), n) && allocatedLen > n
      ensures r != Pass ==> r == Fail(NoMem) && unchanged(this)
    {
      var size := allocatedLen;
      if size > n {
        return Pass;
      }
      while size <= n
        invariant allocatedLen <= size && Grown(size, n) == Grown(allocatedLen, n)
        decreases n - size
      {
        size := size * 2;
      }
      if size > mallocLimit {
        return Fail(NoMem);
      }
      var src, l := buffer, len;
      var buf := new char[size](i reads src => if 0 <= i <= l && i < src.Length then src[i] else NUL);
      assert buf[..len] == buffer[..len];
      buffer := buf;
      allocatedLen := size;
      Repr := {this, buffer, staticBuf};
      return Pass;
    }

    /** `DBufPutc`: appends one character, growing the buffer first when it
        is full; only that growth can fail. */
    method Putc(c: char) returns (r: Outcome)
      requires Valid() && c != NUL
      modifies Repr
      ensures Valid() && fresh(Repr - old(Repr))
      ensures r == Pass ==> Contents() == old(Contents()) + [c]
      ensures r != Pass ==> r == Fail(NoMem) && Contents() == old(Contents())
      ensures r == Pass <==> (old(allocatedLen) > old(len) + 1 || Grown(old(allocatedLen), old(len) + 1) <= mallocLimit)
    {
      if allocatedLen == len + 1 {
        r := MakeRoom(len + 1);
        if r != Pass {
          return Fail(NoMem);
        }
      }
      ghost var before := buffer[..len];
      buffer[len] := c;
      len := len + 1;
      buffer[len] := NUL;
      assert buffer[..len] == before + [c];
      return Pass;
    }

    /** `DBufPuts`: appends a string; the empty string changes nothing. */
    method Puts(str: string) returns (r: Outcome)
      requires Valid() && NulFree(str)
      modifies Repr
      ensures Valid() && fresh(Repr - old(Repr))
      ensures r == Pass ==> Contents() == old(Contents()) + str
      ensures r != Pass ==> r == Fail(NoMem) && Contents() == old(Contents())
      ensures str == [] ==> r == Pass && allocatedLen == old(allocatedLen)
      ensures r != Pass ==> Grown(old(allocatedLen), old(len) + |str|) > mallocLimit
    {
      if |str| == 0 {
        return Pass;
      }
      r := MakeRoom(len + |str|);
      if r != Pass {
        return Fail(NoMem);
      }
      ghost var before := buffer[..len];
      forall i | 0 <= i < |str| {
        buffer[len + i] := str[i];
      }
      buffer[len + |str|] := NUL;
      assert buffer[..len + |str|] == before + str by {
        assert str[..|str|] == str;
      }
      len := len + |str|;
      return Pass;
    }

    /** `DBufFree`: releases any heap allocation and re-initialises the
        buffer to the empty string in its static area. */
    method Free()
      requires Valid()
      modifies Repr
      ensures Valid() && fresh(Repr - old(Repr))
      ensures Contents() == [] && buffer == staticBuf
      ensures allocatedLen == DBUF_STATIC_SIZE
    {
      buffer := staticBuf;
      len := 0;
      allocatedLen := DBUF_STATIC_SIZE;
      buffer[0] := NUL;
      Repr := {this, buffer, staticBuf};
    }
  }
}
