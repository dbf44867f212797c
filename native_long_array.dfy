/**
 * Wrapping and unwrapping native blocks of C `long`s. A native long is taken
 * to be 64 bits wide, so a slot holds a Java `long` unchanged.
 */
module NativeLongArrays {
  import opened Outcomes
  import opened JavaInts

  /** Slots below this keep the byte offset `slot * NativeLong.SIZE` inside Java `int` range. */
  const MAX_SLOTS: int := 0x1000_0000

  /** The window of slots off .. off+n-1 lies inside a block of `size` slots. */
  predicate InWindow(size: int, n: int, off: int) {
    0 <= off && off + n <= size && off + n <= MAX_SLOTS
  }

  /**
   * What longValues(n, off) returns for a wrapped block (None for a null
   * pointer): n slots starting at slot off, or the exception it throws.
   */
  function LongValuesOf(block: Option<seq<int>>, n: int, off: int): (r: Result<seq<int>>)
    requires n > 0 && block.Some? ==> InWindow(|block.value|, n, off)
    ensures n < 0 ==> r == Err(NegativeArraySize(n))
    ensures n > 0 && block.None? ==> r == Err(NullDereference)
    ensures r.Ok? <==> n == 0 || (n > 0 && block.Some?)
    ensures r.Ok? ==> |r.value| == n
    ensures r.Ok? && n > 0 ==> forall i :: 0 <= i < n ==> r.value[i] == block.value[off + i]
  {
    if n < 0 then Err(NegativeArraySize(n))
    else if n == 0 then Ok([])
    else if block.None? then Err(NullDereference)
    else Ok(block.value[off..off + n])
  }

  /**
   * What intValues(n, off) returns: the same slots, each narrowed to a Java
   * `int` (two's complement, low 32 bits), or the exception it throws.
   */
  function IntValuesOf(block: Option<seq<int>>, n: int, off: int): (r: Result<seq<int>>)
    requires n > 0 && block.Some? ==> InWindow(|block.value|, n, off)
    ensures n < 0 ==> r == Err(NegativeArraySize(n))
    ensures n > 0 && block.None? ==> r == Err(NullDereference)
    ensures r.Ok? <==> n == 0 || (n > 0 && block.Some?)
    ensures r.Ok? ==> |r.value| == n && forall i :: 0 <= i < n ==> IsInt(r.value[i])
    ensures r.Ok? && n > 0 ==> forall i :: 0 <= i < n ==>
      (r.value[i] - block.value[off + i]) % TWO_32 == 0 &&
      (IsInt(block.value[off + i]) ==> r.value[i] == block.value[off + i])
  {
    if n < 0 then Err(NegativeArraySize(n))
    else if n == 0 then Ok([])
    else if block.None? then Err(NullDereference)
    else
      var narrowed := seq(n, i requires 0 <= i < n => ToInt(block.value[off + i]));
      assert forall i :: 0 <= i < n ==> narrowed[i] == ToInt(block.value[off + i]);
      Ok(narrowed)
  }

  /** Both readers look at slots off .. off+n-1 only. */
  lemma ReadsOnlyWindow(b1: seq<int>, b2: seq<int>, n: int, off: int)
    requires n > 0 && InWindow(|b1|, n, off) && InWindow(|b2|, n, off)
    requires forall i :: off <= i < off + n ==> b1[i] == b2[i]
    ensures LongValuesOf(Some(b1), n, off) == LongValuesOf(Some(b2), n, off)
    ensures IntValuesOf(Some(b1), n, off) == IntValuesOf(Some(b2), n, off)
  {
    assert b1[off..off + n] == b2[off..off + n];
    var v1, v2 := IntValuesOf(Some(b1), n, off).value, IntValuesOf(Some(b2), n, off).value;
    assert forall i :: 0 <= i < n ==> v1[i] == ToInt(b1[off + i]) == ToInt(b2[off + i]) == v2[i];
    assert v1 == v2;
  }

  /** When every slot read fits in an `int`, intValues returns what longValues returns. */
  lemma IntValuesAgreeWithLongValues(block: Option<seq<int>>, n: int, off: int)
    requires n > 0 && block.Some? ==> InWindow(|block.value|, n, off)
    requires n > 0 && block.Some? ==> forall i :: off <= i < off + n ==> IsInt(block.value[i])
    ensures IntValuesOf(block, n, off) == LongValuesOf(block, n, off)
  {
    if n > 0 && block.Some? {
      assert IntValuesOf(block, n, off).value == block.value[off..off + n];
    }
  }

  /** A Java object wrapping a pointer to native longs. */
  class NativeLongArray {
    /** getPointer(): the native block this object wraps, null while unset. */
    var memory: array?<int>
    /** The native block an array constructor allocates and fills, which the object never wraps. */
    ghost var filled: array?<int>

    /** The wrapped block's slots, None for a null pointer. */
    function Block(): Option<seq<int>>
      reads this, memory
    {
      if memory == null then None else Some(memory[..])
    }

    /** NativeLongArray(): no pointer. */
    constructor ()
      ensures memory == null && filled == null
    {
      memory := null;
      filled := null;
    }

    /** NativeLongArray(Pointer p): wraps p. */
    constructor Wrap(p: array?<int>)
      ensures memory == p && filled == null
    {
      memory := p;
      filled := null;
    }

    /**
     * NativeLongArray(long[] ll): allocates ll.length slots and writes ll[i]
     * into slot i, but never calls setPointer, so the object wraps nothing.
     */
    constructor FromLongs(ll: array<int>)
      ensures memory == null
      ensures filled != null && fresh(filled) && filled[..] == ll[..]
    {
      var p := new int[ll.Length];
      for i := 0 to ll.Length
        invariant forall k :: 0 <= k < i ==> p[k] == ll[k]
      {
        p[i] := ll[i];
      }
      memory := null;
      filled := p;
    }

    /** NativeLongArray(int[] ii): as above, each int widened to a native long. */
    constructor FromInts(ii: array<int>)
      requires forall k :: 0 <= k < ii.Length ==> IsInt(ii[k])
      ensures memory == null
      ensures filled != null && fresh(filled) && filled[..] == ii[..]
    {
      var p := new int[ii.Length];
      for i := 0 to ii.Length
        invariant forall k :: 0 <= k < i ==> p[k] == ii[k]
      {
        p[i] := ii[i];
      }
      memory := null;
      filled := p;
    }

    /** longValues(n, off): copies slots off .. off+n-1 into a new long[]. */
    method LongValuesAt(n: int, off: int) returns (r: Result<seq<int>>)
      requires n > 0 && memory != null ==> InWindow(memory.Length, n, off)
      ensures r == LongValuesOf(Block(), n, off)
    {
      var p := memory;
      if n < 0 {
        return Err(NegativeArraySize(n));
      }
      var ll := new int[n];
      for i := 0 to n
        invariant i > 0 ==> p != null
        invariant p != null ==> forall k :: 0 <= k < i ==> ll[k] == p[off + k]
      {
        if p == null {
          return Err(NullDereference);
        }
        ll[i] := p[off + i];
      }
      if p != null && n > 0 {
        assert Block() == Some(p[..]);
        assert ll[..] == p[..][off..off + n];
      } else if n == 0 {
        assert ll[..] == [];
      }
      r := Ok(ll[..]);
    }

    /** longValues(n): longValues(n, 0). */
    method LongValues(n: int) returns (r: Result<seq<int>>)
      requires n > 0 && memory != null ==> InWindow(memory.Length, n, 0)
      ensures r == LongValuesOf(Block(), n, 0)
    {
      r := LongValuesAt(n, 0);
    }

    /** intValues(n, off): copies slots off .. off+n-1 into a new int[], narrowing each. */
    method IntValuesAt(n: int, off: int) returns (r: Result<seq<int>>)
      requires n > 0 && memory != null ==> InWindow(memory.Length, n, off)
      ensures r == IntValuesOf(Block(), n, off)
    {
      var p := memory;
      if n < 0 {
        return Err(NegativeArraySize(n));
      }
      var ii := new int[n];
      for i := 0 to n
        invariant i > 0 ==> p != null
        invariant p != null ==> forall k :: 0 <= k < i ==> ii[k] == ToInt(p[off + k])
      {
        if p == null {
          return Err(NullDereference);
        }
        ii[i] := ToInt(p[off + i]);
      }
      if p != null && n > 0 {
        assert Block() == Some(p[..]);
        assert forall k :: 0 <= k < n ==> ii[..][k] == IntValuesOf(Block(), n, off).value[k];
        assert ii[..] == IntValuesOf(Block(), n, off).value;
      } else if n == 0 {
        assert ii[..] == [];
      }
      r := Ok(ii[..]);
    }

    /** intValues(n): intValues(n, 0). */
    method IntValues(n: int) returns (r: Result<seq<int>>)
      requires n > 0 && memory != null ==> InWindow(memory.Length, n, 0)
      ensures r == IntValuesOf(Block(), n, 0)
    {
      r := IntValuesAt(n, 0);
    }
  }
}
