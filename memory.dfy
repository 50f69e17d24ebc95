/**
 * The bump region allocator of src/memory.c and the size macros and region record of src/memory.h.
 *
 * Addresses are natural numbers below 2^64 (size_t on the 64-bit target). The backing buffer's
 * bytes are an `array<bv8>` whose element 0 lives at the region's base address.
 */
module Memory {

  /** Number of distinct size_t values: every address and size is below this. */
  const AddressSpace: nat := 0x1_0000_0000_0000_0000

  /** Alignment used by SliceRegion16. */
  const Alignment: nat := 16

  // ---------------------------------------------------------------------------------------------
  // src/memory.h: size macros, evaluated in C `int` arithmetic (the arguments are int literals)

  const IntMin: int := -0x8000_0000
  const IntMax: int := 0x7fff_ffff

  /** Whether a mathematical value is representable in a 32-bit C `int`. */
  predicate InInt(x: int) { IntMin <= x <= IntMax }

  function KB(x: int): int { x * 1024 }
  function MB(x: int): int { x * KB(1024) }
  function GB(x: int): int { x * MB(1024) }

  /** The sizes the program uses: the renderer's 1 MiB region and the shader bank's 640 KiB region. */
  lemma SizeMacroValues()
    ensures KB(1) == 1024 && MB(1) == 1048576 && GB(1) == 1073741824
    ensures 10 * KB(64) == 655360
  {
  }

  /** MB(x) stays inside `int` exactly for -2048 <= x <= 2047. */
  lemma MBFitsInt(x: int)
    ensures InInt(MB(x)) <==> -2048 <= x <= 2047
  {
  }

  /** GB(x) stays inside `int` exactly for -2 <= x <= 1: GB(2) already overflows. */
  lemma GBFitsInt(x: int)
    ensures InInt(GB(x)) <==> -2 <= x <= 1
    ensures !InInt(GB(2))
  {
  }

  /** IS_POWER_OF_2 on a size_t. */
  predicate IsPowerOf2(x: bv64) { x & (x - 1) == 0 }

  /** Every power of two below 2^64 passes the test (a shift amount is a 6-bit value, 0 to 63). */
  lemma PowerOf2Passes(k: bv6)
    ensures IsPowerOf2((1 as bv64) << k)
  {
  }

  /** Zero passes the test too, although it is not a power of two. */
  lemma ZeroPassesPowerOf2()
    ensures IsPowerOf2(0)
  {
  }

  /** A value with two distinct bits set fails the test: together with PowerOf2Passes and
      ZeroPassesPowerOf2 this says the test holds exactly for 0 and the powers of two. */
  lemma TwoBitsFailPowerOf2(x: bv64, i: bv6, j: bv6)
    requires i < j
    requires x & ((1 as bv64) << i) != 0 && x & ((1 as bv64) << j) != 0
    ensures !IsPowerOf2(x)
  {
  }

  /** The mask `p & 15` that SliceRegion16 applies is the remainder modulo 16. */
  lemma LowBitsMaskIsRemainder(p: bv64)
    ensures p & 15 == p % 16
    ensures p & 15 == 0 <==> p % 16 == 0
  {
  }

  // ---------------------------------------------------------------------------------------------
  // src/memory.c: alignment arithmetic

  /** Padding SliceRegion16 adds to reach the next 16-byte boundary from the absolute address `addr`. */
  function Padding16(addr: nat): (pad: nat)
    ensures pad < Alignment
    ensures (addr + pad) % Alignment == 0
    ensures addr % Alignment == 0 <==> pad == 0
  {
    if addr % Alignment != 0 then Alignment - addr % Alignment else 0
  }

  /** Address a slice starts at when the region's cursor is at offset `used`. */
  function SliceStart(buffer: nat, used: nat): nat
  {
    buffer + used + Padding16(buffer + used)
  }

  /** Value of `used` after a slice of `size` bytes. */
  function UsedAfter(buffer: nat, used: nat, size: nat): nat
  {
    used + Padding16(buffer + used) + size
  }

  /** The condition SliceRegion16 asserts, read without wrap-around. */
  predicate SliceFits(buffer: nat, bufferSize: nat, used: nat, size: nat)
  {
    UsedAfter(buffer, used, size) <= bufferSize
  }

  /** The assert as the C code evaluates it: `used + slice_size` is a `size_t` and wraps at 2^64. */
  predicate SliceAssertAsWritten(buffer: nat, bufferSize: nat, used: nat, size: nat)
  {
    UsedAfter(buffer, used, size) % AddressSpace <= bufferSize
  }

  /** While the sum stays below 2^64 the assert as written is exactly SliceFits. */
  lemma SliceAssertAgrees(buffer: nat, bufferSize: nat, used: nat, size: nat)
    requires UsedAfter(buffer, used, size) < AddressSpace
    ensures SliceAssertAsWritten(buffer, bufferSize, used, size) <==> SliceFits(buffer, bufferSize, used, size)
  {
  }

  /** A slice size near 2^64 wraps the sum: with 16 bytes used of a 1024-byte buffer at address 0,
      a request for 2^64 - 1 bytes passes the assert as written although it does not fit. */
  lemma WrappedSlicePassesAssert()
    ensures SliceAssertAsWritten(0, 1024, 16, AddressSpace - 1)
    ensures !SliceFits(0, 1024, 16, AddressSpace - 1)
    ensures UsedAfter(0, 16, AddressSpace - 1) % AddressSpace == 15
  {
  }

  /** One slice: aligned, at or after the cursor, and the cursor ends right after it. */
  lemma SliceShape(buffer: nat, used: nat, size: nat)
    ensures SliceStart(buffer, used) % Alignment == 0
    ensures buffer + used <= SliceStart(buffer, used) < buffer + used + Alignment
    ensures SliceStart(buffer, used) + size == buffer + UsedAfter(buffer, used, size)
  {
  }

  /** Starts of the slices of `sizes`, carved one after another from cursor `used`. */
  function SliceRun(buffer: nat, used: nat, sizes: seq<nat>): (starts: seq<nat>)
    ensures |starts| == |sizes|
    decreases sizes
  {
    if sizes == [] then []
    else [SliceStart(buffer, used)] + SliceRun(buffer, UsedAfter(buffer, used, sizes[0]), sizes[1..])
  }

  /** The cursor after carving every slice of `sizes`. */
  function UsedAfterRun(buffer: nat, used: nat, sizes: seq<nat>): nat
    decreases sizes
  {
    if sizes == [] then used
    else UsedAfterRun(buffer, UsedAfter(buffer, used, sizes[0]), sizes[1..])
  }

  /** Whether every slice of the run passes the assertion. */
  predicate RunFits(buffer: nat, bufferSize: nat, used: nat, sizes: seq<nat>)
    decreases sizes
  {
    sizes == [] ||
    (SliceFits(buffer, bufferSize, used, sizes[0]) &&
     RunFits(buffer, bufferSize, UsedAfter(buffer, used, sizes[0]), sizes[1..]))
  }

  /** Every slice of a run is 16-aligned and lies between the starting cursor and the final one;
      `used` only grows. */
  lemma {:induction false} SliceRunBounds(buffer: nat, used: nat, sizes: seq<nat>)
    ensures used <= UsedAfterRun(buffer, used, sizes)
    ensures forall i :: 0 <= i < |sizes| ==>
              SliceRun(buffer, used, sizes)[i] % Alignment == 0 &&
              buffer + used <= SliceRun(buffer, used, sizes)[i] &&
              SliceRun(buffer, used, sizes)[i] + sizes[i] <= buffer + UsedAfterRun(buffer, used, sizes)
    decreases sizes
  {
    if sizes != [] {
      var next := UsedAfter(buffer, used, sizes[0]);
      SliceRunBounds(buffer, next, sizes[1..]);
      SliceShape(buffer, used, sizes[0]);
      forall i | 1 <= i < |sizes|
        ensures SliceRun(buffer, used, sizes)[i] == SliceRun(buffer, next, sizes[1..])[i - 1]
      {
      }
    }
  }

  /** Slices of a run never overlap: each starts at or after the end of every earlier one. */
  lemma {:induction false} SliceRunDisjoint(buffer: nat, used: nat, sizes: seq<nat>)
    ensures forall i, j :: 0 <= i < j < |sizes| ==>
              SliceRun(buffer, used, sizes)[i] + sizes[i] <= SliceRun(buffer, used, sizes)[j]
    decreases sizes
  {
    if sizes != [] {
      var next := UsedAfter(buffer, used, sizes[0]);
      var rest := SliceRun(buffer, next, sizes[1..]);
      SliceRunDisjoint(buffer, next, sizes[1..]);
      SliceRunBounds(buffer, next, sizes[1..]);
      SliceShape(buffer, used, sizes[0]);
      assert forall j :: 1 <= j < |sizes| ==> SliceRun(buffer, used, sizes)[j] == rest[j - 1];
    }
  }

  /** A run passes every assertion exactly when its final cursor is within the buffer. */
  lemma {:induction false} RunFitsIffFinalFits(buffer: nat, bufferSize: nat, used: nat, sizes: seq<nat>)
    requires used <= bufferSize
    ensures RunFits(buffer, bufferSize, used, sizes) <==> UsedAfterRun(buffer, used, sizes) <= bufferSize
    decreases sizes
  {
    if sizes != [] {
      var next := UsedAfter(buffer, used, sizes[0]);
      SliceRunBounds(buffer, next, sizes[1..]);
      if next <= bufferSize {
        RunFitsIffFinalFits(buffer, bufferSize, next, sizes[1..]);
      }
    }
  }

  /** From a 16-aligned buffer of 1024 bytes: slicing 10 bytes gives offset 0 and used 10; slicing
      5 more gives offset 16 (6 bytes of padding) and used 21; a further 2000 bytes fail the assertion. */
  lemma WorkedExample(buffer: nat)
    requires buffer % Alignment == 0
    ensures SliceRun(buffer, 0, [10, 5]) == [buffer, buffer + 16]
    ensures UsedAfter(buffer, 0, 10) == 10 && UsedAfter(buffer, 10, 5) == 21
    ensures RunFits(buffer, 1024, 0, [10, 5])
    ensures !SliceFits(buffer, 1024, 21, 2000)
  {
    assert Padding16(buffer + 10) == 6 by {
      assert (buffer + 10) % 16 == 10;
    }
    assert Padding16(buffer) == 0;
  }

  // ---------------------------------------------------------------------------------------------
  // src/memory.h / src/memory.c: the region record and its two operations

  /** The MemoryRegion record: base address of the backing buffer, its size, and the cursor. */
  class MemoryRegion {
    var buffer: nat
    var bufferSize: nat
    var used: nat

    /** The cursor never passes the end of the buffer, and the buffer lies below the top of the
        address space (so `buffer + used` never wraps as a size_t). */
    ghost predicate Valid()
      reads this
    {
      used <= bufferSize && buffer + bufferSize < AddressSpace
    }

    /** A region in zero-initialised static storage, before InitRegion. */
    constructor ()
      ensures Valid()
      ensures buffer == 0 && bufferSize == 0 && used == 0
    {
      buffer, bufferSize, used := 0, 0, 0;
    }

    /** InitRegion: record the buffer and its size, reset the cursor, and zero the first `size`
        bytes of the backing buffer (whose first byte is at address `base`). */
    method InitRegion(backing: array<bv8>, base: nat, size: nat)
      requires size <= backing.Length
      requires base + size < AddressSpace
      modifies this, backing
      ensures Valid()
      ensures buffer == base && bufferSize == size && used == 0
      ensures forall i :: 0 <= i < size ==> backing[i] == 0
      ensures forall i :: size <= i < backing.Length ==> backing[i] == old(backing[i])
    {
      buffer := base;
      bufferSize := size;
      used := 0;
      forall i | 0 <= i < bufferSize {
        backing[i] := 0;
      }
    }

    /** SliceRegion16: pad the absolute address `buffer + used` up to a 16-byte boundary, assert
        that the slice fits, advance the cursor and return the aligned address. */
    method SliceRegion16(sliceSize: nat) returns (result: nat)
      requires Valid()
      requires SliceFits(buffer, bufferSize, used, sliceSize)
      modifies this`used
      ensures Valid()
      ensures result == SliceStart(buffer, old(used))
      ensures used == UsedAfter(buffer, old(used), sliceSize)
      ensures result % Alignment == 0
      ensures buffer + old(used) <= result && result + sliceSize <= buffer + bufferSize
    {
      var currPtr := buffer + used;
      var alignmentOffset := 0;
      if currPtr % Alignment != 0 {
        alignmentOffset := Alignment - currPtr % Alignment;
      }
      used := used + alignmentOffset;
      used := used + sliceSize;
      result := currPtr + alignmentOffset;
    }
  }
}
