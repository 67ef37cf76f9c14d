/**
 * The Rust sample plugin, version-1.0 entry point. It walks both arrays
 * with element-typed pointer arithmetic (`wrapping_add(i)`), reads each
 * length as a full `usize`, and borrows each argument as a `&str` over host
 * memory without checking that it is UTF-8.
 */
module RustSample {

  import opened ForeignMemory
  import Abi
  import ErrorCodes
  import Optional

  /** `base.wrapping_add(i)` on a pointer to `w`-byte elements. */
  function WrappingAdd(p: Platform, base: nat, i: nat, w: nat): (r: nat)
    ensures r < AddressSpace(p)
    ensures r == base + i * w <==> base + i * w < AddressSpace(p)
  {
    ModIdentity(base + i * w, AddressSpace(p));
    (base + i * w) % AddressSpace(p)
  }

  /** Element `i` of the pointer array (stride: one pointer). */
  function RustPointerSlot(p: Platform, av: Abi.ArgVector, i: nat): nat {
    av.pointers + Offset(i, p.ptrWidth)
  }

  /** Element `i` of the length array, typed `*const usize` (stride: one pointer width). */
  function RustLengthSlot(p: Platform, av: Abi.ArgVector, i: nat): nat {
    av.lengths + Offset(i, p.ptrWidth)
  }

  predicate RustSlotsReadable(p: Platform, m: Memory, av: Abi.ArgVector, i: nat) {
    && Readable(m, RustPointerSlot(p, av, i), p.ptrWidth)
    && Readable(m, RustLengthSlot(p, av, i), p.ptrWidth)
  }

  /** `*arg_pointers.wrapping_add(i)` */
  function RustPointer(p: Platform, m: Memory, av: Abi.ArgVector, i: nat): nat
    requires RustSlotsReadable(p, m, av, i)
  {
    ReadWord(m, RustPointerSlot(p, av, i), p.ptrWidth, p.endian)
  }

  /** `*arg_pointer_sizes.wrapping_add(i)`, a full `usize` */
  function RustLength(p: Platform, m: Memory, av: Abi.ArgVector, i: nat): nat
    requires RustSlotsReadable(p, m, av, i)
  {
    ReadWord(m, RustLengthSlot(p, av, i), p.ptrWidth, p.endian)
  }

  /** `slice::from_raw_parts` needs a non-null pointer, even for an empty slice. */
  predicate RustEntryValid(p: Platform, m: Memory, av: Abi.ArgVector, i: nat)
    requires p.Valid()
  {
    && RustSlotsReadable(p, m, av, i)
    && RustPointer(p, m, av, i) != 0
    && RustLength(p, m, av, i) <= MaxSigned(p)
    && Readable(m, RustPointer(p, m, av, i), RustLength(p, m, av, i))
  }

  /** What the Rust loop needs to run without undefined behaviour. */
  predicate RustValid(p: Platform, m: Memory, av: Abi.ArgVector) {
    && p.Valid()
    && InAddressSpace(p, m)
    && av.count < AddressSpace(p)
    && forall i: nat {:trigger RustSlotsReadable(p, m, av, i)} {:trigger RustEntryValid(p, m, av, i)} ::
         i < av.count ==> RustEntryValid(p, m, av, i)
  }

  /** The borrowed arguments: host bytes at call time, passed through whatever they contain. */
  function RustArguments(p: Platform, m: Memory, av: Abi.ArgVector): (args: seq<seq<byte>>)
    requires RustValid(p, m, av)
    ensures |args| == av.count
    ensures forall i: nat :: i < av.count ==> RustEntryValid(p, m, av, i) && |args[i]| == RustLength(p, m, av, i)
  {
    seq(av.count, i requires 0 <= i < av.count =>
      ReadBytes(m, RustPointer(p, m, av, i), RustLength(p, m, av, i)))
  }

  /**
   * One loop iteration with Rust's own arithmetic: `wrapping_add(i)` on each
   * array base, then `from_raw_parts` and `from_utf8_unchecked`.
   */
  function BorrowEntry(p: Platform, m: Memory, av: Abi.ArgVector, i: nat): (s: seq<byte>)
    requires RustValid(p, m, av) && i < av.count
    ensures s == RustArguments(p, m, av)[i]
  {
    RustAddressArithmetic(p, m, av, i);
    assert RustEntryValid(p, m, av, i);
    var strStart := WrappingAdd(p, av.pointers, i, p.ptrWidth);
    var strLen := WrappingAdd(p, av.lengths, i, p.ptrWidth);
    ReadBytes(m, ReadWord(m, strStart, p.ptrWidth, p.endian), ReadWord(m, strLen, p.ptrWidth, p.endian))
  }

  /** The wrapping additions land on the slots, which lie inside the address space. */
  lemma RustAddressArithmetic(p: Platform, m: Memory, av: Abi.ArgVector, i: nat)
    requires RustValid(p, m, av) && i < av.count
    ensures WrappingAdd(p, av.pointers, i, p.ptrWidth) == RustPointerSlot(p, av, i)
    ensures WrappingAdd(p, av.lengths, i, p.ptrWidth) == RustLengthSlot(p, av, i)
  {
    assert RustEntryValid(p, m, av, i);
    assert RustPointerSlot(p, av, i) in m;
    assert RustLengthSlot(p, av, i) in m;
    OffsetIsProduct(i, p.ptrWidth);
    ModSmall(RustPointerSlot(p, av, i), AddressSpace(p));
    ModSmall(RustLengthSlot(p, av, i), AddressSpace(p));
  }

  /** The `while i < arg_count` loop pushing one borrowed argument per index. */
  method CollectArguments(p: Platform, m: Memory, av: Abi.ArgVector) returns (argVec: seq<seq<byte>>)
    requires RustValid(p, m, av)
    ensures argVec == RustArguments(p, m, av)
  {
    argVec := [];
    var i := 0;
    while i < av.count
      invariant 0 <= i <= av.count
      invariant argVec == RustArguments(p, m, av)[..i]
    {
      argVec := argVec + [BorrowEntry(p, m, av, i)];
      i := i + 1;
    }
  }

  /** `_MIST_PLUGIN_1_0_MAIN`: collect the arguments, print (not modelled), return 0. */
  method PluginMain(p: Platform, m: Memory, av: Abi.ArgVector) returns (status: byte)
    requires RustValid(p, m, av)
    ensures ErrorCodes.FromByte(status) == Optional.Some(ErrorCodes.Success)
  {
    var argVec := CollectArguments(p, m, av);
    status := 0;
  }

  /** Every pointer is non-null and every length fits `isize`, as `from_raw_parts` demands. */
  predicate Borrowable(p: Platform, m: Memory, av: Abi.ArgVector)
    requires Abi.Valid(p, m, av)
  {
    forall i: nat :: i < av.count ==>
      && Abi.EntryValid(p, m, av, i)
      && Abi.ArgPointer(p, m, av, i) != 0
      && Abi.ArgLength(p, m, av, i) <= MaxSigned(p)
  }

  /** With pointer-wide `size_t`, the Rust loop reads entry `i` from the reference slots. */
  lemma SameSlots(p: Platform, m: Memory, av: Abi.ArgVector, i: nat)
    requires p.ptrWidth == p.sizeWidth
    ensures RustSlotsReadable(p, m, av, i) <==> Abi.SlotsReadable(p, m, av, i)
    ensures RustSlotsReadable(p, m, av, i) ==>
      RustPointer(p, m, av, i) == Abi.ArgPointer(p, m, av, i) &&
      RustLength(p, m, av, i) == Abi.ArgLength(p, m, av, i)
  {
  }

  lemma RustValidIsBorrowable(p: Platform, m: Memory, av: Abi.ArgVector)
    requires p.ptrWidth == p.sizeWidth && RustValid(p, m, av)
    ensures Abi.Valid(p, m, av) && Borrowable(p, m, av)
  {
    forall i: nat | i < av.count
      ensures Abi.EntryValid(p, m, av, i)
      ensures Abi.ArgPointer(p, m, av, i) != 0 && Abi.ArgLength(p, m, av, i) <= MaxSigned(p)
    {
      assert RustEntryValid(p, m, av, i);
      SameSlots(p, m, av, i);
    }
  }

  lemma BorrowableIsRustValid(p: Platform, m: Memory, av: Abi.ArgVector)
    requires p.ptrWidth == p.sizeWidth && Abi.Valid(p, m, av) && Borrowable(p, m, av)
    ensures RustValid(p, m, av)
  {
    forall i: nat | i < av.count
      ensures RustEntryValid(p, m, av, i)
    {
      assert Abi.EntryValid(p, m, av, i);
      SameSlots(p, m, av, i);
    }
  }

  lemma RustDecodesAsAbi(p: Platform, m: Memory, av: Abi.ArgVector)
    requires p.ptrWidth == p.sizeWidth && RustValid(p, m, av) && Abi.Valid(p, m, av)
    ensures RustArguments(p, m, av) == Abi.Decode(p, m, av)
  {
    forall i: nat | i < av.count
      ensures RustArguments(p, m, av)[i] == Abi.Decode(p, m, av)[i]
    {
      assert RustEntryValid(p, m, av, i);
      SameSlots(p, m, av, i);
    }
  }

  /**
   * When a pointer is as wide as `size_t`, the Rust loop is defined exactly on
   * the valid vectors with non-null pointers and `isize`-sized lengths, and
   * then returns the reference decoding.
   */
  lemma RustMatchesAbi(p: Platform, m: Memory, av: Abi.ArgVector)
    requires p.ptrWidth == p.sizeWidth
    ensures RustValid(p, m, av) <==> Abi.Valid(p, m, av) && Borrowable(p, m, av)
    ensures RustValid(p, m, av) ==> RustArguments(p, m, av) == Abi.Decode(p, m, av)
  {
    if RustValid(p, m, av) {
      RustValidIsBorrowable(p, m, av);
      RustDecodesAsAbi(p, m, av);
    }
    if Abi.Valid(p, m, av) && Borrowable(p, m, av) {
      BorrowableIsRustValid(p, m, av);
    }
  }
}
