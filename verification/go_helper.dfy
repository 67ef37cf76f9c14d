/**
 * The Go plugin helper: the `Error` status type, `makeGoArguments` and the
 * version-1.0 entry point that hands the decoded arguments to the plugin's
 * own `mistMain` and returns its status byte unchanged.
 *
 * The Go decoder addresses BOTH arrays with the same byte offset
 * `i * sizeof(size_t)`, and reads each length as a 4-byte signed C `int`
 * from the start of its `size_t` slot. Go's `int` and `uintptr` are
 * pointer-wide and wrap on overflow.
 */
module GoHelper {

  import opened ForeignMemory
  import Abi

  // ---------------------------------------------------------------------
  // Go integer conversions

  /**
   * A mathematical integer wrapped into Go's pointer-wide `int`: the value in
   * [-2^(8w-1), 2^(8w-1)) with the same bit pattern, which is the integer
   * itself exactly when it is already in range.
   */
  function GoInt(p: Platform, x: int): (r: int)
    requires p.Valid()
    ensures -(MaxSigned(p) + 1) <= r <= MaxSigned(p)
    ensures ToUintptr(p, r) == ToUintptr(p, x)
    ensures r == x <==> -(MaxSigned(p) + 1) <= x <= MaxSigned(p)
  {
    GoIntRange(p);
    SignedWrap(x, AddressSpace(p), MaxSigned(p));
    var r := x % AddressSpace(p);
    if r <= MaxSigned(p) then r else r - AddressSpace(p)
  }

  /** `uintptr(x)`: the two's-complement bit pattern as an unsigned word. */
  function ToUintptr(p: Platform, x: int): (r: nat)
    ensures r < AddressSpace(p)
    ensures r == x <==> 0 <= x < AddressSpace(p)
  {
    ModIdentity(x, AddressSpace(p));
    x % AddressSpace(p)
  }

  /** `unsafe.Add(ptr, off)`: pointer addition, wrapping at the end of the address space. */
  function UnsafeAdd(p: Platform, ptr: nat, off: nat): (r: nat)
    ensures r < AddressSpace(p)
    ensures r == ptr + off <==> ptr + off < AddressSpace(p)
  {
    ModIdentity(ptr + off, AddressSpace(p));
    (ptr + off) % AddressSpace(p)
  }

  /** The two ways of wrapping `x` into the signed range [-(h + 1), h] of a `d`-value word. */
  lemma SignedWrap(x: int, d: int, h: int)
    requires 0 < d && d == 2 * (h + 1)
    ensures x % d <= h ==> (x % d) % d == x % d && (x % d == x <==> -(h + 1) <= x <= h)
    ensures x % d > h ==> (x % d - d) % d == x % d && (x % d - d == x <==> -(h + 1) <= x <= h)
  {
    var r := x % d;
    ModSmall(r, d);
    DivModUnique(r - d, -1, r, d);
    if 0 <= x <= h {
      ModSmall(x, d);
    } else if -(h + 1) <= x < 0 {
      DivModUnique(x, -1, x + d, d);
    }
  }

  /** Go's `int` covers exactly half of the address space on each side of zero. */
  lemma GoIntRange(p: Platform)
    requires p.Valid()
    ensures 0 < MaxSigned(p) && AddressSpace(p) == 2 * (MaxSigned(p) + 1)
  {
    assert Pow256(p.ptrWidth) == 256 * Pow256(p.ptrWidth - 1);
  }

  /** Two's-complement reading of a 32-bit pattern: C's `int`. */
  function SignedInt32(u: nat): (v: int)
    requires u < 0x1_0000_0000
    ensures -0x8000_0000 <= v < 0x8000_0000
    ensures v % 0x1_0000_0000 == u
  {
    if u < 0x8000_0000 then u else u - 0x1_0000_0000
  }

  /** `*(*C.int)(a)`: the 4 bytes at `a` as a signed C `int`. */
  function CIntAt(p: Platform, m: Memory, a: nat): (v: int)
    requires Readable(m, a, CIntWidth)
    ensures -0x8000_0000 <= v < 0x8000_0000
    ensures v % 0x1_0000_0000 == ReadWord(m, a, CIntWidth, p.endian)
  {
    WordBound(ReadBytes(m, a, CIntWidth), p.endian);
    Pow256Four();
    SignedInt32(ReadWord(m, a, CIntWidth, p.endian))
  }

  /** `C.GoStringN(ptr, n)`: a fresh Go string holding a copy of the `n` bytes at `ptr`. */
  function GoStringN(m: Memory, ptr: nat, n: int): (s: seq<byte>)
    requires 0 <= n && Readable(m, ptr, n)
    ensures |s| == n
    ensures forall k :: 0 <= k < n ==> s[k] == m[ptr + k]
  {
    ReadBytes(m, ptr, n)
  }

  // ---------------------------------------------------------------------
  // What the Go decoder reads for entry i

  /** `ptrIdx`: the byte offset `i * sizeof(size_t)` used for both arrays. */
  function SharedOffset(p: Platform, i: nat): nat {
    Offset(i, p.sizeWidth)
  }

  function GoPointerSlot(p: Platform, av: Abi.ArgVector, i: nat): nat {
    av.pointers + SharedOffset(p, i)
  }

  function GoLengthSlot(p: Platform, av: Abi.ArgVector, i: nat): nat {
    av.lengths + SharedOffset(p, i)
  }

  predicate GoSlotsReadable(p: Platform, m: Memory, av: Abi.ArgVector, i: nat) {
    && Readable(m, GoPointerSlot(p, av, i), p.ptrWidth)
    && Readable(m, GoLengthSlot(p, av, i), CIntWidth)
  }

  /** `*(**C.char)(strStart)` */
  function GoPointer(p: Platform, m: Memory, av: Abi.ArgVector, i: nat): nat
    requires GoSlotsReadable(p, m, av, i)
  {
    ReadWord(m, GoPointerSlot(p, av, i), p.ptrWidth, p.endian)
  }

  /** `*(*C.int)(strLen)` */
  function GoLength(p: Platform, m: Memory, av: Abi.ArgVector, i: nat): int
    requires Readable(m, GoLengthSlot(p, av, i), CIntWidth)
  {
    CIntAt(p, m, GoLengthSlot(p, av, i))
  }

  /** Entry `i` can be converted: a negative C `int` length makes `GoStringN` fail. */
  predicate GoEntryValid(p: Platform, m: Memory, av: Abi.ArgVector, i: nat) {
    && GoSlotsReadable(p, m, av, i)
    && 0 <= GoLength(p, m, av, i)
    && Readable(m, GoPointer(p, m, av, i), GoLength(p, m, av, i))
  }

  /**
   * What the Go decoder needs to run without a fault: every slot and string
   * it reads is readable, and `int(argCount)` is the count itself.
   */
  predicate GoValid(p: Platform, m: Memory, av: Abi.ArgVector) {
    && p.Valid()
    && InAddressSpace(p, m)
    && av.count < Pow256(p.sizeWidth)
    && av.count <= MaxSigned(p)
    && forall i: nat {:trigger GoSlotsReadable(p, m, av, i)} {:trigger GoEntryValid(p, m, av, i)} ::
         i < av.count ==> GoEntryValid(p, m, av, i)
  }

  /** The strings the Go decoder produces, one per index. */
  function GoArguments(p: Platform, m: Memory, av: Abi.ArgVector): (args: seq<seq<byte>>)
    requires GoValid(p, m, av)
    ensures |args| == av.count
    ensures forall i: nat :: i < av.count ==> GoEntryValid(p, m, av, i) && |args[i]| == GoLength(p, m, av, i)
  {
    seq(av.count, i requires 0 <= i < av.count =>
      GoStringN(m, GoPointer(p, m, av, i), GoLength(p, m, av, i)))
  }

  /**
   * One iteration of the decode loop with Go's own arithmetic: the offset is
   * computed as a wrapping `int`, converted to `uintptr`, and added to each
   * base address with `unsafe.Add`. It reads the same slots as `GoArguments`.
   */
  function ConvertEntry(p: Platform, m: Memory, av: Abi.ArgVector, i: nat): (s: seq<byte>)
    requires GoValid(p, m, av) && i < av.count
    ensures s == GoArguments(p, m, av)[i]
  {
    GoAddressArithmetic(p, m, av, i);
    assert GoEntryValid(p, m, av, i);
    var ptrIdx := ToUintptr(p, GoInt(p, i * p.sizeWidth));
    var strStart := UnsafeAdd(p, av.pointers, ptrIdx);
    var strLen := UnsafeAdd(p, av.lengths, ptrIdx);
    GoStringN(m, ReadWord(m, strStart, p.ptrWidth, p.endian), CIntAt(p, m, strLen))
  }

  /** Go's wrapping offset arithmetic lands on the slots, which lie inside the address space. */
  lemma GoAddressArithmetic(p: Platform, m: Memory, av: Abi.ArgVector, i: nat)
    requires GoValid(p, m, av) && i < av.count
    ensures UnsafeAdd(p, av.pointers, ToUintptr(p, GoInt(p, i * p.sizeWidth))) == GoPointerSlot(p, av, i)
    ensures UnsafeAdd(p, av.lengths, ToUintptr(p, GoInt(p, i * p.sizeWidth))) == GoLengthSlot(p, av, i)
  {
    var space := AddressSpace(p);
    var x := i * p.sizeWidth;
    assert GoEntryValid(p, m, av, i);
    assert GoPointerSlot(p, av, i) in m;
    assert GoLengthSlot(p, av, i) in m;
    OffsetIsProduct(i, p.sizeWidth);
    ModSmall(x, space);
    ModSmall(av.pointers + x, space);
    ModSmall(av.lengths + x, space);
  }

  /** `makeGoArguments`: preallocate `argCount` strings, then fill slot `i` for each `i`. */
  method MakeGoArguments(p: Platform, m: Memory, av: Abi.ArgVector) returns (arguments: seq<seq<byte>>)
    requires GoValid(p, m, av)
    ensures arguments == GoArguments(p, m, av)
  {
    arguments := seq(av.count, _ => []);
    var n := GoInt(p, av.count);
    var i := 0;
    while i < n
      invariant n == av.count
      invariant 0 <= i <= n
      invariant |arguments| == av.count
      invariant forall j :: 0 <= j < i ==> arguments[j] == GoArguments(p, m, av)[j]
    {
      arguments := arguments[i := ConvertEntry(p, m, av, i)];
      i := i + 1;
    }
  }

  /**
   * `_MIST_PLUGIN_1_0_MAIN`: decode, run the plugin body, and return its
   * status byte (Go's `Error` is a `uint8`) without remapping it.
   */
  method PluginMain(p: Platform, m: Memory, av: Abi.ArgVector, mistMain: seq<seq<byte>> -> byte)
    returns (status: byte)
    requires GoValid(p, m, av)
    ensures status == mistMain(GoArguments(p, m, av))
  {
    var arguments := MakeGoArguments(p, m, av);
    status := mistMain(arguments);
  }

  // ---------------------------------------------------------------------
  // How the Go reading relates to the reference decoding

  /**
   * The shared offset reaches the same pointer slot as element-stride
   * indexing exactly when the index is zero or a pointer is as wide as `size_t`.
   */
  lemma SharedOffsetIsElementStride(p: Platform, av: Abi.ArgVector, i: nat)
    ensures GoPointerSlot(p, av, i) == Abi.PointerSlot(p, av, i) <==> i == 0 || p.ptrWidth == p.sizeWidth
    ensures GoLengthSlot(p, av, i) == Abi.LengthSlot(p, av, i)
  {
    OffsetIsProduct(i, p.sizeWidth);
    OffsetIsProduct(i, p.ptrWidth);
    if i != 0 && i * p.sizeWidth == i * p.ptrWidth {
      MulCancel(i, p.sizeWidth, p.ptrWidth);
    }
  }

  /**
   * The C `int` Go reads out of a valid `size_t` length slot: the low 32 bits
   * on a little-endian target, the high 32 bits on a big-endian one.
   */
  lemma GoLengthRead(p: Platform, m: Memory, av: Abi.ArgVector, i: nat)
    requires Abi.Valid(p, m, av) && i < av.count
    ensures Abi.EntryValid(p, m, av, i)
    ensures Readable(m, GoLengthSlot(p, av, i), CIntWidth)
    ensures p.endian == Little ==>
      CIntAt(p, m, GoLengthSlot(p, av, i)) == SignedInt32(Abi.ArgLength(p, m, av, i) % 0x1_0000_0000)
    ensures p.endian == Big ==>
      && Abi.ArgLength(p, m, av, i) / Pow256(p.sizeWidth - CIntWidth) < 0x1_0000_0000
      && CIntAt(p, m, GoLengthSlot(p, av, i)) == SignedInt32(Abi.ArgLength(p, m, av, i) / Pow256(p.sizeWidth - CIntWidth))
  {
    assert Abi.EntryValid(p, m, av, i);
    var slot := GoLengthSlot(p, av, i);
    Pow256Four();
    if p.endian == Little {
      ReadNarrowLittle(m, slot, p.sizeWidth, CIntWidth);
    } else {
      ReadNarrowBig(m, slot, p.sizeWidth, CIntWidth);
      WordBound(ReadBytes(m, slot, CIntWidth), Big);
    }
  }

  /** All lengths are below 2^31, so Go's C `int` read cannot wrap. */
  predicate LengthsFitCInt(p: Platform, m: Memory, av: Abi.ArgVector)
    requires Abi.Valid(p, m, av)
  {
    forall i: nat :: i < av.count ==> Abi.EntryValid(p, m, av, i) && Abi.ArgLength(p, m, av, i) < 0x8000_0000
  }

  /** A readable pointer array of `count` entries leaves `count` within Go's `int`. */
  lemma CountFitsGoInt(p: Platform, m: Memory, av: Abi.ArgVector)
    requires Abi.Valid(p, m, av)
    ensures av.count <= MaxSigned(p)
  {
    if av.count > 0 {
      var last := av.count - 1;
      assert Abi.EntryValid(p, m, av, last);
      var slot := Abi.PointerSlot(p, av, last);
      assert slot + p.ptrWidth - 1 in m;
      assert Offset(av.count, p.ptrWidth) == Offset(last, p.ptrWidth) + p.ptrWidth;
      OffsetMonotoneWidth(av.count, 4, p.ptrWidth);
      OffsetIsProduct(av.count, 4);
      GoIntRange(p);
      Pow256Split(p.ptrWidth);
    }
  }

  /**
   * The 4-byte C `int` read starts at the low-order end of a `size_t`
   * length: the target is little-endian, or `size_t` is itself 4 bytes wide.
   */
  predicate CIntReadsLowBytes(p: Platform) {
    p.endian == Little || p.sizeWidth == CIntWidth
  }

  /**
   * On a target where a pointer is as wide as `size_t` and the C `int` read
   * starts at the low-order end of a length, the Go decoder accepts every
   * valid vector whose lengths fit a C `int` and produces exactly the
   * reference decoding.
   */
  lemma GoMatchesAbi(p: Platform, m: Memory, av: Abi.ArgVector)
    requires Abi.Valid(p, m, av) && LengthsFitCInt(p, m, av)
    requires CIntReadsLowBytes(p) && p.ptrWidth == p.sizeWidth
    ensures GoValid(p, m, av)
    ensures GoArguments(p, m, av) == Abi.Decode(p, m, av)
  {
    CountFitsGoInt(p, m, av);
    forall i: nat | i < av.count
      ensures GoEntryValid(p, m, av, i)
    {
      GoEntryMatches(p, m, av, i);
    }
    assert GoValid(p, m, av);
    forall i: nat | i < av.count
      ensures GoArguments(p, m, av)[i] == Abi.Decode(p, m, av)[i]
    {
      GoEntryMatches(p, m, av, i);
    }
  }

  /** Entry `i` of a vector with lengths below 2^31 reads, in Go, as the reference entry. */
  lemma GoEntryMatches(p: Platform, m: Memory, av: Abi.ArgVector, i: nat)
    requires Abi.Valid(p, m, av) && LengthsFitCInt(p, m, av) && i < av.count
    requires CIntReadsLowBytes(p) && p.ptrWidth == p.sizeWidth
    ensures Abi.EntryValid(p, m, av, i) && GoEntryValid(p, m, av, i)
    ensures GoPointer(p, m, av, i) == Abi.ArgPointer(p, m, av, i)
    ensures GoLength(p, m, av, i) == Abi.ArgLength(p, m, av, i)
  {
    GoLengthRead(p, m, av, i);
    assert Abi.ArgLength(p, m, av, i) < 0x8000_0000;
    if p.endian == Big {
      assert Pow256(p.sizeWidth - CIntWidth) == 1;
    }
  }

  /**
   * On a big-endian target with 8-byte `size_t`, Go reads the high half of
   * every length: any length below 2^32 reads as 0, so the argument comes out
   * empty whatever the host passed.
   */
  lemma GoBigEndianReadsHighHalf(p: Platform, m: Memory, av: Abi.ArgVector, i: nat)
    requires Abi.Valid(p, m, av) && i < av.count
    requires p.endian == Big && p.sizeWidth == 8
    requires Abi.ArgLength(p, m, av, i) < 0x1_0000_0000
    ensures Readable(m, GoLengthSlot(p, av, i), CIntWidth) && GoLength(p, m, av, i) == 0
  {
    GoLengthRead(p, m, av, i);
    Pow256Four();
  }

  /**
   * On a little-endian target, a length whose low 32 bits are at least 2^31
   * reads as a negative C `int`, which `GoStringN` cannot take.
   */
  lemma GoRejectsLongLength(p: Platform, m: Memory, av: Abi.ArgVector, i: nat)
    requires Abi.Valid(p, m, av) && i < av.count
    requires p.endian == Little
    requires Abi.ArgLength(p, m, av, i) % 0x1_0000_0000 >= 0x8000_0000
    ensures Readable(m, GoLengthSlot(p, av, i), CIntWidth) && GoLength(p, m, av, i) < 0
    ensures !GoEntryValid(p, m, av, i)
    ensures !GoValid(p, m, av)
  {
    GoLengthRead(p, m, av, i);
  }
}
