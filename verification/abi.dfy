/**
 * The argument vector a host hands to a plugin entry point, and the decoding
 * every plugin is meant to perform: `count` arguments, the i-th being the
 * `lengths[i]` bytes at `pointers[i]`, where `pointers` is an array of data
 * pointers and `lengths` an array of C `size_t` values.
 */
module Abi {

  import opened ForeignMemory

  /** The three raw parameters of an entry point: a count and two array base addresses. */
  datatype ArgVector = ArgVector(count: nat, pointers: nat, lengths: nat)

  /** Address of element `i` of the pointer array (element stride: one pointer). */
  function PointerSlot(p: Platform, av: ArgVector, i: nat): nat {
    av.pointers + Offset(i, p.ptrWidth)
  }

  /** Address of element `i` of the length array (element stride: one `size_t`). */
  function LengthSlot(p: Platform, av: ArgVector, i: nat): nat {
    av.lengths + Offset(i, p.sizeWidth)
  }

  predicate SlotsReadable(p: Platform, m: Memory, av: ArgVector, i: nat) {
    && Readable(m, PointerSlot(p, av, i), p.ptrWidth)
    && Readable(m, LengthSlot(p, av, i), p.sizeWidth)
  }

  /** `pointers[i]` */
  function ArgPointer(p: Platform, m: Memory, av: ArgVector, i: nat): nat
    requires SlotsReadable(p, m, av, i)
  {
    ReadWord(m, PointerSlot(p, av, i), p.ptrWidth, p.endian)
  }

  /** `lengths[i]`, a full `size_t` */
  function ArgLength(p: Platform, m: Memory, av: ArgVector, i: nat): nat
    requires SlotsReadable(p, m, av, i)
  {
    ReadWord(m, LengthSlot(p, av, i), p.sizeWidth, p.endian)
  }

  /** Both slots of entry `i` are readable and `pointers[i]` addresses `lengths[i]` readable bytes. */
  predicate EntryValid(p: Platform, m: Memory, av: ArgVector, i: nat) {
    && SlotsReadable(p, m, av, i)
    && Readable(m, ArgPointer(p, m, av, i), ArgLength(p, m, av, i))
  }

  /**
   * What the host guarantees at call time. Anything else is undefined
   * behaviour at the boundary and is not represented.
   */
  predicate Valid(p: Platform, m: Memory, av: ArgVector) {
    && p.Valid()
    && InAddressSpace(p, m)
    && av.count < Pow256(p.sizeWidth)
    && forall i: nat {:trigger SlotsReadable(p, m, av, i)} {:trigger EntryValid(p, m, av, i)} ::
         i < av.count ==> EntryValid(p, m, av, i)
  }

  /** The i-th argument: `lengths[i]` bytes starting at `pointers[i]`. */
  function Argument(p: Platform, m: Memory, av: ArgVector, i: nat): seq<byte>
    requires EntryValid(p, m, av, i)
  {
    ReadBytes(m, ArgPointer(p, m, av, i), ArgLength(p, m, av, i))
  }

  /** The reference decoding: one byte string per index, in index order. */
  function Decode(p: Platform, m: Memory, av: ArgVector): seq<seq<byte>>
    requires Valid(p, m, av)
  {
    seq(av.count, i requires 0 <= i < av.count => Argument(p, m, av, i))
  }

  /**
   * Decoding yields exactly `count` arguments; argument `i` has `lengths[i]`
   * bytes, so an entry of length zero is kept as an empty string at its index.
   */
  lemma DecodeShape(p: Platform, m: Memory, av: ArgVector, i: nat)
    requires Valid(p, m, av) && i < av.count
    ensures EntryValid(p, m, av, i)
    ensures |Decode(p, m, av)| == av.count
    ensures |Decode(p, m, av)[i]| == ArgLength(p, m, av, i)
    ensures ArgLength(p, m, av, i) == 0 ==> Decode(p, m, av)[i] == []
  {
  }

  // ---------------------------------------------------------------------
  // Laying out a list of byte strings as the host does

  function SumLengths(args: seq<seq<byte>>): nat {
    if |args| == 0 then 0 else SumLengths(args[..|args| - 1]) + |args[|args| - 1]|
  }

  lemma SumLengthsStep(args: seq<seq<byte>>, i: nat)
    requires i < |args|
    ensures SumLengths(args[..i + 1]) == SumLengths(args[..i]) + |args[i]|
  {
    assert args[..i + 1][..i] == args[..i];
  }

  lemma {:induction false} SumLengthsMonotone(args: seq<seq<byte>>, i: nat, j: nat)
    requires i <= j <= |args|
    ensures SumLengths(args[..i]) <= SumLengths(args[..j])
    decreases j
  {
    if i < j {
      SumLengthsStep(args, j - 1);
      SumLengthsMonotone(args, i, j - 1);
    }
  }

  /** Bytes occupied by the pointer array, the length array and the string data. */
  function Footprint(p: Platform, args: seq<seq<byte>>): nat {
    Offset(|args|, p.ptrWidth) + Offset(|args|, p.sizeWidth) + SumLengths(args)
  }

  /** The layout fits below the top of the address space and starts above null. */
  predicate Encodable(p: Platform, args: seq<seq<byte>>, base: nat) {
    && p.Valid()
    && 0 < base
    && base + Footprint(p, args) < AddressSpace(p)
    && |args| < Pow256(p.sizeWidth)
    && forall i :: 0 <= i < |args| ==> |args[i]| < Pow256(p.sizeWidth)
  }

  /** Pointer array at `base`, length array right after it, then the string data. */
  function EncodedVector(p: Platform, args: seq<seq<byte>>, base: nat): ArgVector {
    ArgVector(|args|, base, base + Offset(|args|, p.ptrWidth))
  }

  /** Where the bytes of `args[i]` start. */
  function DataAddress(p: Platform, args: seq<seq<byte>>, base: nat, i: nat): (a: nat)
    requires i <= |args|
    ensures base + Offset(|args|, p.ptrWidth) + Offset(|args|, p.sizeWidth) <= a <= base + Footprint(p, args)
  {
    SumLengthsMonotone(args, i, |args|);
    assert args[..|args|] == args;
    base + Offset(|args|, p.ptrWidth) + Offset(|args|, p.sizeWidth) + SumLengths(args[..i])
  }

  /** Write pointer `i`, length `i` and the bytes of `args[i]`. */
  function StoreEntry(p: Platform, args: seq<seq<byte>>, base: nat, m: Memory, i: nat): Memory
    requires Encodable(p, args, base) && i < |args|
  {
    var av := EncodedVector(p, args, base);
    var m1 := Store(m, PointerSlot(p, av, i), WordBytes(DataAddress(p, args, base, i), p.ptrWidth, p.endian));
    var m2 := Store(m1, LengthSlot(p, av, i), WordBytes(|args[i]|, p.sizeWidth, p.endian));
    Store(m2, DataAddress(p, args, base, i), args[i])
  }

  /** Memory after writing entries `0 .. j - 1`. */
  function StoreEntries(p: Platform, args: seq<seq<byte>>, base: nat, j: nat): Memory
    requires Encodable(p, args, base) && j <= |args|
  {
    if j == 0 then map[] else StoreEntry(p, args, base, StoreEntries(p, args, base, j - 1), j - 1)
  }

  /** Host memory holding `args` as an argument vector at `base`. */
  function Encode(p: Platform, args: seq<seq<byte>>, base: nat): Memory
    requires Encodable(p, args, base)
  {
    StoreEntries(p, args, base, |args|)
  }

  /** Entry `i` of the layout holds its pointer, its length and its bytes. */
  predicate EntryHolds(p: Platform, args: seq<seq<byte>>, base: nat, m: Memory, i: nat)
    requires Encodable(p, args, base) && i < |args|
  {
    var av := EncodedVector(p, args, base);
    && Holds(m, PointerSlot(p, av, i), WordBytes(DataAddress(p, args, base, i), p.ptrWidth, p.endian))
    && Holds(m, LengthSlot(p, av, i), WordBytes(|args[i]|, p.sizeWidth, p.endian))
    && Holds(m, DataAddress(p, args, base, i), args[i])
  }

  /** Each region of entry `i` lies inside its own part of the layout. */
  lemma EntryRegions(p: Platform, args: seq<seq<byte>>, base: nat, i: nat)
    requires Encodable(p, args, base) && i < |args|
    ensures PointerSlot(p, EncodedVector(p, args, base), i) + p.ptrWidth <= base + Offset(|args|, p.ptrWidth)
    ensures LengthSlot(p, EncodedVector(p, args, base), i) + p.sizeWidth
         <= base + Offset(|args|, p.ptrWidth) + Offset(|args|, p.sizeWidth)
    ensures DataAddress(p, args, base, i) + |args[i]| == DataAddress(p, args, base, i + 1)
  {
    OffsetOrdered(i, |args|, p.ptrWidth);
    OffsetOrdered(i, |args|, p.sizeWidth);
    SumLengthsStep(args, i);
  }

  /** Regions of the same kind follow each other in index order. */
  lemma EntriesOrdered(p: Platform, args: seq<seq<byte>>, base: nat, i: nat, j: nat)
    requires Encodable(p, args, base) && i < j < |args|
    ensures PointerSlot(p, EncodedVector(p, args, base), i) + p.ptrWidth
         <= PointerSlot(p, EncodedVector(p, args, base), j)
    ensures LengthSlot(p, EncodedVector(p, args, base), i) + p.sizeWidth
         <= LengthSlot(p, EncodedVector(p, args, base), j)
    ensures DataAddress(p, args, base, i) + |args[i]| <= DataAddress(p, args, base, j)
  {
    OffsetOrdered(i, j, p.ptrWidth);
    OffsetOrdered(i, j, p.sizeWidth);
    SumLengthsStep(args, i);
    SumLengthsMonotone(args, i + 1, j);
  }

  /** The region [c, c + n) overlaps none of the three writes of entry `j`. */
  predicate ApartFromEntry(p: Platform, args: seq<seq<byte>>, base: nat, j: nat, c: nat, n: nat)
    requires j < |args|
  {
    && Apart(c, n, PointerSlot(p, EncodedVector(p, args, base), j), p.ptrWidth)
    && Apart(c, n, LengthSlot(p, EncodedVector(p, args, base), j), p.sizeWidth)
    && Apart(c, n, DataAddress(p, args, base, j), |args[j]|)
  }

  /** The three regions of entry `i` are apart from those of any later entry `j`. */
  lemma EntriesApart(p: Platform, args: seq<seq<byte>>, base: nat, i: nat, j: nat)
    requires Encodable(p, args, base) && i < j < |args|
    ensures ApartFromEntry(p, args, base, j, PointerSlot(p, EncodedVector(p, args, base), i), p.ptrWidth)
    ensures ApartFromEntry(p, args, base, j, LengthSlot(p, EncodedVector(p, args, base), i), p.sizeWidth)
    ensures ApartFromEntry(p, args, base, j, DataAddress(p, args, base, i), |args[i]|)
  {
    var av := EncodedVector(p, args, base);
    EntriesOrdered(p, args, base, i, j);
    EntryRegions(p, args, base, i);
    EntryRegions(p, args, base, j);
    var pi, li, di := PointerSlot(p, av, i), LengthSlot(p, av, i), DataAddress(p, args, base, i);
    var pj, lj, dj := PointerSlot(p, av, j), LengthSlot(p, av, j), DataAddress(p, args, base, j);
    var pEnd := base + Offset(|args|, p.ptrWidth);
    var lEnd := pEnd + Offset(|args|, p.sizeWidth);
    assert pi + p.ptrWidth <= pj && pj + p.ptrWidth <= pEnd <= lj && lj + p.sizeWidth <= lEnd <= dj;
    assert li + p.sizeWidth <= lj && pi + p.ptrWidth <= pEnd <= li && li + p.sizeWidth <= lEnd <= di;
    assert di + |args[i]| <= dj;
  }

  /** Writing entry `j` keeps any region that none of its three writes overlaps. */
  lemma StoreEntryKeeps(p: Platform, args: seq<seq<byte>>, base: nat, m: Memory, j: nat, c: nat, cs: seq<byte>, n: nat)
    requires Encodable(p, args, base) && j < |args|
    requires Holds(m, c, cs) && |cs| == n
    requires ApartFromEntry(p, args, base, j, c, n)
    ensures Holds(StoreEntry(p, args, base, m, j), c, cs)
  {
    var av := EncodedVector(p, args, base);
    var w1 := WordBytes(DataAddress(p, args, base, j), p.ptrWidth, p.endian);
    var w2 := WordBytes(|args[j]|, p.sizeWidth, p.endian);
    var m1 := Store(m, PointerSlot(p, av, j), w1);
    var m2 := Store(m1, LengthSlot(p, av, j), w2);
    StoreKeeps(m, PointerSlot(p, av, j), w1, c, cs);
    StoreKeeps(m1, LengthSlot(p, av, j), w2, c, cs);
    StoreKeeps(m2, DataAddress(p, args, base, j), args[j], c, cs);
  }

  /** Writing entry `j` makes entry `j` hold. */
  lemma StoreEntryHolds(p: Platform, args: seq<seq<byte>>, base: nat, m: Memory, j: nat)
    requires Encodable(p, args, base) && j < |args|
    ensures EntryHolds(p, args, base, StoreEntry(p, args, base, m, j), j)
  {
    var av := EncodedVector(p, args, base);
    var w1 := WordBytes(DataAddress(p, args, base, j), p.ptrWidth, p.endian);
    var w2 := WordBytes(|args[j]|, p.sizeWidth, p.endian);
    var m1 := Store(m, PointerSlot(p, av, j), w1);
    var m2 := Store(m1, LengthSlot(p, av, j), w2);
    EntryRegions(p, args, base, j);
    StoreHolds(m, PointerSlot(p, av, j), w1);
    StoreKeeps(m1, LengthSlot(p, av, j), w2, PointerSlot(p, av, j), w1);
    StoreKeeps(m2, DataAddress(p, args, base, j), args[j], PointerSlot(p, av, j), w1);
    StoreHolds(m1, LengthSlot(p, av, j), w2);
    StoreKeeps(m2, DataAddress(p, args, base, j), args[j], LengthSlot(p, av, j), w2);
    StoreHolds(m2, DataAddress(p, args, base, j), args[j]);
  }

  /** Writing entry `j` defines only addresses inside the layout. */
  lemma StoreEntryFootprint(p: Platform, args: seq<seq<byte>>, base: nat, m: Memory, j: nat)
    requires Encodable(p, args, base) && j < |args|
    requires forall k :: k in m ==> base <= k < base + Footprint(p, args)
    ensures forall k :: k in StoreEntry(p, args, base, m, j) ==> base <= k < base + Footprint(p, args)
  {
    var av := EncodedVector(p, args, base);
    var top := base + Footprint(p, args);
    var w1 := WordBytes(DataAddress(p, args, base, j), p.ptrWidth, p.endian);
    var w2 := WordBytes(|args[j]|, p.sizeWidth, p.endian);
    var m1 := Store(m, PointerSlot(p, av, j), w1);
    var m2 := Store(m1, LengthSlot(p, av, j), w2);
    EntryRegions(p, args, base, j);
    StoreWithin(m, PointerSlot(p, av, j), w1, base, top);
    StoreWithin(m1, LengthSlot(p, av, j), w2, base, top);
    StoreWithin(m2, DataAddress(p, args, base, j), args[j], base, top);
  }

  /** Writing entry `j` keeps entry `i` for every `i < j`. */
  lemma StoreEntryKeepsEntry(p: Platform, args: seq<seq<byte>>, base: nat, m: Memory, i: nat, j: nat)
    requires Encodable(p, args, base) && i < j < |args|
    requires EntryHolds(p, args, base, m, i)
    ensures EntryHolds(p, args, base, StoreEntry(p, args, base, m, j), i)
  {
    var av := EncodedVector(p, args, base);
    EntriesApart(p, args, base, i, j);
    StoreEntryKeeps(p, args, base, m, j, PointerSlot(p, av, i),
      WordBytes(DataAddress(p, args, base, i), p.ptrWidth, p.endian), p.ptrWidth);
    StoreEntryKeeps(p, args, base, m, j, LengthSlot(p, av, i),
      WordBytes(|args[i]|, p.sizeWidth, p.endian), p.sizeWidth);
    StoreEntryKeeps(p, args, base, m, j, DataAddress(p, args, base, i), args[i], |args[i]|);
  }

  /** After writing entries `0 .. j - 1`, each of them holds and nothing else is defined. */
  lemma {:induction false} StoreEntriesHold(p: Platform, args: seq<seq<byte>>, base: nat, j: nat)
    requires Encodable(p, args, base) && j <= |args|
    ensures forall k :: k in StoreEntries(p, args, base, j) ==> base <= k < base + Footprint(p, args)
    ensures forall i: nat :: i < j ==> EntryHolds(p, args, base, StoreEntries(p, args, base, j), i)
  {
    if j > 0 {
      var m := StoreEntries(p, args, base, j - 1);
      StoreEntriesHold(p, args, base, j - 1);
      StoreEntryFootprint(p, args, base, m, j - 1);
      forall i: nat | i < j
        ensures EntryHolds(p, args, base, StoreEntries(p, args, base, j), i)
      {
        if i < j - 1 {
          StoreEntryKeepsEntry(p, args, base, m, i, j - 1);
        } else {
          StoreEntryHolds(p, args, base, m, j - 1);
        }
      }
    }
  }

  /**
   * Round trip: decoding the argument vector the host lays out for `args`
   * gives back exactly `args`, in order, whatever bytes they contain.
   */
  lemma DecodeEncode(p: Platform, args: seq<seq<byte>>, base: nat)
    requires Encodable(p, args, base)
    ensures Valid(p, Encode(p, args, base), EncodedVector(p, args, base))
    ensures Decode(p, Encode(p, args, base), EncodedVector(p, args, base)) == args
    ensures forall i: nat :: i < |args| ==>
      ArgPointer(p, Encode(p, args, base), EncodedVector(p, args, base), i) == DataAddress(p, args, base, i)
  {
    var m := Encode(p, args, base);
    var av := EncodedVector(p, args, base);
    StoreEntriesHold(p, args, base, |args|);
    forall i: nat | i < av.count
      ensures EntryValid(p, m, av, i) && Argument(p, m, av, i) == args[i]
      ensures ArgPointer(p, m, av, i) == DataAddress(p, args, base, i)
    {
      assert EntryHolds(p, args, base, m, i);
      WordRoundTrip(DataAddress(p, args, base, i), p.ptrWidth, p.endian);
      WordRoundTrip(|args[i]|, p.sizeWidth, p.endian);
    }
  }
}
