/**
 * How the three decoders relate to each other and to the reference
 * decoding of the argument vector.
 */
module Agreement {

  import opened ForeignMemory
  import Abi
  import GoHelper
  import RustSample

  /** All pointers are non-null. */
  predicate NonNullPointers(p: Platform, m: Memory, av: Abi.ArgVector)
    requires Abi.Valid(p, m, av)
  {
    forall i: nat :: i < av.count ==> Abi.EntryValid(p, m, av, i) && Abi.ArgPointer(p, m, av, i) != 0
  }

  /** A length below 2^31 is also a valid `isize` slice length. */
  lemma CIntFitsIsize(p: Platform)
    requires p.Valid()
    ensures 0x8000_0000 - 1 <= MaxSigned(p)
  {
    Pow256Monotone(3, p.ptrWidth - 1);
  }

  /**
   * On a target where a pointer is as wide as `size_t` and that is
   * little-endian or has a 4-byte `size_t`, the Go
   * decoders (shared byte offset, C `int` lengths) and the Rust decoder
   * (element strides, `usize` lengths) both accept every valid vector with
   * non-null pointers and lengths below 2^31, and return the same arguments.
   */
  lemma GoRustAgree(p: Platform, m: Memory, av: Abi.ArgVector)
    requires Abi.Valid(p, m, av)
    requires GoHelper.CIntReadsLowBytes(p) && p.ptrWidth == p.sizeWidth
    requires GoHelper.LengthsFitCInt(p, m, av) && NonNullPointers(p, m, av)
    ensures GoHelper.GoValid(p, m, av) && RustSample.RustValid(p, m, av)
    ensures GoHelper.GoArguments(p, m, av) == RustSample.RustArguments(p, m, av)
  {
    GoHelper.GoMatchesAbi(p, m, av);
    CIntFitsIsize(p);
    assert RustSample.Borrowable(p, m, av) by {
      forall i: nat | i < av.count
        ensures Abi.EntryValid(p, m, av, i)
        ensures Abi.ArgPointer(p, m, av, i) != 0 && Abi.ArgLength(p, m, av, i) <= MaxSigned(p)
      {
        assert Abi.EntryValid(p, m, av, i);
      }
    }
    RustSample.RustMatchesAbi(p, m, av);
  }

  /**
   * Round trip through every decoder: the host lays out `args` (each shorter
   * than 2^31 bytes) and both the Go and the Rust decoder give back exactly
   * `args`, in order.
   */
  lemma DecodersRoundTrip(p: Platform, args: seq<seq<byte>>, base: nat)
    requires Abi.Encodable(p, args, base)
    requires GoHelper.CIntReadsLowBytes(p) && p.ptrWidth == p.sizeWidth
    requires forall i :: 0 <= i < |args| ==> |args[i]| < 0x8000_0000
    ensures GoHelper.GoValid(p, Abi.Encode(p, args, base), Abi.EncodedVector(p, args, base))
    ensures RustSample.RustValid(p, Abi.Encode(p, args, base), Abi.EncodedVector(p, args, base))
    ensures GoHelper.GoArguments(p, Abi.Encode(p, args, base), Abi.EncodedVector(p, args, base)) == args
    ensures RustSample.RustArguments(p, Abi.Encode(p, args, base), Abi.EncodedVector(p, args, base)) == args
  {
    var m := Abi.Encode(p, args, base);
    var av := Abi.EncodedVector(p, args, base);
    Abi.DecodeEncode(p, args, base);
    forall i: nat | i < av.count
      ensures Abi.EntryValid(p, m, av, i)
      ensures Abi.ArgLength(p, m, av, i) < 0x8000_0000 && Abi.ArgPointer(p, m, av, i) != 0
    {
      Abi.DecodeShape(p, m, av, i);
    }
    GoRustAgree(p, m, av);
    GoHelper.GoMatchesAbi(p, m, av);
  }

  /**
   * With no arguments the host may pass null arrays: every decoder accepts
   * them and returns no arguments.
   */
  lemma EmptyVector(p: Platform, m: Memory)
    requires p.Valid() && InAddressSpace(p, m)
    ensures Abi.Valid(p, m, Abi.ArgVector(0, 0, 0)) && Abi.Decode(p, m, Abi.ArgVector(0, 0, 0)) == []
    ensures GoHelper.GoValid(p, m, Abi.ArgVector(0, 0, 0))
    ensures GoHelper.GoArguments(p, m, Abi.ArgVector(0, 0, 0)) == []
    ensures RustSample.RustValid(p, m, Abi.ArgVector(0, 0, 0))
    ensures RustSample.RustArguments(p, m, Abi.ArgVector(0, 0, 0)) == []
  {
    GoHelper.GoIntRange(p);
  }

  /** Three arguments "a", "bb", "ccc" on a 64-bit little-endian host come back as laid out. */
  lemma ThreeArguments()
    ensures var p := Platform(8, 8, Little);
            var args: seq<seq<byte>> := [[97], [98, 98], [99, 99, 99]];
            && Abi.Encodable(p, args, 0x1000)
            && GoHelper.GoValid(p, Abi.Encode(p, args, 0x1000), Abi.EncodedVector(p, args, 0x1000))
            && GoHelper.GoArguments(p, Abi.Encode(p, args, 0x1000), Abi.EncodedVector(p, args, 0x1000)) == args
            && RustSample.RustValid(p, Abi.Encode(p, args, 0x1000), Abi.EncodedVector(p, args, 0x1000))
            && RustSample.RustArguments(p, Abi.Encode(p, args, 0x1000), Abi.EncodedVector(p, args, 0x1000)) == args
  {
    var p := Platform(8, 8, Little);
    var args: seq<seq<byte>> := [[97], [98, 98], [99, 99, 99]];
    assert args[..2][..1] == args[..1];
    assert args[..1][..0] == [];
    assert Abi.SumLengths(args[..1]) == 1;
    assert Abi.SumLengths(args[..2]) == 3;
    assert Abi.SumLengths(args) == 6;
    assert Abi.Footprint(p, args) == 54;
    DecodersRoundTrip(p, args, 0x1000);
  }
}
