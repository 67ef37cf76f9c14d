/**
 * Foreign (host-owned) memory as the plugin sees it through raw pointers:
 * a partial map from addresses to bytes, read either as byte strings or as
 * machine words of a given width and byte order. The address space of a
 * platform is 256^ptrWidth; every address arithmetic result is reduced into it.
 */
module ForeignMemory {

  newtype byte = x: int | 0 <= x < 256

  /** Readable memory: an address maps to its byte exactly when it can be read. */
  type Memory = map<int, byte>

  datatype Endian = Little | Big

  /**
   * The target the plugin is compiled for: the width in bytes of a data
   * pointer (also Go's `int`/`uintptr` and Rust's `usize`), the width of C's
   * `size_t`, and the byte order. C's `int` is 4 bytes on every target.
   */
  datatype Platform = Platform(ptrWidth: nat, sizeWidth: nat, endian: Endian) {

    /** A pointer and a `size_t` are each wide enough to hold a C `int`. */
    predicate Valid() {
      4 <= ptrWidth && 4 <= sizeWidth
    }
  }

  const CIntWidth: nat := 4

  function Pow256(n: nat): (r: nat)
    ensures 0 < r
  {
    if n == 0 then 1 else 256 * Pow256(n - 1)
  }

  lemma Pow256Split(n: nat)
    requires 0 < n
    ensures Pow256(n) == 256 * Pow256(n - 1)
  {
  }

  lemma {:induction false} Pow256Monotone(a: nat, b: nat)
    requires a <= b
    ensures Pow256(a) <= Pow256(b)
    decreases b
  {
    if a < b {
      Pow256Monotone(a, b - 1);
    }
  }

  lemma Pow256Four()
    ensures Pow256(4) == 0x1_0000_0000
  {
  }

  /**
   * `i * w`: the byte offset of element `i` in an array of `w`-byte elements.
   * Defined by repeated addition so that layout reasoning stays linear.
   */
  function Offset(i: nat, w: nat): nat {
    if i == 0 then 0 else Offset(i - 1, w) + w
  }

  lemma {:induction false} OffsetIsProduct(i: nat, w: nat)
    ensures Offset(i, w) == i * w
  {
    if i > 0 {
      OffsetIsProduct(i - 1, w);
    }
  }

  /** Element `i` ends no later than element `j` starts, for `i < j`. */
  lemma {:induction false} OffsetOrdered(i: nat, j: nat, w: nat)
    requires i < j
    ensures Offset(i, w) + w <= Offset(j, w)
    decreases j
  {
    if i + 1 < j {
      OffsetOrdered(i, j - 1, w);
    }
  }

  /** Number of distinct addresses: 2^(8 * ptrWidth). */
  function AddressSpace(p: Platform): nat {
    Pow256(p.ptrWidth)
  }

  /** Largest pointer-wide signed integer (Go's `int`, Rust's `isize`): 2^(8 * ptrWidth - 1) - 1. */
  function MaxSigned(p: Platform): nat
    requires p.Valid()
  {
    128 * Pow256(p.ptrWidth - 1) - 1
  }

  /** Every readable address is a representable pointer value. */
  predicate InAddressSpace(p: Platform, m: Memory) {
    forall a :: a in m ==> 0 <= a < AddressSpace(p)
  }

  /** The `n` bytes starting at `a` are all readable (no wrap-around). */
  predicate Readable(m: Memory, a: nat, n: nat) {
    forall k :: a <= k < a + n ==> k in m
  }

  /** The `n` bytes starting at address `a`, in address order. */
  function ReadBytes(m: Memory, a: nat, n: nat): (bs: seq<byte>)
    requires Readable(m, a, n)
    ensures |bs| == n
  {
    seq(n, k requires 0 <= k < n => m[a + k])
  }

  // ---------------------------------------------------------------------
  // Machine words

  function LittleEndianValue(bs: seq<byte>): nat {
    if |bs| == 0 then 0 else bs[0] as nat + 256 * LittleEndianValue(bs[1..])
  }

  function BigEndianValue(bs: seq<byte>): nat {
    if |bs| == 0 then 0 else BigEndianValue(bs[..|bs| - 1]) * 256 + bs[|bs| - 1] as nat
  }

  /** The unsigned value of a word stored in `bs` with byte order `e`. */
  function Word(bs: seq<byte>, e: Endian): nat {
    match e
    case Little => LittleEndianValue(bs)
    case Big => BigEndianValue(bs)
  }

  function LittleEndianBytes(v: nat, w: nat): (bs: seq<byte>)
    requires v < Pow256(w)
    ensures |bs| == w
  {
    if w == 0 then [] else [(v % 256) as byte] + LittleEndianBytes(v / 256, w - 1)
  }

  function BigEndianBytes(v: nat, w: nat): (bs: seq<byte>)
    requires v < Pow256(w)
    ensures |bs| == w
  {
    if w == 0 then [] else BigEndianBytes(v / 256, w - 1) + [(v % 256) as byte]
  }

  /** The `w` bytes that store `v` as a word with byte order `e`. */
  function WordBytes(v: nat, w: nat, e: Endian): (bs: seq<byte>)
    requires v < Pow256(w)
    ensures |bs| == w
  {
    match e
    case Little => LittleEndianBytes(v, w)
    case Big => BigEndianBytes(v, w)
  }

  /** The unsigned word of width `w` at address `a`. */
  function ReadWord(m: Memory, a: nat, w: nat, e: Endian): nat
    requires Readable(m, a, w)
  {
    Word(ReadBytes(m, a, w), e)
  }

  lemma {:induction false} LittleEndianRoundTrip(v: nat, w: nat)
    requires v < Pow256(w)
    ensures LittleEndianValue(LittleEndianBytes(v, w)) == v
  {
    if w > 0 {
      var bs := LittleEndianBytes(v, w);
      assert bs[1..] == LittleEndianBytes(v / 256, w - 1);
      LittleEndianRoundTrip(v / 256, w - 1);
    }
  }

  lemma {:induction false} BigEndianRoundTrip(v: nat, w: nat)
    requires v < Pow256(w)
    ensures BigEndianValue(BigEndianBytes(v, w)) == v
  {
    if w > 0 {
      var bs := BigEndianBytes(v, w);
      assert bs[..|bs| - 1] == BigEndianBytes(v / 256, w - 1);
      BigEndianRoundTrip(v / 256, w - 1);
    }
  }

  /** Storing a word and reading it back with the same order gives the value. */
  lemma WordRoundTrip(v: nat, w: nat, e: Endian)
    requires v < Pow256(w)
    ensures Word(WordBytes(v, w, e), e) == v
  {
    match e
    case Little => LittleEndianRoundTrip(v, w);
    case Big => BigEndianRoundTrip(v, w);
  }

  lemma {:induction false} WordBound(bs: seq<byte>, e: Endian)
    ensures Word(bs, e) < Pow256(|bs|)
  {
    if |bs| > 0 {
      match e
      case Little =>
        WordBound(bs[1..], e);
      case Big =>
        WordBound(bs[..|bs| - 1], e);
    }
  }

  /** A little-endian word is its low `k` bytes plus 256^k times the rest. */
  lemma {:induction false} LittleEndianSplit(bs: seq<byte>, k: nat)
    requires k <= |bs|
    ensures LittleEndianValue(bs) == LittleEndianValue(bs[..k]) + Pow256(k) * LittleEndianValue(bs[k..])
  {
    if k > 0 {
      LittleEndianSplit(bs[1..], k - 1);
      assert bs[1..][..k - 1] == bs[..k][1..];
      assert bs[1..][k - 1..] == bs[k..];
      var lo := LittleEndianValue(bs[..k][1..]);
      var hi := LittleEndianValue(bs[k..]);
      assert LittleEndianValue(bs) == bs[0] as nat + 256 * (lo + Pow256(k - 1) * hi);
      Distribute(256, lo, Pow256(k - 1), hi);
      assert LittleEndianValue(bs[..k]) == bs[0] as nat + 256 * lo;
    }
  }

  /** A big-endian word is its leading `k` bytes times 256^(|bs|-k) plus the rest. */
  lemma {:induction false} BigEndianSplit(bs: seq<byte>, k: nat)
    requires k <= |bs|
    ensures BigEndianValue(bs) == BigEndianValue(bs[..k]) * Pow256(|bs| - k) + BigEndianValue(bs[k..])
    decreases |bs|
  {
    if k < |bs| {
      var init := bs[..|bs| - 1];
      BigEndianSplit(init, k);
      assert init[..k] == bs[..k];
      assert bs[k..][..|bs| - k - 1] == init[k..];
      var head := BigEndianValue(bs[..k]);
      var mid := BigEndianValue(init[k..]);
      assert BigEndianValue(bs) == (head * Pow256(|bs| - 1 - k) + mid) * 256 + bs[|bs| - 1] as nat;
      Distribute(256, mid, head, Pow256(|bs| - 1 - k));
      assert Pow256(|bs| - k) == 256 * Pow256(|bs| - 1 - k);
      assert BigEndianValue(bs[k..]) == mid * 256 + bs[|bs| - 1] as nat;
    } else {
      assert bs[..k] == bs;
    }
  }

  lemma Distribute(x: int, a: int, b: int, c: int)
    ensures x * (a + b * c) == x * a + (x * b) * c
    ensures (a + b * c) * x == a * x + b * (c * x)
  {
  }

  lemma MulAtLeast(n: int, d: int)
    requires 1 <= n && 0 < d
    ensures d <= n * d
  {
    assert n * d == (n - 1) * d + d;
  }

  lemma MulSub(a: int, b: int, d: int)
    ensures a * d - b * d == (a - b) * d
  {
  }

  lemma MulCancel(i: int, a: int, b: int)
    requires 0 < i && i * a == i * b
    ensures a == b
  {
    if a < b {
      MulSub(b, a, i);
      MulAtLeast(b - a, i);
    } else if b < a {
      MulSub(a, b, i);
      MulAtLeast(a - b, i);
    }
  }

  /** Element offsets grow with the element width. */
  lemma {:induction false} OffsetMonotoneWidth(n: nat, v: nat, w: nat)
    requires v <= w
    ensures Offset(n, v) <= Offset(n, w)
  {
    if n > 0 {
      OffsetMonotoneWidth(n - 1, v, w);
    }
  }

  lemma ModSmall(x: int, d: int)
    requires 0 <= x < d
    ensures x % d == x
  {
    DivModUnique(x, 0, x, d);
  }

  /** Reduction modulo `d` leaves exactly the values in [0, d) unchanged. */
  lemma ModIdentity(x: int, d: int)
    requires 0 < d
    ensures x % d == x <==> 0 <= x < d
  {
    if 0 <= x < d {
      ModSmall(x, d);
    }
  }

  /** Euclidean division is determined by any quotient/remainder pair. */
  lemma DivModUnique(x: int, q: int, r: int, d: int)
    requires 0 < d && 0 <= r < d && x == q * d + r
    ensures x / d == q && x % d == r
  {
    var q' := x / d;
    var r' := x % d;
    assert x == q' * d + r';
    MulSub(q, q', d);
    MulSub(q', q, d);
    if q > q' {
      MulAtLeast(q - q', d);
    } else if q < q' {
      MulAtLeast(q' - q, d);
    }
  }

  /** Reading only the first `k` bytes of a readable region reads a prefix. */
  lemma ReadPrefix(m: Memory, a: nat, w: nat, k: nat)
    requires Readable(m, a, w) && k <= w
    ensures Readable(m, a, k)
    ensures ReadBytes(m, a, k) == ReadBytes(m, a, w)[..k]
  {
  }

  /** Reading the first `k` bytes of a little-endian word yields its low `k` bytes. */
  lemma ReadNarrowLittle(m: Memory, a: nat, w: nat, k: nat)
    requires Readable(m, a, w) && k <= w
    ensures Readable(m, a, k)
    ensures ReadWord(m, a, k, Little) == ReadWord(m, a, w, Little) % Pow256(k)
  {
    ReadPrefix(m, a, w, k);
    var bs := ReadBytes(m, a, w);
    var lo, hi, d := LittleEndianValue(bs[..k]), LittleEndianValue(bs[k..]), Pow256(k);
    assert |bs[..k]| == k;
    WordBound(bs[..k], Little);
    assert lo < d;
    LittleEndianSplit(bs, k);
    assert LittleEndianValue(bs) == lo + d * hi;
    assert d * hi == hi * d;
    DivModUnique(LittleEndianValue(bs), hi, lo, d);
  }

  /** Reading the first `k` bytes of a big-endian word yields its high `k` bytes. */
  lemma ReadNarrowBig(m: Memory, a: nat, w: nat, k: nat)
    requires Readable(m, a, w) && k <= w
    ensures Readable(m, a, k)
    ensures ReadWord(m, a, k, Big) == ReadWord(m, a, w, Big) / Pow256(w - k)
  {
    ReadPrefix(m, a, w, k);
    var bs := ReadBytes(m, a, w);
    assert |bs[k..]| == w - k;
    WordBound(bs[k..], Big);
    BigEndianSplit(bs, k);
    DivModUnique(Word(bs, Big), Word(bs[..k], Big), Word(bs[k..], Big), Pow256(w - k));
  }

  // ---------------------------------------------------------------------
  // Writing memory (used to lay out an argument vector)

  /** `m` with the bytes `bs` placed at `a`, `a + 1`, ... */
  function Store(m: Memory, a: int, bs: seq<byte>): Memory
    decreases |bs|
  {
    if |bs| == 0 then m else Store(m[a := bs[0]], a + 1, bs[1..])
  }

  /** A store defines exactly the addresses it writes and leaves the rest alone. */
  lemma {:induction false} StoreContents(m: Memory, a: int, bs: seq<byte>)
    ensures forall k :: k in Store(m, a, bs) <==> k in m || a <= k < a + |bs|
    ensures forall k :: a <= k < a + |bs| ==> Store(m, a, bs)[k] == bs[k - a]
    ensures forall k :: k in m && !(a <= k < a + |bs|) ==> Store(m, a, bs)[k] == m[k]
    decreases |bs|
  {
    if |bs| > 0 {
      StoreContents(m[a := bs[0]], a + 1, bs[1..]);
    }
  }

  /** A store inside [lo, hi) keeps every defined address inside [lo, hi). */
  lemma StoreWithin(m: Memory, a: int, bs: seq<byte>, lo: int, hi: int)
    requires forall k :: k in m ==> lo <= k < hi
    requires lo <= a && a + |bs| <= hi
    ensures forall k :: k in Store(m, a, bs) ==> lo <= k < hi
  {
    StoreContents(m, a, bs);
  }

  /** Memory at `a` holds exactly the bytes `bs`. */
  predicate Holds(m: Memory, a: nat, bs: seq<byte>) {
    Readable(m, a, |bs|) && ReadBytes(m, a, |bs|) == bs
  }

  /** The regions [a, a+n) and [b, b+k) do not overlap. */
  predicate Apart(a: nat, n: nat, b: nat, k: nat) {
    a + n <= b || b + k <= a
  }

  lemma StoreHolds(m: Memory, a: nat, bs: seq<byte>)
    ensures Holds(Store(m, a, bs), a, bs)
  {
    var m' := Store(m, a, bs);
    StoreContents(m, a, bs);
    assert ReadBytes(m', a, |bs|) == bs;
  }

  /** A store leaves every region it does not overlap unchanged. */
  lemma StoreKeeps(m: Memory, a: nat, bs: seq<byte>, c: nat, cs: seq<byte>)
    requires Holds(m, c, cs) && Apart(c, |cs|, a, |bs|)
    ensures Holds(Store(m, a, bs), c, cs)
  {
    var m' := Store(m, a, bs);
    StoreContents(m, a, bs);
    forall k | 0 <= k < |cs|
      ensures ReadBytes(m', c, |cs|)[k] == ReadBytes(m, c, |cs|)[k]
    {
      assert c + k in m;
    }
    assert ReadBytes(m', c, |cs|) == ReadBytes(m, c, |cs|);
  }
}
