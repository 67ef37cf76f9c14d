# mist plugin calling convention — a Dafny model

mist loads plugins as shared libraries and calls an exported entry point
named `_MIST_PLUGIN_<index>_<version>_MAIN` with three raw parameters: an
argument count, the address of an array of data pointers, and the address
of an array of `size_t` lengths. The entry point returns one status byte
drawn from the `Error` table. This project models that calling convention:

- `ForeignMemory` (`foreign_memory.dfy`): host memory as a partial map from
  addresses to bytes; machine words of a given width and byte order; the
  address space of a target (`256^ptrWidth`); writing bytes (to lay out an
  argument vector as a host does).
- `Abi` (`abi.dfy`): the argument vector, the host's validity guarantee and
  the reference decoding `Decode`: argument `i` is the `lengths[i]` bytes at
  `pointers[i]`, with element strides of one pointer and one `size_t`.
  `Encode` lays out a list of byte strings as a host would; `DecodeEncode`
  proves that decoding it gives the list back.
- `ErrorCodes` (`error_codes.dfy`): the 25 status codes, their bytes, the
  partial inverse and the category layout.
- `GoHelper` (`go_helper.dfy`): `makeGoArguments` and the version-1.0 entry
  point of the Go helper, with Go's own arithmetic: a wrapping pointer-wide
  `int`, `uintptr`, `unsafe.Add`, and a 4-byte signed C `int` length.
- `GoSample` (`go_sample.dfy`): the version-0.0 Go sample with its inline
  copy of the decode loop.
- `RustSample` (`rust_sample.dfy`): the Rust sample with `wrapping_add`
  element strides, full `usize` lengths and borrowed byte slices.
- `Agreement` (`agreement.dfy`): on a target whose pointers are as wide as
  `size_t` and that is little-endian or has a 4-byte `size_t`
  (`GoHelper.CIntReadsLowBytes`), the Go and Rust decoders both accept every valid
  vector whose lengths are below 2^31 and whose pointers are non-null, and
  return the same arguments for it.
- `EntrySymbols` (`entry_symbols.dfy`): the exported-name grammar.

The Go and Rust decoders each have a functional description
(`GoHelper.GoArguments`, `RustSample.RustArguments`), an imperative loop
proved equal to it, and a lemma tying it to the reference decoding
`Abi.Decode`.

The decoders differ from the reference decoding `Abi.Decode`, and from each
other, as follows:

- The Go decoders do not use independent strides. They address both arrays
  with the byte offset `i * sizeof(size_t)`. `GoHelper.SharedOffsetIsElementStride`
  shows this reaches the right pointer slot exactly when a pointer is as wide
  as `size_t`.
- The Go decoders read each length as a 4-byte C `int` from the start of
  its `size_t` slot. On a little-endian target that is the low 32 bits
  read as a signed value (`GoHelper.GoLengthRead`). A length whose low 32
  bits are 2^31 or more reads as negative, and `C.GoStringN` cannot take it
  (`GoHelper.GoRejectsLongLength`). A longer length whose low 32 bits are
  below 2^31 is cut down to those bits, and Go returns a shorter string.
  On a big-endian target with an 8-byte `size_t` the read is the high half,
  so every length below 2^32 reads as 0 (`GoHelper.GoBigEndianReadsHighHalf`).
  With a 4-byte `size_t` the read covers the whole slot on either byte
  order. The agreement lemmas therefore assume a target that is
  little-endian or has a 4-byte `size_t`, and lengths below 2^31.
- The Rust decoder does not copy. It borrows `&str` slices over host memory
  and does not check that they are UTF-8. It reads each length as a `usize`
  with a `usize` stride. The model gives it the bytes in memory at call time.
  `slice::from_raw_parts` needs a non-null pointer even for an empty slice,
  and a length no larger than `isize::MAX`. Both are part of `RustSample.RustValid`.

The plugin body `mistMain` is a parameter of `GoHelper.PluginMain`: a pure
function from the decoded arguments to a status byte. Go's `Error` is a
`uint8`, so the entry point passes on any byte it returns.

## Model

| member | source | states |
|---|---|---|
| ErrorCodes.FromByte | examples/plugins/go/mist_helper.go:6-47 | the partial inverse of the code table: a byte decodes to a code whose byte it is, and decodes to nothing exactly when no code has that byte |
| ErrorCodes.FromToByte | examples/plugins/go/mist_helper.go:8-47 | every named constant decodes back to itself |
| ErrorCodes.ToByteInjective | examples/plugins/go/mist_helper.go:8-47 | the 25 constants are pairwise distinct byte values |
| ErrorCodes.ToByte | examples/plugins/go/mist_helper.go:8-47 | the constant table: only `Success` is 0, every code is below 128, and value / 16 is the category the comments group it under (generic 0 … exec 7) |
| ErrorCodes.ListedRanges | examples/plugins/go/mist_helper.go:8-47 | a byte is a listed code exactly when it is in 0–2, 16–22, 32–35, 48–49, 64–67, 80, 96–97 or 126–127 |
| Abi.DecodeShape | examples/plugins/go/mist_helper.go:59-70 | decoding yields exactly `argCount` arguments; argument `i` has `lengths[i]` bytes, so a zero-length entry is an empty string at its index, not skipped |
| Abi.DecodeEncode | examples/plugins/go/mist_helper.go:58-74 | the vector a host lays out for any list of byte strings is valid, and decoding it returns the list in its original order |
| GoHelper.GoInt | examples/plugins/go/mist_helper.go:62 | the product `i * sizeof(size_t)` as a wrapping pointer-wide `int`: it lies in the signed range, has the same bit pattern as the exact product, and equals it exactly when the product is in range |
| GoHelper.ToUintptr | examples/plugins/go/mist_helper.go:62 | `uintptr(...)` yields an address-space value, and leaves the integer unchanged exactly when it is already in [0, 2^(8·ptrWidth)) |
| GoHelper.UnsafeAdd | examples/plugins/go/mist_helper.go:64-65 | `unsafe.Add` yields an address-space value, and is plain addition exactly when the sum does not pass the end of the address space |
| GoHelper.CIntAt | examples/plugins/go/mist_helper.go:69 | `*(*C.int)` yields a value in [-2^31, 2^31) whose 32-bit two's-complement pattern is the 4 bytes at the address |
| GoHelper.GoStringN | examples/plugins/go/mist_helper.go:67-70 | `C.GoStringN(ptr, n)` is a string of exactly `n` bytes, byte `k` being the byte at `ptr + k` |
| GoHelper.GoArguments | examples/plugins/go/mist_helper.go:58-74 | the Go decoding has `argCount` entries, and entry `i` has as many bytes as the C `int` read from length slot `i` |
| GoHelper.GoAddressArithmetic | examples/plugins/go/mist_helper.go:62-65 | `unsafe.Add(base, uintptr(i * sizeof(size_t)))` lands on slot `i` of each array of a valid vector, with no wrap-around |
| GoHelper.ConvertEntry | examples/plugins/go/mist_helper.go:62-70 | one loop iteration, done with Go's wrapping arithmetic, yields the string Go's reading defines for index `i` |
| GoHelper.MakeGoArguments | examples/plugins/go/mist_helper.go:58-74 | the preallocated slice, filled by index, ends equal to the Go decoding: `argCount` strings, the `i`-th read from pointer slot `i` and length slot `i` |
| GoHelper.PluginMain | examples/plugins/go/mist_helper.go:50-55 | the entry point returns `mistMain` of the decoded arguments, with the status byte not remapped |
| GoHelper.SharedOffsetIsElementStride | examples/plugins/go/mist_helper.go:62-65 | the shared offset reaches pointer slot `i` exactly when `i` is 0 or a pointer is as wide as `size_t`; it always reaches length slot `i` |
| GoHelper.GoLengthRead | examples/plugins/go/mist_helper.go:69 | the C `int` read from a `size_t` slot is the signed low 32 bits on little-endian targets and the signed high 32 bits on big-endian ones |
| GoHelper.CountFitsGoInt | examples/plugins/go/mist_helper.go:59-61 | for a valid vector, `int(argCount)` and `uint(argCount)` are the count itself |
| GoHelper.GoMatchesAbi | examples/plugins/go/mist_helper.go:58-74 | on a target with pointer-wide `size_t` that is little-endian or has a 4-byte `size_t`, the Go decoder accepts every valid vector whose lengths are below 2^31 and returns the reference decoding |
| GoHelper.GoBigEndianReadsHighHalf | examples/plugins/go/mist_helper.go:69 | on a big-endian target with 8-byte `size_t`, any length below 2^32 reads as 0 |
| GoHelper.GoRejectsLongLength | examples/plugins/go/mist_helper.go:67-70 | on a little-endian target, a length whose low 32 bits are at least 2^31 reads as a negative `int`, so the Go decoder cannot convert that entry |
| GoSample.InlineArguments | examples/plugins/go/main.go:17-29 | the inline loop produces exactly `argCount` strings, filled by index, equal to what `makeGoArguments` returns on the same inputs |
| GoSample.PluginMain | examples/plugins/go/main.go:10-39 | the version-0.0 entry point reports `Success` (byte 0) for every valid input |
| RustSample.WrappingAdd | examples/plugins/rust/main.rs:21-22 | `wrapping_add` yields an address-space value, and is plain addition exactly when the result does not pass the end of the address space |
| RustSample.RustArguments | examples/plugins/rust/main.rs:15-29 | the Rust decoding has `arg_count` entries, and entry `i` has as many bytes as the `usize` in length slot `i` |
| RustSample.RustAddressArithmetic | examples/plugins/rust/main.rs:21-22 | `wrapping_add(i)` on each array base lands on element `i`, each array advancing by its own element width |
| RustSample.BorrowEntry | examples/plugins/rust/main.rs:19-24 | one loop iteration yields the bytes of length `sizes[i]` at `pointers[i]` as they are in memory at call time, whatever they contain |
| RustSample.CollectArguments | examples/plugins/rust/main.rs:15-29 | `arg_vec` ends with exactly `arg_count` entries, pushed in increasing index order, each the Rust reading of its index |
| RustSample.PluginMain | examples/plugins/rust/main.rs:8-42 | the entry point returns 0 (`Success`) for every valid input |
| RustSample.RustMatchesAbi | examples/plugins/rust/main.rs:19-24 | with pointer-wide `size_t`, the Rust loop is defined exactly on valid vectors with non-null pointers and `isize`-sized lengths, and then returns the reference decoding |
| Agreement.GoRustAgree | examples/plugins/rust/main.rs:15-29 | on a target with pointer-wide `size_t` that is little-endian or has a 4-byte `size_t`, both the Go and the Rust decoder accept every valid vector whose lengths are below 2^31 and whose pointers are non-null, and they return the same arguments |
| Agreement.DecodersRoundTrip | examples/plugins/go/mist_helper.go:58-74 | on a target with pointer-wide `size_t` that is little-endian or has a 4-byte `size_t`, when every string is shorter than 2^31 bytes, both the Go and the Rust decoder return exactly the byte strings a host laid out, in order |
| Agreement.EmptyVector | examples/plugins/go/mist_helper.go:59-61 | with `argCount == 0` and null arrays every decoder succeeds and returns no arguments |
| Agreement.ThreeArguments | examples/plugins/rust/main.rs:17-29 | "a", "bb", "ccc" laid out on a 64-bit little-endian host decode to exactly those three strings in both languages |
| EntrySymbols.EntrySymbolRoundTrip | examples/plugins/go/mist_helper.go:50 | the exported name `_MIST_PLUGIN_<index>_<version>_MAIN` can be parsed back into its index and version |
| EntrySymbols.EntrySymbolInjective | examples/plugins/go/mist_helper.go:50-51 | distinct (index, version) pairs give distinct exported names |
| EntrySymbols.SampleSymbols | examples/plugins/go/main.go:9-10 | the samples' names are the grammar's names for (0, 0) and (1, 0) |

## Left out

- Printing (`fmt.Println`, `println!`, the stdout flush): output is not modelled. Go's `fmt` calls ignore write errors, so they do not affect the Go status byte. In Rust, `print!`, `println!` and `flush().unwrap()` panic when the write or flush fails, and the abort this causes is not modelled (see `RustSample.PluginMain` below).
- The body of `mistMain`: it is not in the modelled files. It is a function parameter, and its side effects are not modelled.
- `test/sig.c`: a SIGINT handler and a sleep loop. This is OS signal and timing behaviour.
- Host-side loading, symbol lookup and choice of API version: the host is not part of this model. Only the name grammar is modelled.
- Undefined behaviour at the boundary: dangling pointers, lengths past readable memory and arrays that wrap around the address space. These are preconditions (`Abi.Valid`, `GoHelper.GoValid`, `RustSample.RustValid`), not modelled errors. Alignment of the pointer and length arrays is not modelled.
- Memory lifetime: Go copies while Rust borrows. Both are modelled as the bytes in memory at call time. What happens if the host frees or changes the buffers later is not modelled.
- Go runtime failures: `GoHelper.GoValid` excludes the fatal runtime error `C.GoStringN` raises on a negative length, and a panic in `make` (a count beyond `int`), rather than modelling them as outcomes. It does not exclude `make`'s allocation-size limit, and allocation failure is not modelled.
- GoHelper.MakeGoArguments: `make([]string, uint(argCount))` panics when the slice would exceed the Go runtime's largest allocation, a runtime-specific bound. `GoHelper.GoValid` admits every count up to the largest `int`, so for such counts the promised result is not what the code produces. The same holds for `GoSample.InlineArguments`, `GoHelper.PluginMain` and `GoSample.PluginMain`.
- RustSample.PluginMain: `Vec::with_capacity(arg_count)` panics when `arg_count * 2 * ptrWidth` exceeds `isize::MAX`, and a panic out of an `extern "C"` function aborts. `RustSample.RustValid` does not exclude such counts, so for them the promised status 0 is not what the code produces. The same holds for `RustSample.CollectArguments`. The entry point also aborts, and returns no status, when a write to stdout or the flush fails (examples/plugins/rust/main.rs lines 13, 31, 35, 38 and 40). The model has no stdout, so `RustSample.PluginMain` promises 0 in that case as well.
- GoSample.PluginMain: states only the returned status. The decoded arguments are computed but only printed.
- RustSample.PluginMain: states only the returned status, for the same reason.
