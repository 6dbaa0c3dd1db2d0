# Balloon hashing engine, modelled in Dafny

This project models the core of the `balloon` Rust crate. The crate implements
Balloon hashing (IACR ePrint 2016/027), a memory-hard password hash built on
BLAKE2b with a 64-byte output. It works in three steps:

- **Expansion** fills a buffer of `space` blocks with a hash chain seeded by
  the password and the salt.
- **Mixing** runs `time` rounds over the buffer. In each round every slot is
  hashed with its circular predecessor and then `delta` times with
  pseudo-randomly chosen slots.
- **Extraction** hashes the last block.

Every hash except the final one starts with a `u32` counter written as four
big-endian bytes. The counter is incremented after each use. The final hash
is BLAKE2b of the last block alone.

Modules, one file each:

- `Utilz` (`utilz.dfy`): the fixed-width integer types, the counter encoding
  `be_u8_from_u32`, the byte-string-to-number conversion `to_num` and the
  digest comparison `compare_ct`. `src/lib.rs` repeats the three bodies,
  with `be_u8_from_u32` and `compare_ct` private and `to_num` public. One
  copy is modelled.
- `Buffer` (`buffer.dfy`): `SpaceHandler`, a class over a sequence of
  elements with `allocate`, `insert`, `len`, `index` and `index_mut`.
- `BalloonInternal` (`internal.dfy`): the `Internal` engine as a class with
  the buffer, `last_block`, the `u32` counter and `has_mixed`.
  - Its methods `Expand`, `Mix` and `Finalize` run the source's loops in
    place. Each loop body is its own method.
  - Each method is proved to end in the state computed by a specification
    function over a `State` value. `ExpandRounds`, `DeltaRounds`,
    `SpaceRounds` and `TimeRounds` each perform the first `k` passes of one
    loop.
  - The lemmas beside them prove the hash-chain shape of the expansion, the
    circular-predecessor invariant of mixing, that each inner step writes
    only its own slot, and the exact number of counter increments.
- `BalloonApi` (`lib.dfy`): `balloon`, `verify`, the inputs of the
  `it_works` test (with a round trip through `verify` added), and the
  results proved about a whole run.
- `Hashcash` (`hashcash.dfy`): `leading_zeros` with its wrapping `u8`
  arithmetic, and the acceptance test of `hashcash_verify`.
- `Wrappers` and `Errors` (`wrappers.dfy`, `error.dfy`): `Option`, `Result`
  and the crate's `Error` enum.

How the model treats the source:

- **Hash functions.** BLAKE2b is the parameter `hash: Hasher`, an arbitrary
  total function from byte strings to 64-byte blocks. `blake256` is
  `hash256: Hasher256`, with 32-byte digests. A hashing context fed by
  several `update` calls and then finalised is `hash` applied to the
  concatenation of those inputs. Nothing is assumed about either function,
  so every property holds for any hash function.
- **Counter overflow.** The counter increments as a release build does,
  wrapping from `u32::MAX` to 0.
  - Two ghost fields track the overflow. `ticks` is the unbounded number of
    increments. `overflowed` records whether one of them wrapped; a debug
    build panics exactly there.
  - `BalloonApi.CounterTotal` proves three facts about a run:
    - `ticks = space * (1 + time * (1 + 2 * delta))`;
    - the counter ends at that number modulo 2^32;
    - an overflow happened iff that number exceeds `u32::MAX`.
- **Indices cast to `u32`.** `t_step as u32`, `s_step as u32` and
  `d_step as u32` are written out as a reduction modulo 2^32 (`Wrap`).

What the code computes, step by step:

- **Counter encoding.** `be_u8_from_u32` (src/utilz.rs:35-42) writes the
  `u32` counter as 4 big-endian bytes. It writes the indices `t`, `s` and `d`
  of the challenge hash the same way. The comment at src/lib.rs:61 says the
  crate uses little-endian encoding. That holds only for `to_num` on the
  challenge digest.
- **First block.** The first block (src/internal.rs:55-59) hashes the
  counter, then the password, then the salt.
- **Step 2a.** Mixing (src/internal.rs:98-104) hashes the counter,
  `last_block` and the slot itself. By the lemma
  `LastIsCircularPredecessor`, `last_block` there is the slot's circular
  predecessor.
- **Challenge index.** The challenge index (src/internal.rs:131-134) is the
  whole 64-byte challenge digest, read as a little-endian number, modulo
  `space`.
- **Output.** The output (src/internal.rs:173) is the hash of the last
  block, with no counter prefix.
- **`space = 0`.** `expand` still inserts the first block, so `Internal` with
  `space = 0` holds one block (`ExpandCount`). `balloon` rejects
  `space < 1` before this can happen.
- **Error message.** The message of `InvalidSpace` (src/error.rs:33) says
  "greater than the digest length", but `balloon` checks only `space < 1`
  (src/lib.rs:130).

## Model

| member | source | states |
|---|---|---|
| Utilz.Wrap | src/internal.rs:125-129 | `x as u32` of a `usize`: values up to `u32::MAX` are unchanged |
| Utilz.WrapIsMod | src/internal.rs:125-129 | the cast is reduction modulo 2^32 |
| Utilz.WrappingInc | src/internal.rs:57 | `counter + 1`: adds one below `u32::MAX`; at `u32::MAX` wraps to 0 (release build) |
| Utilz.WrappingIncIsWrap | src/internal.rs:57 | incrementing the cast of n gives the cast of n + 1, so the counter stays "increments modulo 2^32" |
| Utilz.Be32 | src/utilz.rs:35-42 | `be_u8_from_u32` returns exactly 4 bytes (their value: `Be32Value`) |
| Utilz.Be32Value | src/utilz.rs:35-42 | `v == b[0]*2^24 + b[1]*2^16 + b[2]*2^8 + b[3]` |
| Utilz.Be32RoundTrip | src/utilz.rs:35-52 | `to_num(be_u8_from_u32(v), false) == v` |
| Utilz.Be32Injective | src/utilz.rs:35-42 | distinct counters give distinct 4-byte hash prefixes |
| Utilz.LeNumBound | src/utilz.rs:46-52 | `BigUint::from_bytes_le` reads a `k`-byte string as a number below 256^k |
| Utilz.BeNumBound | src/utilz.rs:46-52 | `BigUint::from_bytes_be` reads a `k`-byte string as a number below 256^k |
| Utilz.ToNumBound | src/utilz.rs:46-52 | `to_num(b, le)` is below 256^len(b) in either byte order; a single byte reads as itself |
| Utilz.LeNumAppend | src/utilz.rs:46-52 | little-endian `to_num` weights byte i by 256^i (appending a top byte adds byte * 256^len) |
| Utilz.BeNumPrepend | src/utilz.rs:46-52 | big-endian `to_num` weights byte i by 256^(len-1-i) (prepending a top byte adds byte * 256^len) |
| Utilz.LeNumIsBeNumOfReverse | src/utilz.rs:46-52 | `to_num(b, true) == to_num(reverse(b), false)` |
| Utilz.CompareCt | src/utilz.rs:56-66 | `None` iff the slices are equal; otherwise `Some(InvalidFormat)` and no other error; unequal lengths give `Some(InvalidFormat)` |
| Buffer.SpaceHandler.Allocate | src/buffer.rs:28-32 | a new buffer is empty whatever the requested capacity |
| Buffer.SpaceHandler.Insert | src/buffer.rs:35-37 | appends: the new contents are the old ones followed by the item |
| Buffer.SpaceHandler.Len | src/buffer.rs:48-50 | the number of stored elements |
| Buffer.SpaceHandler.Index | src/buffer.rs:60-62 | needs an index in range (out of range panics); returns the stored element |
| Buffer.SpaceHandler.IndexMut | src/buffer.rs:66-68 | a write replaces slot `key` only; length and other slots unchanged |
| Buffer.WriteThenRead | src/buffer.rs:60-68 | a read after a write at the same index returns the written value; the length is unchanged |
| BalloonInternal.Advance | src/internal.rs:57 | one counter increment: buffer and last block unchanged, one more tick |
| BalloonInternal.AdvanceTracksTicks | src/internal.rs:57 | every increment keeps counter = ticks mod 2^32 and sets the overflow flag exactly when ticks passes `u32::MAX` |
| BalloonInternal.ExpandFirst | src/internal.rs:54-65 | the first block appends one block, which is kept as `last_block` |
| BalloonInternal.ExpandNext | src/internal.rs:68-81 | one expansion pass appends one block, kept as `last_block` |
| BalloonInternal.ExpandRounds | src/internal.rs:68-81 | k passes append k blocks and k ticks; `last_block` is the final block |
| BalloonInternal.ExpandCount | src/internal.rs:54-68 | `expand` makes `space` blocks when `space >= 1`, and one block when `space = 0` |
| BalloonInternal.ExpandSpec | src/internal.rs:49-82 | `expand` appends `ExpandCount(space)` blocks and sets `last_block` |
| BalloonInternal.ExpandRoundsTrackTicks | src/internal.rs:72-74 | expansion keeps counter = ticks mod 2^32 |
| BalloonInternal.ExpandRoundsKeepsPrefix | src/internal.rs:80 | expansion only appends: earlier blocks are unchanged |
| BalloonInternal.ExpandRoundsChainLink | src/internal.rs:70-80 | appended block j is `H(be32(c0 + j - n) ‖ block j-1)` |
| BalloonInternal.ExpandFillsSpace | src/internal.rs:54-81 | from an empty buffer with `space >= 1`: length `space`, counter `c0 + space`, `buffer[0] = H(be32(c0)‖password‖salt)`, `buffer[i] = H(be32(c0+i)‖buffer[i-1])`, `last_block == buffer[space-1]` |
| BalloonInternal.SlotCost | src/internal.rs:98-100 | each slot costs at least one counter increment (1 for step 2a plus 2 per delta step) |
| BalloonInternal.PredStep | src/internal.rs:96-109 | step 2a keeps the buffer length and uses one tick |
| BalloonInternal.OtherIndex | src/internal.rs:131-134 | the chosen slot satisfies `other < space`, so the read at line 149 is in bounds and `to_usize().unwrap()` cannot fail |
| BalloonInternal.DeltaStep | src/internal.rs:115-155 | one delta step keeps the buffer length and uses two ticks |
| BalloonInternal.DeltaRounds | src/internal.rs:115-155 | k delta steps keep the buffer length and use 2k ticks |
| BalloonInternal.SlotStep | src/internal.rs:96-155 | one inner step keeps the buffer length and uses `1 + 2*delta` ticks |
| BalloonInternal.SpaceRounds | src/internal.rs:91-156 | a round keeps the buffer length and leaves a last block |
| BalloonInternal.TimeRounds | src/internal.rs:89-157 | `mix` never changes the buffer length |
| BalloonInternal.SpaceRoundsTicks | src/internal.rs:98-142 | k slots use `k * (1 + 2*delta)` increments |
| BalloonInternal.TimeRoundsTicks | src/internal.rs:89-157 | k rounds use `k * space * (1 + 2*delta)` increments |
| BalloonInternal.DeltaRoundsTouchOnlySlot | src/internal.rs:152-154 | delta steps write only slot `s`, and leave `last_block == buffer[s]` |
| BalloonInternal.SlotStepTouchesOnlySlot | src/internal.rs:107-109 | inner step `s` writes only `buffer[s]`; the length and every other slot are unchanged |
| BalloonInternal.LastIsCircularPredecessor | src/internal.rs:102-109 | at inner step `s`, `last_block == buffer[(s + space - 1) % space]`, so step 2a hashes each slot with its circular predecessor |
| BalloonInternal.MixEndsOnFinalSlot | src/internal.rs:152-157 | after any number of rounds `last_block == buffer[space-1]` |
| BalloonInternal.DeltaRoundsTrackTicks | src/internal.rs:119-142 | delta steps keep counter = ticks mod 2^32 |
| BalloonInternal.SpaceRoundsTrackTicks | src/internal.rs:98-142 | a round keeps counter = ticks mod 2^32 |
| BalloonInternal.TimeRoundsTrackTicks | src/internal.rs:89-157 | `mix` keeps counter = ticks mod 2^32 |
| BalloonInternal.FinalizeResult | src/internal.rs:171-177 | `Err(FinalizeBeforeMix)` iff not mixed; once mixed, always `Ok` with the hash of the last buffer element |
| BalloonInternal.Internal.constructor | src/lib.rs:140-149 | fresh engine: empty buffer, no last block, counter 0, not mixed |
| BalloonInternal.Internal.Tick | src/internal.rs:55-57 | the prefix is `be32` of the old counter; the state advances by one increment |
| BalloonInternal.Internal.ExpandFirstBlock | src/internal.rs:52-65 | performs `ExpandFirst` on the state |
| BalloonInternal.Internal.ExpandNextBlock | src/internal.rs:69-80 | performs `ExpandNext` on the state |
| BalloonInternal.Internal.Expand | src/internal.rs:49-82 | ends in `ExpandSpec` of the old state |
| BalloonInternal.Internal.MixPred | src/internal.rs:96-109 | performs `PredStep` on the state |
| BalloonInternal.Internal.MixDelta | src/internal.rs:116-154 | performs `DeltaStep` on the state |
| BalloonInternal.Internal.MixSlot | src/internal.rs:92-155 | performs `SlotStep` on the state |
| BalloonInternal.Internal.MixRound | src/internal.rs:91-156 | performs `SpaceRounds` over all slots |
| BalloonInternal.Internal.Mix | src/internal.rs:87-160 | ends in `TimeRounds(time)` of the old state with `has_mixed` set |
| BalloonInternal.Internal.Finalize | src/internal.rs:165-178 | returns `FinalizeResult`; when mixed it pops the last block (length drops by one), otherwise the buffer is unchanged |
| BalloonApi.Fresh | src/lib.rs:140-149 | the fresh state: empty buffer, no last block, counter 0, ticks 0, no overflow yet |
| BalloonApi.BalloonRun | src/lib.rs:152-155 | after expand and mix the buffer holds `space` blocks and a last block is set |
| BalloonApi.BalloonDigest | src/lib.rs:123-159 | `space < 1` gives `InvalidSpace` whatever else; then `time < 1` gives `InvalidTime`; then a salt under 4 bytes gives `InvalidSalt`; `delta` is unchecked; otherwise a digest; never `FinalizeBeforeMix` |
| BalloonApi.DigestIsHashOfFinalSlot | src/lib.rs:152-158 | on valid input `last_block == buffer[space-1]` after mixing, and the digest is its hash |
| BalloonApi.CounterTotal | src/lib.rs:152-155 | a run makes `space*(1 + time*(1+2*delta))` increments; the counter ends at that modulo 2^32, and a `u32` overflow happens iff that exceeds `u32::MAX` |
| BalloonApi.Balloon | src/lib.rs:123-159 | returns `BalloonDigest` of its arguments, so equal arguments give equal results |
| BalloonApi.VerifyOutcome | src/lib.rs:164-178 | `balloon`'s error is returned unchanged; otherwise `Ok(true)` iff the digest equals `val`, else `Ok(false)` |
| BalloonApi.VerifyAcceptsOwnDigest | src/lib.rs:164-178 | verifying `balloon`'s own output with the same arguments returns `Ok(true)` |
| BalloonApi.Verify | src/lib.rs:164-178 | returns `VerifyOutcome` |
| BalloonApi.ItWorks | src/lib.rs:188-193 | password `[0,1,2,3,0,1,2,3]`, salt `[0,1,2,3,3]`, costs `16, 20, 4`: `balloon` succeeds, so `unwrap` cannot panic; the added `verify` of that output returns `Ok(true)` |
| Hashcash.Clz8 | src/hashcash.rs:54-55 | `u8::leading_zeros`: at most 8, 8 iff zero, and `2^(7-n) <= x < 2^(8-n)` |
| Hashcash.LeadingZeroBits | src/hashcash.rs:51-60 | the leading-zero-bit count is at most `8 * len` |
| Hashcash.ZeroPrefix | src/hashcash.rs:53-57 | k leading zero bytes add `8*k` bits |
| Hashcash.FirstNonZeroByte | src/hashcash.rs:53-57 | with k the first non-zero byte, the count is `8*k + clz8(data[k])` |
| Hashcash.IgnoresTail | src/hashcash.rs:55-57 | bytes after the first non-zero byte do not affect the count |
| Hashcash.AllZero | src/hashcash.rs:53-58 | n zero bytes count `8*n` bits |
| Hashcash.WrappingSum | src/hashcash.rs:54 | `lz as u8 + (count as u8 * 8)` in wrapping `u8` arithmetic is `(8*count + lz) mod 256` |
| Hashcash.LeadingZeros | src/hashcash.rs:51-60 | returns the leading-zero-bit count modulo 256 (0 for empty input) |
| Hashcash.Accepts | src/hashcash.rs:43-47 | an accepted digest has at least `difficulty` leading zero bits; below 256 counted bits, accepted iff it has that many |
| Hashcash.AcceptanceEdgeCases | src/hashcash.rs:43-47 | difficulty 0 accepts every digest; an all-zero 32-byte digest wraps to 0 and fails every positive difficulty |
| Hashcash.Le64 | src/hashcash.rs:40 | `nonce.to_le_bytes()` is 8 bytes |
| Hashcash.PowDigestIsFinalSlotHash | src/hashcash.rs:40-42 | for every data and nonce, the 8-byte salt passes `balloon`'s checks, so `unwrap` never panics; the tested digest is blake256 of BLAKE2b of the final slot (slot 15) of a Balloon run with costs 16, 20, 4 on `data ‖ nonce`, salted with blake256(`data ‖ nonce`)[..8] |
| Hashcash.ComputePowDigest | src/hashcash.rs:40-42 | blake256 of the Balloon digest (costs 16, 20, 4) of `data ‖ nonce`, salted with the first 8 bytes of blake256(`data ‖ nonce`); the `unwrap` cannot fail |
| Hashcash.HashcashVerify | src/hashcash.rs:39-48 | true iff `leading_zeros(digest) >= difficulty`; difficulty 0 always accepts |

## Left out

- BLAKE2b (`blake2b_simd`, `blake2_rfc`) and `blake256` are left uninterpreted. They are parameters, so no property depends on their output.
- The two BLAKE2b result types (`Hash` in the engine, `Blake2bResult` in `balloon`) are the same 64-byte sequence in the model.
- `BigUint` is `nat`, and `to_usize()` on a number below `space` is the number itself.
- `compare_ct` takes constant time, which timing-free logic cannot express. Only its result is modelled.
- Debug builds panic on `u32` counter overflow. The model follows release builds, which wrap. The ghost flag `overflowed` marks where a debug build would stop.
- Hashcash.LeadingZeros: the debug-build panic on `u8` overflow is not modelled. At 32 zero bytes the sum is 256, and the model wraps it to 0 as a release build does.
- The nonce search loop `hashcash` is not modelled. It is a brute force over `u64` whose termination depends on hash outputs.
- BalloonInternal.Internal.Mix, BalloonInternal.Internal.Finalize: the engine's panics are preconditions instead. `pop().unwrap()` on an empty buffer (src/internal.rs:173) is excluded by `Finalize`'s requires. `last_block.unwrap()` on `None` (src/internal.rs:102) and indexing past the buffer (reads at src/internal.rs:104, 145, 149; writes at 109, 154) are excluded by `Mix`'s requires. `balloon` is proved to meet both, so no panic is reachable through it.
- `usize` bounds are not modelled: `space`, `time` and `delta` are unbounded naturals. Allocation failure and the capacity passed to `Vec::with_capacity` are also not modelled.
- The `Display` and `description` strings of `Error` are not modelled. Only the enum is.
- Module wiring is not modelled: `src/lib.rs` does not declare `utilz` or `hashcash`. Each helper is modelled once.
- The benchmarks and the `println!` output of the tests are not modelled.
