/**
 * The proof-of-work check of src/hashcash.rs: the leading-zero-bit count of a
 * digest, computed with `u8` arithmetic, and the acceptance test of
 * `hashcash_verify`, which hashes a Balloon digest of the data and the nonce.
 */
module Hashcash {
  import opened Utilz
  import opened BalloonApi

  /** An H256 digest. */
  type Digest256 = d: seq<u8> | |d| == 32 witness seq(32, _ => 0 as u8)

  /** `blake256`, left uninterpreted. */
  type Hasher256 = seq<u8> -> Digest256

  function Pow2(k: nat): (p: nat)
    ensures p >= 1
  {
    if k == 0 then 1 else 2 * Pow2(k - 1)
  }

  /** `u8::leading_zeros`: the number of zero bits above the highest set bit. */
  function Clz8(x: u8): (n: nat)
    ensures n <= 8
    ensures n == 8 <==> x == 0
    ensures (x as nat) < Pow2(8 - n)
    ensures n < 8 ==> Pow2(7 - n) <= x as nat
    decreases 0x100 - x as int
  {
    if x == 0 then 8
    else if x >= 0x80 then 0
    else 1 + Clz8(x * 2)
  }

  /** The number of leading zero bits of a byte string read most significant bit first. */
  function LeadingZeroBits(data: seq<u8>): (n: nat)
    ensures n <= 8 * |data|
  {
    if data == [] then 0
    else if data[0] == 0 then 8 + LeadingZeroBits(data[1..])
    else Clz8(data[0])
  }

  /** Zero bytes in front add eight bits each. */
  lemma {:induction false} ZeroPrefix(data: seq<u8>, k: nat)
    requires k <= |data| && forall j :: 0 <= j < k ==> data[j] == 0
    ensures LeadingZeroBits(data) == 8 * k + LeadingZeroBits(data[k..])
  {
    if k > 0 {
      ZeroPrefix(data[1..], k - 1);
      assert data[1..][k - 1..] == data[k..];
    }
  }

  /** With `k` the first non-zero byte, the count is `8 * k` plus that byte's leading zeros. */
  lemma FirstNonZeroByte(data: seq<u8>, k: nat)
    requires k < |data| && data[k] != 0 && forall j :: 0 <= j < k ==> data[j] == 0
    ensures LeadingZeroBits(data) == 8 * k + Clz8(data[k])
  {
    ZeroPrefix(data, k);
  }

  /** The bytes after the first non-zero one do not change the count. */
  lemma IgnoresTail(data: seq<u8>, k: nat, tail: seq<u8>)
    requires k < |data| && data[k] != 0 && forall j :: 0 <= j < k ==> data[j] == 0
    ensures LeadingZeroBits(data[..k + 1] + tail) == LeadingZeroBits(data)
  {
    var other := data[..k + 1] + tail;
    FirstNonZeroByte(data, k);
    FirstNonZeroByte(other, k);
  }

  /** A string of `n` zero bytes has `8 * n` leading zero bits. */
  lemma AllZero(data: seq<u8>)
    requires forall j :: 0 <= j < |data| ==> data[j] == 0
    ensures LeadingZeroBits(data) == 8 * |data|
  {
    ZeroPrefix(data, |data|);
  }

  /**
   * `leading_zeros`: for each byte, `zeros` becomes its leading zeros plus
   * `count as u8 * 8`, all in wrapping `u8` arithmetic (a release build), and
   * the loop stops at the first non-zero byte. The result is the leading-zero
   * bit count modulo 256.
   */
  method LeadingZeros(data: seq<u8>) returns (zeros: u8)
    ensures zeros as nat == LeadingZeroBits(data) % 0x100
  {
    zeros := 0;
    var count := 0;
    while count < |data|
      invariant count <= |data|
      invariant forall j :: 0 <= j < count ==> data[j] == 0
      invariant zeros as nat == (8 * count) % 0x100
    {
      var lz := Clz8(data[count]);
      var shifted := ((count % 0x100) * 8) % 0x100;
      zeros := ((lz + shifted) % 0x100) as u8;
      WrappingSum(count, lz);
      if lz < 8 {
        FirstNonZeroByte(data, count);
        return;
      }
      count := count + 1;
    }
    AllZero(data);
  }

  /** `lz as u8 + (count as u8 * 8)` with both operations wrapping is `8 * count + lz` modulo 256. */
  lemma WrappingSum(count: nat, lz: nat)
    ensures (lz + ((count % 0x100) * 8) % 0x100) % 0x100 == (8 * count + lz) % 0x100
  {
    var q := count / 0x100;
    var r := count % 0x100;
    assert 8 * count + lz == (8 * q) * 0x100 + (8 * r + lz);
    var q2 := (r * 8) / 0x100;
    assert lz + r * 8 == q2 * 0x100 + (lz + (r * 8) % 0x100);
    ModOffset(8 * r + lz, 8 * q);
    ModOffset(lz + (r * 8) % 0x100, q2);
  }

  lemma ModOffset(x: nat, q: nat)
    ensures (q * 0x100 + x) % 0x100 == x % 0x100
  {
    var r := x % 0x100;
    assert q * 0x100 + x == (q + x / 0x100) * 0x100 + r;
  }

  /**
   * The acceptance test of `hashcash_verify`: the counted leading zeros, in
   * `u8`, reach the difficulty. An accepted digest really has that many
   * leading zero bits; the converse fails only at the all-zero digest.
   */
  predicate Accepts(digest: Digest256, difficulty: u8): (ok: bool)
    ensures ok ==> LeadingZeroBits(digest) >= difficulty as nat
    ensures LeadingZeroBits(digest) < 0x100 ==> (ok <==> LeadingZeroBits(digest) >= difficulty as nat)
  {
    LeadingZeroBits(digest) % 0x100 >= difficulty as nat
  }

  /**
   * Every digest meets difficulty 0. An all-zero digest counts 256 zero bits,
   * which wraps to 0 in `u8`, so it fails every positive difficulty.
   */
  lemma AcceptanceEdgeCases(digest: Digest256, difficulty: u8)
    ensures Accepts(digest, 0)
    ensures (forall j :: 0 <= j < 32 ==> digest[j] == 0) && difficulty > 0 ==> !Accepts(digest, difficulty)
  {
    if forall j :: 0 <= j < 32 ==> digest[j] == 0 {
      AllZero(digest);
    }
  }

  /** `nonce.to_le_bytes()`: byte `i` is `nonce >> 8 * i` cast to `u8`. */
  function Le64(nonce: u64): (b: seq<u8>)
    ensures |b| == 8
  {
    seq(8, i requires 0 <= i < 8 => ((nonce as nat / Pow256(i)) % 0x100) as u8)
  }

  /**
   * The digest `hashcash_verify` tests: blake256 of the Balloon digest of
   * `data ‖ nonce`, salted with the first 8 bytes of its blake256.
   */
  function PowDigest(hash: Hasher, hash256: Hasher256, data: seq<u8>, nonce: u64): (d: Digest256)
  {
    var buf := data + Le64(nonce);
    var salt := hash256(buf)[..8];
    hash256(BalloonDigest(hash, buf, salt, 16, 20, 4).value)
  }

  /**
   * The 8-byte salt always passes `balloon`'s validation, so its `unwrap`
   * never panics, and the tested digest is blake256 of BLAKE2b of the final
   * slot of the mixed Balloon buffer.
   */
  lemma PowDigestIsFinalSlotHash(hash: Hasher, hash256: Hasher256, data: seq<u8>, nonce: u64)
    ensures var buf := data + Le64(nonce);
      BalloonDigest(hash, buf, hash256(buf)[..8], 16, 20, 4).Success?
    ensures var buf := data + Le64(nonce);
      var mixed := BalloonRun(hash, buf, hash256(buf)[..8], 16, 20, 4);
      PowDigest(hash, hash256, data, nonce) == hash256(hash(mixed.buf[15]))
  {
    var buf := data + Le64(nonce);
    DigestIsHashOfFinalSlot(hash, buf, hash256(buf)[..8], 16, 20, 4);
  }

  /** Lines of `hashcash_verify` that compute the digest; the `unwrap` cannot fail because the salt has 8 bytes. */
  method ComputePowDigest(hash: Hasher, hash256: Hasher256, data: seq<u8>, nonce: u64) returns (digest: Digest256)
    ensures digest == PowDigest(hash, hash256, data, nonce)
  {
    var buf := data + Le64(nonce);
    var salt := hash256(buf)[..8];
    var res := Balloon(hash, buf, salt, 16, 20, 4);
    digest := hash256(res.value);
  }

  /** `hashcash_verify`: recompute the digest for the nonce and compare its leading zeros with the difficulty. */
  method HashcashVerify(hash: Hasher, hash256: Hasher256, data: seq<u8>, nonce: u64, difficulty: u8) returns (ok: bool)
    ensures ok <==> Accepts(PowDigest(hash, hash256, data, nonce), difficulty)
    ensures difficulty == 0 ==> ok
  {
    var digest := ComputePowDigest(hash, hash256, data, nonce);
    var zeros := LeadingZeros(digest);
    ok := zeros >= difficulty;
    assert ok == Accepts(digest, difficulty);
  }
}
