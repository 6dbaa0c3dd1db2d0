/**
 * Byte-level helpers of src/utilz.rs: the fixed-width integer types, the
 * big-endian counter encoding, the byte-string-to-integer conversion and the
 * digest comparison. src/lib.rs repeats the three function bodies, with
 * `be_u8_from_u32` and `compare_ct` private and `to_num` public.
 */
module Utilz {
  import opened Wrappers
  import opened Errors

  newtype u8 = x: int | 0 <= x < 0x100
  newtype u32 = x: int | 0 <= x < 0x1_0000_0000
  newtype u64 = x: int | 0 <= x < 0x1_0000_0000_0000_0000

  const MAX_U32: int := 0xFFFF_FFFF

  /** Output length of BLAKE2b-512 in bytes. */
  const HASH_LEN: nat := 64

  /** One hash output, used as a block of the Balloon buffer. */
  type Block = b: seq<u8> | |b| == HASH_LEN witness seq(64, _ => 0 as u8)

  /**
   * BLAKE2b with a 64-byte output, left uninterpreted: a hashing context fed
   * by several `update` calls and then finalized is `hash` applied to the
   * concatenation of what it was fed.
   */
  type Hasher = seq<u8> -> Block

  /** Rust's `as u32` cast of a `usize`: the value reduced modulo 2^32 (see `WrapIsMod`). */
  function Wrap(n: nat): (w: u32)
    ensures n <= MAX_U32 ==> w as int == n
    decreases n
  {
    if n <= MAX_U32 then n as u32 else Wrap(n - 0x1_0000_0000)
  }

  /** The cast keeps the low 32 bits. */
  lemma {:induction false} WrapIsMod(n: nat)
    ensures Wrap(n) as int == n % 0x1_0000_0000
    decreases n
  {
    if n > MAX_U32 {
      WrapIsMod(n - 0x1_0000_0000);
    }
  }

  /** `counter + 1` on a `u32`, wrapping at `u32::MAX` as a release build does (a debug build panics there). */
  function WrappingInc(c: u32): (r: u32)
    ensures c as int < MAX_U32 ==> r as int == c as int + 1
    ensures c as int == MAX_U32 ==> r == 0
  {
    if c as int == MAX_U32 then 0 else c + 1
  }

  /** Incrementing the cast of n gives the cast of n + 1. */
  lemma {:induction false} WrappingIncIsWrap(n: nat)
    ensures WrappingInc(Wrap(n)) == Wrap(n + 1)
    decreases n
  {
    if n > MAX_U32 {
      WrappingIncIsWrap(n - 0x1_0000_0000);
    }
  }

  /** `be_u8_from_u32`: byte `i` is `value >> 8 * (3 - i)` cast to `u8`, so the most significant byte comes first. */
  function Be32(value: u32): (b: seq<u8>)
    ensures |b| == 4
  {
    seq(4, i requires 0 <= i < 4 => ((value as nat / Pow256(3 - i)) % 0x100) as u8)
  }

  /** 256^k, the weight of a byte at distance k from the least significant end. */
  function Pow256(k: nat): (p: nat)
    ensures p >= 1
  {
    if k == 0 then 1 else 0x100 * Pow256(k - 1)
  }

  /** `BigUint::from_bytes_le`: the first byte is the least significant. */
  function LeNum(b: seq<u8>): nat
  {
    if b == [] then 0 else b[0] as nat + 0x100 * LeNum(b[1..])
  }

  /** `BigUint::from_bytes_be`: the last byte is the least significant. */
  function BeNum(b: seq<u8>): nat
  {
    if b == [] then 0 else BeNum(b[..|b| - 1]) * 0x100 + b[|b| - 1] as nat
  }

  /** `to_num(b, le)`: the bytes read as an unsigned number, little-endian when `le`. */
  function ToNum(b: seq<u8>, le: bool): nat
  {
    if le then LeNum(b) else BeNum(b)
  }

  /** A little-endian number of |b| bytes is below 256^|b|. */
  lemma {:induction false} LeNumBound(b: seq<u8>)
    ensures LeNum(b) < Pow256(|b|)
  {
    if b != [] {
      LeNumBound(b[1..]);
    }
  }

  /** A big-endian number of |b| bytes is below 256^|b|. */
  lemma {:induction false} BeNumBound(b: seq<u8>)
    ensures BeNum(b) < Pow256(|b|)
  {
    if b != [] {
      BeNumBound(b[..|b| - 1]);
    }
  }

  /** `to_num` in either byte order yields a number below 256^|b|, and a single byte reads as itself. */
  lemma ToNumBound(b: seq<u8>, le: bool)
    ensures ToNum(b, le) < Pow256(|b|)
    ensures |b| == 1 ==> ToNum(b, le) == b[0] as nat
  {
    if le {
      LeNumBound(b);
    } else {
      BeNumBound(b);
    }
  }

  function Reverse(b: seq<u8>): (r: seq<u8>)
    ensures |r| == |b|
  {
    if b == [] then [] else Reverse(b[1..]) + [b[0]]
  }

  /** Appending a byte on the most significant end adds byte * 256^|b|: the sum over b[i] * 256^i. */
  lemma {:induction false} LeNumAppend(b: seq<u8>, x: u8)
    ensures LeNum(b + [x]) == LeNum(b) + x as nat * Pow256(|b|)
  {
    if b != [] {
      assert (b + [x])[1..] == b[1..] + [x];
      LeNumAppend(b[1..], x);
      calc {
        LeNum(b + [x]);
        b[0] as nat + 0x100 * (LeNum(b[1..]) + x as nat * Pow256(|b| - 1));
        b[0] as nat + 0x100 * LeNum(b[1..]) + x as nat * (0x100 * Pow256(|b| - 1));
      }
    }
  }

  /** Prepending a byte on the most significant end adds byte * 256^|b|: the sum over b[i] * 256^(|b|-1-i). */
  lemma {:induction false} BeNumPrepend(x: u8, b: seq<u8>)
    ensures BeNum([x] + b) == x as nat * Pow256(|b|) + BeNum(b)
  {
    if b != [] {
      assert ([x] + b)[..|b|] == [x] + b[..|b| - 1];
      BeNumPrepend(x, b[..|b| - 1]);
      calc {
        BeNum([x] + b);
        BeNum([x] + b[..|b| - 1]) * 0x100 + b[|b| - 1] as nat;
        (x as nat * Pow256(|b| - 1) + BeNum(b[..|b| - 1])) * 0x100 + b[|b| - 1] as nat;
        x as nat * (Pow256(|b| - 1) * 0x100) + (BeNum(b[..|b| - 1]) * 0x100 + b[|b| - 1] as nat);
      }
    } else {
      assert [x] + b == [x];
    }
  }

  /** Little-endian reading is big-endian reading of the reversed bytes. */
  lemma {:induction false} LeNumIsBeNumOfReverse(b: seq<u8>)
    ensures ToNum(b, true) == ToNum(Reverse(b), false)
  {
    if b != [] {
      LeNumIsBeNumOfReverse(b[1..]);
      var r := Reverse(b);
      assert r[..|r| - 1] == Reverse(b[1..]);
    }
  }

  /** `v >> 16` is `(v >> 8) >> 8` and `v >> 24` is `((v >> 8) >> 8) >> 8`, with `>> 8` the division by 256. */
  lemma ShiftsCompose(v: int)
    requires 0 <= v < 0x1_0000_0000
    ensures v / 0x1_0000 == (v / 0x100) / 0x100
    ensures v / 0x100_0000 == ((v / 0x100) / 0x100) / 0x100
    ensures v / 0x100_0000 < 0x100
    ensures v == (v / 0x100_0000 % 0x100) * 0x100_0000 + (v / 0x1_0000 % 0x100) * 0x1_0000
                 + (v / 0x100 % 0x100) * 0x100 + v % 0x100
  {
    var q1 := v / 0x100;
    var q2 := q1 / 0x100;
    var q3 := q2 / 0x100;
    assert v == q1 * 0x100 + v % 0x100;
    assert q1 == q2 * 0x100 + q1 % 0x100;
    assert q2 == q3 * 0x100 + q2 % 0x100;
    assert v == q2 * 0x1_0000 + (q1 % 0x100) * 0x100 + v % 0x100;
    assert v / 0x1_0000 == q2;
    assert v == q3 * 0x100_0000 + (q2 % 0x100) * 0x1_0000 + (q1 % 0x100) * 0x100 + v % 0x100;
    assert v / 0x100_0000 == q3;
  }

  /** The four bytes weighted 2^24, 2^16, 2^8 and 1 add up to the counter. */
  lemma Be32Value(value: u32)
    ensures var b := Be32(value);
      value as int == b[0] as int * 0x100_0000 + b[1] as int * 0x1_0000 + b[2] as int * 0x100 + b[3] as int
  {
    var v := value as int;
    var b := Be32(value);
    assert Pow256(3) == 0x100_0000 && Pow256(2) == 0x1_0000 && Pow256(1) == 0x100 && Pow256(0) == 1;
    assert b[0] as int == v / 0x100_0000 % 0x100 && b[1] as int == v / 0x1_0000 % 0x100;
    assert b[2] as int == v / 0x100 % 0x100 && b[3] as int == v % 0x100;
    ShiftsCompose(v);
  }

  /** Reading the big-endian encoding of a counter gives the counter back. */
  lemma Be32RoundTrip(v: u32)
    ensures ToNum(Be32(v), false) == v as nat
  {
    var b := Be32(v);
    Be32Value(v);
    assert b[..3][..2][..1][..0] == [];
    calc {
      ToNum(b, false);
      BeNum(b[..3]) * 0x100 + b[3] as nat;
      (BeNum(b[..3][..2]) * 0x100 + b[2] as nat) * 0x100 + b[3] as nat;
      ((BeNum(b[..3][..2][..1]) * 0x100 + b[1] as nat) * 0x100 + b[2] as nat) * 0x100 + b[3] as nat;
      (((BeNum(b[..3][..2][..1][..0]) * 0x100 + b[0] as nat) * 0x100 + b[1] as nat) * 0x100 + b[2] as nat) * 0x100 + b[3] as nat;
      v as nat;
    }
  }

  /** Distinct counter values give distinct 4-byte prefixes. */
  lemma Be32Injective(x: u32, y: u32)
    requires Be32(x) == Be32(y)
    ensures x == y
  {
    Be32RoundTrip(x);
    Be32RoundTrip(y);
  }

  /**
   * `compare_ct`: `None` means the two byte strings match. Only the result of
   * the constant-time equality is modelled, not its timing.
   */
  function CompareCt(a: seq<u8>, b: seq<u8>): (r: Option<Error>)
    ensures r == None <==> a == b
    ensures r != None ==> r == Some(InvalidFormat)
    ensures |a| != |b| ==> r == Some(InvalidFormat)
  {
    if |a| != |b| then Some(InvalidFormat)
    else if a == b then None
    else Some(InvalidFormat)
  }
}
