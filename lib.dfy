/**
 * The public API of src/lib.rs: `balloon` checks its cost parameters in a
 * fixed order and then drives a fresh engine through expansion, mixing and
 * extraction; `verify` recomputes a digest and compares it with a given one.
 */
module BalloonApi {
  import opened Wrappers
  import opened Errors
  import opened Utilz
  import opened BalloonInternal

  /** The engine as `balloon` builds it: empty buffer, no last block, counter 0. */
  function Fresh(): (e: State)
    ensures e.buf == [] && e.last == None
    ensures e.ctr == 0 && e.ticks == 0 && !e.wrapped && CounterTracksTicks(e)
  {
    State([], None, 0, 0, false)
  }

  /** The engine state after expansion and mixing from a fresh start. */
  function BalloonRun(hash: Hasher, passy: seq<u8>, salty: seq<u8>, space: nat, time: nat, delta: nat): (e: State)
    requires space >= 1
    ensures |e.buf| == space && e.last.Some?
  {
    TimeRounds(hash, salty, space, delta, time, ExpandSpec(hash, passy, salty, space, Fresh()))
  }

  /**
   * What `balloon` returns. The checks come in a fixed order, so a zero
   * `space` is reported whatever the other arguments are; `delta` is not
   * checked at all. Past the checks the result is always a digest.
   */
  function BalloonDigest(hash: Hasher, passy: seq<u8>, salty: seq<u8>, space: nat, time: nat, delta: nat): (r: Result<Block, Error>)
    ensures space < 1 ==> r == Failure(InvalidSpace)
    ensures space >= 1 && time < 1 ==> r == Failure(InvalidTime)
    ensures space >= 1 && time >= 1 && |salty| < 4 ==> r == Failure(InvalidSalt)
    ensures r.Success? <==> space >= 1 && time >= 1 && |salty| >= 4
    ensures r != Failure(FinalizeBeforeMix) && r != Failure(InvalidFormat)
  {
    if space < 1 then Failure(InvalidSpace)
    else if time < 1 then Failure(InvalidTime)
    else if |salty| < 4 then Failure(InvalidSalt)
    else FinalizeResult(hash, true, BalloonRun(hash, passy, salty, space, time, delta).buf)
  }

  /**
   * On valid input the expansion leaves `space` blocks, mixing keeps the last
   * block equal to the final slot, and the digest is the hash of that slot.
   */
  lemma DigestIsHashOfFinalSlot(hash: Hasher, passy: seq<u8>, salty: seq<u8>, space: nat, time: nat, delta: nat)
    requires space >= 1 && time >= 1 && |salty| >= 4
    ensures var mixed := BalloonRun(hash, passy, salty, space, time, delta);
      && mixed.last == Some(mixed.buf[space - 1])
      && BalloonDigest(hash, passy, salty, space, time, delta) == Success(hash(mixed.last.value))
  {
    var expanded := ExpandSpec(hash, passy, salty, space, Fresh());
    ExpandFillsSpace(hash, passy, salty, space, Fresh());
    MixEndsOnFinalSlot(hash, salty, space, delta, time, expanded);
  }

  /**
   * A run increments the counter `space * (1 + time * (1 + 2 * delta))`
   * times; the `u32` counter ends at that number modulo 2^32, and some
   * increment wrapped (where a debug build panics) iff it exceeds `u32::MAX`.
   */
  lemma CounterTotal(hash: Hasher, passy: seq<u8>, salty: seq<u8>, space: nat, time: nat, delta: nat)
    requires space >= 1
    ensures var mixed := BalloonRun(hash, passy, salty, space, time, delta);
      var total := space * (1 + time * SlotCost(delta));
      && mixed.ticks == total
      && mixed.ctr == Wrap(total)
      && (mixed.wrapped <==> total > MAX_U32)
  {
    var expanded := ExpandSpec(hash, passy, salty, space, Fresh());
    ExpandFillsSpace(hash, passy, salty, space, Fresh());
    TimeRoundsTicks(hash, salty, space, delta, time, expanded);
    TimeRoundsTrackTicks(hash, salty, space, delta, time, expanded);
    Factor(space, time, SlotCost(delta));
  }

  lemma Factor(space: int, time: int, c: int)
    ensures space + time * (space * c) == space * (1 + time * c)
  {
    calc {
      space * (1 + time * c);
      space + space * (time * c);
      { assert space * (time * c) == time * (space * c); }
      space + time * (space * c);
    }
  }

  /** `balloon`: validation, then expand, mix and finalize on a fresh engine. */
  method Balloon(hash: Hasher, passy: seq<u8>, salty: seq<u8>, space: nat, time: nat, delta: nat)
    returns (r: Result<Block, Error>)
    ensures r == BalloonDigest(hash, passy, salty, space, time, delta)
  {
    if space < 1 {
      return Failure(InvalidSpace);
    }
    if time < 1 {
      return Failure(InvalidTime);
    }
    if |salty| < 4 {
      return Failure(InvalidSalt);
    }
    var internal := new Internal(space, time, delta);
    internal.Expand(hash, passy, salty);
    internal.Mix(hash, salty);
    r := internal.Finalize(hash);
  }

  /** What `verify` returns: `balloon`'s error unchanged, else whether the digest matches `val`. */
  function VerifyOutcome(hash: Hasher, val: Block, passy: seq<u8>, salty: seq<u8>, space: nat, time: nat, delta: nat): (r: Result<bool, Error>)
    ensures var d := BalloonDigest(hash, passy, salty, space, time, delta);
      && (d.Failure? ==> r == Failure(d.error))
      && (d.Success? ==> r.Success? && (r.value <==> d.value == val))
  {
    match BalloonDigest(hash, passy, salty, space, time, delta)
    case Success(res) =>
      (match CompareCt(res, val)
       case Some(_) => Success(false)
       case None => Success(true))
    case Failure(e) => Failure(e)
  }

  /** A digest produced by `balloon` verifies against the same arguments. */
  lemma VerifyAcceptsOwnDigest(hash: Hasher, passy: seq<u8>, salty: seq<u8>, space: nat, time: nat, delta: nat)
    requires space >= 1 && time >= 1 && |salty| >= 4
    ensures var d := BalloonDigest(hash, passy, salty, space, time, delta);
      VerifyOutcome(hash, d.value, passy, salty, space, time, delta) == Success(true)
  {
  }

  /** `verify`: recomputes the digest and compares it with `val`. */
  method Verify(hash: Hasher, val: Block, passy: seq<u8>, salty: seq<u8>, space: nat, time: nat, delta: nat)
    returns (r: Result<bool, Error>)
    ensures r == VerifyOutcome(hash, val, passy, salty, space, time, delta)
  {
    var res := Balloon(hash, passy, salty, space, time, delta);
    match res {
      case Success(digest) =>
        var mismatch := CompareCt(digest, val);
        match mismatch {
          case Some(_) => r := Success(false);
          case None => r := Success(true);
        }
      case Failure(e) => r := Failure(e);
    }
  }

  /**
   * The inputs of the `it_works` test: `balloon` succeeds on them, so its
   * `unwrap` cannot panic. The call to `Verify` is an added round trip that
   * the test does not make.
   */
  method ItWorks(hash: Hasher) returns (test: Result<Block, Error>, verdict: Result<bool, Error>)
    ensures test.Success?
    ensures verdict == Success(true)
  {
    var password: seq<u8> := [0, 1, 2, 3, 0, 1, 2, 3];
    var salt: seq<u8> := [0, 1, 2, 3, 3];
    test := Balloon(hash, password, salt, 16, 20, 4);
    verdict := Verify(hash, test.value, password, salt, 16, 20, 4);
  }
}
