/**
 * The Balloon engine of src/internal.rs: expansion, mixing and extraction over
 * a buffer of 64-byte blocks, with a `u32` counter prefixed (big-endian) to
 * every hash input except the final one, which hashes the last block alone.
 *
 * The functions below are the specification: each step function does what one
 * pass of a loop body in the source does to a `State` value, and each
 * `...Rounds` function performs the first `k` passes of a loop. The class
 * `Internal` is the source's struct; its methods run the loops in place and
 * are proved to end in the state those functions compute.
 */
module BalloonInternal {
  import opened Wrappers
  import opened Errors
  import opened Utilz
  import opened Buffer

  /**
   * What the algorithm reads and writes: the buffer, the last block produced,
   * the `u32` counter, and two bookkeeping values that do not exist at run
   * time: how many times the counter was incremented, and whether one of
   * those increments went past `u32::MAX`.
   */
  datatype State = State(buf: seq<Block>, last: Option<Block>, ctr: u32, ticks: nat, wrapped: bool)

  /** The counter is the number of increments modulo 2^32, and it has wrapped iff that number passed `u32::MAX`. */
  ghost predicate CounterTracksTicks(e: State)
  {
    e.ctr == Wrap(e.ticks) && (e.wrapped <==> e.ticks > MAX_U32)
  }

  /** `self.counter = self.counter + 1`. */
  function Advance(e: State): (r: State)
    ensures r.buf == e.buf && r.last == e.last && r.ticks == e.ticks + 1
  {
    State(e.buf, e.last, WrappingInc(e.ctr), e.ticks + 1, e.wrapped || e.ctr as int == MAX_U32)
  }

  /** Every increment keeps the counter equal to the increment count modulo 2^32 and flags the one that wraps. */
  lemma AdvanceTracksTicks(e: State)
    requires CounterTracksTicks(e)
    ensures CounterTracksTicks(Advance(e))
  {
    WrappingIncIsWrap(e.ticks);
  }

  // ---------------------------------------------------------------------
  // Step 1. Expansion
  // ---------------------------------------------------------------------

  /** The first block: counter, then password, then salt; appended and kept as the last block. */
  function ExpandFirst(hash: Hasher, passy: seq<u8>, salty: seq<u8>, e: State): (r: State)
    ensures |r.buf| == |e.buf| + 1 && r.ticks == e.ticks + 1
    ensures r.last == Some(r.buf[|r.buf| - 1])
  {
    var blk := hash(Be32(e.ctr) + passy + salty);
    Advance(e).(buf := e.buf + [blk], last := Some(blk))
  }

  /** One pass of the expansion loop: counter, then the previous block. */
  function ExpandNext(hash: Hasher, e: State): (r: State)
    requires e.last.Some?
    ensures |r.buf| == |e.buf| + 1 && r.ticks == e.ticks + 1
    ensures r.last == Some(r.buf[|r.buf| - 1])
  {
    var blk := hash(Be32(e.ctr) + e.last.value);
    Advance(e).(buf := e.buf + [blk], last := Some(blk))
  }

  /** Passes `1..k+1` of the expansion loop. */
  function ExpandRounds(hash: Hasher, k: nat, e: State): (r: State)
    requires e.last.Some?
    ensures |r.buf| == |e.buf| + k && r.ticks == e.ticks + k && r.last.Some?
    ensures k > 0 ==> r.last == Some(r.buf[|r.buf| - 1])
    decreases k
  {
    if k == 0 then e else ExpandNext(hash, ExpandRounds(hash, k - 1, e))
  }

  /** Number of blocks (and counter increments) of `expand`: the first block, then one per `1..space`. */
  function ExpandCount(space: nat): (n: nat)
    ensures n >= 1
    ensures space >= 1 ==> n == space
    ensures space == 0 ==> n == 1
  {
    if space == 0 then 1 else space
  }

  /** The state `expand` leaves. */
  function ExpandSpec(hash: Hasher, passy: seq<u8>, salty: seq<u8>, space: nat, e: State): (r: State)
    ensures |r.buf| == |e.buf| + ExpandCount(space) && r.ticks == e.ticks + ExpandCount(space)
    ensures r.last.Some?
  {
    ExpandRounds(hash, ExpandCount(space) - 1, ExpandFirst(hash, passy, salty, e))
  }

  /** Expansion keeps the counter equal to the increment count modulo 2^32. */
  lemma {:induction false} ExpandRoundsTrackTicks(hash: Hasher, k: nat, e: State)
    requires e.last.Some? && CounterTracksTicks(e)
    ensures CounterTracksTicks(ExpandRounds(hash, k, e))
  {
    if k > 0 {
      ExpandRoundsTrackTicks(hash, k - 1, e);
      AdvanceTracksTicks(ExpandRounds(hash, k - 1, e));
    }
  }

  /** Expansion passes only append: the blocks already in the buffer are kept. */
  lemma {:induction false} ExpandRoundsKeepsPrefix(hash: Hasher, k: nat, e: State, j: nat)
    requires e.last.Some? && j < |e.buf|
    ensures ExpandRounds(hash, k, e).buf[j] == e.buf[j]
  {
    if k > 0 {
      ExpandRoundsKeepsPrefix(hash, k - 1, e, j);
    }
  }

  /**
   * Block `j` appended by the expansion passes hashes the counter value of its
   * pass and block `j - 1`.
   */
  lemma {:induction false} ExpandRoundsChainLink(hash: Hasher, k: nat, e: State, j: nat)
    requires |e.buf| > 0 && e.last == Some(e.buf[|e.buf| - 1]) && CounterTracksTicks(e)
    requires |e.buf| <= j < |e.buf| + k
    ensures var r := ExpandRounds(hash, k, e);
      r.buf[j] == hash(Be32(Wrap(e.ticks + (j - |e.buf|))) + r.buf[j - 1])
  {
    var prev := ExpandRounds(hash, k - 1, e);
    var r := ExpandRounds(hash, k, e);
    assert r.buf == prev.buf + [hash(Be32(prev.ctr) + prev.last.value)];
    if j < |e.buf| + k - 1 {
      ExpandRoundsChainLink(hash, k - 1, e, j);
      assert r.buf[j] == prev.buf[j] && r.buf[j - 1] == prev.buf[j - 1];
    } else {
      ExpandRoundsTrackTicks(hash, k - 1, e);
      assert prev.ticks == e.ticks + (j - |e.buf|);
      assert prev.ctr == Wrap(e.ticks + (j - |e.buf|));
      assert prev.last == Some(prev.buf[j - 1]);
      assert r.buf[j - 1] == prev.buf[j - 1];
    }
  }

  /**
   * From an empty buffer with `space >= 1`, `expand` leaves exactly `space`
   * blocks forming a hash chain: block 0 hashes the counter, the password and
   * then the salt; block `i` hashes the counter advanced by `i` and block
   * `i - 1`. The counter has advanced by `space` and the last block is slot
   * `space - 1`.
   */
  lemma ExpandFillsSpace(hash: Hasher, passy: seq<u8>, salty: seq<u8>, space: nat, e: State)
    requires space >= 1 && e.buf == [] && CounterTracksTicks(e)
    ensures var r := ExpandSpec(hash, passy, salty, space, e);
      && |r.buf| == space && r.ticks == e.ticks + space && CounterTracksTicks(r)
      && r.buf[0] == hash(Be32(Wrap(e.ticks)) + passy + salty)
      && (forall i :: 1 <= i < space ==> r.buf[i] == hash(Be32(Wrap(e.ticks + i)) + r.buf[i - 1]))
      && r.last == Some(r.buf[space - 1])
  {
    var first := ExpandFirst(hash, passy, salty, e);
    var r := ExpandSpec(hash, passy, salty, space, e);
    assert r == ExpandRounds(hash, space - 1, first);
    AdvanceTracksTicks(e);
    ExpandRoundsTrackTicks(hash, space - 1, first);
    ExpandRoundsKeepsPrefix(hash, space - 1, first, 0);
    forall i | 1 <= i < space
      ensures r.buf[i] == hash(Be32(Wrap(e.ticks + i)) + r.buf[i - 1])
    {
      ExpandRoundsChainLink(hash, space - 1, first, i);
      assert first.ticks + (i - |first.buf|) == e.ticks + i;
    }
  }

  // ---------------------------------------------------------------------
  // Step 2. Mixing
  // ---------------------------------------------------------------------

  /** Counter increments of one inner step: one for step 2a, two per delta step. */
  function SlotCost(delta: nat): (c: nat)
    ensures c >= 1
  {
    1 + 2 * delta
  }

  lemma MulSucc(k: nat, c: int)
    requires k > 0
    ensures (k - 1) * c + c == k * c
  {
  }

  /** Step 2a for slot `s`: counter, the last block produced, then the slot itself. */
  function PredStep(hash: Hasher, space: nat, s: nat, e: State): (r: State)
    requires s < space <= |e.buf| && e.last.Some?
    ensures |r.buf| == |e.buf| && r.ticks == e.ticks + 1
  {
    var blk := hash(Be32(e.ctr) + e.last.value + e.buf[s]);
    Advance(e).(buf := e.buf[s := blk], last := Some(blk))
  }

  /** The pseudo-random slot picked by a challenge digest: the whole digest read little-endian, modulo `space`. */
  function OtherIndex(challenge: Block, space: nat): (other: nat)
    requires space >= 1
    ensures other < space
  {
    ToNum(challenge, true) % space
  }

  /** Step 2b, delta step `d`: a challenge hash picks `other`, then slot `s` is hashed with slot `other`. */
  function DeltaStep(hash: Hasher, salty: seq<u8>, space: nat, t: nat, s: nat, d: nat, e: State): (r: State)
    requires s < space <= |e.buf|
    ensures |r.buf| == |e.buf| && r.ticks == e.ticks + 2
  {
    var challenge := hash(Be32(e.ctr) + salty + Be32(Wrap(t)) + Be32(Wrap(s)) + Be32(Wrap(d)));
    var other := OtherIndex(challenge, space);
    var e1 := Advance(e);
    var blk := hash(Be32(e1.ctr) + e.buf[s] + e.buf[other]);
    Advance(e1).(buf := e.buf[s := blk], last := Some(blk))
  }

  /** Delta steps `0..k` of slot `s` in round `t`. */
  function DeltaRounds(hash: Hasher, salty: seq<u8>, space: nat, t: nat, s: nat, k: nat, e: State): (r: State)
    requires s < space <= |e.buf|
    ensures |r.buf| == |e.buf| && r.ticks == e.ticks + 2 * k
    decreases k
  {
    if k == 0 then e
    else DeltaStep(hash, salty, space, t, s, k - 1, DeltaRounds(hash, salty, space, t, s, k - 1, e))
  }

  /** One pass of the inner loop body for slot `s`: step 2a, then `delta` steps 2b. */
  function SlotStep(hash: Hasher, salty: seq<u8>, space: nat, delta: nat, t: nat, s: nat, e: State): (r: State)
    requires s < space <= |e.buf| && e.last.Some?
    ensures |r.buf| == |e.buf| && r.ticks == e.ticks + SlotCost(delta)
  {
    DeltaRounds(hash, salty, space, t, s, delta, PredStep(hash, space, s, e))
  }

  /** Slots `0..k` of round `t`. */
  function SpaceRounds(hash: Hasher, salty: seq<u8>, space: nat, delta: nat, t: nat, k: nat, e: State): (r: State)
    requires k <= space <= |e.buf| && (k > 0 ==> e.last.Some?)
    ensures |r.buf| == |e.buf|
    ensures k > 0 ==> r.last.Some?
    ensures k == 0 ==> r == e
    decreases k
  {
    if k == 0 then e
    else
      SlotStep(hash, salty, space, delta, t, k - 1, SpaceRounds(hash, salty, space, delta, t, k - 1, e))
  }

  /** Rounds `0..k` of `mix`, each over every slot. */
  function TimeRounds(hash: Hasher, salty: seq<u8>, space: nat, delta: nat, k: nat, e: State): (r: State)
    requires space <= |e.buf| && (k > 0 && space > 0 ==> e.last.Some?)
    ensures |r.buf| == |e.buf|
    ensures k > 0 && space > 0 ==> r.last.Some?
    decreases k
  {
    if k == 0 then e
    else SpaceRounds(hash, salty, space, delta, k - 1, space, TimeRounds(hash, salty, space, delta, k - 1, e))
  }

  /** A round over `k` slots increments the counter `k * (1 + 2 * delta)` times. */
  lemma {:induction false} SpaceRoundsTicks(hash: Hasher, salty: seq<u8>, space: nat, delta: nat, t: nat, k: nat, e: State)
    requires k <= space <= |e.buf| && (k > 0 ==> e.last.Some?)
    ensures SpaceRounds(hash, salty, space, delta, t, k, e).ticks == e.ticks + k * SlotCost(delta)
  {
    if k > 0 {
      SpaceRoundsTicks(hash, salty, space, delta, t, k - 1, e);
      MulSucc(k, SlotCost(delta));
    }
  }

  /** `k` rounds of `mix` increment the counter `k * space * (1 + 2 * delta)` times. */
  lemma {:induction false} TimeRoundsTicks(hash: Hasher, salty: seq<u8>, space: nat, delta: nat, k: nat, e: State)
    requires space <= |e.buf| && (k > 0 && space > 0 ==> e.last.Some?)
    ensures TimeRounds(hash, salty, space, delta, k, e).ticks == e.ticks + k * (space * SlotCost(delta))
  {
    if k > 0 {
      var c := space * SlotCost(delta);
      var prev := TimeRounds(hash, salty, space, delta, k - 1, e);
      TimeRoundsTicks(hash, salty, space, delta, k - 1, e);
      SpaceRoundsTicks(hash, salty, space, delta, k - 1, space, prev);
      assert TimeRounds(hash, salty, space, delta, k, e).ticks == prev.ticks + c;
      MulSucc(k, c);
    }
  }

  /** Delta steps write only slot `s`, and afterwards the last block is that slot. */
  lemma {:induction false} DeltaRoundsTouchOnlySlot(hash: Hasher, salty: seq<u8>, space: nat, t: nat, s: nat, k: nat, e: State)
    requires s < space <= |e.buf| && e.last == Some(e.buf[s])
    ensures var r := DeltaRounds(hash, salty, space, t, s, k, e);
      && r.last == Some(r.buf[s])
      && forall j :: 0 <= j < |r.buf| && j != s ==> r.buf[j] == e.buf[j]
  {
    if k > 0 {
      DeltaRoundsTouchOnlySlot(hash, salty, space, t, s, k - 1, e);
    }
  }

  /** Inner step `s` rewrites slot `s` only; the buffer length and every other slot are unchanged. */
  lemma SlotStepTouchesOnlySlot(hash: Hasher, salty: seq<u8>, space: nat, delta: nat, t: nat, s: nat, e: State)
    requires s < space <= |e.buf| && e.last.Some?
    ensures var r := SlotStep(hash, salty, space, delta, t, s, e);
      && |r.buf| == |e.buf|
      && r.last == Some(r.buf[s])
      && forall j :: 0 <= j < |r.buf| && j != s ==> r.buf[j] == e.buf[j]
  {
    DeltaRoundsTouchOnlySlot(hash, salty, space, t, s, delta, PredStep(hash, space, s, e));
  }

  lemma ModSmall(x: nat, m: nat)
    requires x < m
    ensures x % m == x
  {
    assert x == 0 * m + x;
  }

  lemma ModOnce(x: nat, m: nat)
    requires 0 < m <= x < 2 * m
    ensures x % m == x - m
  {
    assert x == 1 * m + (x - m);
  }

  /**
   * Within a round that starts with `last` equal to the final slot, the block
   * hashed with slot `s` at step 2a is its circular predecessor.
   */
  lemma {:induction false} LastIsCircularPredecessor(hash: Hasher, salty: seq<u8>, space: nat, delta: nat, t: nat, s: nat, e: State)
    requires 1 <= space <= |e.buf| && s <= space && e.last == Some(e.buf[space - 1])
    ensures var r := SpaceRounds(hash, salty, space, delta, t, s, e);
      r.last == Some(r.buf[(s + space - 1) % space])
  {
    if s == 0 {
      assert SpaceRounds(hash, salty, space, delta, t, 0, e) == e;
      ModSmall(space - 1, space);
    } else {
      LastIsPreviousSlot(hash, salty, space, delta, t, s, e);
      ModOnce(s + space - 1, space);
    }
  }

  /** After slots `0..s` of a round, with `s > 0`, the last block is slot `s - 1`. */
  lemma LastIsPreviousSlot(hash: Hasher, salty: seq<u8>, space: nat, delta: nat, t: nat, s: nat, e: State)
    requires 0 < s <= space <= |e.buf| && e.last.Some?
    ensures var r := SpaceRounds(hash, salty, space, delta, t, s, e);
      r.last == Some(r.buf[s - 1])
  {
    SlotStepTouchesOnlySlot(hash, salty, space, delta, t, s - 1, SpaceRounds(hash, salty, space, delta, t, s - 1, e));
  }

  /** Mixing from a state whose last block is the final slot keeps it that way, so extraction hashes exactly that block. */
  lemma {:induction false} MixEndsOnFinalSlot(hash: Hasher, salty: seq<u8>, space: nat, delta: nat, k: nat, e: State)
    requires 1 <= space <= |e.buf| && e.last == Some(e.buf[space - 1])
    ensures var r := TimeRounds(hash, salty, space, delta, k, e);
      r.last == Some(r.buf[space - 1])
  {
    if k > 0 {
      MixEndsOnFinalSlot(hash, salty, space, delta, k - 1, e);
      var prev := TimeRounds(hash, salty, space, delta, k - 1, e);
      LastIsCircularPredecessor(hash, salty, space, delta, k - 1, space, prev);
      ModOnce(space + space - 1, space);
    }
  }

  /** Delta steps keep the counter equal to the increment count modulo 2^32. */
  lemma {:induction false} DeltaRoundsTrackTicks(hash: Hasher, salty: seq<u8>, space: nat, t: nat, s: nat, k: nat, e: State)
    requires s < space <= |e.buf| && CounterTracksTicks(e)
    ensures CounterTracksTicks(DeltaRounds(hash, salty, space, t, s, k, e))
  {
    if k > 0 {
      var prev := DeltaRounds(hash, salty, space, t, s, k - 1, e);
      DeltaRoundsTrackTicks(hash, salty, space, t, s, k - 1, e);
      AdvanceTracksTicks(prev);
      AdvanceTracksTicks(Advance(prev));
    }
  }

  /** Slots of one round keep the counter equal to the increment count modulo 2^32. */
  lemma {:induction false} SpaceRoundsTrackTicks(hash: Hasher, salty: seq<u8>, space: nat, delta: nat, t: nat, k: nat, e: State)
    requires k <= space <= |e.buf| && (k > 0 ==> e.last.Some?) && CounterTracksTicks(e)
    ensures CounterTracksTicks(SpaceRounds(hash, salty, space, delta, t, k, e))
  {
    if k > 0 {
      var prev := SpaceRounds(hash, salty, space, delta, t, k - 1, e);
      SpaceRoundsTrackTicks(hash, salty, space, delta, t, k - 1, e);
      AdvanceTracksTicks(prev);
      DeltaRoundsTrackTicks(hash, salty, space, t, k - 1, delta, PredStep(hash, space, k - 1, prev));
    }
  }

  /** The whole mix keeps the counter equal to the increment count modulo 2^32. */
  lemma {:induction false} TimeRoundsTrackTicks(hash: Hasher, salty: seq<u8>, space: nat, delta: nat, k: nat, e: State)
    requires space <= |e.buf| && (k > 0 && space > 0 ==> e.last.Some?) && CounterTracksTicks(e)
    ensures CounterTracksTicks(TimeRounds(hash, salty, space, delta, k, e))
  {
    if k > 0 {
      TimeRoundsTrackTicks(hash, salty, space, delta, k - 1, e);
      SpaceRoundsTrackTicks(hash, salty, space, delta, k - 1, space, TimeRounds(hash, salty, space, delta, k - 1, e));
    }
  }

  // ---------------------------------------------------------------------
  // Step 3. Extraction
  // ---------------------------------------------------------------------

  /** What `finalize` returns for a buffer: the hash of its last block once mixed, `FinalizeBeforeMix` before. */
  function FinalizeResult(hash: Hasher, hasMixed: bool, buf: seq<Block>): (r: Result<Block, Error>)
    requires hasMixed ==> |buf| > 0
    ensures r == Failure(FinalizeBeforeMix) <==> !hasMixed
    ensures hasMixed ==> r == Success(hash(buf[|buf| - 1]))
  {
    if hasMixed then Success(hash(buf[|buf| - 1])) else Failure(FinalizeBeforeMix)
  }

  // ---------------------------------------------------------------------
  // The engine
  // ---------------------------------------------------------------------

  /** `Internal`: the buffer, the last block, the `u32` counter, the three costs and the mixed flag. */
  class Internal {
    const buffer: SpaceHandler<Block>
    var lastBlock: Option<Block>
    var counter: u32
    const space: nat
    const time: nat
    const delta: nat
    var hasMixed: bool

    /** How many times the counter was incremented. */
    ghost var ticks: nat
    /** Whether some increment went past `u32::MAX` (where a debug build panics and a release build wraps). */
    ghost var overflowed: bool

    ghost function View(): State
      reads this, buffer
    {
      State(buffer.back, lastBlock, counter, ticks, overflowed)
    }

    /** The fresh state `balloon` builds: empty buffer, no last block, counter 0, not mixed. */
    constructor (space: nat, time: nat, delta: nat)
      ensures fresh(buffer)
      ensures this.space == space && this.time == time && this.delta == delta
      ensures View() == State([], None, 0, 0, false) && !hasMixed
    {
      buffer := new SpaceHandler.Allocate(space);
      lastBlock := None;
      counter := 0;
      this.space := space;
      this.time := time;
      this.delta := delta;
      hasMixed := false;
      ticks := 0;
      overflowed := false;
    }

    /** Feeds the counter to a hash input, then increments it. */
    method Tick() returns (prefix: seq<u8>)
      modifies this`counter, this`ticks, this`overflowed
      ensures prefix == Be32(old(counter))
      ensures View() == Advance(old(View()))
    {
      prefix := Be32(counter);
      overflowed := overflowed || counter as int == MAX_U32;
      counter := WrappingInc(counter);
      ticks := ticks + 1;
    }

    /** Lines of `expand` before its loop: the first block, from the counter, the password and the salt. */
    method ExpandFirstBlock(hash: Hasher, passy: seq<u8>, salty: seq<u8>)
      modifies this`counter, this`ticks, this`overflowed, this`lastBlock, buffer
      ensures View() == ExpandFirst(hash, passy, salty, old(View()))
    {
      var prefix := Tick();
      var blk := hash(prefix + passy + salty);
      lastBlock := Some(blk);
      buffer.Insert(blk);
    }

    /** One pass of the `expand` loop: the next block, from the counter and the last block. */
    method ExpandNextBlock(hash: Hasher)
      requires lastBlock.Some?
      modifies this`counter, this`ticks, this`overflowed, this`lastBlock, buffer
      ensures View() == ExpandNext(hash, old(View()))
    {
      var prefix := Tick();
      var blk := hash(prefix + lastBlock.value);
      lastBlock := Some(blk);
      buffer.Insert(blk);
    }

    /** `expand`: appends the hash chain of password and salt to the buffer. */
    method Expand(hash: Hasher, passy: seq<u8>, salty: seq<u8>)
      modifies this`counter, this`ticks, this`overflowed, this`lastBlock, buffer
      ensures View() == ExpandSpec(hash, passy, salty, space, old(View()))
    {
      ExpandFirstBlock(hash, passy, salty);
      ghost var first := View();
      var i := 1;
      while i < space
        invariant 1 <= i <= ExpandCount(space)
        invariant View() == ExpandRounds(hash, i - 1, first)
      {
        ExpandNextBlock(hash);
        i := i + 1;
      }
    }

    /** Step 2a for slot `s`: hash the counter, the last block and the slot into the slot. */
    method MixPred(hash: Hasher, s: nat)
      requires s < space <= |buffer.back| && lastBlock.Some?
      modifies this`counter, this`ticks, this`overflowed, this`lastBlock, buffer
      ensures View() == PredStep(hash, space, s, old(View()))
    {
      var prefix := Tick();
      var blk := hash(prefix + lastBlock.value + buffer.Index(s));
      lastBlock := Some(blk);
      buffer.IndexMut(s, blk);
    }

    /** Step 2b, delta step `d` of slot `s` in round `t`: a challenge picks `other`, then slot `s` absorbs it. */
    method MixDelta(hash: Hasher, salty: seq<u8>, t: nat, s: nat, d: nat)
      requires s < space <= |buffer.back|
      modifies this`counter, this`ticks, this`overflowed, this`lastBlock, buffer
      ensures View() == DeltaStep(hash, salty, space, t, s, d, old(View()))
    {
      var prefix := Tick();
      var challenge := hash(prefix + salty + Be32(Wrap(t)) + Be32(Wrap(s)) + Be32(Wrap(d)));
      var other := ToNum(challenge, true) % space;
      prefix := Tick();
      var blk := hash(prefix + buffer.Index(s) + buffer.Index(other));
      lastBlock := Some(blk);
      buffer.IndexMut(s, blk);
    }

    /** One pass of the `mix` loop over slots: step 2a, then `delta` steps 2b. */
    method MixSlot(hash: Hasher, salty: seq<u8>, t: nat, s: nat)
      requires s < space <= |buffer.back| && lastBlock.Some?
      modifies this`counter, this`ticks, this`overflowed, this`lastBlock, buffer
      ensures View() == SlotStep(hash, salty, space, delta, t, s, old(View()))
    {
      MixPred(hash, s);
      ghost var afterPred := View();
      var d := 0;
      while d < delta
        invariant d <= delta
        invariant View() == DeltaRounds(hash, salty, space, t, s, d, afterPred)
      {
        MixDelta(hash, salty, t, s, d);
        d := d + 1;
      }
    }

    /** Round `t` of `mix`: every slot in order. */
    method MixRound(hash: Hasher, salty: seq<u8>, t: nat)
      requires space <= |buffer.back| && (space > 0 ==> lastBlock.Some?)
      modifies this`counter, this`ticks, this`overflowed, this`lastBlock, buffer
      ensures View() == SpaceRounds(hash, salty, space, delta, t, space, old(View()))
    {
      var s := 0;
      while s < space
        invariant s <= space
        invariant View() == SpaceRounds(hash, salty, space, delta, t, s, old(View()))
      {
        MixSlot(hash, salty, t, s);
        s := s + 1;
      }
    }

    /** `mix`: `time` rounds over every slot, then marks the engine mixed. */
    method Mix(hash: Hasher, salty: seq<u8>)
      requires space <= |buffer.back|
      requires time > 0 && space > 0 ==> lastBlock.Some?
      modifies this`counter, this`ticks, this`overflowed, this`lastBlock, this`hasMixed, buffer
      ensures hasMixed
      ensures View() == TimeRounds(hash, salty, space, delta, time, old(View()))
    {
      var t := 0;
      while t < time
        invariant t <= time
        invariant View() == TimeRounds(hash, salty, space, delta, t, old(View()))
      {
        MixRound(hash, salty, t);
        t := t + 1;
      }
      hasMixed := true;
    }

    /** `finalize`: once mixed, pops the last block and returns its hash. */
    method Finalize(hash: Hasher) returns (r: Result<Block, Error>)
      requires hasMixed ==> |buffer.back| > 0
      modifies buffer
      ensures r == FinalizeResult(hash, hasMixed, old(buffer.back))
      ensures hasMixed ==> buffer.back == old(buffer.back)[..|old(buffer.back)| - 1]
      ensures !hasMixed ==> buffer.back == old(buffer.back)
    {
      if hasMixed {
        var top := buffer.back[|buffer.back| - 1];
        buffer.back := buffer.back[..|buffer.back| - 1];
        r := Success(hash(top));
      } else {
        r := Failure(FinalizeBeforeMix);
      }
    }
  }
}
