/**
  The stream mixer of mix_wav.c: N stereo inputs are read block by block,
  summed position by position (an exhausted input adds nothing, i.e. silence),
  divided by N, clamped to [-1, 1] and written, one full block per iteration,
  until every input has been read to its end. The program's block is
  BUFFER_LEN = 1024 frames; here the block length is a parameter.
 */
module Mixer {
  import opened SoundFile

  /** The program takes exactly six inputs (argc == 8). */
  const NUM_INPUTS := 6
  /** Every input, and so the output, is stereo. */
  const STEREO := 2

  // ---------------------------------------------------------------------------
  // Clamping

  /** Saturates a sample to the valid range [-1, 1]. */
  function Clamp(x: real): (r: real)
    ensures -1.0 <= r <= 1.0
    ensures r == x <==> -1.0 <= x <= 1.0
    ensures x >= 1.0 ==> r == 1.0
    ensures x <= -1.0 ==> r == -1.0
  {
    if x > 1.0 then 1.0
    else if x < -1.0 then -1.0
    else x
  }

  function Abs(x: real): real { if x < 0.0 then -x else x }

  /** The clamped value is the point of [-1, 1] nearest to the input. */
  lemma ClampIsNearest(x: real, y: real)
    requires -1.0 <= y <= 1.0
    ensures Abs(Clamp(x) - x) <= Abs(y - x)
  {
  }

  /** Clamping twice is clamping once. */
  lemma ClampIdempotent(x: real)
    ensures Clamp(Clamp(x)) == Clamp(x)
  {
  }

  /** Clamping never reorders samples. */
  lemma ClampMonotone(x: real, y: real)
    requires x <= y
    ensures Clamp(x) <= Clamp(y)
  {
  }

  // ---------------------------------------------------------------------------
  // Longest input

  /** The largest frame count, starting from 0 as the scan does. */
  function MaxFrames(fs: seq<nat>): nat
  {
    if |fs| == 0 then 0
    else
      var m := MaxFrames(fs[..|fs| - 1]);
      if fs[|fs| - 1] > m then fs[|fs| - 1] else m
  }

  /** MaxFrames bounds every frame count and is one of them (0 when there are none). */
  lemma {:induction false} MaxFramesIsMaximum(fs: seq<nat>)
    ensures forall i :: 0 <= i < |fs| ==> fs[i] <= MaxFrames(fs)
    ensures |fs| > 0 ==> MaxFrames(fs) in fs
    ensures |fs| == 0 ==> MaxFrames(fs) == 0
  {
    if |fs| > 0 {
      var init := fs[..|fs| - 1];
      MaxFramesIsMaximum(init);
      assert forall i :: 0 <= i < |init| ==> fs[i] == init[i];
    }
  }

  /** The scan for the longest input. */
  method LongestInput(fs: seq<nat>) returns (maxFrames: nat)
    ensures maxFrames == MaxFrames(fs)
  {
    maxFrames := 0;
    for i := 0 to |fs|
      invariant maxFrames == MaxFrames(fs[..i])
    {
      assert fs[..i + 1][..i] == fs[..i];
      if fs[i] > maxFrames {
        maxFrames := fs[i];
      }
    }
    assert fs[..|fs|] == fs;
  }

  // ---------------------------------------------------------------------------
  // What the mix computes

  /** Sample `k` of an input, or silence once the input is exhausted. */
  function Padded(s: seq<real>, k: nat): (r: real)
    ensures k >= |s| ==> r == 0.0
    ensures k < |s| ==> r == s[k]
  {
    if k < |s| then s[k] else 0.0
  }

  /** The sum, over the inputs in order, of each input's (padded) sample at interleaved position `k`. */
  function SumAt(tracks: seq<seq<real>>, k: nat): (r: real)
    ensures (forall i :: 0 <= i < |tracks| ==> |tracks[i]| <= k) ==> r == 0.0
  {
    if |tracks| == 0 then 0.0
    else SumAt(tracks[..|tracks| - 1], k) + Padded(tracks[|tracks| - 1], k)
  }

  /** The output sample at interleaved position `k`: the clamped average. */
  function MixedSample(tracks: seq<seq<real>>, k: nat): (r: real)
    requires |tracks| > 0
    ensures -1.0 <= r <= 1.0
  {
    Clamp(SumAt(tracks, k) / (|tracks| as real))
  }

  /**
    Frames written for a longest input of `maxFrames` frames with blocks of
    `blockLen`: one block, and one more for as long as frames remain after it.
   */
  function OutputFrames(maxFrames: nat, blockLen: nat): nat
    requires blockLen > 0
    decreases maxFrames
  {
    if maxFrames <= blockLen then blockLen
    else blockLen + OutputFrames(maxFrames - blockLen, blockLen)
  }

  /** The number of blocks the mixing loop runs. */
  function BlockCount(maxFrames: nat, blockLen: nat): nat
    requires blockLen > 0
    decreases maxFrames
  {
    if maxFrames <= blockLen then 1
    else 1 + BlockCount(maxFrames - blockLen, blockLen)
  }

  /**
    The loop runs max(1, ceil(maxFrames / blockLen)) times, i.e. the least
    count of at least one whose blocks cover every frame, and writes that many
    whole blocks: never fewer frames than the longest input, never a block more.
   */
  lemma {:induction false} OutputFramesAreWholeBlocks(maxFrames: nat, blockLen: nat)
    requires blockLen > 0
    ensures OutputFrames(maxFrames, blockLen) == BlockCount(maxFrames, blockLen) * blockLen
    ensures BlockCount(maxFrames, blockLen) >= 1
    ensures BlockCount(maxFrames, blockLen) * blockLen >= maxFrames
    ensures BlockCount(maxFrames, blockLen) == 1 || (BlockCount(maxFrames, blockLen) - 1) * blockLen < maxFrames
    ensures maxFrames <= OutputFrames(maxFrames, blockLen) < maxFrames + blockLen || maxFrames == 0
    decreases maxFrames
  {
    if maxFrames > blockLen {
      OutputFramesAreWholeBlocks(maxFrames - blockLen, blockLen);
      var b := BlockCount(maxFrames - blockLen, blockLen);
      assert (1 + b) * blockLen == blockLen + b * blockLen;
    }
  }

  /**
    `pos` frames have been written and the loop goes on: `pos` is a block
    boundary short of the longest input (or the start), and the blocks still
    to come make up the rest of the output.
   */
  ghost predicate MoreBlocksFollow(maxFrames: nat, blockLen: nat, pos: nat)
    requires blockLen > 0
  {
    (pos == 0 || pos < maxFrames) && pos + OutputFrames(maxFrames - pos, blockLen) == OutputFrames(maxFrames, blockLen)
  }

  /** Advancing the loop by one block: either the blocks now cover the longest input and the loop has written all it will, or more blocks follow. */
  lemma OutputFramesStep(maxFrames: nat, blockLen: nat, pos: nat)
    requires blockLen > 0 && MoreBlocksFollow(maxFrames, blockLen, pos)
    ensures pos + blockLen <= OutputFrames(maxFrames, blockLen)
    ensures pos + blockLen >= maxFrames ==> pos + blockLen == OutputFrames(maxFrames, blockLen)
    ensures pos + blockLen < maxFrames ==> MoreBlocksFollow(maxFrames, blockLen, pos + blockLen)
  {
  }

  /** The whole output, interleaved: every position of every written block is a mixed sample. */
  function Mixed(tracks: seq<seq<real>>, frames: seq<nat>, blockLen: nat): (r: seq<real>)
    requires |tracks| > 0 && blockLen > 0
    ensures |r| == STEREO * OutputFrames(MaxFrames(frames), blockLen)
    ensures forall k :: 0 <= k < |r| ==> -1.0 <= r[k] <= 1.0
  {
    seq(STEREO * OutputFrames(MaxFrames(frames), blockLen), k requires 0 <= k => MixedSample(tracks, k))
  }

  /** Removing an input that is exhausted at position `k` leaves the sum at `k` unchanged: it contributed silence. */
  lemma {:induction false} ExhaustedInputIsSilent(tracks: seq<seq<real>>, i: nat, k: nat)
    requires i < |tracks| && k >= |tracks[i]|
    ensures SumAt(tracks, k) == SumAt(tracks[..i] + tracks[i + 1..], k)
    decreases |tracks|
  {
    var n := |tracks|;
    var rest := tracks[..i] + tracks[i + 1..];
    if i == n - 1 {
      assert rest == tracks[..n - 1];
    } else {
      var init := tracks[..n - 1];
      var initRest := init[..i] + init[i + 1..];
      assert init[i] == tracks[i];
      ExhaustedInputIsSilent(init, i, k);
      assert |rest| == n - 1 && |initRest| == n - 2;
      forall m | 0 <= m < n - 2
        ensures rest[m] == initRest[m]
      {
        if m < i {
          assert rest[m] == tracks[m] && initRest[m] == init[m];
        } else {
          assert rest[m] == tracks[m + 1] && initRest[m] == init[m + 1];
        }
      }
      assert rest[..n - 2] == initRest;
      assert rest[n - 2] == tracks[n - 1];
    }
  }

  /** The samples of the last block that lie past the longest input are written as silence. */
  lemma MixPastLongestIsSilent(tracks: seq<seq<real>>, k: nat)
    requires |tracks| > 0
    requires forall i :: 0 <= i < |tracks| ==> |tracks[i]| <= k
    ensures MixedSample(tracks, k) == 0.0
  {
  }

  /** `n` copies of one input sum to `n` times its sample. */
  lemma {:induction false} SumOfCopies(s: seq<real>, n: nat, k: nat)
    ensures SumAt(seq(n, _ => s), k) == (n as real) * Padded(s, k)
  {
    if n > 0 {
      SumOfCopies(s, n - 1, k);
      assert seq(n, _ => s)[..n - 1] == seq(n - 1, _ => s);
    }
  }

  /** Mixing `n` copies of one input gives back that input's sample, clamped: 1/n cancels the n-fold sum. */
  lemma MixOfCopies(s: seq<real>, n: nat, k: nat)
    requires n > 0
    ensures MixedSample(seq(n, _ => s), k) == Clamp(Padded(s, k))
  {
    var copies := seq(n, _ => s);
    SumOfCopies(s, n, k);
    CancelFactor(n as real, Padded(s, k));
    assert SumAt(copies, k) / (|copies| as real) == Padded(s, k);
  }

  lemma CancelFactor(b: real, a: real)
    requires b != 0.0
    ensures b * a / b == a
  {
  }

  // ---------------------------------------------------------------------------
  // The program

  function Objs(ins: seq<ReadStream>): set<ReadStream>
  {
    set i | 0 <= i < |ins| :: ins[i]
  }

  /** The inputs are opened separately, so no two of them share a cursor. */
  ghost predicate Distinct(ins: seq<ReadStream>)
  {
    forall i, j :: 0 <= i < j < |ins| ==> ins[i] != ins[j]
  }

  function Tracks(ins: seq<ReadStream>): seq<seq<real>>
  {
    seq(|ins|, i requires 0 <= i < |ins| => ins[i].data)
  }

  function FrameCounts(ins: seq<ReadStream>): seq<nat>
  {
    seq(|ins|, i requires 0 <= i < |ins| => ins[i].info.frames)
  }

  /** Every input can be opened and is stereo. */
  predicate Usable(ins: seq<ReadStream>)
  {
    forall i :: 0 <= i < |ins| ==> ins[i].openable && ins[i].info.channels == STEREO
  }

  /** Closes the first `n` inputs. */
  method CloseFirst(ins: seq<ReadStream>, n: nat)
    requires n <= |ins| && Distinct(ins)
    modifies Objs(ins)
    ensures forall i :: 0 <= i < |ins| ==> ins[i].cursor == old(ins[i].cursor)
    ensures forall i :: 0 <= i < |ins| ==> ins[i].isOpen == (if i < n then false else old(ins[i].isOpen))
  {
    for j := 0 to n
      invariant forall i :: 0 <= i < |ins| ==> ins[i].cursor == old(ins[i].cursor)
      invariant forall i :: 0 <= i < |ins| ==> ins[i].isOpen == (if i < j then false else old(ins[i].isOpen))
    {
      ins[j].Close();
    }
  }

  /** Zeroes the accumulator. */
  method ZeroBlock(acc: array<real>)
    modifies acc
    ensures forall p :: 0 <= p < acc.Length ==> acc[p] == 0.0
  {
    for i := 0 to acc.Length
      invariant forall p :: 0 <= p < i ==> acc[p] == 0.0
    {
      acc[i] := 0.0;
    }
  }

  /** Adds the `frames` stereo frames just read into the accumulator at position `j * 2 + ch`; the rest gets nothing. */
  method AccumulateBlock(acc: array<real>, buf: array<real>, frames: nat)
    requires acc != buf
    requires frames * STEREO <= acc.Length && frames * STEREO <= buf.Length
    modifies acc
    ensures forall p :: 0 <= p < acc.Length ==> acc[p] == old(acc[p]) + (if p < frames * STEREO then buf[p] else 0.0)
  {
    for j := 0 to frames
      invariant forall p :: 0 <= p < acc.Length ==> acc[p] == old(acc[p]) + (if p < j * STEREO then buf[p] else 0.0)
    {
      for ch := 0 to STEREO
        invariant forall p :: 0 <= p < acc.Length ==> acc[p] == old(acc[p]) + (if p < j * STEREO + ch then buf[p] else 0.0)
      {
        var pos := j * STEREO + ch;
        acc[pos] := acc[pos] + buf[pos];
      }
    }
  }

  /** Divides every accumulated sample by the number of inputs and clamps it. */
  method NormalizeBlock(acc: array<real>, numInputs: nat)
    requires numInputs > 0
    modifies acc
    ensures forall p :: 0 <= p < acc.Length ==> acc[p] == Clamp(old(acc[p]) / (numInputs as real))
  {
    for i := 0 to acc.Length
      invariant forall p :: 0 <= p < i ==> acc[p] == Clamp(old(acc[p]) / (numInputs as real))
      invariant forall p :: i <= p < acc.Length ==> acc[p] == old(acc[p])
    {
      acc[i] := Clamp(acc[i] / (numInputs as real));
    }
  }

  /**
    What one read contributes at block offset `p`: the input's own sample when
    `p` lies among the frames read, silence otherwise, which is the padded sample.
   */
  lemma ReadContribution(s: seq<real>, frames: nat, pos: nat, blockLen: nat, got: nat, block: seq<real>, p: nat)
    requires |s| == STEREO * frames
    requires got == Min(blockLen, frames - Min(frames, pos))
    requires STEREO * Min(frames, pos) + |block| <= |s| && |block| == STEREO * got
    requires block == s[STEREO * Min(frames, pos) .. STEREO * Min(frames, pos) + |block|]
    requires p < STEREO * blockLen
    ensures (if p < |block| then block[p] else 0.0) == Padded(s, STEREO * pos + p)
  {
  }

  /**
    One block's accumulation: reads up to `blockLen` frames from each input in
    turn and adds them in, so that afterwards position `p` of the accumulator
    holds the sum over all inputs of their padded sample at the block's `p`.
   */
  method AccumulateInputs(ins: seq<ReadStream>, acc: array<real>, inBuf: array<real>, blockLen: nat, ghost pos: nat)
    requires |ins| > 0 && Distinct(ins) && acc != inBuf
    requires acc.Length == blockLen * STEREO && inBuf.Length == blockLen * STEREO
    requires PositionedAt(ins, pos)
    requires forall p :: 0 <= p < acc.Length ==> acc[p] == 0.0
    modifies Objs(ins), acc, inBuf
    ensures PositionedAt(ins, pos + blockLen)
    ensures forall p :: 0 <= p < acc.Length ==> acc[p] == SumAt(Tracks(ins), STEREO * pos + p)
  {
    ghost var tracks := Tracks(ins);
    for i := 0 to |ins|
      invariant forall j :: 0 <= j < |ins| ==> ins[j].Valid() && ins[j].isOpen && ins[j].info.channels == STEREO
      invariant forall j :: 0 <= j < |ins| ==> ins[j].cursor == Min(ins[j].info.frames, if j < i then pos + blockLen else pos)
      invariant forall p :: 0 <= p < acc.Length ==> acc[p] == SumAt(tracks[..i], STEREO * pos + p)
    {
      AddInput(ins[i], acc, inBuf, blockLen, pos, tracks[..i]);
      assert tracks[..i] + [ins[i].data] == tracks[..i + 1];
    }
    assert tracks[..|ins|] == tracks;
  }

  /**
    The body of the accumulation for one input: read up to `blockLen` frames
    and add sample `j * 2 + ch` of the block into the accumulator for every
    frame `j` read, so that the accumulator gains this input's padded samples.
   */
  method AddInput(input: ReadStream, acc: array<real>, inBuf: array<real>, blockLen: nat, ghost pos: nat, ghost before: seq<seq<real>>)
    requires acc != inBuf
    requires acc.Length == blockLen * STEREO && inBuf.Length == blockLen * STEREO
    requires input.Valid() && input.isOpen && input.info.channels == STEREO
    requires input.cursor == Min(input.info.frames, pos)
    requires forall p :: 0 <= p < acc.Length ==> acc[p] == SumAt(before, STEREO * pos + p)
    modifies input`cursor, acc, inBuf
    ensures input.Valid() && input.cursor == Min(input.info.frames, pos + blockLen)
    ensures forall p :: 0 <= p < acc.Length ==> acc[p] == SumAt(before + [input.data], STEREO * pos + p)
  {
    ghost var c := input.cursor;
    var got := input.ReadFrames(inBuf, blockLen);
    assert got * input.info.channels == STEREO * got;
    ghost var block := inBuf[..STEREO * got];
    assert block == input.data[STEREO * c .. STEREO * c + STEREO * got];
    AccumulateBlock(acc, inBuf, got);
    assert (before + [input.data])[..|before|] == before;
    forall p | 0 <= p < acc.Length
      ensures acc[p] == SumAt(before, STEREO * pos + p) + Padded(input.data, STEREO * pos + p)
    {
      ReadContribution(input.data, input.info.frames, pos, blockLen, got, block, p);
    }
  }

  /** Every input is open, stereo, and positioned at frame min(frames, pos). */
  ghost predicate PositionedAt(ins: seq<ReadStream>, pos: nat)
    reads Objs(ins)
  {
    forall i :: 0 <= i < |ins| ==>
      ins[i].Valid() && ins[i].isOpen && ins[i].info.channels == STEREO && ins[i].cursor == Min(ins[i].info.frames, pos)
  }

  /** Every sample written so far is the mixed sample for its position. */
  ghost predicate IsMixPrefix(written: seq<real>, tracks: seq<seq<real>>)
    requires |tracks| > 0
  {
    forall k :: 0 <= k < |written| ==> written[k] == MixedSample(tracks, k)
  }

  /** A mixed prefix as long as the whole output is the whole output. */
  lemma MixPrefixIsWhole(written: seq<real>, tracks: seq<seq<real>>, frames: seq<nat>, blockLen: nat)
    requires |tracks| > 0 && blockLen > 0
    requires IsMixPrefix(written, tracks) && |written| == STEREO * OutputFrames(MaxFrames(frames), blockLen)
    ensures written == Mixed(tracks, frames, blockLen)
  {
  }

  /** Whether some input's read position is still short of its frame count. */
  method AnyActive(ins: seq<ReadStream>) returns (anyActive: bool)
    ensures anyActive <==> exists i :: 0 <= i < |ins| && ins[i].cursor < ins[i].info.frames
  {
    anyActive := false;
    for j := 0 to |ins|
      invariant anyActive <==> exists i :: 0 <= i < j && ins[i].cursor < ins[i].info.frames
    {
      var at := ins[j].Tell();
      if at < ins[j].info.frames {
        anyActive := true;
      }
    }
  }

  /** Appending a block of mixed samples for block position `pos` extends a mixed prefix. */
  lemma WrittenBlockExtendsMix(tracks: seq<seq<real>>, before: seq<real>, block: seq<real>, pos: nat, blockLen: nat)
    requires |tracks| > 0
    requires |before| == STEREO * pos && |block| == STEREO * blockLen
    requires IsMixPrefix(before, tracks)
    requires forall p :: 0 <= p < |block| ==> block[p] == MixedSample(tracks, STEREO * pos + p)
    ensures IsMixPrefix(before + block, tracks)
  {
    forall k | 0 <= k < |before + block|
      ensures (before + block)[k] == MixedSample(tracks, k)
    {
      if k >= |before| {
        assert (before + block)[k] == block[k - STEREO * pos];
      }
    }
  }

  /** Once every cursor stands at min(frames, pos), some input is still active exactly when `pos` is short of the longest input. */
  lemma ActiveUntilLongestEnds(ins: seq<ReadStream>, maxFrames: nat, pos: nat)
    requires maxFrames == MaxFrames(FrameCounts(ins))
    requires PositionedAt(ins, pos)
    ensures (exists i :: 0 <= i < |ins| && ins[i].cursor < ins[i].info.frames) <==> pos < maxFrames
  {
    var fs := FrameCounts(ins);
    MaxFramesIsMaximum(fs);
    if pos < maxFrames {
      var m :| 0 <= m < |fs| && fs[m] == maxFrames;
      assert ins[m].cursor < ins[m].info.frames;
    } else {
      forall i | 0 <= i < |ins|
        ensures ins[i].cursor == ins[i].info.frames
      {
        assert fs[i] == ins[i].info.frames;
      }
    }
  }

  /**
    The samples of one block: zero the accumulator, add in one block of every
    input, then normalize and clamp. Every input advances by one block.
   */
  method MixBlock(ins: seq<ReadStream>, outBuf: array<real>, inBuf: array<real>, blockLen: nat, ghost pos: nat)
    requires |ins| > 0 && Distinct(ins) && outBuf != inBuf
    requires outBuf.Length == blockLen * STEREO && inBuf.Length == blockLen * STEREO
    requires PositionedAt(ins, pos)
    modifies Objs(ins), outBuf, inBuf
    ensures PositionedAt(ins, pos + blockLen)
    ensures forall p :: 0 <= p < outBuf.Length ==> outBuf[p] == MixedSample(Tracks(ins), STEREO * pos + p)
  {
    ZeroBlock(outBuf);
    AccumulateInputs(ins, outBuf, inBuf, blockLen, pos);
    NormalizeBlock(outBuf, |ins|);
  }

  /**
    One iteration of the block loop: mix a block, write it whole, and report
    whether any input still has frames left.
   */
  method MixOneBlock(ins: seq<ReadStream>, out: WriteStream, outBuf: array<real>, inBuf: array<real>, blockLen: nat,
                     ghost maxFrames: nat, ghost pos: nat)
    returns (anyActive: bool)
    requires |ins| > 0 && Distinct(ins) && outBuf != inBuf
    requires outBuf.Length == blockLen * STEREO && inBuf.Length == blockLen * STEREO
    requires PositionedAt(ins, pos)
    requires maxFrames == MaxFrames(FrameCounts(ins))
    requires out.isOpen && out.info.channels == STEREO
    requires |out.written| == STEREO * pos && IsMixPrefix(out.written, Tracks(ins))
    modifies Objs(ins), out, outBuf, inBuf
    ensures PositionedAt(ins, pos + blockLen)
    ensures out.isOpen && |out.written| == STEREO * (pos + blockLen) && IsMixPrefix(out.written, Tracks(ins))
    ensures anyActive <==> pos + blockLen < maxFrames
  {
    MixBlock(ins, outBuf, inBuf, blockLen, pos);
    ActiveUntilLongestEnds(ins, maxFrames, pos + blockLen);
    out.WriteFrames(outBuf, blockLen);
    assert blockLen * out.info.channels == outBuf.Length;
    assert outBuf[..blockLen * out.info.channels] == outBuf[..];
    WrittenBlockExtendsMix(Tracks(ins), old(out.written), outBuf[..], pos, blockLen);
    anyActive := AnyActive(ins);
  }

  /** The block loop: mixes until every input has been read to its end. */
  method MixBlocks(ins: seq<ReadStream>, out: WriteStream, ghost maxFrames: nat, blockLen: nat)
    requires blockLen > 0 && |ins| > 0 && Distinct(ins)
    requires forall i :: 0 <= i < |ins| ==> ins[i].Valid() && ins[i].isOpen && ins[i].cursor == 0 && ins[i].info.channels == STEREO
    requires maxFrames == MaxFrames(FrameCounts(ins))
    requires out.isOpen && out.written == [] && out.info.channels == STEREO
    modifies Objs(ins), out
    ensures forall i :: 0 <= i < |ins| ==> ins[i].Valid() && ins[i].isOpen && ins[i].cursor == ins[i].info.frames
    ensures out.isOpen
    ensures out.written == Mixed(Tracks(ins), FrameCounts(ins), blockLen)
  {
    ghost var tracks := Tracks(ins);
    var outBuf := new real[blockLen * STEREO];
    var inBuf := new real[blockLen * STEREO];
    ghost var pos: nat := 0;
    var done := false;
    while !done
      invariant PositionedAt(ins, pos)
      invariant out.isOpen && |out.written| == STEREO * pos && IsMixPrefix(out.written, tracks)
      invariant done ==> pos == OutputFrames(maxFrames, blockLen) && pos >= maxFrames
      invariant !done ==> MoreBlocksFollow(maxFrames, blockLen, pos)
      decreases OutputFrames(maxFrames, blockLen) - pos
    {
      OutputFramesStep(maxFrames, blockLen, pos);
      var anyActive := MixOneBlock(ins, out, outBuf, inBuf, blockLen, maxFrames, pos);
      assert anyActive ==> MoreBlocksFollow(maxFrames, blockLen, pos + blockLen);
      pos := pos + blockLen;
      done := !anyActive;
    }
    ActiveUntilLongestEnds(ins, maxFrames, pos);
    MixPrefixIsWhole(out.written, tracks, FrameCounts(ins), blockLen);
  }

  /**
    The program: checks the input count, opens each input and rejects it
    unless it is stereo (closing what was opened), finds the longest input,
    creates the output with the first input's format, mixes, and closes all.
    Exit status 0 on success, 1 on any failure.
   */
  method MixMain(outPath: string, ins: seq<ReadStream>, writable: set<string>, blockLen: nat)
    returns (exitCode: int, out: WriteStream?)
    requires blockLen > 0 && Distinct(ins)
    requires forall i :: 0 <= i < |ins| ==> ins[i].Valid() && !ins[i].isOpen
    modifies Objs(ins)
    ensures exitCode == 0 || exitCode == 1
    ensures exitCode == 0 <==> |ins| == NUM_INPUTS && Usable(ins) && outPath in writable
    ensures forall i :: 0 <= i < |ins| ==> !ins[i].isOpen && ins[i].Valid()
    ensures exitCode == 1 ==> out == null
    ensures exitCode == 0 ==> out != null && fresh(out) && !out.isOpen && out.path == outPath && out.info == ins[0].info
    ensures exitCode == 0 ==> out.written == Mixed(Tracks(ins), FrameCounts(ins), blockLen)
  {
    out := null;
    if |ins| != NUM_INPUTS {
      return 1, null;
    }
    for i := 0 to |ins|
      invariant forall j :: 0 <= j < |ins| ==> ins[j].Valid()
      invariant forall j :: 0 <= j < i ==> ins[j].isOpen && ins[j].cursor == 0 && ins[j].openable && ins[j].info.channels == STEREO
      invariant forall j :: i <= j < |ins| ==> !ins[j].isOpen
    {
      var ok := ins[i].Open();
      if !ok {
        CloseFirst(ins, i);
        return 1, null;
      }
      if ins[i].info.channels != STEREO {
        CloseFirst(ins, i + 1);
        return 1, null;
      }
    }
    var outInfo := ins[0].info;
    var maxFrames := LongestInput(FrameCounts(ins));
    if outPath !in writable {
      CloseFirst(ins, |ins|);
      return 1, null;
    }
    out := new WriteStream(outPath, outInfo);
    MixBlocks(ins, out, maxFrames, blockLen);
    CloseFirst(ins, |ins|);
    out.Close();
    exitCode := 0;
  }
}
