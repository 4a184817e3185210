/**
  The channel demultiplexer: reads a six-channel file and writes each of its
  channels, duplicated onto left and right, to its own stereo file
  song-1.wav … song-6.wav. The program reads blocks of BLOCK_SIZE = 2048
  frames; here the block length is a parameter.
 */
module Splitter {
  import opened SoundFile

  const CHANNELS_IN: nat := 6
  const CHANNELS_OUT: nat := 2

  /**
    Channel `ch` of interleaved six-channel samples as interleaved stereo:
    each whole frame contributes its sample of channel `ch` twice, left then
    right. A trailing partial frame contributes nothing.
   */
  function StereoOf(data: seq<real>, ch: nat): seq<real>
    requires ch < CHANNELS_IN
    decreases |data|
  {
    if |data| < CHANNELS_IN then []
    else [data[ch], data[ch]] + StereoOf(data[CHANNELS_IN..], ch)
  }

  /** Two output samples per whole input frame. */
  lemma {:induction false} StereoOfLength(data: seq<real>, ch: nat)
    requires ch < CHANNELS_IN
    ensures |StereoOf(data, ch)| == CHANNELS_OUT * (|data| / CHANNELS_IN)
    decreases |data|
  {
    if |data| >= CHANNELS_IN {
      StereoOfLength(data[CHANNELS_IN..], ch);
    }
  }

  /** Frame `i` of the output carries, on both sides, channel `ch` of input frame `i`. */
  lemma {:induction false} StereoOfAt(data: seq<real>, ch: nat, i: nat)
    requires ch < CHANNELS_IN && CHANNELS_IN * i + CHANNELS_IN <= |data|
    ensures 2 * i + 1 < |StereoOf(data, ch)|
    ensures StereoOf(data, ch)[2 * i] == data[CHANNELS_IN * i + ch]
    ensures StereoOf(data, ch)[2 * i + 1] == data[CHANNELS_IN * i + ch]
    decreases i
  {
    if i > 0 {
      var rest := data[CHANNELS_IN..];
      StereoOfAt(rest, ch, i - 1);
      assert rest[CHANNELS_IN * (i - 1) + ch] == data[CHANNELS_IN * i + ch];
    }
  }

  /** Splitting whole frames block by block gives the same as splitting them at once. */
  lemma {:induction false} StereoOfAppend(a: seq<real>, b: seq<real>, ch: nat, frames: nat)
    requires ch < CHANNELS_IN && |a| == CHANNELS_IN * frames
    ensures StereoOf(a + b, ch) == StereoOf(a, ch) + StereoOf(b, ch)
    decreases frames
  {
    if frames == 0 {
      assert a + b == b;
    } else {
      assert (a + b)[CHANNELS_IN..] == a[CHANNELS_IN..] + b;
      StereoOfAppend(a[CHANNELS_IN..], b, ch, frames - 1);
    }
  }

  /** The decimal digit for `d`. */
  function Digit(d: nat): (c: char)
    requires d < 10
    ensures '0' <= c <= '9'
  {
    ('0' as int + d) as char
  }

  /** The value of a decimal digit: the inverse of Digit. */
  function DigitValue(c: char): nat
  {
    if '0' <= c <= '9' then (c as int - '0' as int) as nat else 0
  }

  /** printf's `%d` of a non-negative number: its decimal digits, most significant first. */
  function DecimalString(n: nat): (r: string)
    ensures 1 <= |r|
    ensures forall k :: 0 <= k < |r| ==> '0' <= r[k] <= '9'
    decreases n
  {
    if n < 10 then [Digit(n)] else DecimalString(n / 10) + [Digit(n % 10)]
  }

  /** Reading decimal digits back into a number. */
  function ParseDecimal(s: string): nat
    decreases |s|
  {
    if |s| == 0 then 0 else 10 * ParseDecimal(s[..|s| - 1]) + DigitValue(s[|s| - 1])
  }

  /** Formatting with `%d` loses nothing: the digits read back as the number. */
  lemma {:induction false} DecimalRoundTrip(n: nat)
    ensures ParseDecimal(DecimalString(n)) == n
    decreases n
  {
    var s := DecimalString(n);
    if n < 10 {
      assert s[..0] == [];
    } else {
      DecimalRoundTrip(n / 10);
      assert s[..|s| - 1] == DecimalString(n / 10);
    }
  }

  /** The name of the file that receives channel `ch` (counted from zero): `song-%d.wav` of `ch + 1`. */
  function SongName(ch: nat): (r: string)
    ensures |r| == |DecimalString(ch + 1)| + 9
    ensures r[..5] == "song-" && r[|r| - 4..] == ".wav"
    ensures r[5..|r| - 4] == DecimalString(ch + 1)
  {
    "song-" + DecimalString(ch + 1) + ".wav"
  }

  /** The channel's number can be read back from its file name. */
  lemma SongNameNumber(ch: nat)
    ensures var name := SongName(ch); ParseDecimal(name[5..|name| - 4]) == ch + 1
  {
    DecimalRoundTrip(ch + 1);
  }

  /** Different channels go to different files. */
  lemma SongNamesDistinct(a: nat, b: nat)
    requires SongName(a) == SongName(b)
    ensures a == b
  {
    SongNameNumber(a);
    SongNameNumber(b);
  }

  /** The names of the six channels: song-1.wav up to song-6.wav. */
  lemma SongNamesAreTheSix(ch: nat)
    requires ch < CHANNELS_IN
    ensures SongName(ch) == "song-" + [Digit(ch + 1)] + ".wav"
    ensures SongName(ch) == ["song-1.wav", "song-2.wav", "song-3.wav", "song-4.wav", "song-5.wav", "song-6.wav"][ch]
  {
  }

  /** The output format record: the input's, with two channels. */
  function OutInfo(inInfo: Info): (r: Info)
    ensures r.channels == CHANNELS_OUT
    ensures r.(channels := inInfo.channels) == inInfo
  {
    inInfo.(channels := CHANNELS_OUT)
  }

  /**
    The inner copy loop: for each of the first `frames` frames of `bufIn`,
    writes its channel `ch` sample to both sides of the same frame of
    `bufOut`. `bufIn` is only read.
   */
  method ProjectBlock(bufIn: array<real>, bufOut: array<real>, frames: nat, ch: nat)
    requires ch < CHANNELS_IN && bufIn != bufOut
    requires CHANNELS_IN * frames <= bufIn.Length && CHANNELS_OUT * frames <= bufOut.Length
    modifies bufOut
    ensures bufOut[..CHANNELS_OUT * frames] == StereoOf(bufIn[..CHANNELS_IN * frames], ch)
    ensures bufOut[CHANNELS_OUT * frames..] == old(bufOut[CHANNELS_OUT * frames..])
  {
    for i := 0 to frames
      invariant bufOut[..CHANNELS_OUT * i] == StereoOf(bufIn[..CHANNELS_IN * i], ch)
      invariant bufOut[CHANNELS_OUT * frames..] == old(bufOut[CHANNELS_OUT * frames..])
    {
      var sample := bufIn[i * CHANNELS_IN + ch];
      bufOut[i * 2] := sample;
      bufOut[i * 2 + 1] := sample;
      ghost var done := bufIn[..CHANNELS_IN * i];
      ghost var frame := bufIn[CHANNELS_IN * i..CHANNELS_IN * i + CHANNELS_IN];
      assert done + frame == bufIn[..CHANNELS_IN * (i + 1)];
      StereoOfAppend(done, frame, ch, i);
      assert frame[CHANNELS_IN..] == [];
      assert StereoOf(frame, ch) == [sample, sample];
      assert bufOut[..CHANNELS_OUT * (i + 1)] == bufOut[..CHANNELS_OUT * i] + [sample, sample];
    }
  }

  /** sf_readf_float on the six-channel input: the next block of up to `blockSize` frames. */
  method ReadBlock(input: ReadStream, bufIn: array<real>, blockSize: nat) returns (frames: nat)
    requires input.Valid() && input.isOpen && input.info.channels == CHANNELS_IN
    requires bufIn.Length == blockSize * CHANNELS_IN
    modifies input`cursor, bufIn
    ensures input.Valid() && frames <= blockSize
    ensures frames == Min(blockSize, input.info.frames - old(input.cursor))
    ensures input.cursor == old(input.cursor) + frames
    ensures bufIn[..CHANNELS_IN * frames] == input.data[CHANNELS_IN * old(input.cursor)..CHANNELS_IN * input.cursor]
  {
    ghost var c := input.cursor;
    assert c * input.info.channels == CHANNELS_IN * c;
    frames := input.ReadFrames(bufIn, blockSize);
    assert frames * input.info.channels == CHANNELS_IN * frames;
    assert input.cursor * input.info.channels == CHANNELS_IN * input.cursor;
  }

  /** The body of the read loop: project the block just read and write its `frames` frames to `out`. */
  method WriteBlock(bufIn: array<real>, bufOut: array<real>, frames: nat, ch: nat, out: WriteStream)
    requires ch < CHANNELS_IN && bufIn != bufOut
    requires CHANNELS_IN * frames <= bufIn.Length && CHANNELS_OUT * frames <= bufOut.Length
    requires out.isOpen && out.info.channels == CHANNELS_OUT
    modifies bufOut, out`written
    ensures out.written == old(out.written) + StereoOf(bufIn[..CHANNELS_IN * frames], ch)
  {
    ProjectBlock(bufIn, bufOut, frames, ch);
    out.WriteFrames(bufOut, frames);
    assert frames * out.info.channels == CHANNELS_OUT * frames;
  }

  /**
    One pass of the per-channel loop: rewind the input, then read blocks of
    up to `blockSize` frames until a read returns none, writing the
    channel-`ch` projection of each block to `out`.
   */
  method SplitChannel(input: ReadStream, ch: nat, bufIn: array<real>, bufOut: array<real>, blockSize: nat, out: WriteStream)
    requires ch < CHANNELS_IN && blockSize > 0 && bufIn != bufOut
    requires input.Valid() && input.isOpen && input.info.channels == CHANNELS_IN
    requires bufIn.Length == blockSize * CHANNELS_IN && bufOut.Length == blockSize * CHANNELS_OUT
    requires out.isOpen && out.info.channels == CHANNELS_OUT
    modifies input`cursor, bufIn, bufOut, out`written
    ensures input.Valid() && input.cursor == input.info.frames
    ensures out.written == old(out.written) + StereoOf(input.data, ch)
  {
    assert |input.data| == CHANNELS_IN * input.info.frames;
    input.Rewind();
    while true
      invariant input.Valid() && input.isOpen
      invariant out.written == old(out.written) + StereoOf(input.data[..CHANNELS_IN * input.cursor], ch)
      decreases input.info.frames - input.cursor
    {
      ghost var start := input.cursor;
      var frames := ReadBlock(input, bufIn, blockSize);
      if frames == 0 {
        break;
      }
      WriteBlock(bufIn, bufOut, frames, ch, out);
      assert input.data[..CHANNELS_IN * start] + bufIn[..CHANNELS_IN * frames] == input.data[..CHANNELS_IN * input.cursor];
      StereoOfAppend(input.data[..CHANNELS_IN * start], bufIn[..CHANNELS_IN * frames], ch, start);
    }
    assert input.data[..CHANNELS_IN * input.cursor] == input.data;
  }

  /**
    `out` is the finished file for channel `ch` of `input`: closed, named
    `song-<ch+1>.wav`, with the input's format made stereo, holding that
    channel on both sides.
   */
  ghost predicate ChannelFile(out: WriteStream, input: ReadStream, ch: nat)
    requires ch < CHANNELS_IN
    reads out
  {
    !out.isOpen && out.path == SongName(ch) && out.info == OutInfo(input.info) && out.written == StereoOf(input.data, ch)
  }

  /** A finished channel file holds exactly as many frames as the input. */
  lemma ChannelFileFrames(out: WriteStream, input: ReadStream, ch: nat)
    requires ch < CHANNELS_IN && input.Valid() && input.info.channels == CHANNELS_IN
    requires ChannelFile(out, input, ch)
    ensures |out.written| == CHANNELS_OUT * input.info.frames
  {
    assert |input.data| == CHANNELS_IN * input.info.frames;
    StereoOfLength(input.data, ch);
  }

  /**
    The program: opens the input, rejects it unless it has six channels,
    then for each channel creates `song-<ch+1>.wav` with the input's format
    made stereo and fills it with that channel on both sides. Exit status 0
    on success, 1 when the input is missing, cannot be opened, has the wrong
    channel count, or an output cannot be created (files already finished
    stay). `outs` are the output files, in channel order.
   */
  method SplitMain(input: ReadStream?, writable: set<string>, blockSize: nat)
    returns (exitCode: int, outs: seq<WriteStream>)
    requires blockSize > 0
    requires input != null ==> input.Valid() && !input.isOpen
    modifies input
    ensures exitCode == 0 || exitCode == 1
    ensures exitCode == 0 <==> input != null && input.openable && input.info.channels == CHANNELS_IN &&
                               forall c :: 0 <= c < CHANNELS_IN ==> SongName(c) in writable
    ensures input != null ==> !input.isOpen && input.Valid()
    ensures |outs| <= CHANNELS_IN && (exitCode == 0 ==> |outs| == CHANNELS_IN)
    ensures input == null || !input.openable || input.info.channels != CHANNELS_IN ==> outs == []
    ensures exitCode == 1 && input != null && input.openable && input.info.channels == CHANNELS_IN ==>
              |outs| < CHANNELS_IN && SongName(|outs|) !in writable && forall c :: 0 <= c < |outs| ==> SongName(c) in writable
    ensures forall c :: 0 <= c < |outs| ==> input != null && fresh(outs[c]) && ChannelFile(outs[c], input, c)
  {
    exitCode, outs := 1, [];
    if input == null {
      return;
    }
    var ok := input.Open();
    if !ok {
      return;
    }
    if input.info.channels != CHANNELS_IN {
      input.Close();
      return;
    }
    var outInfo := OutInfo(input.info);
    var bufIn := new real[blockSize * CHANNELS_IN];
    var bufOut := new real[blockSize * CHANNELS_OUT];
    for ch := 0 to CHANNELS_IN
      invariant input.Valid() && input.isOpen && input.openable && input.info.channels == CHANNELS_IN
      invariant |outs| == ch
      invariant forall c :: 0 <= c < ch ==> SongName(c) in writable
      invariant forall c :: 0 <= c < ch ==> fresh(outs[c]) && ChannelFile(outs[c], input, c)
    {
      var name := SongName(ch);
      if name !in writable {
        input.Close();
        return;
      }
      var out := new WriteStream(name, outInfo);
      SplitChannel(input, ch, bufIn, bufOut, blockSize, out);
      out.Close();
      outs := outs + [out];
    }
    input.Close();
    exitCode := 0;
  }
}
