# MagicHeadphone stream mixer and channel splitter, in Dafny

This project models the two streaming programs of MagicHeadphone and proves
what they compute.

- **The mixer** (`MagicHeadphone/mix_wav.c`, module `Mixer` in `mixer.dfy`)
  takes an output path and six stereo input files. It rejects any input that
  cannot be opened or is not stereo, closing what it had opened, and finds the
  longest input. It then runs a block loop. Each block zeroes an accumulator
  and reads up to one block of frames from every input. The samples read are
  added in at interleaved position `j * 2 + ch`. The block is divided by the
  number of inputs, clamped to [-1, 1] and written whole. The loop stops once
  every input has been read to its end. An exhausted input adds nothing, which
  acts as silence.
- **The splitter** (`MagicHeadphone/MagicSplit.c`, module `Splitter` in
  `splitter.dfy`) takes one six-channel file and rejects any other channel
  count. For each channel `ch` it creates `song-<ch+1>.wav`, with the input's
  format made stereo. It rewinds the input and reads it block by block. For
  every frame it copies the channel's sample to both the left and the right
  slot of that frame, and it writes exactly the frames read.

Both programs stand on an audio-file layer (module `SoundFile` in
`sound_file.dfy`). It is reduced to the calls they make:

- a `ReadStream` is a file opened for reading. It has a format record, its
  interleaved samples and a frame cursor. `ReadFrames(n)` copies
  `min(n, remaining)` frames and advances the cursor.
- a `WriteStream` is a file opened for writing, with the samples written so
  far.

Samples are `real`s. The mix is specified by the functions `MixedSample`
(clamped average of the inputs' padded samples) and `Mixed` (the whole
output). The split is specified by `StereoOf` (one channel, each sample
duplicated to left and right). The imperative methods are proved to produce
exactly these values. Every array access in the loops is checked by the
verifier to stay inside its buffer.

## Model

| member | source | states |
|---|---|---|
| Mixer.Clamp | MagicHeadphone/mix_wav.c:8-15 | the result lies in [-1, 1]; it equals the sample exactly when the sample is in [-1, 1]; it is 1 at or above 1 and -1 at or below -1 |
| Mixer.ClampIdempotent | MagicHeadphone/mix_wav.c:8-15 | clamping a clamped sample changes nothing |
| Mixer.ClampIsNearest | MagicHeadphone/mix_wav.c:8-15 | the clamped sample is at least as close to the sample as any point of [-1, 1] |
| Mixer.ClampMonotone | MagicHeadphone/mix_wav.c:8-15 | clamping preserves the order of samples |
| Mixer.MaxFramesIsMaximum | MagicHeadphone/mix_wav.c:63-67 | the longest length is at least every input's frame count, is one of them, and is 0 when there are no inputs |
| Mixer.LongestInput | MagicHeadphone/mix_wav.c:63-67 | the scan's `max_frames` equals that maximum |
| Mixer.MixedSample | MagicHeadphone/mix_wav.c:139-141 | every output sample, the clamped average of the inputs' padded samples, lies in [-1, 1] |
| Mixer.Mixed | MagicHeadphone/mix_wav.c:113-154 | the whole output has two samples per output frame, whole blocks of them, and every sample lies in [-1, 1] |
| Mixer.ExhaustedInputIsSilent | MagicHeadphone/mix_wav.c:124-135 | an input already exhausted at a position contributes nothing there: removing it leaves the sum unchanged |
| Mixer.Padded | MagicHeadphone/mix_wav.c:124-135 | an input's sample at a position past its end is silence (0); inside the input it is the input's own sample at that position |
| Mixer.SumAt | MagicHeadphone/mix_wav.c:124-135 | the accumulated sum over the inputs' padded samples; past the end of every input it is 0 |
| Mixer.MixPastLongestIsSilent | MagicHeadphone/mix_wav.c:139-144 | the samples of the last block that lie past the longest input are written as silence (0) |
| Mixer.SumOfCopies | MagicHeadphone/mix_wav.c:120-135 | accumulating n copies of one input gives n times its sample |
| Mixer.MixOfCopies | MagicHeadphone/mix_wav.c:139-141 | mixing n identical inputs gives back that input's sample, clamped |
| Mixer.OutputFramesAreWholeBlocks | MagicHeadphone/mix_wav.c:113-154 | the loop runs max(1, ceil(maxFrames / blockLen)) times: at least once, enough blocks to cover the longest input, no block more; the output holds that many whole blocks, fewer than one block beyond the longest input |
| Mixer.OutputFramesStep | MagicHeadphone/mix_wav.c:144-153 | after one more block, either the blocks cover the longest input and the output is complete, or more blocks follow |
| Mixer.CloseFirst | MagicHeadphone/mix_wav.c:41-42 | exactly the first n inputs get closed; no cursor moves |
| Mixer.ZeroBlock | MagicHeadphone/mix_wav.c:117-118 | every accumulator position is 0 |
| Mixer.AccumulateBlock | MagicHeadphone/mix_wav.c:130-135 | each of the first `frames * 2` positions gains the sample read there; every other position is unchanged |
| Mixer.NormalizeBlock | MagicHeadphone/mix_wav.c:139-141 | every position becomes clamp(old value / number of inputs) |
| Mixer.ReadContribution | MagicHeadphone/mix_wav.c:121-135 | what one read adds at a block offset is the input's padded sample: its own sample among the frames read, silence past them |
| Mixer.AddInput | MagicHeadphone/mix_wav.c:121-135 | one input's read advances its cursor by up to one block, and the accumulator gains its padded samples |
| Mixer.AccumulateInputs | MagicHeadphone/mix_wav.c:120-136 | after all inputs, every accumulator position holds the sum of all inputs' padded samples there, and every input is one block further |
| Mixer.AnyActive | MagicHeadphone/mix_wav.c:146-151 | the flag is set exactly when some input's position is short of its frame count |
| Mixer.WrittenBlockExtendsMix | MagicHeadphone/mix_wav.c:144 | appending the block of mixed samples for the next position keeps the output a prefix of the mix |
| Mixer.MixPrefixIsWhole | MagicHeadphone/mix_wav.c:113-154 | an output of mixed samples as long as the whole mix is the whole mix |
| Mixer.ActiveUntilLongestEnds | MagicHeadphone/mix_wav.c:146-153 | with every cursor at min(frames, pos), some input is active exactly when pos is short of the longest input |
| Mixer.MixBlock | MagicHeadphone/mix_wav.c:114-141 | each block position holds the mixed sample for its place in the output, and every input is one block further |
| Mixer.MixOneBlock | MagicHeadphone/mix_wav.c:114-153 | one iteration appends a whole block of mixed samples and reports whether the position is still short of the longest input |
| Mixer.MixBlocks | MagicHeadphone/mix_wav.c:112-154 | the loop ends with every input read to its end and the output equal to the whole mix |
| Mixer.MixMain | MagicHeadphone/mix_wav.c:17-168 | exit status 0 exactly when there are six inputs, all openable and stereo, and the output can be created; otherwise 1 with no output; every input is closed and still well-formed in all cases; on success the output has the first input's format and holds the whole mix |
| Splitter.StereoOfLength | MagicHeadphone/MagicSplit.c:64-68 | the projection of one channel holds two samples per whole input frame |
| Splitter.StereoOfAt | MagicHeadphone/MagicSplit.c:64-68 | output frame i holds input sample `i * 6 + ch` on both its left and its right side |
| Splitter.StereoOfAppend | MagicHeadphone/MagicSplit.c:62-70 | projecting block by block gives the same as projecting the whole input at once |
| Splitter.Digit | MagicHeadphone/MagicSplit.c:49 | a decimal digit is a character from '0' to '9' |
| Splitter.DecimalString | MagicHeadphone/MagicSplit.c:49 | `%d` of a non-negative number is a non-empty string of decimal digits |
| Splitter.DecimalRoundTrip | MagicHeadphone/MagicSplit.c:49 | reading the digits back gives the number |
| Splitter.SongName | MagicHeadphone/MagicSplit.c:49 | the name is `song-`, then the decimal digits of `ch + 1`, then `.wav` |
| Splitter.SongNameNumber | MagicHeadphone/MagicSplit.c:49 | the channel number `ch + 1` printed into a file name parses back out of it |
| Splitter.SongNamesDistinct | MagicHeadphone/MagicSplit.c:47-49 | different channels get different file names |
| Splitter.SongNamesAreTheSix | MagicHeadphone/MagicSplit.c:47-49 | channels 0 to 5 are written to song-1.wav up to song-6.wav, in order |
| Splitter.OutInfo | MagicHeadphone/MagicSplit.c:33-35 | the output format record has two channels and is otherwise the input's |
| Splitter.ProjectBlock | MagicHeadphone/MagicSplit.c:64-68 | the first `2 * frames` output samples are the channel's projection of the first `frames` input frames; the rest of the output buffer is unchanged; the input buffer is not written |
| Splitter.ReadBlock | MagicHeadphone/MagicSplit.c:63 | a read returns min(blockSize, remaining) frames, advances the cursor by that many, and leaves exactly those frames' samples in the buffer |
| Splitter.WriteBlock | MagicHeadphone/MagicSplit.c:64-69 | a block appends exactly the projection of the frames just read |
| Splitter.SplitChannel | MagicHeadphone/MagicSplit.c:60-70 | after the rewind and the read loop, the input has been read to its end and the output gained the projection of the whole input |
| Splitter.ChannelFileFrames | MagicHeadphone/MagicSplit.c:60-70 | each finished channel file holds exactly as many frames as the input |
| Splitter.SplitMain | MagicHeadphone/MagicSplit.c:9-82 | exit status 0 exactly when the input is given, opens, has six channels and all six outputs can be created; a missing, unopenable or non-six-channel input gives no output at all; the input is closed and still well-formed in all cases, so `ChannelFileFrames` applies to every output; outputs come in channel order, at most six, six on success, each closed, named song-<ch+1>.wav, with the stereo format record, holding its channel's projection; when the input is accepted but status is 1, the outputs are exactly the finished files for the channels before the first name that cannot be created |
| SoundFile.ReadStream.Open | MagicHeadphone/mix_wav.c:36-38 | opening succeeds exactly for an openable file and then starts at frame 0 |
| SoundFile.ReadStream.ReadFrames | MagicHeadphone/mix_wav.c:121 | a read copies min(n, remaining) frames, in order, to the front of the buffer, leaves the rest of the buffer alone, and advances the cursor by that count |
| SoundFile.ReadStream.Tell | MagicHeadphone/mix_wav.c:149 | the position query returns the cursor |
| SoundFile.ReadStream.Rewind | MagicHeadphone/MagicSplit.c:60 | seeking to the start puts the cursor at frame 0 |
| SoundFile.ReadStream.Close | MagicHeadphone/mix_wav.c:158 | closing marks the input closed |
| SoundFile.WriteStream.constructor | MagicHeadphone/mix_wav.c:70 | a created output has the given path and format record, is open and holds no samples |
| SoundFile.WriteStream.Close | MagicHeadphone/MagicSplit.c:72 | closing marks the output closed |
| SoundFile.WriteStream.WriteFrames | MagicHeadphone/mix_wav.c:144 | a write appends the first n frames of the buffer to the file |

## Left out

- `MagicHeadphone/main.c` is not part of this model. It runs threads around an
  external `HRTF` function that the repository only declares.
- libsndfile is reduced to the two stream classes. Whether a file opens is the
  `openable` field of a `ReadStream`. Whether an output can be created is
  membership of its path in the `writable` parameter. File formats, headers and
  error strings are not modelled.
- Float arithmetic is modelled over the reals. The model makes no claim about
  rounding in the sum or the division.
- Mixer.Clamp: a NaN sample passes through `clamp` unchanged (mix_wav.c:9-14),
  because both comparisons are false for it. A NaN comes from an input sample or
  from +inf and -inf meeting in the sum (mix_wav.c:133); it survives the
  division (mix_wav.c:140) and is written (mix_wav.c:144). So the [-1, 1] bound
  of `Mixer.Clamp`, `Mixer.MixedSample` and `Mixer.Mixed` holds only over the
  reals. An infinite average is clamped to ±1, as in the model.
- `ReadStream.Rewind` always succeeds. The seek at MagicSplit.c:60 is
  unchecked; on an input that cannot seek, channels 2 to 6 would come out
  empty. `Info.seekable` is carried but not consulted.
- Memory allocation failures, `free`, and the diagnostic `printf`/`fprintf`
  output are not modelled.
- The argument count checks are modelled by their effect only. The mixer fails
  with status 1 when it is not given exactly six inputs. The splitter fails with
  status 1 when its input is missing (`input == null`).
- The block sizes are parameters of `MixMain` and `SplitMain`. The programs use
  `BUFFER_LEN` (1024) and `BLOCK_SIZE` (2048), which the module comments name.
- The mixer has one read buffer per input (`in_buffers[i]`). The model uses a
  single read buffer, because each input's buffer is only read in the
  iteration that filled it.
- `frames_to_write` (mix_wav.c:116, 126-127) is computed but never used, so it
  is not modelled.
- `max_frames` is only computed by the scan (mix_wav.c:63-67) and never read
  afterwards. The model keeps it as a ghost parameter of `Mixer.MixBlocks`,
  used only to state and prove what the loop writes.
- Every input's sample data is as long as its header says (`ReadStream.Valid`:
  `frames * channels` samples), and a read returns min(n, remaining) frames.
  The mixer's termination rests on this assumption. Its loop stops only when
  the position query of every input reaches the header's frame count
  (mix_wav.c:146-153) and never looks at the number of frames read (line 122).
  A read that stops short of the header's count, or a failing position query,
  would keep it writing silent blocks forever. The splitter stops on a read of
  zero frames (MagicSplit.c:63) and does not depend on this.
- An output that is the same file as an input is not expressible: an output
  path equal to an input path (mix_wav.c:70), or a splitter input named
  song-k.wav (MagicSplit.c:51). Reads and writes go to separate streams.
- The mixer's output length: the comment at mix_wav.c:61 says the mix is as long
  as the longest track. The code writes a full block on every iteration
  (mix_wav.c:144), including the last one. The model follows the code. The
  output therefore holds whole blocks: at least the longest input, and fewer
  than one block more. `Mixer.MixPastLongestIsSilent` shows that the extra
  samples are silence.
- Mixer.MixMain: does not state which inputs were opened before a failure. It
  states that all are closed afterwards. The code closes exactly those it had
  opened (mix_wav.c:41-42, 51-52), which `Mixer.CloseFirst` models.
