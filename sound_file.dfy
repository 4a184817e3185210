/**
  The audio-file layer both programs stand on, reduced to what they use of it:
  a stream of interleaved float samples with a frame cursor (reading) or an
  append-only sample log (writing), plus the file's format record.
 */
module SoundFile {

  /** The format record of an audio file (libsndfile's SF_INFO). */
  datatype Info = Info(frames: nat, sampleRate: nat, channels: nat, format: int, sections: nat, seekable: bool)

  function Min(a: int, b: int): int { if a <= b then a else b }

  /** Frame `c` of a stream with `ch` channels starts at sample `c * ch`; a span of frames stays inside the data. */
  lemma FrameSpan(c: nat, got: nat, n: nat, frames: nat, ch: nat)
    requires c + got <= frames && got <= n
    ensures c * ch + got * ch == (c + got) * ch
    ensures (c + got) * ch <= frames * ch
    ensures got * ch <= n * ch
  {
  }

  /**
    A file opened for reading: its format record and its interleaved samples
    are fixed; `cursor` is the index of the next frame to read.
    `openable` says whether opening the file succeeds.
   */
  class ReadStream {
    const path: string
    const openable: bool
    const info: Info
    const data: seq<real>
    var isOpen: bool
    var cursor: nat

    ghost predicate Valid()
      reads this
    {
      |data| == info.frames * info.channels && cursor <= info.frames
    }

    constructor (path: string, openable: bool, info: Info, data: seq<real>)
      requires |data| == info.frames * info.channels
      ensures Valid() && !isOpen && cursor == 0
      ensures this.path == path && this.openable == openable && this.info == info && this.data == data
    {
      this.path, this.openable, this.info, this.data := path, openable, info, data;
      isOpen, cursor := false, 0;
    }

    /** sf_open in read mode: succeeds exactly when the file is openable, positioned at frame 0. */
    method Open() returns (ok: bool)
      requires Valid()
      modifies this`isOpen, this`cursor
      ensures Valid()
      ensures ok == openable && isOpen == ok
      ensures ok ==> cursor == 0
      ensures !ok ==> cursor == old(cursor)
    {
      ok := openable;
      isOpen := ok;
      if ok {
        cursor := 0;
      }
    }

    /** sf_close. */
    method Close()
      modifies this`isOpen
      ensures !isOpen
    {
      isOpen := false;
    }

    /**
      sf_readf_float(file, buf, n): copies min(n, remaining) frames, interleaved,
      to the front of `buf`, advances the cursor by that many frames and returns it.
     */
    method ReadFrames(buf: array<real>, n: nat) returns (got: nat)
      requires Valid() && isOpen
      requires n * info.channels <= buf.Length
      modifies this`cursor, buf
      ensures Valid()
      ensures got == Min(n, info.frames - old(cursor))
      ensures cursor == old(cursor) + got
      ensures buf[..got * info.channels] == data[old(cursor) * info.channels .. cursor * info.channels]
      ensures buf[got * info.channels..] == old(buf[got * info.channels..])
    {
      got := Min(n, info.frames - cursor);
      var ch := info.channels;
      FrameSpan(cursor, got, n, info.frames, ch);
      var base := cursor * ch;
      var count := got * ch;
      var k := 0;
      while k < count
        modifies buf
        invariant 0 <= k <= count
        invariant forall m :: 0 <= m < k ==> buf[m] == data[base + m]
        invariant forall m :: k <= m < buf.Length ==> buf[m] == old(buf[m])
      {
        buf[k] := data[base + k];
        k := k + 1;
      }
      cursor := cursor + got;
    }

    /** sf_seek(file, 0, SEEK_CUR): the current frame position. */
    method Tell() returns (at: nat)
      ensures at == cursor
    {
      at := cursor;
    }

    /**
      sf_seek(file, 0, SEEK_SET): rewind to the first frame. The seek always
      succeeds here; a failing seek on a stream that is not seekable is not
      modelled, and `info.seekable` is not consulted.
     */
    method Rewind()
      modifies this`cursor
      ensures cursor == 0
    {
      cursor := 0;
    }
  }

  /** A file opened for writing: the samples written so far, interleaved, in order. */
  class WriteStream {
    const path: string
    const info: Info
    var written: seq<real>
    var isOpen: bool

    /** sf_open in write mode, once the caller knows the path can be created. */
    constructor (path: string, info: Info)
      ensures this.path == path && this.info == info && written == [] && isOpen
    {
      this.path, this.info := path, info;
      written, isOpen := [], true;
    }

    /** sf_writef_float(file, buf, n): appends the first `n` frames of `buf`. */
    method WriteFrames(buf: array<real>, n: nat)
      requires isOpen
      requires n * info.channels <= buf.Length
      modifies this`written
      ensures written == old(written) + buf[..n * info.channels]
    {
      written := written + buf[..n * info.channels];
    }

    /** sf_close. */
    method Close()
      modifies this`isOpen
      ensures !isOpen
    {
      isOpen := false;
    }
  }
}
