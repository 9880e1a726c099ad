/**
  The WAV header reader as the loader runs it: module-level cursor state
  (data_p, last_chunk, iff_data, iff_chunk_len, and iff_end, which is the
  end of `wav`) moved by GetLittleShort, GetLittleLong and the chunk walk,
  and a static wavinfo_t that GetWavinfo fills field by field.
  Every method is proved against the functions of WavFormat.
*/
module WavReader {
  import opened Wrappers
  import opened WavFormat

  class Parser {
    var wav: seq<Byte>
    var dataP: Ptr
    var lastChunk: int
    var iffData: int
    var iffChunkLen: int
    var info: WavInfo

    /** Static storage starts out zeroed. */
    constructor ()
      ensures wav == [] && dataP == Null && lastChunk == 0 && iffData == 0 && iffChunkLen == 0
      ensures info == ZeroInfo
    {
      wav := [];
      dataP := Null;
      lastChunk := 0;
      iffData := 0;
      iffChunkLen := 0;
      info := ZeroInfo;
    }

    /** Reads the 16-bit little-endian field at the cursor and moves the cursor past it. */
    method GetLittleShort() returns (v: int)
      requires dataP.At? && 0 <= dataP.offset && dataP.offset + 2 <= |wav|
      modifies this`dataP
      ensures v == ShortAt(wav, old(dataP.offset))
      ensures dataP == At(old(dataP.offset) + 2)
    {
      var p := dataP.offset;
      var val: int := wav[p];
      // the sum is stored back into a `short`
      v := Int16(val + (wav[p + 1] as int) * 0x100);
      dataP := At(p + 2);
    }

    /** Reads the 32-bit little-endian field at the cursor and moves the cursor past it. */
    method GetLittleLong() returns (v: int)
      requires dataP.At? && 0 <= dataP.offset && dataP.offset + 4 <= |wav|
      modifies this`dataP
      ensures v == LongAt(wav, old(dataP.offset))
      ensures dataP == At(old(dataP.offset) + 4)
    {
      var p := dataP.offset;
      var val: int := wav[p];
      val := val + (wav[p + 1] as int) * 0x100;
      val := val + (wav[p + 2] as int) * 0x1_0000;
      // the top byte shifted into bit 31 gives the two's-complement value
      v := Int32(val + (wav[p + 3] as int) * 0x100_0000);
      dataP := At(p + 4);
    }

    /**
      Walks chunk headers from last_chunk until one carries `name`, leaving
      the cursor on that header and last_chunk after its padded body, or
      leaves the cursor NULL.
    */
    method FindNextChunk(name: seq<Byte>)
      requires |name| == 4 && 0 <= lastChunk
      modifies this`dataP, this`lastChunk, this`iffChunkLen
      ensures Scan(dataP, lastChunk, iffChunkLen) == NextChunk(wav, old(lastChunk), old(iffChunkLen), name)
    {
      while true
        invariant 0 <= lastChunk
        invariant NextChunk(wav, lastChunk, iffChunkLen, name) == NextChunk(wav, old(lastChunk), old(iffChunkLen), name)
        decreases |wav| - lastChunk
      {
        // stop when a header and one more byte no longer fit
        if lastChunk + 8 >= |wav| {
          dataP := Null;
          return;
        }
        ghost var here := lastChunk;
        ghost var before := NextChunk(wav, here, iffChunkLen, name);
        dataP := At(lastChunk + 4);
        iffChunkLen := GetLittleLong();
        assert iffChunkLen == DeclaredLen(wav, here);
        if iffChunkLen < 0 || iffChunkLen > |wav| - dataP.offset {
          dataP := Null;
          return;
        }
        assert LenOk(wav, here);
        // (iff_chunk_len + 1) & ~1
        lastChunk := dataP.offset + PadEven(iffChunkLen);
        dataP := At(dataP.offset - 8);
        assert lastChunk == ChunkEnd(wav, here);
        if wav[dataP.offset..dataP.offset + 4] == name {
          return;
        }
        assert before == NextChunk(wav, lastChunk, iffChunkLen, name);
      }
    }

    /** Starts the chunk walk over at iff_data. */
    method FindChunk(name: seq<Byte>)
      requires |name| == 4 && 0 <= iffData
      modifies this`dataP, this`lastChunk, this`iffChunkLen
      ensures Scan(dataP, lastChunk, iffChunkLen) == NextChunk(wav, iffData, old(iffChunkLen), name)
    {
      lastChunk := iffData;
      FindNextChunk(name);
    }

    /**
      Parses the header of a WAV file held in `buf` (None is a NULL
      buffer) into the static info and returns the outcome WavFormat.Wavinfo
      describes.
    */
    method GetWavinfo(buf: Option<seq<Byte>>) returns (r: WavResult)
      modifies this
      ensures r == Wavinfo(buf)
      ensures r.Info? ==> info == r.info
    {
      info := ZeroInfo;
      if buf.None? {
        return Info(info);
      }
      wav := buf.value;
      iffData := 0;

      // the outer container: a RIFF chunk whose form type is WAVE
      ghost var cl := iffChunkLen;
      FindChunk(RiffId);
      NextChunkIgnoresChunkLen(wav, 0, cl, 0, RiffId);
      if dataP.Null? {
        return Info(info);
      }
      var wave := CompareAt(wav, dataP.offset + 8, WaveId);
      if wave == Overrun {
        return Undefined(ReadPastEnd);
      } else if wave == Differs {
        return Info(info);
      }
      iffData := dataP.offset + 12;
      assert ParseWav(wav) == ReadBody(wav, iffData);
      r := ReadChunks();
    }

    /** The chunks after the RIFF header, read into a zeroed info. */
    method ReadChunks() returns (r: WavResult)
      requires 0 <= iffData && info == ZeroInfo
      modifies this`dataP, this`lastChunk, this`iffChunkLen, this`info
      ensures r == ReadBody(wav, iffData)
      ensures r.Info? ==> info == r.info
    {
      var fmt := ReadFmtChunk();
      if fmt.Finish? {
        return fmt.result;
      }
      var cue := ReadCueChunk();
      if cue.Finish? {
        return cue.result;
      }
      r := ReadDataChunk();
    }

    /** The "fmt " part of GetWavinfo, run on a zeroed info. */
    method ReadFmtChunk() returns (s: Stage)
      requires 0 <= iffData && info == ZeroInfo
      modifies this`dataP, this`lastChunk, this`iffChunkLen, this`info
      ensures s == ReadFmt(wav, iffData)
      ensures s.Finish? && s.result.Info? ==> info == s.result.info
      ensures s.Continue? ==> info == s.info
    {
      ghost var cl := iffChunkLen;
      FindChunk(FmtId);
      NextChunkIgnoresChunkLen(wav, iffData, cl, 0, FmtId);
      if dataP.Null? {
        return Finish(Info(info));
      }
      dataP := At(dataP.offset + 8);
      if dataP.offset + 2 > |wav| {
        return Finish(Undefined(ReadPastEnd));
      }
      var format := GetLittleShort();
      if format != 1 {
        return Finish(Info(info));
      }
      if dataP.offset + 14 > |wav| {
        return Finish(Undefined(ReadPastEnd));
      }
      var channels := GetLittleShort();
      info := info.(channels := channels);
      var rate := GetLittleLong();
      info := info.(rate := rate);
      dataP := At(dataP.offset + 4 + 2);
      var bits := GetLittleShort();
      info := info.(width := CDiv(bits, 8));
      s := Continue(info);
    }

    /** The "cue " and "LIST" part of GetWavinfo. */
    method ReadCueChunk() returns (s: Stage)
      requires 0 <= iffData
      modifies this`dataP, this`lastChunk, this`iffChunkLen, this`info
      ensures s == ReadCue(wav, iffData, old(info))
      ensures s.Continue? ==> info == s.info
    {
      ghost var cl := iffChunkLen;
      ghost var cue := NextChunk(wav, iffData, 0, CueId);
      FindChunk(CueId);
      NextChunkIgnoresChunkLen(wav, iffData, cl, 0, CueId);
      if dataP.Null? {
        info := info.(loopstart := -1);
        return Continue(info);
      }
      assert dataP == cue.cursor && lastChunk == cue.lastChunk && iffChunkLen == cue.chunkLen;
      if dataP.offset + 36 > |wav| {
        dataP := At(dataP.offset + 32);
        return Finish(Undefined(ReadPastEnd));
      }
      CueReachesMark(wav, iffData, old(info));
      s := ReadCuePoint();
    }

    /** The cue point 32 bytes past the header of the "cue " chunk at `dataP`, then the "LIST" chunk after that chunk. */
    method ReadCuePoint() returns (s: Stage)
      requires dataP.At? && 0 <= dataP.offset && dataP.offset + 36 <= |wav| && 0 <= lastChunk
      modifies this`dataP, this`lastChunk, this`iffChunkLen, this`info
      ensures s == ReadMark(wav, NextChunk(wav, old(lastChunk), old(iffChunkLen), ListId).cursor,
                            old(info).(loopstart := LongAt(wav, old(dataP).offset + 32)))
      ensures s.Continue? ==> info == s.info
    {
      dataP := At(dataP.offset + 32);
      var loopstart := GetLittleLong();
      info := info.(loopstart := loopstart);
      // a LIST chunk after the cue chunk may hold the loop length
      FindNextChunk(ListId);
      s := ReadMarkChunk();
    }

    /** The "LIST" part of GetWavinfo, with the cursor on the chunk FindNextChunk found. */
    method ReadMarkChunk() returns (s: Stage)
      requires dataP.At? ==> 0 <= dataP.offset
      modifies this`dataP, this`info
      ensures s == ReadMark(wav, old(dataP), old(info))
      ensures s.Continue? ==> info == s.info
    {
      if dataP.Null? {
        return Continue(info);
      }
      if dataP.offset + 28 > |wav| {
        return Finish(Undefined(ReadPastEnd));
      }
      var mark := CompareAt(wav, dataP.offset + 28, MarkId);
      if mark == Overrun {
        return Finish(Undefined(ReadPastEnd));
      } else if mark == Same {
        dataP := At(dataP.offset + 24);
        var i := GetLittleLong();
        info := info.(samples := Wrap32(info.loopstart + i));
      }
      return Continue(info);
    }

    /** The "data" part of GetWavinfo. */
    method ReadDataChunk() returns (r: WavResult)
      requires 0 <= iffData
      modifies this`dataP, this`lastChunk, this`iffChunkLen, this`info
      ensures r == ReadData(wav, iffData, old(info))
      ensures r.Info? ==> info == r.info
    {
      ghost var cl := iffChunkLen;
      FindChunk(DataId);
      NextChunkIgnoresChunkLen(wav, iffData, cl, 0, DataId);
      if dataP.Null? {
        return Info(info);
      }
      dataP := At(dataP.offset + 4);
      var len := GetLittleLong();
      if info.width == 0 {
        return Undefined(DivideByZero);
      }
      var samples := CDiv(len, info.width);
      if info.samples != 0 {
        if samples < info.samples {
          // Sys_Error: the sound has a bad loop length
          return BadLoopLength;
        }
      } else {
        info := info.(samples := samples);
      }
      info := info.(dataofs := dataP.offset);
      return Info(info);
    }
  }
}
