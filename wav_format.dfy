/**
  The RIFF/WAVE header reader of the sound loader (common/snd_mem.c), as
  functions over the bytes of a loaded file.

  The RIFF container is a walk over chunks: a 4-byte id, a 4-byte
  little-endian length, the body, and a pad byte when the length is odd.
  The loader looks for the "RIFF" chunk with the "WAVE" form type, then
  walks the chunks that follow its 12-byte header for "fmt ", "cue ",
  "LIST" and "data", and fills a wavinfo_t.

  The loader reads several fields at fixed offsets without checking them
  against the buffer; where such a read would leave the buffer, and where it
  divides by a sample width of 0, the behaviour of the C code is undefined.
  This model returns the outcome `Undefined` at those points instead of
  requiring callers to avoid them.
*/
module WavFormat {
  import opened Wrappers

  type Byte = b: int | 0 <= b < 256

  // ---------------------------------------------------------------------
  // Fixed-width integers

  /** The two's-complement value of a 16-bit pattern. */
  function Int16(u: int): (v: int)
    requires 0 <= u < 0x1_0000
    ensures -0x8000 <= v < 0x8000
    ensures (v - u) % 0x1_0000 == 0
  {
    if u < 0x8000 then u else u - 0x1_0000
  }

  /** The two's-complement value of a 32-bit pattern. */
  function Int32(u: int): (v: int)
    requires 0 <= u < 0x1_0000_0000
    ensures -0x8000_0000 <= v < 0x8000_0000
    ensures (v - u) % 0x1_0000_0000 == 0
  {
    if u < 0x8000_0000 then u else u - 0x1_0000_0000
  }

  /** A C `int` sum as the compilers the loader targets compute it: wrapped to 32 bits. */
  function Wrap32(x: int): (v: int)
    ensures -0x8000_0000 <= v < 0x8000_0000
    ensures (v - x) % 0x1_0000_0000 == 0
  {
    Int32(x % 0x1_0000_0000)
  }

  function Abs(x: int): nat
  {
    if x < 0 then -x else x
  }

  /** The quotient of two naturals is a natural; without this fact the solver
      does not bound CDiv's quotient. */
  lemma NatDivIsNat(a: nat, b: nat)
    requires b > 0
    ensures a / b >= 0
  {
  }

  /** C's `/` on `int`: the quotient truncated toward zero. */
  function CDiv(a: int, b: int): (q: int)
    requires b != 0
    ensures Abs(q) == Abs(a) / Abs(b)
    ensures q > 0 ==> (a > 0) == (b > 0)
    ensures q < 0 ==> (a > 0) != (b > 0)
  {
    NatDivIsNat(Abs(a), Abs(b));
    var m := Abs(a) / Abs(b);
    if (a < 0) == (b < 0) then m else -m
  }

  // ---------------------------------------------------------------------
  // Little-endian fields (GetLittleShort, GetLittleLong)

  /** Two bytes, least significant first, read as a signed 16-bit value. */
  function LittleShort(b0: Byte, b1: Byte): (v: int)
    ensures -0x8000 <= v < 0x8000
    ensures (v - (b0 + 0x100 * b1)) % 0x1_0000 == 0
  {
    Int16(b0 + 0x100 * b1)
  }

  /** Four bytes, least significant first, read as a signed 32-bit value. */
  function LittleLong(b0: Byte, b1: Byte, b2: Byte, b3: Byte): (v: int)
    ensures -0x8000_0000 <= v < 0x8000_0000
    ensures (v - (b0 + 0x100 * b1 + 0x1_0000 * b2 + 0x100_0000 * b3)) % 0x1_0000_0000 == 0
  {
    Int32(b0 + 0x100 * b1 + 0x1_0000 * b2 + 0x100_0000 * b3)
  }

  function ShortAt(buf: seq<Byte>, p: int): int
    requires 0 <= p && p + 2 <= |buf|
  {
    LittleShort(buf[p], buf[p + 1])
  }

  function LongAt(buf: seq<Byte>, p: int): int
    requires 0 <= p && p + 4 <= |buf|
  {
    LittleLong(buf[p], buf[p + 1], buf[p + 2], buf[p + 3])
  }

  /** The little-endian encoding of a signed 16-bit value. */
  function ShortBytes(v: int): (bs: seq<Byte>)
    requires -0x8000 <= v < 0x8000
    ensures |bs| == 2
  {
    var u := v % 0x1_0000;
    [u % 0x100, u / 0x100]
  }

  /** The little-endian encoding of a signed 32-bit value. */
  function LongBytes(v: int): (bs: seq<Byte>)
    requires -0x8000_0000 <= v < 0x8000_0000
    ensures |bs| == 4
  {
    var u := v % 0x1_0000_0000;
    [u % 0x100, (u / 0x100) % 0x100, (u / 0x1_0000) % 0x100, u / 0x100_0000]
  }

  lemma ShortRoundTrip(v: int)
    requires -0x8000 <= v < 0x8000
    ensures ShortAt(ShortBytes(v), 0) == v
  {
    var u := v % 0x1_0000;
    assert u == u % 0x100 + 0x100 * (u / 0x100);
  }

  lemma LongRoundTrip(v: int)
    requires -0x8000_0000 <= v < 0x8000_0000
    ensures LongAt(LongBytes(v), 0) == v
  {
    var u := v % 0x1_0000_0000;
    var bs := LongBytes(v);
    var q1 := u / 0x100;
    var q2 := u / 0x1_0000;
    assert u == bs[0] + 0x100 * q1;
    assert q1 == bs[1] + 0x100 * (q1 / 0x100);
    assert q1 / 0x100 == q2;
    assert q2 == bs[2] + 0x100 * (q2 / 0x100);
    assert q2 / 0x100 == bs[3];
  }

  // ---------------------------------------------------------------------
  // ASCII chunk ids and the strncmp of the loader

  predicate IsAsciiText(s: string)
  {
    forall i :: 0 <= i < |s| ==> 0 < s[i] as int < 128
  }

  function Ascii(s: string): (bs: seq<Byte>)
    requires IsAsciiText(s)
    ensures |bs| == |s| && forall i :: 0 <= i < |s| ==> bs[i] == s[i] as int
  {
    if s == [] then [] else [s[0] as int] + Ascii(s[1..])
  }

  const RiffId: seq<Byte> := Ascii("RIFF")
  const WaveId: seq<Byte> := Ascii("WAVE")
  const FmtId: seq<Byte> := Ascii("fmt ")
  const CueId: seq<Byte> := Ascii("cue ")
  const ListId: seq<Byte> := Ascii("LIST")
  const DataId: seq<Byte> := Ascii("data")
  const MarkId: seq<Byte> := Ascii("mark")

  datatype Cmp = Same | Differs | Overrun

  /**
    `strncmp(buf + p, lit, |lit|)` for a literal without NUL bytes: the bytes
    are compared one at a time and the comparison stops at the first
    difference, so it reaches past the end of the buffer (`Overrun`) only
    when every byte before the end matched.
  */
  function CompareAt(buf: seq<Byte>, p: nat, lit: seq<Byte>): (c: Cmp)
    requires p <= |buf|
    decreases |lit|
    ensures c == Same <==> p + |lit| <= |buf| && buf[p..p + |lit|] == lit
    ensures c == Overrun <==> p + |lit| > |buf| && buf[p..] == lit[..|buf| - p]
  {
    if lit == [] then Same
    else if p >= |buf| then Overrun
    else if buf[p] != lit[0] then Differs
    else
      MatchAfterFirst(buf, p, lit);
      CompareAt(buf, p + 1, lit[1..])
  }

  /** Once the first byte matches, the rest of the comparison decides both outcomes. */
  lemma MatchAfterFirst(buf: seq<Byte>, p: nat, lit: seq<Byte>)
    requires p < |buf| && lit != [] && buf[p] == lit[0]
    ensures p + |lit| <= |buf| ==> (buf[p..p + |lit|] == lit <==> buf[p + 1..p + |lit|] == lit[1..])
    ensures p + |lit| > |buf| ==> (buf[p..] == lit[..|buf| - p] <==> buf[p + 1..] == lit[1..][..|buf| - (p + 1)])
  {
    if p + |lit| <= |buf| {
      assert buf[p..p + |lit|] == [buf[p]] + buf[p + 1..p + |lit|];
      assert lit == [lit[0]] + lit[1..];
    } else {
      assert buf[p..] == [buf[p]] + buf[p + 1..];
      assert lit[..|buf| - p] == [lit[0]] + lit[1..][..|buf| - (p + 1)];
    }
  }

  // ---------------------------------------------------------------------
  // The chunk walk (FindNextChunk, FindChunk)

  /** The module-level `data_p` cursor: NULL or an offset from the file start. */
  datatype Ptr = Null | At(offset: int)

  /** The parser state FindNextChunk leaves behind: data_p, last_chunk, iff_chunk_len. */
  datatype Scan = Scan(cursor: Ptr, lastChunk: int, chunkLen: int)

  /** `(len + 1) & ~1`: a chunk body is padded to an even number of bytes. */
  function PadEven(len: nat): (n: nat)
    ensures n % 2 == 0 && len <= n <= len + 1
  {
    len + len % 2
  }

  /** The length field of the chunk whose header starts at `p`. */
  function DeclaredLen(buf: seq<Byte>, p: nat): int
    requires p + 8 < |buf|
  {
    LongAt(buf, p + 4)
  }

  /** The declared length is neither negative nor larger than what follows the header. */
  predicate LenOk(buf: seq<Byte>, p: nat)
    requires p + 8 < |buf|
  {
    0 <= DeclaredLen(buf, p) <= |buf| - (p + 8)
  }

  /** Where the next chunk header starts: after the header, the body and its pad byte. */
  function ChunkEnd(buf: seq<Byte>, p: nat): (n: nat)
    requires p + 8 < |buf| && LenOk(buf, p)
    ensures p + 8 <= n <= |buf| + 1
    ensures n - (p + 8) == PadEven(DeclaredLen(buf, p))
  {
    p + 8 + PadEven(DeclaredLen(buf, p))
  }

  predicate IdIs(buf: seq<Byte>, p: nat, name: seq<Byte>)
    requires p + 4 <= |buf|
  {
    buf[p..p + 4] == name
  }

  /**
    FindNextChunk: walk from the header at `last` to the first chunk whose id
    is `name`. The walk stops with a NULL cursor when fewer than 9 bytes are
    left at a header, or when a header declares a negative length or one
    longer than the rest of the buffer. `chunkLen` is the previous
    iff_chunk_len, left as it was when the walk stops before reading a length.
  */
  function NextChunk(buf: seq<Byte>, last: nat, chunkLen: int, name: seq<Byte>): (r: Scan)
    requires |name| == 4
    decreases |buf| - last
    ensures r.cursor.At? ==>
      var h := r.cursor.offset;
      last <= h && h + 8 < |buf| && IdIs(buf, h, name) && LenOk(buf, h)
      && r.chunkLen == DeclaredLen(buf, h) && r.lastChunk == ChunkEnd(buf, h)
    ensures r.cursor.Null? ==>
      last <= r.lastChunk
      && (r.lastChunk + 8 >= |buf|
          || (!LenOk(buf, r.lastChunk) && r.chunkLen == DeclaredLen(buf, r.lastChunk)))
  {
    if last + 8 >= |buf| then Scan(Null, last, chunkLen)
    else if !LenOk(buf, last) then Scan(Null, last, DeclaredLen(buf, last))
    else if IdIs(buf, last, name) then Scan(At(last), ChunkEnd(buf, last), DeclaredLen(buf, last))
    else NextChunk(buf, ChunkEnd(buf, last), DeclaredLen(buf, last), name)
  }

  /** The headers of the well-formed chunks met by a walk that starts at `last`, in order. */
  ghost function Chunks(buf: seq<Byte>, last: nat): (hs: seq<nat>)
    decreases |buf| - last
    ensures forall k :: 0 <= k < |hs| ==> last <= hs[k] && hs[k] + 8 < |buf| && LenOk(buf, hs[k])
  {
    if last + 8 >= |buf| || !LenOk(buf, last) then []
    else [last] + Chunks(buf, ChunkEnd(buf, last))
  }

  /** The walk comes back empty exactly when none of the well-formed chunks ahead carries the id. */
  predicate NoneIs(buf: seq<Byte>, hs: seq<nat>, name: seq<Byte>)
    requires forall k :: 0 <= k < |hs| ==> hs[k] + 4 <= |buf|
  {
    forall k :: 0 <= k < |hs| ==> !IdIs(buf, hs[k], name)
  }

  /** The position of the first header in `hs` that carries the id, or |hs| when none does. */
  ghost function FirstWithId(buf: seq<Byte>, hs: seq<nat>, name: seq<Byte>): (i: nat)
    requires forall k :: 0 <= k < |hs| ==> hs[k] + 4 <= |buf|
    ensures i <= |hs| && NoneIs(buf, hs[..i], name)
    ensures i < |hs| ==> IdIs(buf, hs[i], name)
  {
    if hs == [] then 0
    else if IdIs(buf, hs[0], name) then 0
    else
      var i := 1 + FirstWithId(buf, hs[1..], name);
      assert hs[..i] == [hs[0]] + hs[1..][..i - 1];
      i
  }

  /**
    The walk finds the first well-formed chunk ahead that carries the id,
    and comes back with a NULL cursor exactly when there is none.
  */
  lemma {:induction false} NextChunkFindsFirst(buf: seq<Byte>, last: nat, chunkLen: int, name: seq<Byte>)
    requires |name| == 4
    decreases |buf| - last
    ensures var hs := Chunks(buf, last);
            var i := FirstWithId(buf, hs, name);
            NextChunk(buf, last, chunkLen, name).cursor == if i < |hs| then At(hs[i]) else Null
  {
    var hs := Chunks(buf, last);
    if last + 8 >= |buf| || !LenOk(buf, last) {
      assert hs == [];
    } else if IdIs(buf, last, name) {
      assert hs[0] == last;
    } else {
      var next := ChunkEnd(buf, last);
      var tl := Chunks(buf, next);
      NextChunkFindsFirst(buf, next, DeclaredLen(buf, last), name);
      assert hs == [last] + tl;
      assert hs[1..] == tl;
      assert NextChunk(buf, last, chunkLen, name) == NextChunk(buf, next, DeclaredLen(buf, last), name);
      assert FirstWithId(buf, hs, name) == 1 + FirstWithId(buf, tl, name);
    }
  }

  /** The stale iff_chunk_len a walk starts with affects neither the cursor nor last_chunk. */
  lemma {:induction false} NextChunkIgnoresChunkLen(buf: seq<Byte>, last: nat, c1: int, c2: int, name: seq<Byte>)
    requires |name| == 4
    decreases |buf| - last
    ensures NextChunk(buf, last, c1, name).cursor == NextChunk(buf, last, c2, name).cursor
    ensures NextChunk(buf, last, c1, name).lastChunk == NextChunk(buf, last, c2, name).lastChunk
  {
    if last + 8 < |buf| && LenOk(buf, last) && !IdIs(buf, last, name) {
      NextChunkIgnoresChunkLen(buf, ChunkEnd(buf, last), DeclaredLen(buf, last), DeclaredLen(buf, last), name);
    }
  }

  // ---------------------------------------------------------------------
  // GetWavinfo

  /** wavinfo_t: what the loader learns from a WAV header. */
  datatype WavInfo = WavInfo(rate: int, width: int, channels: int, loopstart: int, samples: int, dataofs: int)

  const ZeroInfo := WavInfo(0, 0, 0, 0, 0, 0)

  /** Points where the C code's behaviour is undefined. */
  datatype Fault = ReadPastEnd | DivideByZero

  /**
    What GetWavinfo does: return the (possibly zeroed, possibly partly
    filled) static wavinfo_t, stop the program with Sys_Error because a loop
    marker asks for more samples than the data holds, or reach undefined
    behaviour.
  */
  datatype WavResult = Info(info: WavInfo) | BadLoopLength | Undefined(fault: Fault)

  /** An intermediate stage: carry on with the partly filled info, or finish. */
  datatype Stage = Continue(info: WavInfo) | Finish(result: WavResult)

  /** GetWavinfo on a buffer (None is the NULL pointer); iff_end is the end of the buffer. */
  function Wavinfo(wav: Option<seq<Byte>>): WavResult
  {
    if wav.None? then Info(ZeroInfo) else ParseWav(wav.value)
  }

  /** The "RIFF" chunk and its "WAVE" form type; the other chunks are looked for after its 12-byte header. */
  function ParseWav(buf: seq<Byte>): WavResult
  {
    var riff := NextChunk(buf, 0, 0, RiffId);
    if riff.cursor.Null? then Info(ZeroInfo)
    else
      var h := riff.cursor.offset;
      match CompareAt(buf, h + 8, WaveId)
      case Overrun => Undefined(ReadPastEnd)
      case Differs => Info(ZeroInfo)
      case Same => ReadBody(buf, h + 12)
  }

  /** The chunks after the RIFF header, which starts at `iffData - 12`. */
  function ReadBody(buf: seq<Byte>, iffData: nat): WavResult
  {
    match ReadFmt(buf, iffData)
    case Finish(r) => r
    case Continue(info) =>
      match ReadCue(buf, iffData, info)
      case Finish(r) => r
      case Continue(info') => ReadData(buf, iffData, info')
  }

  /**
    The "fmt " chunk: format tag 1 (PCM), then the channel count, the sample
    rate and, after the byte rate and block alignment, the bits per sample,
    which becomes a byte width by C division by 8.
  */
  function ReadFmt(buf: seq<Byte>, iffData: nat): (s: Stage)
    ensures s.Continue? ==> s.info.loopstart == 0 && s.info.samples == 0 && s.info.dataofs == 0
  {
    var fmt := NextChunk(buf, iffData, 0, FmtId);
    if fmt.cursor.Null? then Finish(Info(ZeroInfo))
    else
      var f := fmt.cursor.offset;
      if f + 10 > |buf| then Finish(Undefined(ReadPastEnd))
      else if ShortAt(buf, f + 8) != 1 then Finish(Info(ZeroInfo))
      else if f + 24 > |buf| then Finish(Undefined(ReadPastEnd))
      else
        Continue(WavInfo(rate := LongAt(buf, f + 12),
                         width := CDiv(ShortAt(buf, f + 22), 8),
                         channels := ShortAt(buf, f + 10),
                         loopstart := 0, samples := 0, dataofs := 0))
  }

  /**
    The "cue " chunk: the sample offset of the first cue point, 32 bytes past
    the chunk header; a following "LIST" chunk with "mark" 28 bytes past its
    header gives a loop length 24 bytes past its header.
  */
  function ReadCue(buf: seq<Byte>, iffData: nat, info: WavInfo): (s: Stage)
    ensures s.Continue? ==> s.info.(loopstart := info.loopstart, samples := info.samples) == info
  {
    var cue := NextChunk(buf, iffData, 0, CueId);
    if cue.cursor.Null? then Continue(info.(loopstart := -1))
    else
      var c := cue.cursor.offset;
      if c + 36 > |buf| then Finish(Undefined(ReadPastEnd))
      else
        var loopstart := LongAt(buf, c + 32);
        ReadMark(buf, NextChunk(buf, cue.lastChunk, cue.chunkLen, ListId).cursor, info.(loopstart := loopstart))
  }

  /**
    The "LIST" chunk after the "cue " chunk, at `list` or NULL: when its
    sub-chunk 28 bytes past its header is a "mark", the sample count is the
    loop start plus the 32-bit value 24 bytes past the header.
  */
  function ReadMark(buf: seq<Byte>, list: Ptr, info: WavInfo): (s: Stage)
    requires list.At? ==> 0 <= list.offset
    ensures s.Continue? ==> s.info.(samples := info.samples) == info
  {
    if list.Null? then Continue(info)
    else
      var l := list.offset;
      if l + 28 > |buf| then Finish(Undefined(ReadPastEnd))
      else match CompareAt(buf, l + 28, MarkId)
      case Overrun => Finish(Undefined(ReadPastEnd))
      case Differs => Continue(info)
      case Same => Continue(info.(samples := MarkCount(buf, l, info.loopstart)))
  }

  /** The sample count a "mark" at `l + 28` gives: the loop start plus the loop length at `l + 24`, wrapped to 32 bits. */
  function MarkCount(buf: seq<Byte>, l: nat, loopstart: int): int
    requires l + 28 <= |buf|
  {
    Wrap32(loopstart + LongAt(buf, l + 24))
  }

  /** The "data" chunk: the sample count is its length over the width, and dataofs is where its body starts. */
  function ReadData(buf: seq<Byte>, iffData: nat, info: WavInfo): WavResult
  {
    var data := NextChunk(buf, iffData, 0, DataId);
    if data.cursor.Null? then Info(info)
    else
      var d := data.cursor.offset;
      if info.width == 0 then Undefined(DivideByZero)
      else
        var samples := CDiv(LongAt(buf, d + 4), info.width);
        if info.samples != 0 then
          if samples < info.samples then BadLoopLength
          else Info(info.(dataofs := d + 8))
        else Info(info.(samples := samples, dataofs := d + 8))
  }

  // ---------------------------------------------------------------------
  // What GetWavinfo promises

  /**
    The early returns before the "fmt " chunk give the all-zero wavinfo_t:
    a NULL buffer, no "RIFF" chunk, a form type other than "WAVE".
  */
  lemma ZeroInfoCases(buf: seq<Byte>)
    ensures Wavinfo(None) == Info(ZeroInfo)
    ensures NextChunk(buf, 0, 0, RiffId).cursor.Null? ==> ParseWav(buf) == Info(ZeroInfo)
    ensures var riff := NextChunk(buf, 0, 0, RiffId);
            riff.cursor.At? && CompareAt(buf, riff.cursor.offset + 8, WaveId) == Differs
            ==> ParseWav(buf) == Info(ZeroInfo)
  {
  }

  /**
    The "fmt " stage stops with the all-zero wavinfo_t exactly when there is
    no "fmt " chunk or its format tag, which lies within the buffer, is not
    1 (PCM); the parse then ends with it.
  */
  lemma FmtZeroCases(buf: seq<Byte>, iffData: nat)
    ensures var fmt := NextChunk(buf, iffData, 0, FmtId);
            ReadFmt(buf, iffData) == Finish(Info(ZeroInfo))
            <==> fmt.cursor.Null?
                 || (fmt.cursor.offset + 10 <= |buf| && ShortAt(buf, fmt.cursor.offset + 8) != 1)
    ensures ReadFmt(buf, iffData) == Finish(Info(ZeroInfo)) ==> ReadBody(buf, iffData) == Info(ZeroInfo)
  {
  }

  /** An outcome other than the all-zero wavinfo_t and the failures comes from the chunks after a "RIFF" header of form "WAVE". */
  lemma ParseWavReachesBody(buf: seq<Byte>, i: WavInfo) returns (h: nat)
    requires ParseWav(buf) == Info(i) && i != ZeroInfo
    ensures NextChunk(buf, 0, 0, RiffId).cursor == At(h)
    ensures h + 12 <= |buf| && buf[h + 8..h + 12] == WaveId
    ensures ReadBody(buf, h + 12) == Info(i)
  {
    h := NextChunk(buf, 0, 0, RiffId).cursor.offset;
    assert CompareAt(buf, h + 8, WaveId) == Same;
  }

  /**
    A non-zero wavinfo_t comes from a "RIFF" chunk of form "WAVE" whose first
    "fmt " chunk has format tag 1; channels, rate and width are read from
    that chunk.
  */
  lemma {:induction false} InfoComesFromPcmFmt(buf: seq<Byte>, i: WavInfo) returns (h: nat, f: nat)
    requires ParseWav(buf) == Info(i) && i != ZeroInfo
    ensures NextChunk(buf, 0, 0, RiffId).cursor == At(h)
    ensures h + 12 <= |buf| && buf[h + 8..h + 12] == WaveId
    ensures NextChunk(buf, h + 12, 0, FmtId).cursor == At(f) && f + 24 <= |buf|
    ensures ShortAt(buf, f + 8) == 1
    ensures i.channels == ShortAt(buf, f + 10)
    ensures i.rate == LongAt(buf, f + 12)
    ensures i.width == CDiv(ShortAt(buf, f + 22), 8)
  {
    h := ParseWavReachesBody(buf, i);
    f := BodyFmtFields(buf, h + 12, i);
  }

  /** InfoComesFromPcmFmt for the chunks after the RIFF header. */
  lemma BodyFmtFields(buf: seq<Byte>, iffData: nat, i: WavInfo) returns (f: nat)
    requires ReadBody(buf, iffData) == Info(i) && i != ZeroInfo
    ensures NextChunk(buf, iffData, 0, FmtId).cursor == At(f) && f + 24 <= |buf|
    ensures ShortAt(buf, f + 8) == 1
    ensures i.channels == ShortAt(buf, f + 10)
    ensures i.rate == LongAt(buf, f + 12)
    ensures i.width == CDiv(ShortAt(buf, f + 22), 8)
  {
    BodyKeepsFmt(buf, iffData, i);
    f := FmtFields(buf, iffData);
  }

  /** A non-zero outcome of the chunks after the RIFF header passed the "fmt " stage and keeps its fields. */
  lemma BodyKeepsFmt(buf: seq<Byte>, iffData: nat, i: WavInfo)
    requires ReadBody(buf, iffData) == Info(i) && i != ZeroInfo
    ensures ReadFmt(buf, iffData).Continue?
    ensures var f := ReadFmt(buf, iffData).info;
            i.channels == f.channels && i.rate == f.rate && i.width == f.width
  {
    var fs := ReadFmt(buf, iffData);
    assert fs.Continue?;
    var cs := ReadCue(buf, iffData, fs.info);
    assert cs.Continue?;
    ReadDataKeepsFmt(buf, iffData, cs.info, i);
  }

  /** What the "fmt " stage read when it lets parsing go on: the chunk at `f` and its fields. */
  lemma FmtFields(buf: seq<Byte>, iffData: nat) returns (f: nat)
    requires ReadFmt(buf, iffData).Continue?
    ensures NextChunk(buf, iffData, 0, FmtId).cursor == At(f) && f + 24 <= |buf|
    ensures ShortAt(buf, f + 8) == 1
    ensures var i := ReadFmt(buf, iffData).info;
            i.channels == ShortAt(buf, f + 10)
            && i.rate == LongAt(buf, f + 12)
            && i.width == CDiv(ShortAt(buf, f + 22), 8)
  {
    f := NextChunk(buf, iffData, 0, FmtId).cursor.offset;
  }

  /**
    With no "cue " chunk the loop start is -1; with one, it is the 32-bit
    value 32 bytes past that chunk's header (the first cue point's sample
    offset).
  */
  lemma LoopStartFromCue(buf: seq<Byte>, iffData: nat, info: WavInfo)
    requires ReadCue(buf, iffData, info).Continue?
    ensures var cue := NextChunk(buf, iffData, 0, CueId);
            var i := ReadCue(buf, iffData, info).info;
            (cue.cursor.Null? ==> i.loopstart == -1)
            && (cue.cursor.At? ==> cue.cursor.offset + 36 <= |buf| && i.loopstart == LongAt(buf, cue.cursor.offset + 32))
  {
  }

  /** The "LIST" chunk at `list` carries "mark" 28 bytes past its header. */
  predicate HasMark(buf: seq<Byte>, list: Ptr)
  {
    list.At? && 0 <= list.offset && list.offset + 28 <= |buf| && CompareAt(buf, list.offset + 28, MarkId) == Same
  }

  /**
    With a "mark" in the "LIST" chunk at `list`, the sample count becomes
    MarkCount: the loop start plus the 32-bit value 24 bytes past that
    chunk's header, wrapped to 32 bits; nothing else changes.
  */
  lemma MarkSetsSamples(buf: seq<Byte>, list: Ptr, info: WavInfo)
    requires HasMark(buf, list)
    ensures ReadMark(buf, list, info) == Continue(info.(samples := MarkCount(buf, list.offset, info.loopstart)))
  {
  }

  /** Without a "mark", a stage that goes on keeps the info it was given, sample count included. */
  lemma NoMarkKeepsSamples(buf: seq<Byte>, list: Ptr, info: WavInfo)
    requires list.At? ==> 0 <= list.offset
    requires ReadMark(buf, list, info).Continue? && !HasMark(buf, list)
    ensures ReadMark(buf, list, info) == Continue(info)
  {
  }

  /**
    With a "cue " chunk at `c` whose cue point lies in the buffer, the stage
    goes on as the LIST stage at the first "LIST" chunk found by walking on
    from the cue chunk's end, with the loop start read at `c + 32`.
  */
  lemma CueReachesMark(buf: seq<Byte>, iffData: nat, info: WavInfo)
    requires NextChunk(buf, iffData, 0, CueId).cursor.At?
    requires NextChunk(buf, iffData, 0, CueId).cursor.offset + 36 <= |buf|
    ensures var cue := NextChunk(buf, iffData, 0, CueId);
            var list := NextChunk(buf, cue.lastChunk, cue.chunkLen, ListId).cursor;
            (list.At? ==> 0 <= list.offset)
            && ReadCue(buf, iffData, info) == ReadMark(buf, list, info.(loopstart := LongAt(buf, cue.cursor.offset + 32)))
  {
  }

  /**
    The sample count after the "cue " stage: unchanged without a "cue "
    chunk; with one at `c`, the first "LIST" chunk found by walking on from
    its end decides it, and a "mark" there makes it MarkCount: the cue point
    at `c + 32` plus the loop length, wrapped to 32 bits.
  */
  lemma CueSamples(buf: seq<Byte>, iffData: nat, info: WavInfo)
    requires ReadCue(buf, iffData, info).Continue?
    ensures var cue := NextChunk(buf, iffData, 0, CueId);
            cue.cursor.Null? ==> ReadCue(buf, iffData, info).info.samples == info.samples
    ensures var cue := NextChunk(buf, iffData, 0, CueId);
            var list := NextChunk(buf, cue.lastChunk, cue.chunkLen, ListId).cursor;
            cue.cursor.At? && HasMark(buf, list)
            ==> cue.cursor.offset + 36 <= |buf|
                && ReadCue(buf, iffData, info).info.samples == MarkCount(buf, list.offset, LongAt(buf, cue.cursor.offset + 32))
    ensures var cue := NextChunk(buf, iffData, 0, CueId);
            var list := NextChunk(buf, cue.lastChunk, cue.chunkLen, ListId).cursor;
            cue.cursor.At? && !HasMark(buf, list) ==> ReadCue(buf, iffData, info).info.samples == info.samples
  {
    var cue := NextChunk(buf, iffData, 0, CueId);
    if cue.cursor.At? {
      var list := NextChunk(buf, cue.lastChunk, cue.chunkLen, ListId).cursor;
      var withCue := info.(loopstart := LongAt(buf, cue.cursor.offset + 32));
      CueReachesMark(buf, iffData, info);
      if HasMark(buf, list) {
        MarkSetsSamples(buf, list, withCue);
      } else {
        NoMarkKeepsSamples(buf, list, withCue);
      }
    }
  }

  /** The stage after the cue chunk keeps the fmt fields and the sample count only changes through a "mark". */
  lemma ReadDataKeepsFmt(buf: seq<Byte>, iffData: nat, info: WavInfo, i: WavInfo)
    requires ReadData(buf, iffData, info) == Info(i)
    ensures i.rate == info.rate && i.width == info.width && i.channels == info.channels && i.loopstart == info.loopstart
    ensures info.samples != 0 ==> i.samples == info.samples
  {
  }

  /**
    When the "data" chunk is found, dataofs is where its body starts, its
    declared length fits in the buffer, the width is not 0, and the sample
    count is the length over the width, or the loop length of a "mark"
    when that is set and not larger. Otherwise the result is the Sys_Error.
  */
  lemma {:induction false} DataChunkResult(buf: seq<Byte>, iffData: nat, info: WavInfo)
    requires NextChunk(buf, iffData, 0, DataId).cursor.At? && info.width != 0
    ensures var d := NextChunk(buf, iffData, 0, DataId).cursor.offset;
            var len := LongAt(buf, d + 4);
            var fromData := CDiv(len, info.width);
            0 <= len && d + 8 + len <= |buf| && buf[d..d + 4] == DataId
            && (ReadData(buf, iffData, info) == BadLoopLength <==> info.samples != 0 && fromData < info.samples)
            && (ReadData(buf, iffData, info).Info? ==>
                  var i := ReadData(buf, iffData, info).info;
                  i.dataofs == d + 8
                  && i.samples == (if info.samples != 0 then info.samples else fromData)
                  && i.samples <= fromData)
  {
    var d := NextChunk(buf, iffData, 0, DataId).cursor.offset;
    assert DeclaredLen(buf, d) == LongAt(buf, d + 4);
  }

  /** At most the truncated quotient of `len` by `w` samples of `w` bytes each fit in `len` bytes. */
  lemma QuotientFits(len: nat, w: int, n: int)
    requires w > 0 && n <= CDiv(len, w)
    ensures n * w <= len
  {
    var q := len / w;
    assert CDiv(len, w) == q;
    assert len == w * q + len % w;
    assert n * w <= q * w;
  }

  /**
    The sample data a caller reads, `samples * width` bytes from `dataofs`,
    lies within the buffer whenever the data chunk was found, the width is
    positive and the sample count is not negative.
  */
  lemma {:induction false} SampleDataInBuffer(buf: seq<Byte>, i: WavInfo)
    requires ParseWav(buf) == Info(i) && i.dataofs != 0
    requires i.width > 0 && i.samples >= 0
    ensures i.dataofs + i.samples * i.width <= |buf|
  {
    assert i != ZeroInfo;
    var h := ParseWavReachesBody(buf, i);
    BodySampleData(buf, h + 12, i);
  }

  /** SampleDataInBuffer for the chunks after the RIFF header. */
  lemma BodySampleData(buf: seq<Byte>, iffData: nat, i: WavInfo)
    requires ReadBody(buf, iffData) == Info(i) && i.dataofs != 0
    requires i.width > 0 && i.samples >= 0
    ensures i.dataofs + i.samples * i.width <= |buf|
  {
    var pre := BodyReachesData(buf, iffData, i);
    var d := NextChunk(buf, iffData, 0, DataId).cursor.offset;
    DataChunkResult(buf, iffData, pre);
    var len := LongAt(buf, d + 4);
    assert i.dataofs == d + 8 && 0 <= len && d + 8 + len <= |buf|;
    assert i.samples <= CDiv(len, i.width);
    QuotientFits(len, i.width, i.samples);
  }

  /** An outcome with a data offset comes out of the "data" stage, run on an info without one. */
  lemma BodyReachesData(buf: seq<Byte>, iffData: nat, i: WavInfo) returns (pre: WavInfo)
    requires ReadBody(buf, iffData) == Info(i) && i.dataofs != 0
    ensures ReadData(buf, iffData, pre) == Info(i) && pre.dataofs == 0 && pre.width == i.width
    ensures NextChunk(buf, iffData, 0, DataId).cursor.At?
  {
    var fs := ReadFmt(buf, iffData);
    assert fs.Continue?;
    var cs := ReadCue(buf, iffData, fs.info);
    assert cs.Continue?;
    pre := cs.info;
    ReadDataKeepsFmt(buf, iffData, pre, i);
  }
}
