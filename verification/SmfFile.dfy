/**
 Reading and merging whole files, as `workflow_manager.go` does with `readSMF` and
 `mergeSMF`, over the bytes of regular files.
 */
module SmfFile {
  import opened Arithmetic
  import opened Bytes
  import opened SmfTrack
  import opened SmfRenderer

  datatype Header = Header(format: Word16, numTracks: Word16, division: Word16)

  datatype Error =
    | ShortHeader
    | BadMagic
    | BadHeaderLength
    | ShortTrackMagic(track: nat)
    | BadTrackMagic(track: nat)
    | ShortTrackLength(track: nat)
    | NoTrackData(track: nat)

  datatype Result<+T> = Ok(value: T) | Err(error: Error)

  datatype Smf = Smf(header: Header, tracks: seq<seq<Byte>>)

  // ----- the reader

  function Zeros(n: nat): (z: seq<Byte>)
    ensures |z| == n
  {
    seq(n, (i: nat) => 0)
  }

  /**
   One `Read` into a buffer of `len` bytes: it fails only when bytes are wanted and
   none are left; when the file is short, the rest of the buffer stays zero.
   */
  function ReadData(b: seq<Byte>, len: nat): Option<(seq<Byte>, seq<Byte>)> {
    if len <= |b| then Some((b[..len], b[len..]))
    else if b == [] then None
    else Some((b + Zeros(len - |b|), []))
  }

  function ReadTrack(b: seq<Byte>, i: nat): Result<(seq<Byte>, seq<Byte>)> {
    if |b| < 4 then Err(ShortTrackMagic(i))
    else if b[..4] != MTRK then Err(BadTrackMagic(i))
    else if |b| < 8 then Err(ShortTrackLength(i))
    else match ReadData(b[8..], ReadBe32(b[4..8]))
      case None => Err(NoTrackData(i))
      case Some(r) => Ok(r)
  }

  /** The data of `n` track chunks; bytes after the last one are ignored. */
  function ReadTracks(b: seq<Byte>, n: nat, i: nat): Result<seq<seq<Byte>>>
    decreases n
  {
    if n == 0 then Ok([])
    else
      match ReadTrack(b, i)
      case Err(e) => Err(e)
      case Ok((data, rest)) =>
        match ReadTracks(rest, n - 1, i + 1)
        case Err(e) => Err(e)
        case Ok(more) => Ok([data] + more)
  }

  function ReadHeader(b: seq<Byte>): Result<Header> {
    if |b| < 14 then Err(ShortHeader)
    else if b[..4] != MTHD then Err(BadMagic)
    else if ReadBe32(b[4..8]) != 6 then Err(BadHeaderLength)
    else Ok(Header(ReadBe16(b[8..10]), ReadBe16(b[10..12]), ReadBe16(b[12..14])))
  }

  function Read(b: seq<Byte>): Result<Smf> {
    match ReadHeader(b)
    case Err(e) => Err(e)
    case Ok(h) =>
      match ReadTracks(b[14..], h.numTracks, 0)
      case Err(e) => Err(e)
      case Ok(tracks) => Ok(Smf(h, tracks))
  }

  /** `readSMF`: a cursor moving through the file, filling a slice of tracks. */
  method ReadSmf(file: seq<Byte>) returns (r: Result<Smf>)
    ensures r == Read(file)
  {
    var header := ReadHeader(file);
    if header.Err? {
      return Err(header.error);
    }
    var tracks: seq<seq<Byte>> := [];
    var cursor, n := 14, header.value.numTracks;
    var rest := file[cursor..];
    ghost var whole := ReadTracks(file[14..], n, 0);
    PrefixedNothing(whole);
    for i := 0 to n
      invariant |tracks| == i
      invariant whole == Prefixed(tracks, ReadTracks(rest, n - i, i))
    {
      match ReadTrack(rest, i) {
        case Err(e) =>
          return Err(e);
        case Ok((data, more)) =>
          PrefixedStep(tracks, data, ReadTracks(more, n - i - 1, i + 1));
          tracks := tracks + [data];
          rest := more;
      }
    }
    assert tracks + [] == tracks;
    r := Ok(Smf(header.value, tracks));
  }

  function Prefixed(tracks: seq<seq<Byte>>, rest: Result<seq<seq<Byte>>>): Result<seq<seq<Byte>>> {
    match rest
    case Err(e) => Err(e)
    case Ok(more) => Ok(tracks + more)
  }

  lemma PrefixedNothing(rest: Result<seq<seq<Byte>>>)
    ensures Prefixed([], rest) == rest
  {
    if rest.Ok? {
      assert [] + rest.value == rest.value;
    }
  }

  lemma PrefixedStep(tracks: seq<seq<Byte>>, data: seq<Byte>, rest: Result<seq<seq<Byte>>>)
    ensures Prefixed(tracks, match rest case Err(e) => Err(e) case Ok(more) => Ok([data] + more))
         == Prefixed(tracks + [data], rest)
  {
    if rest.Ok? {
      assert tracks + ([data] + rest.value) == tracks + [data] + rest.value;
    }
  }

  // ----- the writer

  /** A file with the given header and tracks; the track count is what the header says. */
  function Write(h: Header, tracks: seq<seq<Byte>>): seq<Byte> {
    HeaderBytes(h.format, h.numTracks, h.division) + Chunks(tracks)
  }

  /** Every track fits the 32-bit length field. */
  ghost predicate Fits(tracks: seq<seq<Byte>>) {
    forall i :: 0 <= i < |tracks| ==> |tracks[i]| < 0x1_0000_0000
  }

  lemma ReadTrackChunk(body: seq<Byte>, rest: seq<Byte>, i: nat)
    requires |body| < 0x1_0000_0000
    ensures ReadTrack(Chunk(body) + rest, i) == Ok((body, rest))
  {
    hide Be32, ReadBe32;
    var b := Chunk(body) + rest;
    Be32RoundTrip(|body|);
    assert b[..4] == MTRK;
    assert b[4..8] == Be32(|body|);
    assert b[8..] == body + rest;
    assert (body + rest)[..|body|] == body && (body + rest)[|body|..] == rest;
  }

  lemma {:induction false} ChunksFront(tracks: seq<seq<Byte>>)
    requires tracks != []
    ensures Chunks(tracks) == Chunk(tracks[0]) + Chunks(tracks[1..])
  {
    hide Chunk;
    var n := |tracks| - 1;
    if n == 0 {
      assert Chunks(tracks[..0]) + Chunk(tracks[0]) == Chunk(tracks[0]) + Chunks(tracks[1..]);
    } else {
      ChunksFront(tracks[..n]);
      assert tracks[..n][1..] == tracks[1..][..n - 1];
      assert tracks[1..][|tracks[1..]| - 1] == tracks[n];
    }
  }

  /** The first `n` of the written tracks read back, whatever follows. */
  lemma {:induction false} ReadChunks(tracks: seq<seq<Byte>>, n: nat, i: nat)
    requires Fits(tracks) && n <= |tracks|
    ensures ReadTracks(Chunks(tracks), n, i) == Ok(tracks[..n])
    decreases n
  {
    hide Chunk, ReadTrack;
    if n > 0 {
      ChunksFront(tracks);
      ReadTrackChunk(tracks[0], Chunks(tracks[1..]), i);
      ReadChunks(tracks[1..], n - 1, i + 1);
      assert tracks[..n] == [tracks[0]] + tracks[1..][..n - 1];
    }
  }

  lemma ReadWrittenHeader(h: Header, rest: seq<Byte>)
    ensures var b := HeaderBytes(h.format, h.numTracks, h.division) + rest;
            ReadHeader(b) == Ok(h) && b[14..] == rest
  {
    hide Be16, ReadBe16, Be32, ReadBe32;
    var b := HeaderBytes(h.format, h.numTracks, h.division) + rest;
    Be32RoundTrip(6);
    Be16RoundTrip(h.format);
    Be16RoundTrip(h.numTracks);
    Be16RoundTrip(h.division);
    assert b[..4] == MTHD;
    assert b[4..8] == Be32(6);
    assert b[8..10] == Be16(h.format);
    assert b[10..12] == Be16(h.numTracks);
    assert b[12..14] == Be16(h.division);
  }

  /** A written file reads back as its header and as many of its tracks as the header announces. */
  lemma ReadWrite(h: Header, tracks: seq<seq<Byte>>)
    requires Fits(tracks) && h.numTracks <= |tracks|
    ensures Read(Write(h, tracks)) == Ok(Smf(h, tracks[..h.numTracks]))
  {
    hide HeaderBytes, ReadHeader;
    ReadWrittenHeader(h, Chunks(tracks));
    ReadChunks(tracks, h.numTracks, 0);
  }

  // ----- what was read is what is there

  lemma Be32Inverse(b: seq<Byte>)
    requires |b| == 4
    ensures Be32(ReadBe32(b)) == b
  {
    var high, low := b[..2], b[2..];
    TwoBytes(ReadBe16(high), ReadBe16(low));
    assert Be16(ReadBe16(high)) == high && Be16(ReadBe16(low)) == low;
    assert high + low == b;
  }

  lemma TwoBytes(high: Word16, low: Word16)
    ensures var n: nat := high; (n * 0x1_0000 + low) / 0x1_0000 == high && (n * 0x1_0000 + low) % 0x1_0000 == low
  {
  }

  lemma Be16Inverse(b: seq<Byte>)
    requires |b| == 2
    ensures Be16(ReadBe16(b)) == b
  {
  }

  /** A track chunk that was read stands at the front of the bytes; if the file ends inside its data, zeros stand in for the rest. */
  lemma ReadTrackIsThere(b: seq<Byte>, i: nat) returns (pad: nat)
    requires ReadTrack(b, i).Ok?
    ensures var (data, rest) := ReadTrack(b, i).value;
            |data| < 0x1_0000_0000 && Chunk(data) + rest == b + Zeros(pad) && (pad > 0 ==> rest == [])
  {
    hide Be32, ReadBe32;
    var (data, rest) := ReadTrack(b, i).value;
    var len := ReadBe32(b[4..8]);
    Be32Inverse(b[4..8]);
    assert b == b[..4] + b[4..8] + b[8..];
    pad := |data| + |rest| - |b[8..]|;
    assert b[8..] + Zeros(pad) == data + rest;
  }

  lemma {:induction false} ReadTracksAreThere(b: seq<Byte>, n: nat, i: nat) returns (pad: nat)
    requires ReadTracks(b, n, i).Ok?
    ensures var tracks := ReadTracks(b, n, i).value;
            && |tracks| == n && Fits(tracks) && Chunks(tracks) <= b + Zeros(pad) && (pad > 0 ==> |Chunks(tracks)| == |b| + pad)
    decreases n
  {
    hide ReadTrack, Chunk;
    pad := 0;
    if n > 0 {
      var (data, rest) := ReadTrack(b, i).value;
      var short := ReadTrackIsThere(b, i);
      var more := ReadTracks(rest, n - 1, i + 1).value;
      var later := ReadTracksAreThere(rest, n - 1, i + 1);
      var tracks := [data] + more;
      assert tracks[1..] == more;
      ChunksFront(tracks);
      if n == 1 {
        pad := short;
        assert Chunks(more) == [] && Chunks(tracks) == Chunk(data);
      } else {
        assert rest != [] by { NothingToRead(i + 1); }
        pad := later;
        assert b + Zeros(0) == b;
        assert Chunk(data) + (rest + Zeros(later)) == b + Zeros(later);
      }
    }
  }

  lemma NothingToRead(i: nat)
    ensures ReadTrack([], i).Err?
  {
  }

  /**
   What `readSMF` returns is what the file says: written again, the header and the tracks are the
   beginning of the file, except that a file that ends inside its last track is filled up with zeros.
   */
  lemma ReadIsWritten(b: seq<Byte>) returns (pad: nat)
    requires Read(b).Ok?
    ensures var smf := Read(b).value;
            && |smf.tracks| == smf.header.numTracks && Fits(smf.tracks)
            && Write(smf.header, smf.tracks) <= b + Zeros(pad) && (pad > 0 ==> |Write(smf.header, smf.tracks)| == |b| + pad)
  {
    hide ReadTracks, Chunks, Be32, ReadBe32, Be16, ReadBe16;
    var h := ReadHeader(b).value;
    var tracks := ReadTracks(b[14..], h.numTracks, 0).value;
    pad := ReadTracksAreThere(b[14..], h.numTracks, 0);
    Be32Inverse(b[4..8]);
    Be16Inverse(b[8..10]);
    Be16Inverse(b[10..12]);
    Be16Inverse(b[12..14]);
    assert b == b[..4] + b[4..8] + b[8..10] + b[10..12] + b[12..14] + b[14..];
    assert b[..14] == HeaderBytes(h.format, h.numTracks, h.division);
    assert b + Zeros(pad) == b[..14] + (b[14..] + Zeros(pad));
  }

  /** The file begins with the letters of a MIDI file header, and every chunk with those of a track. */
  lemma Signatures()
    ensures forall i :: 0 <= i < 4 ==> MTHD[i] == "MThd"[i] as int && MTRK[i] == "MTrk"[i] as int
  {
  }

  // ----- merging

  /** `mergeSMF`: the base header with the new track count, then the tracks of both files. */
  function Merge(base: seq<Byte>, overlay: seq<Byte>): Result<seq<Byte>> {
    match Read(base)
    case Err(e) => Err(e)
    case Ok(a) =>
      match Read(overlay)
      case Err(e) => Err(e)
      case Ok(b) =>
        var merged := a.tracks + b.tracks;
        Ok(Write(a.header.(numTracks := |merged| % 0x1_0000), merged))
  }

  /** The write loop of `mergeSMF`. */
  method WriteSmf(h: Header, tracks: seq<seq<Byte>>) returns (out: seq<Byte>)
    ensures out == Write(h, tracks)
  {
    hide Chunk, HeaderBytes;
    var header := HeaderBytes(h.format, h.numTracks, h.division);
    out := header;
    for i := 0 to |tracks|
      invariant out == header + Chunks(tracks[..i])
    {
      assert tracks[..i + 1] == tracks[..i] + [tracks[i]];
      ChunksAppend(tracks[..i], tracks[i]);
      ghost var done, chunk := Chunks(tracks[..i]), Chunk(tracks[i]);
      assert header + done + chunk == header + (done + chunk);
      out := out + Chunk(tracks[i]);
    }
    assert tracks[..|tracks|] == tracks;
  }

  method MergeSmf(base: seq<Byte>, overlay: seq<Byte>) returns (r: Result<seq<Byte>>)
    ensures r == Merge(base, overlay)
  {
    hide Read, Write;
    var a := ReadSmf(base);
    if a.Err? {
      return Err(a.error);
    }
    var b := ReadSmf(overlay);
    if b.Err? {
      return Err(b.error);
    }
    var merged := a.value.tracks + b.value.tracks;
    var out := WriteSmf(a.value.header.(numTracks := |merged| % 0x1_0000), merged);
    r := Ok(out);
  }

  /** The reader returns exactly the announced number of tracks, each of them short enough to write. */
  lemma {:induction false} ReadTracksShape(b: seq<Byte>, n: nat, i: nat)
    requires ReadTracks(b, n, i).Ok?
    ensures |ReadTracks(b, n, i).value| == n && Fits(ReadTracks(b, n, i).value)
    decreases n
  {
    hide ReadBe32;
    if n > 0 {
      var (data, rest) := ReadTrack(b, i).value;
      ReadTracksShape(rest, n - 1, i + 1);
    }
  }

  lemma ReadShape(b: seq<Byte>)
    requires Read(b).Ok?
    ensures var s := Read(b).value; |s.tracks| == s.header.numTracks <= 0xFFFF && Fits(s.tracks)
  {
    ReadTracksShape(b[14..], ReadHeader(b).value.numTracks, 0);
  }

  /**
   Reading a merged file gives the header of the base with the wrapped sum of the
   track counts, and that many of the tracks of the base followed by those of the
   overlay, byte for byte.
   */
  lemma ReadMerge(base: seq<Byte>, overlay: seq<Byte>)
    requires Read(base).Ok? && Read(overlay).Ok?
    ensures var (a, b) := (Read(base).value, Read(overlay).value);
            var n := (|a.tracks| + |b.tracks|) % 0x1_0000;
            && Merge(base, overlay).Ok?
            && Read(Merge(base, overlay).value) == Ok(Smf(a.header.(numTracks := n), (a.tracks + b.tracks)[..n]))
  {
    hide Write, Read;
    ReadShape(base);
    ReadShape(overlay);
    var merged := Read(base).value.tracks + Read(overlay).value.tracks;
    ReadWrite(Read(base).value.header.(numTracks := |merged| % 0x1_0000), merged);
  }

  /** Merging conserves every track exactly when there are at most 65535 of them in total. */
  lemma MergeConserves(base: seq<Byte>, overlay: seq<Byte>)
    requires Read(base).Ok? && Read(overlay).Ok?
    ensures var (a, b) := (Read(base).value, Read(overlay).value);
            && Merge(base, overlay).Ok? && Read(Merge(base, overlay).value).Ok?
            && (Read(Merge(base, overlay).value).value.tracks == a.tracks + b.tracks
                <==> |a.tracks| + |b.tracks| <= 0xFFFF)
  {
    hide Read, Merge;
    ReadMerge(base, overlay);
    var merged := Read(base).value.tracks + Read(overlay).value.tracks;
    assert merged[..|merged|] == merged;
  }

  lemma {:induction false} ChunksInjective(s: seq<seq<Byte>>, t: seq<seq<Byte>>)
    requires Fits(s) && Fits(t) && Chunks(s) == Chunks(t)
    ensures s == t
    decreases |s|
  {
    hide Chunk, Chunks, ReadTrack;
    ChunksEmpty(s);
    ChunksEmpty(t);
    if s != [] {
      ChunksFront(s);
      ChunksFront(t);
      ReadTrackChunk(s[0], Chunks(s[1..]), 0);
      ReadTrackChunk(t[0], Chunks(t[1..]), 0);
      ChunksInjective(s[1..], t[1..]);
      assert s == [s[0]] + s[1..] && t == [t[0]] + t[1..];
    }
  }

  lemma ChunksEmpty(tracks: seq<seq<Byte>>)
    ensures Chunks(tracks) == [] <==> tracks == []
  {
    if tracks != [] {
      assert |Chunk(tracks[|tracks| - 1])| >= 8;
    }
  }

  lemma WriteInjective(h: Header, s: seq<seq<Byte>>, t: seq<seq<Byte>>)
    requires Fits(s) && Fits(t)
    ensures Write(h.(numTracks := |s| % 0x1_0000), s) == Write(h.(numTracks := |t| % 0x1_0000), t) <==> s == t
  {
    hide Chunks, HeaderBytes, ReadHeader;
    var hs, ht := h.(numTracks := |s| % 0x1_0000), h.(numTracks := |t| % 0x1_0000);
    ReadWrittenHeader(hs, Chunks(s));
    ReadWrittenHeader(ht, Chunks(t));
    if Write(hs, s) == Write(ht, t) {
      ChunksInjective(s, t);
    }
  }

  /** What is left of `a` followed by `b` after writing and reading. */
  function Kept(a: seq<seq<Byte>>, b: seq<seq<Byte>>): (kept: seq<seq<Byte>>)
    ensures |a| + |b| <= 0xFFFF ==> kept == a + b
  {
    assert (a + b)[..|a + b|] == a + b;
    (a + b)[..(|a| + |b|) % 0x1_0000]
  }

  /** Both neighbouring pairs fit the count, or neither does and `c` holds what the two wraps cut away. */
  predicate Regroups(a: seq<seq<Byte>>, b: seq<seq<Byte>>, c: seq<seq<Byte>>)
    requires |a| <= 0xFFFF && |b| <= 0xFFFF && |c| <= 0xFFFF
  {
    if |a| + |b| <= 0xFFFF then |b| + |c| <= 0xFFFF
    else |b| + |c| > 0xFFFF && c == a[|a| + |b| - 0x1_0000..] + b[..|b| + |c| - 0x1_0000]
  }

  /**
   Merging three files in either order gives the same bytes exactly when both neighbouring pairs have at
   most 65535 tracks, or both have more and the third file happens to hold what the two wraps cut away.
   */
  lemma MergeAssociativeIff(a: seq<Byte>, b: seq<Byte>, c: seq<Byte>)
    requires Read(a).Ok? && Read(b).Ok? && Read(c).Ok?
    ensures |Read(a).value.tracks| <= 0xFFFF && |Read(b).value.tracks| <= 0xFFFF && |Read(c).value.tracks| <= 0xFFFF
    ensures Merge(a, b).Ok? && Merge(b, c).Ok?
    ensures var (ta, tb, tc) := (Read(a).value.tracks, Read(b).value.tracks, Read(c).value.tracks);
            Merge(Merge(a, b).value, c) == Merge(a, Merge(b, c).value) <==> Regroups(ta, tb, tc)
  {
    hide Read, Write, Fits;
    ReadMerge(a, b);
    ReadMerge(b, c);
    ReadShape(a);
    ReadShape(b);
    ReadShape(c);
    var ta, tb, tc := Read(a).value.tracks, Read(b).value.tracks, Read(c).value.tracks;
    ReadShape(Merge(a, b).value);
    ReadShape(Merge(b, c).value);
    FitsConcat(Kept(ta, tb), tc);
    FitsConcat(ta, Kept(tb, tc));
    WriteInjective(Read(a).value.header, Kept(ta, tb) + tc, ta + Kept(tb, tc));
    KeptAssociates(ta, tb, tc);
  }

  lemma FitsConcat(s: seq<seq<Byte>>, t: seq<seq<Byte>>)
    requires Fits(s) && Fits(t)
    ensures Fits(s + t)
  {
  }

  lemma KeptAssociates(a: seq<seq<Byte>>, b: seq<seq<Byte>>, c: seq<seq<Byte>>)
    requires |a| <= 0xFFFF && |b| <= 0xFFFF && |c| <= 0xFFFF
    ensures Kept(a, b) + c == a + Kept(b, c) <==> Regroups(a, b, c)
  {
    if |a| + |b| <= 0xFFFF {
      if |b| + |c| <= 0xFFFF {
        assert (a + b) + c == a + (b + c);
      } else {
        assert |Kept(a, b) + c| != |a + Kept(b, c)|;
      }
    } else if |b| + |c| <= 0xFFFF {
      assert |Kept(a, b) + c| != |a + Kept(b, c)|;
    } else {
      var x, y := |a| + |b| - 0x1_0000, |b| + |c| - 0x1_0000;
      assert Kept(a, b) == a[..x] && Kept(b, c) == b[..y];
      BothCut(a, b[..y], c, x);
    }
  }

  lemma BothCut(a: seq<seq<Byte>>, b: seq<seq<Byte>>, c: seq<seq<Byte>>, x: nat)
    requires x <= |a|
    ensures a[..x] + c == a + b <==> c == a[x..] + b
  {
    assert a == a[..x] + a[x..];
    assert a[..x] + (a[x..] + b) == a + b;
    if a[..x] + c == a + b {
      assert c == (a[..x] + c)[x..] == (a + b)[x..] == a[x..] + b;
    }
  }

  // ----- rendered files

  /**
   A rendered file reads back: format 1, the ppq, and the track bodies in order. All of
   them come back exactly when the tracks and the tempo track fit the 16-bit count.
   */
  lemma ReadRendered(comp: SmfComposition, sorts: seq<seq<WireEvent>>, out: seq<Byte>)
    requires comp.bpm % 0x1_0000_0000 != 0 && SortsOf(comp, sorts)
    requires out == HeaderBytes(1, (|comp.tracks| + 1) % 0x1_0000, comp.ppq % 0x1_0000) + Chunks(Bodies(comp, sorts))
    requires Fits(Bodies(comp, sorts))
    ensures var n, bodies := (|comp.tracks| + 1) % 0x1_0000, Bodies(comp, sorts);
            && Read(out) == Ok(Smf(Header(1, n, comp.ppq % 0x1_0000), bodies[..n]))
            && (bodies[..n] == bodies <==> |comp.tracks| < 0xFFFF)
  {
    hide Read, HeaderBytes, Chunks, Bodies;
    var bodies := Bodies(comp, sorts);
    ReadWrite(Header(1, |bodies| % 0x1_0000, comp.ppq % 0x1_0000), bodies);
    assert bodies[..|bodies|] == bodies;
  }

  lemma DecodeMetaEvent(kind: Byte, data: seq<Byte>, rest: seq<Byte>)
    requires |data| < 128 && kind != 0x2F
    ensures DecodeEvents(MetaEvent(kind, data) + rest, 0, 0) == Cons(Meta(0, kind, data), DecodeEvents(rest, 0, 0))
  {
    var len: Byte := |data|;
    var block := [len] + (data + rest);
    var meta := [kind] + block;
    var all := MetaEvent(kind, data) + rest;
    assert all[0] == 0 && all[1..] == [0xFF] + meta;
    assert ([0xFF] + meta)[1..] == meta;
    assert meta[1..] == block;
    assert block[1..] == data + rest;
    assert ReadVlq(block) == Some((|data|, data + rest));
    assert (data + rest)[..|data|] == data && (data + rest)[|data|..] == rest;
  }

  /** The tempo track reads back as its three meta events. */
  lemma TempoTrackRoundTrip(comp: SmfComposition)
    requires comp.bpm % 0x1_0000_0000 != 0
    ensures DecodeTrack(TempoBody(comp)) == Some([
      Meta(0, 0x51, TempoData(comp.bpm)),
      Meta(0, 0x58, TimeSignatureData(comp.timeSigNum, comp.timeSigDen)),
      Meta(0, 0x59, KeySignatureData(comp.key, comp.scale)),
      Meta(0, 0x2F, [])])
  {
    hide DecodeEvents, MetaEvent, KeySharps, FloorLog2, TempoField;
    var tempo, time, key := TempoData(comp.bpm), TimeSignatureData(comp.timeSigNum, comp.timeSigDen), KeySignatureData(comp.key, comp.scale);
    var afterTime := MetaEvent(0x59, key) + END_OF_TRACK;
    var afterTempo := MetaEvent(0x58, time) + afterTime;
    assert TempoBody(comp) == MetaEvent(0x51, tempo) + afterTempo;
    DecodeMetaEvent(0x51, tempo, afterTempo);
    DecodeMetaEvent(0x58, time, afterTime);
    DecodeMetaEvent(0x59, key, END_OF_TRACK);
    DecodeEnd(0, 0);
    var m1, m2, m3, m4 := Meta(0, 0x51, tempo), Meta(0, 0x58, time), Meta(0, 0x59, key), Meta(0, 0x2F, []);
    assert [m1] + ([m2] + ([m3] + [m4])) == [m1, m2, m3, m4];
  }

  /** The tempo a reader computes from the three tempo bytes. */
  function BpmOf(data: seq<Byte>): int
    requires |data| == 3
  {
    var a: nat, b: nat, c: nat := data[0], data[1], data[2];
    var field := a * 0x1_0000 + b * 0x100 + c;
    if field == 0 then 0 else MICROSECONDS_PER_MINUTE / field
  }

  lemma TempoFieldBytes(bpm: int)
    requires bpm % 0x1_0000_0000 != 0
    ensures var t := TempoField(bpm);
            BpmOf(TempoData(bpm)) == if t == 0 then 0 else MICROSECONDS_PER_MINUTE / t
  {
    hide TempoField;
    ThreeBytes(TempoField(bpm));
  }

  lemma ThreeBytes(t: nat)
    requires t < 0x100_0000
    ensures t / 0x1_0000 * 0x1_0000 + t / 0x100 % 0x100 * 0x100 + t % 0x100 == t
  {
  }

  /** The tempo survives the trip exactly when it fits 24 bits and division loses nothing. */
  lemma TempoRecovered(bpm: Word32)
    requires bpm > 0
    ensures BpmOf(TempoData(bpm)) == bpm
       <==> bpm >= 4 && MICROSECONDS_PER_MINUTE % bpm < MICROSECONDS_PER_MINUTE / bpm
  {
    hide TempoData, BpmOf;
    TempoFieldBytes(bpm);
    var n := MICROSECONDS_PER_MINUTE;
    if bpm >= 4 {
      var q := n / bpm;
      assert q <= 15_000_000 by { DivBound(n, bpm); }
      if q > 0 {
        FloorInverse(n, bpm);
      }
    }
  }

  lemma DivBound(n: nat, b: nat)
    requires b >= 4
    ensures n / b <= n / 4
  {
    var q := n / b;
    assert n == b * q + n % b;
    assert 4 * q <= b * q;
  }

  lemma FloorInverse(n: nat, b: nat)
    requires b > 0 && n / b > 0
    ensures n / (n / b) == b <==> n % b < n / b
  {
    var q, r := n / b, n % b;
    assert n == q * b + r;
    var p, s := n / q, n % q;
    assert n == q * p + s && s < q;
    if r < q {
      DivUnique(n, q, b, r);
    }
  }

  /** Every tempo from 4 to 7745 beats per minute is recovered. */
  lemma UsualTempoRecovered(bpm: nat)
    requires 4 <= bpm <= 7745
    ensures BpmOf(TempoData(bpm)) == bpm
  {
    hide TempoData, BpmOf;
    TempoRecovered(bpm);
    SquareBound(bpm, 7745);
    QuotientAbove(MICROSECONDS_PER_MINUTE, bpm);
  }

  lemma SquareBound(b: nat, c: nat)
    requires b <= c
    ensures b * b <= c * c
  {
    assert b * b <= c * b <= c * c;
  }

  lemma QuotientAbove(n: nat, b: nat)
    requires b > 0 && b * b <= n
    ensures n % b < n / b
  {
    var q := n / b;
    assert n == b * q + n % b;
    assert q <= b - 1 ==> b * q <= b * (b - 1);
  }

  /** The denominator survives the trip exactly when it is a power of two. */
  lemma DenominatorRecovered(den: int)
    requires den >= 1
    ensures Pow2(FloorLog2(den)) <= den < 2 * Pow2(FloorLog2(den))
    ensures Pow2(FloorLog2(den)) == den <==> exists k: nat :: den == Pow2(k)
  {
    FloorLog2Bounds(den);
    var e := FloorLog2(den);
    if exists k: nat :: den == Pow2(k) {
      var k: nat :| den == Pow2(k);
      if k <= e {
        Pow2Monotone(k, e);
      } else {
        Pow2Monotone(e + 1, k);
      }
    }
  }

  lemma {:induction false} FloorLog2Bounds(den: int)
    requires den >= 1
    ensures Pow2(FloorLog2(den)) <= den < 2 * Pow2(FloorLog2(den))
    decreases den
  {
    if den > 1 {
      FloorLog2Bounds(den / 2);
    }
  }
}
