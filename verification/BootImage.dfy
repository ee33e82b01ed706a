/** Boot images: the bytes make_image writes and extract_image reads back. */
module BootImage {

  const SECTOR_SIZE: nat := 512
  const A_MINHDR: nat := 32
  const EXEC_SIZE: nat := 48            // sizeof(struct exec)
  const NAME_SIZE: nat := 64            // IM_NAME_MAX + 1
  const IHDR_SIZE: nat := 112           // sizeof(struct image_header)

  type Byte = b: nat | b < 256
  type Bytes = seq<Byte>

  /** align(n): up to a multiple of the sector size. */
  function Align(n: nat): (r: nat)
    ensures n <= r < n + 512 && r % 512 == 0
  {
    (n + 511) / 512 * 512
  }

  function Zeros(n: nat): (z: Bytes)
    ensures |z| == n && forall i :: 0 <= i < n ==> z[i] == 0
  {
    seq(n, _ => 0)
  }

  lemma Regroup(a: Bytes, b: Bytes, c: Bytes)
    ensures a + (b + c) == a + b + c
  {
  }

  function Pad(s: Bytes): (r: Bytes)
    ensures |r| == Align(|s|) && r[..|s|] == s
  {
    s + Zeros(Align(|s|) - |s|)
  }

  // ---------------------------------------------------------------- the a.out header

  /** A little-endian signed long at offset o. */
  function Long(h: Bytes, o: nat): int
    requires o + 4 <= |h|
  {
    var b0: int, b1: int, b2: int, b3: int := h[o], h[o + 1], h[o + 2], h[o + 3];
    var v := b0 + 0x100 * b1 + 0x1_0000 * b2 + 0x100_0000 * b3;
    if v < 0x8000_0000 then v else v - 0x1_0000_0000
  }

  // Bits of a_flags: A_PAL (0x02), A_NSYM (0x04) and A_SEP (0x20).
  predicate IsPal(h: Bytes) requires 2 < |h| { h[2] / 2 % 2 == 1 }
  predicate IsNsym(h: Bytes) requires 2 < |h| { h[2] / 4 % 2 == 1 }
  predicate IsSep(h: Bytes) requires 2 < |h| { h[2] / 32 % 2 == 1 }

  function HdrLen(h: Bytes): nat requires 4 < |h| { h[4] }
  function TextSize(h: Bytes): int requires |h| >= A_MINHDR { Long(h, 8) }
  function DataSize(h: Bytes): int requires |h| >= A_MINHDR { Long(h, 12) }
  predicate BadMag(h: Bytes) requires |h| >= 2 { h[0] != 1 || h[1] != 3 }

  /** The text size as stored in an image: a page aligned program carries its header in text. */
  function ImageText(h: Bytes): int
    requires |h| >= A_MINHDR
  {
    if IsPal(h) then TextSize(h) + HdrLen(h) else TextSize(h)
  }

  /** a_syms = 0, a_flags &= ~A_NSYM. */
  function Strip(h: Bytes): (r: Bytes)
    requires |h| >= A_MINHDR
    ensures |r| == |h|
  {
    h[2 := if IsNsym(h) then h[2] - 4 else h[2]][28 := 0][29 := 0][30 := 0][31 := 0]
  }

  /** Stripping leaves alone everything that describes the segments. */
  lemma StripKeeps(h: Bytes)
    requires |h| >= A_MINHDR
    ensures var s := Strip(h);
            && TextSize(s) == TextSize(h) && DataSize(s) == DataSize(h) && HdrLen(s) == HdrLen(h)
            && (IsPal(s) <==> IsPal(h)) && (IsSep(s) <==> IsSep(h))
            && BadMag(s) == BadMag(h) && ImageText(s) == ImageText(h)
            && !IsNsym(s) && Strip(s) == s && Long(s, 28) == 0
            && forall i :: 0 <= i < |h| && i != 2 && !(28 <= i < 32) ==> s[i] == h[i]
  {
    if IsNsym(h) { ClearBit(h[2]); }
  }

  lemma ClearBit(f: Byte)
    requires f / 4 % 2 == 1
    ensures f >= 4 && (f - 4) / 2 % 2 == f / 2 % 2 && (f - 4) / 4 % 2 == 0 && (f - 4) / 32 % 2 == f / 32 % 2
  {
    var q, r := f / 8, f % 8;
    assert f / 4 == 2 * q + r / 4;
    assert r >= 4;
    assert (f - 4) / 2 == f / 2 - 2;
    assert (f - 4) / 4 == 2 * q;
    assert f / 32 == q / 4 && (f - 4) / 32 == q / 4;
  }

  // ---------------------------------------------------------------- make_image

  datatype Program = Program(name: Bytes, file: Bytes)

  /** The header as read_header leaves it in a cleared struct exec. */
  function ExecOf(file: Bytes): (h: Bytes)
    requires |file| >= A_MINHDR && A_MINHDR <= HdrLen(file) <= EXEC_SIZE && HdrLen(file) <= |file|
    ensures |h| == EXEC_SIZE
  {
    file[..HdrLen(file)] + Zeros(EXEC_SIZE - HdrLen(file))
  }

  /** An executable that make_image accepts and whose segments are all there. */
  ghost predicate WellFormed(p: Program) {
    var f := p.file;
    && |p.name| == NAME_SIZE
    && |f| >= A_MINHDR && !BadMag(f) && A_MINHDR <= HdrLen(f) <= EXEC_SIZE
    && TextSize(f) >= 0 && DataSize(f) >= 0
    && HdrLen(f) + TextSize(f) + DataSize(f) <= |f|
  }

  /** The bytes make_image copies: from the start of a page aligned program, else from its text. */
  function Body(f: Bytes): Bytes
    requires |f| >= A_MINHDR && HdrLen(f) <= |f|
  {
    if IsPal(f) then f else f[HdrLen(f)..]
  }

  /** Text and data, padded separately for separate I&D, together otherwise. */
  function Laid(b: Bytes, t: nat, d: nat, sep: bool): Bytes
    requires t + d <= |b|
  {
    if sep then Pad(b[..t]) + Pad(b[t..t + d]) else Pad(b[..t + d])
  }

  function Segments(f: Bytes): Bytes
    requires |f| >= A_MINHDR && HdrLen(f) <= |f|
    requires 0 <= ImageText(f) && 0 <= DataSize(f) && ImageText(f) + DataSize(f) <= |Body(f)|
  {
    Laid(Body(f), ImageText(f), DataSize(f), IsSep(f))
  }

  lemma WellFormedBody(p: Program)
    requires WellFormed(p)
    ensures var f := p.file; HdrLen(f) <= |f| && 0 <= ImageText(f) && ImageText(f) + DataSize(f) <= |Body(f)|
  {
  }

  /** One program of an image: a header sector, then its segments padded to sectors. */
  ghost function Entry(p: Program): (r: Bytes)
    requires WellFormed(p)
  {
    WellFormedBody(p);
    HeaderSector(p) + Segments(p.file)
  }

  ghost function HeaderSector(p: Program): (r: Bytes)
    requires WellFormed(p)
    ensures |r| == SECTOR_SIZE && r[..NAME_SIZE] == p.name && r[NAME_SIZE..IHDR_SIZE] == Strip(ExecOf(p.file))
  {
    p.name + Strip(ExecOf(p.file)) + Zeros(SECTOR_SIZE - IHDR_SIZE)
  }

  ghost predicate AllWellFormed(ps: seq<Program>) { forall i :: 0 <= i < |ps| ==> WellFormed(ps[i]) }

  ghost function Image(ps: seq<Program>): Bytes
    requires AllWellFormed(ps)
  {
    if ps == [] then [] else Entry(ps[0]) + Image(ps[1..])
  }

  // ---------------------------------------------------------------- extract_image

  datatype Outcome = Extracted(files: seq<Program>) | Failed

  /** The next count bytes, stored in whole sectors; the rest of the image follows them. */
  function Take(img: Bytes, count: int): Bytes
    requires count <= 0 || Align(count) <= |img|
  {
    if count <= 0 then [] else img[..count]
  }

  function Rest(img: Bytes, count: int): Bytes
    requires count <= 0 || Align(count) <= |img|
  {
    if count <= 0 then img else img[Align(count)..]
  }

  predicate Enough(img: Bytes, count: int) { count <= 0 || Align(count) <= |img| }

  function Split(t: int, d: int, sep: bool): (int, int) { if sep then (t, d) else (t + d, 0) }

  /** The sizes of the pieces in which extract_image copies a program. */
  function Pieces(h: Bytes): (int, int)
    requires |h| >= A_MINHDR
  {
    Split(ImageText(h), DataSize(h), IsSep(h))
  }

  datatype Read = Bad | Good(program: Program, rest: Bytes)

  /** The first program of an image. */
  function ReadOne(img: Bytes): (r: Read)
    ensures r.Good? ==> |r.rest| < |img|
  {
    if |img| < SECTOR_SIZE then Bad                             // unexpected EOF
    else ReadBody(img[..NAME_SIZE], img[NAME_SIZE..IHDR_SIZE], img[SECTOR_SIZE..])
  }

  function ReadBody(name: Bytes, h: Bytes, body: Bytes): (r: Read)
    requires |h| == EXEC_SIZE
    ensures r.Good? ==> |r.rest| <= |body|
  {
    if HdrLen(h) < A_MINHDR || BadMag(h) || HdrLen(h) > EXEC_SIZE then Bad
    else ReadPieces(name, if IsPal(h) then [] else h[..HdrLen(h)], body, Pieces(h).0, Pieces(h).1)
  }

  function ReadPieces(name: Bytes, start: Bytes, body: Bytes, n1: int, n2: int): (r: Read)
    ensures r.Good? ==> |r.rest| <= |body|
  {
    if !Enough(body, n1) || !Enough(Rest(body, n1), n2) then Bad
    else Good(Program(name, start + (Take(body, n1) + Take(Rest(body, n1), n2))), Rest(Rest(body, n1), n2))
  }

  /** All the programs of an image. */
  function Extract(img: Bytes): Outcome
    decreases |img|
  {
    if img == [] then Extracted([])
    else
      match ReadOne(img)
      case Bad => Failed
      case Good(p, rest) =>
        match Extract(rest)
        case Failed => Failed
        case Extracted(more) => Extracted([p] + more)
  }

  // ---------------------------------------------------------------- round trip

  /** What a program becomes: symbols gone, except that a page aligned one keeps its in-text header verbatim. */
  ghost function Stripped(p: Program): Program
    requires WellFormed(p)
  {
    WellFormedBody(p);
    var f := p.file;
    var segs := Body(f)[..ImageText(f) + DataSize(f)];
    Program(p.name, if IsPal(f) then segs else Strip(ExecOf(f))[..HdrLen(f)] + segs)
  }

  lemma PadRoundTrip(s: Bytes, more: Bytes)
    ensures Enough(Pad(s) + more, |s|)
    ensures Take(Pad(s) + more, |s|) == s && Rest(Pad(s) + more, |s|) == more
  {
    var img := Pad(s) + more;
    if |s| > 0 {
      assert img[..|s|] == Pad(s)[..|s|];
    } else {
      assert Pad(s) == [] && img == more;
    }
  }

  /** The header fields are the file's. */
  lemma HeaderKeeps(f: Bytes)
    requires |f| >= A_MINHDR && A_MINHDR <= HdrLen(f) <= EXEC_SIZE && HdrLen(f) <= |f|
    ensures var h := Strip(ExecOf(f));
            && HdrLen(h) == HdrLen(f) && TextSize(h) == TextSize(f) && DataSize(h) == DataSize(f)
            && (IsPal(h) <==> IsPal(f)) && (IsSep(h) <==> IsSep(f))
            && BadMag(h) == BadMag(f) && ImageText(h) == ImageText(f)
  {
    var e := ExecOf(f);
    assert forall i :: 0 <= i < A_MINHDR ==> e[i] == f[i];
    StripKeeps(e);
  }

  lemma TwoPieces(x: Bytes, y: Bytes, more: Bytes)
    ensures var body := Pad(x) + Pad(y) + more;
            && Enough(body, |x|) && Enough(Rest(body, |x|), |y|) && Rest(Rest(body, |x|), |y|) == more
            && Take(body, |x|) + Take(Rest(body, |x|), |y|) == x + y
  {
    assert Pad(x) + Pad(y) + more == Pad(x) + (Pad(y) + more);
    PadRoundTrip(x, Pad(y) + more);
    PadRoundTrip(y, more);
  }

  lemma ReadLaid(b: Bytes, t: nat, d: nat, sep: bool, more: Bytes)
    requires t + d <= |b|
    ensures var (n1, n2), body := Split(t, d, sep), Laid(b, t, d, sep) + more;
            && Enough(body, n1) && Enough(Rest(body, n1), n2) && Rest(Rest(body, n1), n2) == more
            && Take(body, n1) + Take(Rest(body, n1), n2) == b[..t + d]
  {
    if sep {
      TwoPieces(b[..t], b[t..t + d], more);
      assert b[..t] + b[t..t + d] == b[..t + d];
    } else {
      OnePiece(b[..t + d], more);
    }
  }

  lemma OnePiece(x: Bytes, more: Bytes)
    ensures var body := Pad(x) + more;
            && Enough(body, |x|) && Enough(Rest(body, |x|), 0) && Rest(Rest(body, |x|), 0) == more
            && Take(body, |x|) + Take(Rest(body, |x|), 0) == x
  {
    PadRoundTrip(x, more);
    assert x + [] == x;
  }

  /** Reading an entry gives back the stripped program and leaves the rest of the image. */
  lemma ReadEntry(p: Program, more: Bytes)
    requires WellFormed(p)
    ensures ReadOne(Entry(p) + more) == Good(Stripped(p), more)
  {
    WellFormedBody(p);
    var f, img := p.file, Entry(p) + more;
    var h := Strip(ExecOf(f));
    HeaderKeeps(f);
    assert img == HeaderSector(p) + (Segments(f) + more);
    assert img[..NAME_SIZE] == p.name && img[NAME_SIZE..IHDR_SIZE] == h && img[SECTOR_SIZE..] == Segments(f) + more;
    ReadBodyOf(p, h, Segments(f) + more, more);
  }

  lemma ReadPiecesLaid(name: Bytes, start: Bytes, b: Bytes, t: nat, d: nat, sep: bool, more: Bytes)
    requires t + d <= |b|
    ensures ReadPieces(name, start, Laid(b, t, d, sep) + more, Split(t, d, sep).0, Split(t, d, sep).1) ==
            Good(Program(name, start + b[..t + d]), more)
  {
    ReadLaid(b, t, d, sep, more);
  }

  lemma ReadBodyOf(p: Program, h: Bytes, body: Bytes, more: Bytes)
    requires WellFormed(p) && h == Strip(ExecOf(p.file)) && body == (WellFormedBody(p); Segments(p.file)) + more
    ensures ReadBody(p.name, h, body) == Good(Stripped(p), more)
  {
    var f := p.file;
    HeaderKeeps(f);
    WellFormedBody(p);
    var t, d, b := ImageText(f), DataSize(f), Body(f);
    var start: Bytes := if IsPal(h) then [] else h[..HdrLen(h)];
    ReadPiecesLaid(p.name, start, b, t, d, IsSep(f), more);
    assert ReadBody(p.name, h, body) == ReadPieces(p.name, start, body, Pieces(h).0, Pieces(h).1);
    assert Stripped(p) == Program(p.name, start + b[..t + d]) by {
      if IsPal(f) { assert start + b[..t + d] == b[..t + d]; }
    }
  }

  ghost function AllStripped(ps: seq<Program>): seq<Program>
    requires AllWellFormed(ps)
  {
    if ps == [] then [] else [Stripped(ps[0])] + AllStripped(ps[1..])
  }

  /** extract_image of make_image's output yields every program, stripped, in order. */
  lemma {:induction false} ImageRoundTrip(ps: seq<Program>)
    requires AllWellFormed(ps)
    ensures Extract(Image(ps)) == Extracted(AllStripped(ps))
  {
    if ps != [] {
      ImageRoundTrip(ps[1..]);
      ReadEntry(ps[0], Image(ps[1..]));
      assert Image(ps) != [];
    }
  }

  // ---------------------------------------------------------------- remaking and sizes

  lemma LaidPrefix(b: Bytes, t: nat, d: nat, sep: bool)
    requires t + d <= |b|
    ensures Laid(b[..t + d], t, d, sep) == Laid(b, t, d, sep)
  {
    assert b[..t + d][..t] == b[..t] && b[..t + d][t..t + d] == b[t..t + d] && b[..t + d][..t + d] == b[..t + d];
  }

  lemma ReExec(f: Bytes, g: Bytes)
    requires |f| >= A_MINHDR && A_MINHDR <= HdrLen(f) <= EXEC_SIZE && HdrLen(f) <= |f| && |g| >= HdrLen(f)
    requires g[..HdrLen(f)] == f[..HdrLen(f)] || g[..HdrLen(f)] == Strip(ExecOf(f))[..HdrLen(f)]
    ensures HdrLen(g) == HdrLen(f) && Strip(ExecOf(g)) == Strip(ExecOf(f))
  {
    var n, e := HdrLen(f), ExecOf(f);
    StripKeeps(e);
    assert forall i :: 0 <= i < n ==> g[i] == g[..n][i];
    if g[..n] == f[..n] {
      assert ExecOf(g) == e;
    } else {
      assert forall i :: A_MINHDR <= i < EXEC_SIZE ==> Strip(e)[i] == e[i];
      assert ExecOf(g) == Strip(e);
    }
  }

  /** The entry of an extracted program is the same, byte for byte. */
  lemma Remake(p: Program)
    requires WellFormed(p)
    ensures WellFormed(Stripped(p)) && Entry(Stripped(p)) == Entry(p)
  {
    WellFormedBody(p);
    var f, g := p.file, Stripped(p).file;
    var n, t, d := HdrLen(f), ImageText(f), DataSize(f);
    HeaderKeeps(f);
    if IsPal(f) {
      assert g == f[..t + d] && g[..n] == f[..n];
    } else {
      assert g[..n] == Strip(ExecOf(f))[..n] && g[n..] == f[n..][..t + d];
    }
    ReExec(f, g);
    HeaderKeeps(g);
    LaidPrefix(Body(f), t, d, IsSep(f));
    assert Body(g) == Body(f)[..t + d];
  }

  /** So is the whole image of them. */
  lemma {:induction false} ImageRemake(ps: seq<Program>)
    requires AllWellFormed(ps)
    ensures AllWellFormed(AllStripped(ps)) && Image(AllStripped(ps)) == Image(ps)
  {
    if ps != [] {
      Remake(ps[0]);
      ImageRemake(ps[1..]);
      var qs := AllStripped(ps);
      assert qs[0] == Stripped(ps[0]) && qs[1..] == AllStripped(ps[1..]);
      assert forall i :: 1 <= i < |qs| ==> qs[i] == qs[1..][i - 1];
    }
  }

  /** proc_size: the sectors of a program in an image, as the boot monitor computes them. */
  function ProcSize(h: Bytes): nat
    requires |h| >= A_MINHDR && ImageText(h) >= 0 && DataSize(h) >= 0
  {
    SizeInSectors(ImageText(h), DataSize(h), IsSep(h))
  }

  /** The monitor skips exactly what make_image wrote after the header sector. */
  lemma EntrySize(p: Program)
    requires WellFormed(p)
    ensures var h := Strip(ExecOf(p.file));
            ImageText(h) >= 0 && DataSize(h) >= 0 && |Entry(p)| == SECTOR_SIZE * (1 + ProcSize(h))
  {
    WellFormedBody(p);
    var f, h := p.file, Strip(ExecOf(p.file));
    HeaderKeeps(f);
    LaidSize(Body(f), ImageText(f), DataSize(f), IsSep(f));
    assert ProcSize(h) == SizeInSectors(ImageText(f), DataSize(f), IsSep(f));
    assert |Entry(p)| == 512 + |Segments(f)|;
  }

  function SizeInSectors(t: nat, d: nat, sep: bool): nat { Align((if sep then Align(t) else t) + d) / 512 }

  lemma LaidSize(b: Bytes, t: nat, d: nat, sep: bool)
    requires t + d <= |b|
    ensures |Laid(b, t, d, sep)| == 512 * SizeInSectors(t, d, sep)
  {
    AlignSum(t, d);
  }

  lemma AlignSum(t: nat, d: nat)
    ensures Align(Align(t) + d) == Align(t) + Align(d)
    ensures Align(d) / 512 * 512 == Align(d)
  {
  }
}
