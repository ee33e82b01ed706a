/** installboot's writer and reader of boot images, as loops over file streams. */
module BootImageFiles {
  import opened BootImage
  import opened Maybe

  /** padimage: n zero bytes. */
  method PadImage(image: Bytes, n: nat) returns (out: Bytes)
    ensures out == image + Zeros(n)
  {
    out := image;
    var left := n;
    while left > 0
      invariant 0 <= left <= n && out == image + Zeros(n - left)
    {
      out := out + [0];
      left := left - 1;
    }
  }

  /** copyexec: n bytes of the program from position pos, padded to a sector; fails at end of file. */
  method CopyExec(file: Bytes, pos: nat, image: Bytes, n: nat) returns (ok: bool, out: Bytes)
    requires pos <= |file|
    ensures ok <==> pos + n <= |file|
    ensures ok ==> out == image + Pad(file[pos..pos + n])
  {
    var pad := Align(n) - n;
    var left, at := n, pos;
    out := image;
    while left > 0
      invariant 0 <= left <= n && at == pos + (n - left) <= |file| && out == image + file[pos..at]
    {
      if at == |file| { return false, out; }
      out := out + [file[at]];
      at, left := at + 1, left - 1;
    }
    var padded := PadImage(out, pad);
    assert padded == image + Pad(file[pos..pos + n]);
    return true, padded;
  }

  /** What make_image relies on in a file that has the a.out magic: a header that fits struct exec, sane sizes. */
  predicate Admissible(p: Program) {
    && |p.name| == NAME_SIZE
    && (|p.file| >= A_MINHDR && !BadMag(p.file) ==>
          A_MINHDR <= HdrLen(p.file) <= EXEC_SIZE && TextSize(p.file) >= 0 && DataSize(p.file) >= 0)
  }

  /** Text and data of the program, from position pos on. */
  method WriteSegments(image: Bytes, f: Bytes, pos: nat, t: nat, d: nat, sep: bool) returns (ok: bool, out: Bytes)
    requires pos <= |f|
    ensures ok <==> pos + t + d <= |f|
    ensures ok ==> out == image + Laid(f[pos..], t, d, sep)
  {
    if sep {
      ok, out := CopyExec(f, pos, image, t);
      if !ok { return; }
      ok, out := CopyExec(f, pos + t, out, d);
    } else {
      ok, out := CopyExec(f, pos, image, t + d);
    }
    if ok { LaidFrom(image, f, pos, t, d, sep); }
  }

  lemma LaidFrom(image: Bytes, f: Bytes, pos: nat, t: nat, d: nat, sep: bool)
    requires pos + t + d <= |f|
    ensures image + Laid(f[pos..], t, d, sep) ==
            if sep then image + Pad(f[pos..pos + t]) + Pad(f[pos + t..pos + t + d])
            else image + Pad(f[pos..pos + (t + d)])
  {
    var b := f[pos..];
    assert b[..t] == f[pos..pos + t] && b[t..t + d] == f[pos + t..pos + t + d] && b[..t + d] == f[pos..pos + (t + d)];
    assert image + (Pad(b[..t]) + Pad(b[t..t + d])) == image + Pad(b[..t]) + Pad(b[t..t + d]);
  }

  /** One turn of make_image's loop. */
  method AddProgram(image: Bytes, p: Program) returns (r: Option<Bytes>)
    requires Admissible(p)
    ensures r.Some? <==> WellFormed(p)
    ensures r.Some? ==> r.value == image + Entry(p)
  {
    var f := p.file;
    if |f| < A_MINHDR || BadMag(f) { return None; }                 // not an executable
    var n := HdrLen(f);
    if |f| < n { return None; }                                     // unexpected EOF in the header
    var h := Strip(ExecOf(f));
    var head := PadImage(p.name + h, SECTOR_SIZE - IHDR_SIZE);
    var pos := if IsPal(f) then 0 else n;                           // rewind
    var ok, out := WriteSegments(image + head, f, pos, ImageText(f), DataSize(f), IsSep(f));
    if !ok { return None; }
    EntryFrom(image, p, head, pos);
    return Some(out);
  }

  lemma EntryFrom(image: Bytes, p: Program, head: Bytes, pos: nat)
    requires WellFormed(p) && pos == if IsPal(p.file) then 0 else HdrLen(p.file)
    requires head == p.name + Strip(ExecOf(p.file)) + Zeros(SECTOR_SIZE - IHDR_SIZE)
    ensures pos <= |p.file| && 0 <= ImageText(p.file) && ImageText(p.file) + DataSize(p.file) <= |p.file| - pos
    ensures image + head + Laid(p.file[pos..], ImageText(p.file), DataSize(p.file), IsSep(p.file)) == image + Entry(p)
  {
    var f := p.file;
    assert Body(f) == f[pos..];
    assert image + head + Segments(f) == image + (head + Segments(f));
  }

  /** make_image */
  method MakeImage(ps: seq<Program>) returns (r: Option<Bytes>)
    requires forall i :: 0 <= i < |ps| ==> Admissible(ps[i])
    ensures r.Some? <==> AllWellFormed(ps)
    ensures r.Some? ==> r.value == Image(ps)
  {
    var image: Bytes := [];
    for i := 0 to |ps|
      invariant AllWellFormed(ps[..i]) && image == Image(ps[..i])
    {
      var next := AddProgram(image, ps[i]);
      if next.None? { return None; }
      ImageStep(ps, i);
      image := next.value;
    }
    assert ps[..|ps|] == ps;
    return Some(image);
  }

  lemma ImageStep(ps: seq<Program>, i: nat)
    requires i < |ps| && AllWellFormed(ps[..i]) && WellFormed(ps[i])
    ensures AllWellFormed(ps[..i + 1]) && Image(ps[..i + 1]) == Image(ps[..i]) + Entry(ps[i])
  {
    assert ps[..i + 1] == ps[..i] + [ps[i]];
    ImageAppend(ps[..i], ps[i]);
  }

  lemma {:induction false} ImageAppend(ps: seq<Program>, p: Program)
    requires WellFormed(p) && AllWellFormed(ps)
    ensures AllWellFormed(ps + [p]) && Image(ps + [p]) == Image(ps) + Entry(p)
  {
    var all := ps + [p];
    assert forall i :: 0 <= i < |all| ==> all[i] == if i < |ps| then ps[i] else p;
    assert all[0] == (if ps == [] then p else ps[0]) && all[1..] == (if ps == [] then [] else ps[1..] + [p]);
    if ps == [] {
      Nothing(Entry(p));
    } else {
      ImageAppend(ps[1..], p);
      Regroup(Entry(ps[0]), Image(ps[1..]), Entry(p));
    }
  }

  lemma Nothing(a: Bytes)
    ensures a + [] == a == [] + a
  {
  }

  /** extractexec: count bytes, stored in whole sectors; len is what is left of the image file. */
  method ExtractExec(img: Bytes, file: Bytes, count: int, len: nat) returns (ok: bool, rest: Bytes, out: Bytes,
                     left: nat)
    requires len == |img|
    ensures ok <==> Enough(img, count)
    ensures ok ==> rest == Rest(img, count) && out == file + Take(img, count) && left == |rest|
  {
    var n: int := count;
    rest, out, left := img, file, len;
    ghost var done: nat := 0;
    while n > 0
      invariant done == if count <= 0 then 0 else if n > 0 then count - n else Align(count)
      invariant done <= |img| && done % 512 == 0 && n <= count
      invariant rest == img[done..] && left == |rest|
      invariant out == file + img[..if n > 0 || count <= 0 then done else count]
      invariant n <= 0 && count > 0 ==> Align(count) <= |img|
      decreases n
    {
      if |rest| < 512 { return false, rest, out, left; }
      left := left - 512;
      var m := if n < 512 then n else 512;
      out := out + rest[..m];
      rest := rest[512..];
      n := n - 512;
      done := done + 512;
    }
    ok := true;
  }

  /** One turn of extract_image's loop. */
  method ExtractOne(rest: Bytes, len: nat) returns (r: Read, left: nat)
    requires len == |rest|
    ensures r == ReadOne(rest) && (r.Good? ==> left == |r.rest|)
  {
    left := len;
    if |rest| < SECTOR_SIZE { return Bad, left; }                   // unexpected EOF
    var name, h, body := rest[..NAME_SIZE], rest[NAME_SIZE..IHDR_SIZE], rest[SECTOR_SIZE..];
    left := len - SECTOR_SIZE;
    if HdrLen(h) < A_MINHDR || BadMag(h) || HdrLen(h) > EXEC_SIZE { return Bad, left; }
    var (n1, n2) := Pieces(h);
    r, left := ExtractPieces(name, if IsPal(h) then [] else h[..HdrLen(h)], body, n1, n2, left);
  }

  /** The two segment copies of a program. */
  method ExtractPieces(name: Bytes, start: Bytes, body: Bytes, n1: int, n2: int, len: nat) returns (r: Read, left: nat)
    requires len == |body|
    ensures r == ReadPieces(name, start, body, n1, n2) && (r.Good? ==> left == |r.rest|)
  {
    var ok, mid, tail, file;
    ok, mid, file, left := ExtractExec(body, start, n1, len);
    if !ok { return Bad, left; }
    ok, tail, file, left := ExtractExec(mid, file, n2, left);
    if !ok { return Bad, left; }
    assert file == start + (Take(body, n1) + Take(mid, n2));
    return Good(Program(name, file), tail), left;
  }

  /** extract_image: len counts what is left of the file and reaches exactly 0 when all went well. */
  method ExtractImage(img: Bytes) returns (r: Outcome)
    ensures r == Extract(img)
  {
    var rest, len := img, |img|;
    var files: seq<Program> := [];
    while len != 0
      invariant len == |rest| && Extract(img) == Prepend(files, Extract(rest))
      decreases len
    {
      var one, left := ExtractOne(rest, len);
      if one == Bad { return Failed; }
      PrependStep(files, one.program, Extract(one.rest));
      files, rest, len := files + [one.program], one.rest, left;
    }
    return Extracted(files);
  }

  ghost function Prepend(files: seq<Program>, o: Outcome): Outcome {
    match o
    case Failed => Failed
    case Extracted(more) => Extracted(files + more)
  }

  lemma PrependStep(files: seq<Program>, one: Program, o: Outcome)
    ensures Prepend(files, Prepend([one], o)) == Prepend(files + [one], o)
  {
    if o.Extracted? { assert files + ([one] + o.files) == files + [one] + o.files; }
  }
}
