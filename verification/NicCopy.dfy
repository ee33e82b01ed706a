/** Scatter/gather copies of the DP8390 driver: an I/O vector seen through a window of 16 entries. */
module NicCopy {
  import opened BootImage

  const IOVEC_NR: nat := 16

  /** The user's buffers as one string of bytes. */
  function Flat(vs: seq<Bytes>): Bytes {
    if vs == [] then [] else vs[0] + Flat(vs[1..])
  }

  /** s with the bytes from p on replaced by d. */
  function Over(s: Bytes, p: nat, d: Bytes): (r: Bytes)
    requires p + |d| <= |s|
    ensures |r| == |s|
  {
    s[..p] + d + s[p + |d|..]
  }

  // ---------------------------------------------------------------- buffers and their concatenation

  lemma {:induction false} FlatConcat(a: seq<Bytes>, b: seq<Bytes>)
    ensures Flat(a + b) == Flat(a) + Flat(b)
  {
    if a == [] {
      assert a + b == b;
    } else {
      FlatConcat(a[1..], b);
      assert (a + b)[1..] == a[1..] + b;
      Regroup(a[0], Flat(a[1..]), Flat(b));
    }
  }

  lemma FlatSplit(vs: seq<Bytes>, at: nat)
    requires at < |vs|
    ensures Flat(vs) == Flat(vs[..at]) + vs[at] + Flat(vs[at + 1..])
    ensures |Flat(vs[..at + 1])| == |Flat(vs[..at])| + |vs[at]|
  {
    var one := [vs[at]];
    assert vs == vs[..at] + one + vs[at + 1..] && vs[..at + 1] == vs[..at] + one;
    FlatConcat(vs[..at] + one, vs[at + 1..]);
    FlatConcat(vs[..at], one);
    assert one[1..] == [] && Flat(one) == vs[at] + [];
  }

  /** A piece of one buffer is a piece of the whole. */
  lemma PieceOf(vs: seq<Bytes>, at: nat, offset: nat, n: nat)
    requires at < |vs| && offset + n <= |vs[at]|
    ensures var p := |Flat(vs[..at])| + offset; p + n <= |Flat(vs)| && Flat(vs)[p..p + n] == vs[at][offset..offset + n]
  {
    FlatSplit(vs, at);
    Cut(Flat(vs[..at]), vs[at], Flat(vs[at + 1..]), offset, n);
  }

  lemma Cut(a: Bytes, b: Bytes, c: Bytes, offset: nat, n: nat)
    requires offset + n <= |b|
    ensures (a + b + c)[|a| + offset..|a| + offset + n] == b[offset..offset + n]
  {
  }

  /** Writing into one buffer is writing into the whole. */
  lemma WriteInto(vs: seq<Bytes>, at: nat, offset: nat, d: Bytes)
    requires at < |vs| && offset + |d| <= |vs[at]|
    ensures var p, vs' := |Flat(vs[..at])| + offset, vs[at := Over(vs[at], offset, d)];
            p + |d| <= |Flat(vs)| && Flat(vs') == Over(Flat(vs), p, d)
  {
    var before, after, b := vs[..at], vs[at + 1..], Over(vs[at], offset, d);
    FlatParts(vs, before, vs[at], after);
    FlatParts(vs[at := b], before, b, after);
    OverMiddle(Flat(before), vs[at], Flat(after), offset, d);
  }

  lemma FlatParts(vs: seq<Bytes>, before: seq<Bytes>, b: Bytes, after: seq<Bytes>)
    requires vs == before + [b] + after
    ensures Flat(vs) == Flat(before) + b + Flat(after)
  {
    FlatSplit(vs, |before|);
    assert vs[..|before|] == before && vs[|before| + 1..] == after;
  }

  lemma OverMiddle(a: Bytes, b: Bytes, c: Bytes, offset: nat, d: Bytes)
    requires offset + |d| <= |b|
    ensures a + Over(b, offset, d) + c == Over(a + b + c, |a| + offset, d)
  {
  }

  /** Two writes in a row are one. */
  lemma OverOver(s: Bytes, p: nat, d: Bytes, e: Bytes)
    requires p + |d| + |e| <= |s|
    ensures Over(Over(s, p, d), p + |d|, e) == Over(s, p, d + e)
  {
  }

  /** The bytes of s from p on, n of them. */
  predicate Part(r: Bytes, s: Bytes, p: nat, n: nat) { p + n <= |s| && r == s[p..p + n] }

  lemma PartMore(r: Bytes, s: Bytes, p: nat, n: nat, d: Bytes, k: nat)
    requires Part(r, s, p, n) && Part(d, s, p + n, k)
    ensures Part(r + d, s, p, n + k)
  {
  }

  lemma OverPart(s: Bytes, p: nat, d: Bytes, at: nat, e: Bytes)
    requires at <= |d| && p + at + |e| <= |s| && Part(e, d, at, |e|)
    ensures Over(Over(s, p, d[..at]), p + at, e) == Over(s, p, d[..at + |e|])
  {
    OverOver(s, p, d[..at], e);
    assert d[..at] + e == d[..at + |e|];
  }

  /** A piece of the stream, some of it still in the register: before out + held, after out + words + kept. */
  lemma PartWords(out: Bytes, held: Bytes, d: Bytes, words: Bytes, kept: Bytes, s: Bytes, p: nat, n: nat, k: nat)
    requires Part(out + held, s, p, n) && Part(d, s, p + n, k) && words + kept == held + d
    ensures Part(out + words + kept, s, p, n + k)
  {
    PartMore(out + held, s, p, n, d, k);
    Regroup(out, held, d);
    Regroup(out, words, kept);
  }

  lemma Prefix(vs: seq<Bytes>, at: nat)
    requires at <= |vs|
    ensures |Flat(vs[..at])| <= |Flat(vs)| && (at == |vs| ==> vs[..at] == vs)
  {
    assert vs == vs[..at] + vs[at..];
    FlatConcat(vs[..at], vs[at..]);
  }

  // ---------------------------------------------------------------- the window

  /** The sizes of the first entries, as get_userdata fetches them. */
  function Window(vs: seq<Bytes>): (r: seq<nat>)
    ensures |r| == if |vs| > IOVEC_NR then IOVEC_NR else |vs|
    ensures forall i :: 0 <= i < |r| ==> r[i] == |vs[i]|
  {
    seq(if |vs| > IOVEC_NR then IOVEC_NR else |vs|, i requires 0 <= i < |vs| => |vs[i]|)
  }

  lemma Even(used: nat, n: nat, total: nat)
    requires used % 2 == 0 && total % 2 == 0 && used + n <= total
    ensures (used + (n - n % 2)) % 2 == 0 && (n % 2 == 1 ==> used + n + 1 <= total && (used + n + 1) % 2 == 0)
  {
  }

  /** The byte that waits for its other half. */
  function Held(odd: bool, two: (Byte, Byte)): Bytes { if odd then [two.0] else [] }

  lemma PartLast(out: Bytes, odd: bool, two: (Byte, Byte), flat: Bytes, p: nat, n: nat)
    requires Part(out + Held(odd, two), flat, p, n) && |out| % 2 == 0
    ensures var all := if odd then out + [two.0, two.1] else out; |all| == n + n % 2 && all[..n] == flat[p..p + n]
  {
    assert odd ==> out + [two.0, two.1] == out + [two.0] + [two.1];
    assert !odd ==> out + [] == out;
  }

  /** Whole words go out, a last odd byte stays. */
  method PutPairs(user: Bytes, two0: (Byte, Byte)) returns (out: Bytes, odd: bool, two: (Byte, Byte))
    ensures |out| % 2 == 0 && out + Held(odd, two) == user
  {
    var ecount := |user| - |user| % 2;
    out, odd, two := user[..ecount], false, two0;               // outsw
    if |user| - ecount != 0 {
      assert |user| - ecount == 1;
      two, odd := (user[ecount], two0.1), true;
    }
  }

  /** iovec_dat_t: the user's buffers, and the entries from base on of which the window holds 16. */
  class IoVec {
    var mem: seq<Bytes>
    var base: nat
    var left: nat
    var sizes: seq<nat>

    constructor (buffers: seq<Bytes>)
      ensures Valid() && mem == buffers && base == 0
    {
      mem, base, left, sizes := buffers, 0, |buffers|, Window(buffers);
    }

    ghost predicate Valid()
      reads this
    {
      && base + left == |mem| && |sizes| == (if left > IOVEC_NR then IOVEC_NR else left)
      && forall i :: 0 <= i < |sizes| ==> sizes[i] == |mem[base + i]|
    }

    /** Where offset bytes into entry i of the window is in the whole. */
    ghost function Pos(i: nat, offset: nat): nat
      requires base + i <= |mem|
      reads this
    {
      |Flat(mem[..base + i])| + offset
    }

    /** dp_next_iovec */
    method NextWindow()
      requires Valid() && left > IOVEC_NR
      modifies this`base, this`left, this`sizes
      ensures Valid() && base == old(base) + IOVEC_NR
    {
      left := left - IOVEC_NR;
      base := base + IOVEC_NR;
      sizes := Window(mem[base..]);
    }

    /** Where a copy loop stands: entry i of the window, so many bytes into it, which is place pos of the whole. */
    ghost predicate At(i: nat, offset: nat, pos: nat)
      reads this
    {
      Valid() && i <= IOVEC_NR && i <= left && Pos(i, offset) == pos
    }

    /** The start of every copy loop: move the window on, or skip an entry, or go to work on entry i. */
    method Turn(i0: nat, offset0: nat) returns (ready: bool, i: nat, offset: nat)
      requires Valid() && i0 <= IOVEC_NR && i0 <= left && Pos(i0, offset0) < |Flat(mem)|
      modifies this`base, this`left, this`sizes
      ensures Valid() && i <= IOVEC_NR && i <= left && Pos(i, offset) == old(Pos(i0, offset0))
      ensures ready ==> i < |sizes| && offset < sizes[i] && base == old(base) && i == i0
      ensures !ready ==> left - i < old(left - i0) || (left - i == old(left - i0) && i < i0)
    {
      Prefix(mem, base + i0);
      i, offset := i0, offset0;
      if i >= IOVEC_NR {
        NextWindow();
        return false, 0, offset;
      }
      if offset >= sizes[i] {
        FlatSplit(mem, base + i);
        offset := offset - sizes[i];
        return false, i + 1, offset;
      }
      ready := true;
    }

    /** calc_iovec_size: the structure is unusable afterwards. */
    method CalcSize() returns (size: nat)
      requires Valid()
      modifies this`base, this`left, this`sizes
      ensures size == |Flat(old(mem[base..]))|
    {
      ghost var p, b := Pos(0, 0), base;
      size := 0;
      var i := 0;
      while i < left
        invariant Valid() && i <= IOVEC_NR && i <= left && Pos(i, 0) == p + size
        decreases left - i, i
      {
        if i >= IOVEC_NR {
          NextWindow();
          i := 0;
        } else {
          FlatSplit(mem, base + i);
          size := size + sizes[i];
          i := i + 1;
        }
      }
      assert mem[..base + i] == mem && mem == mem[..b] + mem[b..];
      FlatConcat(mem[..b], mem[b..]);
    }

    /** The bytes that offset and count mean, from the entry the window is at. */
    ghost function Wanted(offset: nat, count: nat): Bytes
      requires Valid() && Pos(0, offset) + count <= |Flat(mem)|
      reads this
    {
      Flat(mem)[Pos(0, offset)..Pos(0, offset) + count]
    }

    method Put(i: nat, offset: nat, count: nat, out0: Bytes, ghost flat: Bytes, ghost p: nat, ghost n: nat)
      returns (bytes: nat, out: Bytes)
      requires Valid() && i < |sizes| && offset < sizes[i] && 0 < count && flat == Flat(mem) && Pos(i, offset) == p + n
      requires Part(out0, flat, p, n)
      ensures 0 < bytes <= count && offset + bytes <= sizes[i] && Part(out, flat, p, n + bytes)
    {
      bytes := Share(i, offset, count);
      PieceOf(mem, base + i, offset, bytes);
      PartMore(out0, flat, p, n, mem[base + i][offset..offset + bytes], bytes);
      out := out0 + mem[base + i][offset..offset + bytes];
    }

    /** dp_user2nic and dp_pio8_user2nic: what is copied, or put out to the data port, byte by byte. */
    method UserToNic(offset0: nat, count0: nat) returns (out: Bytes)
      requires Valid() && Pos(0, offset0) + count0 <= |Flat(mem)|
      modifies this`base, this`left, this`sizes
      ensures out == old(Wanted(offset0, count0)) && Valid()
    {
      ghost var flat, p := Flat(mem), Pos(0, offset0);
      var i: nat, offset: nat, count: nat := 0, offset0, count0;
      out := [];
      while count > 0
        invariant Valid() && i <= IOVEC_NR && i <= left && count <= count0
        invariant Pos(i, offset) == p + (count0 - count) && Part(out, flat, p, count0 - count)
        decreases count, left - i, i
      {
        var ready;
        ready, i, offset := Turn(i, offset);
        if !ready { continue; }
        var bytes;
        bytes, out := Put(i, offset, count, out, flat, p, count0 - count);
        count, offset := count - bytes, offset + bytes;
      }
      assert count == 0;
    }

    /** One entry of the 16-bit copy: finish the word that is waiting for its high byte, put out whole
        words, and keep a last odd byte. */
    method PutWords(i: nat, offset: nat, bytes: nat, odd0: bool, two0: (Byte, Byte)) returns (out: Bytes, odd: bool,
                    two: (Byte, Byte))
      requires Valid() && i < |sizes| && 0 < bytes && offset + bytes <= sizes[i]
      ensures |out| % 2 == 0 && out + Held(odd, two) == Held(odd0, two0) + mem[base + i][offset..offset + bytes]
    {
      var user := mem[base + i][offset..offset + bytes];
      if odd0 {
        var words;
        two := (two0.0, user[0]);                               // outw
        if bytes == 1 { return [two.0, two.1], false, two; }
        words, odd, two := PutPairs(user[1..], two);
        assert user == [user[0]] + user[1..];
        Regroup([two0.0, user[0]], words, Held(odd, two));
        out := [two0.0, user[0]] + words;
      } else {
        out, odd, two := PutPairs(user, two0);
      }
    }

    /** Put out the bytes of one entry. */
    method Emit(i: nat, offset: nat, bytes: nat, out0: Bytes, odd0: bool, two0: (Byte, Byte),
                ghost flat: Bytes, ghost p: nat, ghost n: nat)
      returns (out: Bytes, odd: bool, two: (Byte, Byte))
      requires Valid() && i < |sizes| && 0 < bytes && offset + bytes <= sizes[i] && flat == Flat(mem) &&
               Pos(i, offset) == p + n
      requires |out0| % 2 == 0 && Part(out0 + Held(odd0, two0), flat, p, n)
      ensures |out| % 2 == 0 && Part(out + Held(odd, two), flat, p, n + bytes)
    {
      var words;
      words, odd, two := PutWords(i, offset, bytes, odd0, two0);
      PieceOf(mem, base + i, offset, bytes);
      PartWords(out0, Held(odd0, two0), mem[base + i][offset..offset + bytes], words, Held(odd, two), flat, p, n,
          bytes);
      out := out0 + words;
    }

    /** One turn of the 16-bit loop. */
    method EmitStep(i0: nat, offset0: nat, count: nat, out0: Bytes, odd0: bool, two0: (Byte, Byte),
                    ghost flat: Bytes, ghost p: nat, ghost n: nat)
      returns (i: nat, offset: nat, bytes: nat, out: Bytes, odd: bool, two: (Byte, Byte))
      requires At(i0, offset0, p + n) && 0 < count && flat == Flat(mem) && p + n + count <= |flat|
      requires |out0| % 2 == 0 && Part(out0 + Held(odd0, two0), flat, p, n)
      modifies this`base, this`left, this`sizes
      ensures At(i, offset, p + n + bytes) && bytes <= count
      ensures |out| % 2 == 0 && Part(out + Held(odd, two), flat, p, n + bytes)
      ensures bytes == 0 ==> left - i < old(left - i0) || (left - i == old(left - i0) && i < i0)
    {
      var ready;
      bytes, out, odd, two := 0, out0, odd0, two0;
      ready, i, offset := Turn(i0, offset0);
      if ready {
        bytes := Share(i, offset, count);
        out, odd, two := Emit(i, offset, bytes, out0, odd0, two0, flat, p, n);
        offset := offset + bytes;
      }
    }

    /** dp_pio16_user2nic: the same bytes as words; a last odd byte goes out with whatever was in the other half. */
    method UserToNic16(offset0: nat, count0: nat, stale: (Byte, Byte)) returns (out: Bytes)
      requires Valid() && Pos(0, offset0) + count0 <= |Flat(mem)|
      modifies this`base, this`left, this`sizes
      ensures |out| == count0 + count0 % 2 && out[..count0] == old(Wanted(offset0, count0)) && Valid()
    {
      ghost var flat, p := Flat(mem), Pos(0, offset0);
      var i: nat, offset: nat, count: nat := 0, offset0, count0;
      var odd, two := false, stale;
      out := [];
      while count > 0
        invariant count <= count0 && At(i, offset, p + (count0 - count)) && flat == Flat(mem)
        invariant |out| % 2 == 0 && Part(out + Held(odd, two), flat, p, count0 - count)
        decreases count, left - i, i
      {
        var bytes;
        i, offset, bytes, out, odd, two := EmitStep(i, offset, count, out, odd, two, flat, p, count0 - count);
        count := count - bytes;
      }
      assert count == 0;
      PartLast(out, odd, two, flat, p, count0);
      if odd { out := out + [two.0, two.1]; }
    }

    /** The user's buffers after n bytes of d arrived at p of what was flat. */
    ghost predicate Arrived(flat: Bytes, p: nat, d: Bytes, n: nat)
      reads this
    {
      n <= |d| && p + n <= |flat| && Flat(mem) == Over(flat, p, d[..n]) && |Flat(mem)| == |flat|
    }

    /** Copy the next bytes of the stream d, which are e, into entry i. */
    method Store(i: nat, offset: nat, e: Bytes, ghost d: Bytes, ghost at: nat, ghost flat: Bytes, ghost p: nat)
      requires Valid() && i < |sizes| && offset + |e| <= sizes[i] && Part(e, d, at, |e|)
      requires Arrived(flat, p, d, at) && Pos(i, offset) == p + at
      modifies this`mem
      ensures Valid() && Arrived(flat, p, d, at + |e|) && Pos(i, offset + |e|) == p + at + |e|
    {
      WriteInto(mem, base + i, offset, e);
      OverPart(flat, p, d, at, e);
      ghost var before := mem[..base + i];
      mem := mem[base + i := Over(mem[base + i], offset, e)];
      assert mem[..base + i] == before;
    }

    /** How much of count entry i takes. */
    method Share(i: nat, offset: nat, count: nat) returns (bytes: nat)
      requires Valid() && i < |sizes| && offset < sizes[i] && 0 < count
      ensures 0 < bytes <= count && offset + bytes <= sizes[i]
    {
      bytes := sizes[i] - offset;
      if bytes > count { bytes := count; }
    }

    /** One turn of the loop: so many bytes are stored, or none and the window or the entry moves on. */
    method StoreStep(i0: nat, offset0: nat, count: nat, d: Bytes, at: nat, ghost flat: Bytes, ghost p: nat)
      returns (i: nat, offset: nat, bytes: nat)
      requires At(i0, offset0, p + at) && 0 < count && p + at + count <= |flat| && at + count <= |d| &&
               Arrived(flat, p, d, at)
      modifies this
      ensures At(i, offset, p + at + bytes) && bytes <= count && Arrived(flat, p, d, at + bytes)
      ensures bytes == 0 ==> left - i < old(left - i0) || (left - i == old(left - i0) && i < i0)
    {
      var ready;
      bytes := 0;
      ready, i, offset := Turn(i0, offset0);
      if ready {
        bytes := Share(i, offset, count);
        Store(i, offset, d[at..at + bytes], d, at, flat, p);
        offset := offset + bytes;
      }
    }

    /** dp_nic2user and dp_pio8_nic2user: the stream d goes to the count bytes from offset on, and nowhere else. */
    method NicToUser(offset0: nat, count0: nat, d: Bytes)
      requires Valid() && Pos(0, offset0) + count0 <= |Flat(mem)| && count0 <= |d|
      modifies this
      ensures Valid() && Flat(mem) == Over(Flat(old(mem)), old(Pos(0, offset0)), d[..count0])
    {
      ghost var flat, p := Flat(mem), Pos(0, offset0);
      var i: nat, offset: nat, count: nat := 0, offset0, count0;
      assert Over(flat, p, d[..0]) == flat;
      while count > 0
        invariant count <= count0 && At(i, offset, p + (count0 - count)) && Arrived(flat, p, d, count0 - count)
        decreases count, left - i, i
      {
        var bytes;
        i, offset, bytes := StoreStep(i, offset, count, d, count0 - count, flat, p);
        count := count - bytes;
      }
      assert count == 0;
    }

    /** What the 16-bit copy has read from the port: whole words, one byte of the last perhaps still held. */
    ghost predicate Read(d: Bytes, at: nat, used: nat, odd: bool, two: (Byte, Byte)) {
      used % 2 == 0 && used <= |d| && at <= used && used == (if odd then at + 1 else at) && (odd ==> two.1 == d[at])
    }

    /** Whole words. */
    method GetWhole(i: nat, offset: nat, ecount: nat, d: Bytes, used: nat, ghost flat: Bytes, ghost p: nat)
      requires Valid() && i < |sizes| && offset + ecount <= sizes[i] && used + ecount <= |d|
      requires Arrived(flat, p, d, used) && Pos(i, offset) == p + used
      modifies this`mem
      ensures Valid() && Arrived(flat, p, d, used + ecount) && Pos(i, offset + ecount) == p + used + ecount
    {
      if ecount != 0 { Store(i, offset, d[used..used + ecount], d, used, flat, p); }    // insw
    }

    /** Whole words, then half of one more. */
    method GetPairs(i: nat, offset: nat, bytes: nat, d: Bytes, used0: nat, two0: (Byte, Byte), ghost flat: Bytes,
                    ghost p: nat)
      returns (used: nat, odd: bool, two: (Byte, Byte))
      requires Valid() && i < |sizes| && offset + bytes <= sizes[i] && used0 % 2 == 0 && |d| % 2 == 0 &&
               used0 + bytes <= |d|
      requires Arrived(flat, p, d, used0) && Pos(i, offset) == p + used0
      modifies this`mem
      ensures Valid() && Arrived(flat, p, d, used0 + bytes) && Pos(i, offset + bytes) == p + used0 + bytes
      ensures Read(d, used0 + bytes, used, odd, two)
    {
      var rest := bytes % 2;
      var ecount := bytes - rest;
      Even(used0, bytes, |d|);
      GetWhole(i, offset, ecount, d, used0, flat, p);
      used, odd, two := used0 + ecount, false, two0;
      if rest != 0 {
        assert rest == 1;
        two := (d[used], d[used + 1]);                                  // inw
        Store(i, offset + ecount, [two.0], d, used, flat, p);
        used, odd := used + 2, true;
      }
    }

    /** One entry of the 16-bit copy: the held byte first, then words. */
    method GetWords(i: nat, offset: nat, bytes: nat, d: Bytes, ghost at: nat, used0: nat, odd0: bool,
                    two0: (Byte, Byte),
                    ghost flat: Bytes, ghost p: nat)
      returns (used: nat, odd: bool, two: (Byte, Byte))
      requires Valid() && i < |sizes| && 0 < bytes && offset + bytes <= sizes[i]
      requires Read(d, at, used0, odd0, two0) && |d| % 2 == 0 && at + bytes <= |d|
      requires Arrived(flat, p, d, at) && Pos(i, offset) == p + at
      modifies this`mem
      ensures Valid() && Arrived(flat, p, d, at + bytes) && Pos(i, offset + bytes) == p + at + bytes
      ensures Read(d, at + bytes, used, odd, two)
    {
      if odd0 {
        Store(i, offset, [two0.1], d, at, flat, p);
        if bytes == 1 { return used0, false, two0; }
        used, odd, two := GetPairs(i, offset + 1, bytes - 1, d, used0, two0, flat, p);
      } else {
        used, odd, two := GetPairs(i, offset, bytes, d, used0, two0, flat, p);
      }
    }

    /** One turn of the 16-bit loop. */
    method FillStep(i0: nat, offset0: nat, count: nat, d: Bytes, ghost at: nat, used0: nat, odd0: bool,
                    two0: (Byte, Byte),
                    ghost flat: Bytes, ghost p: nat)
      returns (i: nat, offset: nat, bytes: nat, used: nat, odd: bool, two: (Byte, Byte))
      requires At(i0, offset0, p + at) && 0 < count && p + at + count <= |flat| && at + count <= |d| && |d| % 2 == 0
      requires Read(d, at, used0, odd0, two0) && Arrived(flat, p, d, at)
      modifies this
      ensures At(i, offset, p + at + bytes) && bytes <= count
      ensures Arrived(flat, p, d, at + bytes) && Read(d, at + bytes, used, odd, two)
      ensures bytes == 0 ==> left - i < old(left - i0) || (left - i == old(left - i0) && i < i0)
    {
      var ready;
      bytes, used, odd, two := 0, used0, odd0, two0;
      ready, i, offset := Turn(i0, offset0);
      if ready {
        bytes := Share(i, offset, count);
        used, odd, two := GetWords(i, offset, bytes, d, at, used0, odd0, two0, flat, p);
        offset := offset + bytes;
      }
    }

    /** dp_pio16_nic2user: the same, reading words. */
    method NicToUser16(offset0: nat, count0: nat, d: Bytes)
      requires Valid() && Pos(0, offset0) + count0 <= |Flat(mem)| && count0 <= |d| && |d| % 2 == 0
      modifies this
      ensures Valid() && Flat(mem) == Over(Flat(old(mem)), old(Pos(0, offset0)), d[..count0])
    {
      ghost var flat, p := Flat(mem), Pos(0, offset0);
      var i: nat, offset: nat, count: nat := 0, offset0, count0;
      var used: nat, odd, two: (Byte, Byte) := 0, false, (0, 0);
      assert Over(flat, p, d[..0]) == flat;
      while count > 0
        invariant count <= count0 && At(i, offset, p + (count0 - count)) && Arrived(flat, p, d, count0 - count)
        invariant Read(d, count0 - count, used, odd, two)
        decreases count, left - i, i
      {
        var bytes;
        i, offset, bytes, used, odd, two := FillStep(i, offset, count, d, count0 - count, used, odd, two, flat, p);
        count := count - bytes;
      }
      assert count == 0;
    }
  }

  /** What one machine puts out in words, another takes in, with vectors cut up in any two ways. */
  method Loopback(from: IoVec, to: IoVec, count: nat, stale: (Byte, Byte))
    requires from != to && from.Valid() && to.Valid() && from.base == 0 && to.base == 0
    requires count <= |Flat(from.mem)| && count <= |Flat(to.mem)|
    modifies from, to
    ensures Flat(to.mem) == Flat(old(from.mem))[..count] + Flat(old(to.mem))[count..]
  {
    var wire := from.UserToNic16(0, count, stale);
    to.NicToUser16(0, count, wire);
  }
}
