/** fbClear: the size guard and the chunked zero-write loop that blanks
    /dev/fb0. The sysfs readings are inputs, already parsed into Go ints
    (64-bit); opening the device and each write can fail, which is an input
    too. The model records the length of every write the loop issues. */
module Framebuffer {
  import opened Wrappers

  const TwoTo63: int := 0x8000_0000_0000_0000

  /** Go's int64 (and int on the 64-bit targets). */
  newtype int64 = x: int | -0x8000_0000_0000_0000 <= x < 0x8000_0000_0000_0000

  /** Two's-complement wrap-around of an exact product into int64. */
  function Wrap64(x: int): (r: int64)
    ensures -TwoTo63 <= x < TwoTo63 ==> r as int == x
    ensures (r as int - x) % (2 * TwoTo63) == 0
  {
    ((x + TwoTo63) % (2 * TwoTo63) - TwoTo63) as int64
  }

  /** Go's `/` on ints, which truncates toward zero. */
  function Quot(a: int, b: int): (q: int)
    requires b > 0
    ensures a >= 0 ==> q == a / b
    ensures a < 0 ==> q == -((-a) / b)
  {
    if a >= 0 then a / b else -((-a) / b)
  }

  /** Bytes per write: the size of the zero buffer. */
  const Chunk: int := 256 * 1024

  /** The largest frame fbClear agrees to blank: 64 MiB. */
  const MaxFrame: int := 64 * 1024 * 1024

  /** int64(w) * int64(h) * int64(bpp/8), each product wrapping as Go's does. */
  function FrameBytes(w: int64, h: int64, bpp: int64): int64
  {
    Wrap64(Wrap64(w as int * h as int) as int * Quot(bpp as int, 8))
  }

  /** The number of bytes fbClear sets out to write; 0 when a guard returns
      early. */
  function ClearSize(w: int64, h: int64, bpp: int64): (size: int)
    ensures 0 <= size <= MaxFrame
  {
    if w <= 0 || h <= 0 || bpp <= 0 then 0
    else
      var size := FrameBytes(w, h, bpp);
      if size <= 0 || size as int > MaxFrame then 0 else size as int
  }

  /** The lengths of the writes that cover `remaining` bytes, in order. */
  function Chunks(remaining: int): seq<int>
    decreases remaining
  {
    if remaining <= 0 then []
    else
      var n := if remaining < Chunk then remaining else Chunk;
      [n] + Chunks(remaining - n)
  }

  function Sum(s: seq<int>): int
  {
    if s == [] then 0 else s[0] + Sum(s[1..])
  }

  /** The writes cover the frame exactly, none is empty or longer than the
      buffer, and only the last one may be short. */
  lemma {:induction false} ChunksCover(remaining: int)
    requires remaining >= 0
    ensures Sum(Chunks(remaining)) == remaining
    ensures forall i :: 0 <= i < |Chunks(remaining)| ==> 0 < Chunks(remaining)[i] <= Chunk
    ensures forall i :: 0 <= i < |Chunks(remaining)| - 1 ==> Chunks(remaining)[i] == Chunk
    ensures |Chunks(remaining)| == (remaining + Chunk - 1) / Chunk
    decreases remaining
  {
    if remaining > 0 {
      var n := if remaining < Chunk then remaining else Chunk;
      ChunksCover(remaining - n);
    }
  }

  /** The writes the loop issues for a frame of `size` bytes: every chunk up
      to and including the first write that fails (failAt counts writes
      from 0). */
  function Issued(size: int, failAt: Option<nat>): seq<int>
  {
    var all := Chunks(size);
    match failAt
    case None => all
    case Some(k) => if k < |all| then all[..k + 1] else all
  }

  /** The writes fbClear issues: none when a guard returns or the device
      does not open, and otherwise those of the loop. */
  function Writes(w: int64, h: int64, bpp: int64, openOk: bool, failAt: Option<nat>): seq<int>
  {
    var size := ClearSize(w, h, bpp);
    if size == 0 || !openOk then [] else Issued(size, failAt)
  }

  /** One turn of the loop: the next write is a full chunk or what is left,
      and the rest starts one chunk further on either way. */
  lemma ChunkStep(remaining: int)
    requires remaining > 0
    ensures Chunks(remaining) ==
      [if remaining < Chunk then remaining else Chunk] + Chunks(remaining - Chunk)
  {
  }

  lemma PrefixOfJoin(a: seq<int>, b: seq<int>)
    ensures (a + b)[..|a|] == a
  {
  }

  /** fbClear's guards; the loop is WriteZeros. */
  method FbClear(w: int64, h: int64, bpp: int64, openOk: bool, failAt: Option<nat>) returns (writes: seq<int>)
    ensures writes == Writes(w, h, bpp, openOk, failAt)
  {
    writes := [];
    if w <= 0 || h <= 0 || bpp <= 0 {
      return;
    }
    var size := FrameBytes(w, h, bpp);
    if size <= 0 || size as int > MaxFrame {
      return;
    }
    if !openOk {
      return;
    }
    writes := WriteZeros(size, failAt);
  }

  /** fbClear's `written` loop over a size the guards accepted. */
  method WriteZeros(size: int64, failAt: Option<nat>) returns (writes: seq<int>)
    requires 0 < size as int <= MaxFrame
    ensures writes == Issued(size as int, failAt)
  {
    writes := [];
    var written: int64 := 0;
    ghost var rest := Chunks(size as int);
    while written < size
      invariant 0 <= written as int <= size as int + Chunk
      invariant rest == Chunks(size as int - written as int)
      invariant writes + rest == Chunks(size as int)
      invariant failAt.Some? ==> failAt.value >= |writes|
      decreases size as int - written as int
    {
      var n := Chunk as int64;
      if size - written < Chunk as int64 {
        n := size - written;
      }
      ChunkStep(size as int - written as int);
      var next := Chunks(size as int - written as int - Chunk);
      assert rest == [n as int] + next;
      assert writes + [n as int] + next == Chunks(size as int);
      writes := writes + [n as int];
      if failAt == Some(|writes| - 1) {
        PrefixOfJoin(writes, next);
        return;
      }
      written := written + Chunk as int64;
      rest := next;
    }
  }

  /** fbClear writes something only when the width, height and depth are
      positive and the (wrapped) frame size lies in (0, 64 MiB]. */
  lemma WritesOnlyWhenGuarded(w: int64, h: int64, bpp: int64, openOk: bool, failAt: Option<nat>)
    ensures Writes(w, h, bpp, openOk, failAt) != [] <==>
      openOk && w > 0 && h > 0 && bpp > 0 && 0 < FrameBytes(w, h, bpp) as int <= MaxFrame
  {
    var size := ClearSize(w, h, bpp);
    if size > 0 && openOk {
      assert Chunks(size) == [if size < Chunk then size else Chunk] + Chunks(size - (if size < Chunk then size else Chunk));
    }
  }

  /** Without a failing write the whole frame is zeroed, in writes of at most
      256 KiB. */
  lemma WritesCoverFrame(w: int64, h: int64, bpp: int64)
    ensures Sum(Writes(w, h, bpp, true, None)) == ClearSize(w, h, bpp)
    ensures forall i :: 0 <= i < |Writes(w, h, bpp, true, None)| ==> 0 < Writes(w, h, bpp, true, None)[i] <= Chunk
  {
    ChunksCover(ClearSize(w, h, bpp));
  }

  /** A failed write stops the loop: what was issued is a prefix of the full
      run, ending with the failed write. */
  lemma FailureStopsEarly(w: int64, h: int64, bpp: int64, k: nat)
    ensures var full := Writes(w, h, bpp, true, None);
      var cut := Writes(w, h, bpp, true, Some(k));
      cut <= full && (k < |full| ==> |cut| == k + 1) && (k >= |full| ==> cut == full)
  {
  }

  lemma PositiveProduct(a: int, b: int)
    requires a > 0 && b > 0
    ensures a * b > 0
  {
  }

  lemma ProductGrows(a: int, b: int)
    requires a >= 0 && b >= 1
    ensures a * b >= a
  {
    assert a * b == a * (b - 1) + a;
    assert a * (b - 1) >= 0;
  }

  /** When the product fits in int64 the size is the true frame size. */
  lemma FrameBytesExact(w: int64, h: int64, bpp: int64)
    requires w > 0 && h > 0 && bpp > 0
    requires w as int * h as int * (bpp as int / 8) < TwoTo63
    ensures FrameBytes(w, h, bpp) as int == w as int * h as int * (bpp as int / 8)
    ensures ClearSize(w, h, bpp) == (if 0 < w as int * h as int * (bpp as int / 8) <= MaxFrame
                                    then w as int * h as int * (bpp as int / 8) else 0)
  {
    var wh := w as int * h as int;
    var k := bpp as int / 8;
    assert 0 < wh by { PositiveProduct(w as int, h as int); }
    if k > 0 {
      ProductGrows(wh, k);
      assert Wrap64(wh) as int == wh;
    }
  }

  /** A frame size beyond int64 wraps the way Go's multiplication does: a
      2^62+1 by 4 frame at 8 bits per pixel is cleared as 4 bytes. */
  lemma FrameBytesWraps()
    ensures ClearSize(0x4000_0000_0000_0001, 4, 8) == 4
  {
    assert 0x4000_0000_0000_0001 * 4 == 2 * TwoTo63 + 4;
    assert Wrap64(2 * TwoTo63 + 4) == 4;
  }
}
