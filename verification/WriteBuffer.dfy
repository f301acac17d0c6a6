/** Buffered random-access writing of the message file (HTdaemon/bufferio.c). */
module WriteBuffer {
  import opened Channel

  // ----- Facts about WriteAt: writes that do not meet commute, and writes that follow on combine.

  lemma {:induction false} WriteLength(f: seq<Byte>, pos: nat, d: seq<Byte>)
    ensures |WriteAt(f, pos, d)| == if d != [] && |f| < pos + |d| then pos + |d| else |f|
    ensures d == [] ==> WriteAt(f, pos, d) == f
  {
    WriteAtIs(f, pos, d);
  }

  lemma {:induction false} WriteOn(f: seq<Byte>, pos: nat, x: seq<Byte>, y: seq<Byte>)
    ensures WriteAt(WriteAt(f, pos, x), pos + |x|, y) == WriteAt(f, pos, x + y)
  {
    if x == [] {
      assert x + y == y;
    } else if y == [] {
      assert x + y == x;
    } else {
      var l, r := WriteAt(WriteAt(f, pos, x), pos + |x|, y), WriteAt(f, pos, x + y);
      WriteAtIs(f, pos, x);
      WriteAtIs(WriteAt(f, pos, x), pos + |x|, y);
      WriteAtIs(f, pos, x + y);
      assert |l| == |r|;
      assert forall a :: 0 <= a < |r| ==> l[a] == r[a];
    }
  }

  lemma {:induction false} WriteBelow(f: seq<Byte>, pos: nat, b: seq<Byte>, addr: nat, d: seq<Byte>)
    requires addr + |d| <= pos
    ensures WriteAt(WriteAt(f, addr, d), pos, b) == WriteAt(WriteAt(f, pos, b), addr, d)
  {
    if b != [] && d != [] {
      var l, r := WriteAt(WriteAt(f, addr, d), pos, b), WriteAt(WriteAt(f, pos, b), addr, d);
      WriteAtIs(f, addr, d);
      WriteAtIs(WriteAt(f, addr, d), pos, b);
      WriteAtIs(f, pos, b);
      WriteAtIs(WriteAt(f, pos, b), addr, d);
      assert |l| == |r|;
      assert forall a :: 0 <= a < |r| ==> l[a] == r[a];
    }
  }

  // The buffer after copying `d` to offset `off` of its `n` bytes in use.
  function Patched(b: seq<Byte>, off: nat, d: seq<Byte>): seq<Byte>
    requires off <= |b|
  {
    b[..off] + d + if off + |d| < |b| then b[off + |d|..] else []
  }

  lemma {:induction false} PatchedIs(b: seq<Byte>, off: nat, d: seq<Byte>)
    requires off <= |b|
    ensures var p := Patched(b, off, d);
            && |p| == (if off + |d| < |b| then |b| else off + |d|)
            && forall a :: 0 <= a < |p| ==> p[a] == if off <= a < off + |d| then d[a - off] else b[a]
  {
  }

  lemma {:induction false} WriteInside(f: seq<Byte>, pos: nat, b: seq<Byte>, off: nat, d: seq<Byte>)
    requires off <= |b|
    ensures WriteAt(f, pos, Patched(b, off, d)) == WriteAt(WriteAt(f, pos, b), pos + off, d)
  {
    hide WriteAt, Patched;
    PatchedIs(b, off, d);
    var l, r := WriteAt(f, pos, Patched(b, off, d)), WriteAt(WriteAt(f, pos, b), pos + off, d);
    WriteAtIs(f, pos, Patched(b, off, d));
    WriteAtIs(f, pos, b);
    WriteAtIs(WriteAt(f, pos, b), pos + off, d);
    assert |l| == |r|;
    forall a | 0 <= a < |r|
      ensures l[a] == r[a]
    {
      if pos <= a < pos + |Patched(b, off, d)| {
        assert l[a] == Patched(b, off, d)[a - pos];
      }
    }
  }

  // ----- What the file operations do

  function Flushed(w: WBuf): WBuf
  {
    WBuf(ViewOf(w), w.start + |w.held|, [])
  }

  // Fill the buffer from `at` on; a block that is full is flushed when there is more for the next.
  function FillOf(w: WBuf, data: seq<Byte>, at: nat): WBuf
    requires InBlock(w) && w.start <= at <= w.start + |w.held|
    decreases |data|, at - w.start
  {
    var left := BlockEnd(w.start) - at;
    if |data| <= left then w.(held := Patched(w.held, at - w.start, data))
    else FillOf(Flushed(w.(held := Patched(w.held, at - w.start, data[..left]))), data[left..], at + left)
  }

  // WriteData: much data for above the buffer goes straight to the file, data for below it too; the
  // rest goes to the buffer, which follows it.
  function WriteDataOf(w: WBuf, data: seq<Byte>, addr: nat): WBuf
    requires InBlock(w)
  {
    var end := w.start + |w.held|;
    if |data| > FILEBUFFERSIZE / 2 && addr >= end then WBuf(WriteAt(ViewOf(w), addr, data), addr + |data|, [])
    else if addr < w.start then
      var left := w.start - addr;
      if |data| <= left then w.(file := WriteAt(w.file, addr, data))
      else FillOf(w.(file := WriteAt(w.file, addr, data[..left])), data[left..], w.start)
    else FillOf(if addr > end then WBuf(ViewOf(w), addr, []) else w, data, addr)
  }

  // The buffer moves up only, and nothing above it changes in the file.
  predicate Upwards(w: WBuf, x: WBuf)
  {
    InBlock(x) && w.start <= x.start && SameAbove(w.file, x.file, x.start)
  }

  lemma {:induction false} AboveTwice(f: seq<Byte>, g: seq<Byte>, h: seq<Byte>, i: nat, j: nat)
    requires SameAbove(f, g, i) && SameAbove(g, h, j) && i <= j
    ensures SameAbove(f, h, j)
  {
    forall a | j <= a < |h| && a < |f|
      ensures h[a] == f[a]
    {
      assert h[a] == g[a];
    }
  }

  lemma {:induction false} UpwardsTwice(w: WBuf, x: WBuf, y: WBuf)
    requires Upwards(w, x) && Upwards(x, y)
    ensures Upwards(w, y)
  {
    AboveTwice(w.file, x.file, y.file, x.start, y.start);
  }

  lemma {:induction false} FlushedUp(w: WBuf)
    requires InBlock(w)
    ensures Upwards(w, Flushed(w)) && ViewOf(Flushed(w)) == ViewOf(w)
  {
    WriteAtIs(w.file, w.start, w.held);
  }

  // A write below the start of the buffer, or above all of it, is one to the file.
  lemma {:induction false} DirectUp(w: WBuf, data: seq<Byte>, addr: nat)
    requires InBlock(w) && w.start + |w.held| <= addr
    ensures var x := WBuf(WriteAt(ViewOf(w), addr, data), addr + |data|, []);
            Upwards(w, x) && ViewOf(x) == WriteAt(ViewOf(w), addr, data)
  {
    WriteAtIs(w.file, w.start, w.held);
    WriteAtIs(ViewOf(w), addr, data);
  }

  lemma {:induction false} UnderUp(w: WBuf, data: seq<Byte>, addr: nat)
    requires InBlock(w) && addr + |data| <= w.start
    ensures var x := w.(file := WriteAt(w.file, addr, data));
            Upwards(w, x) && ViewOf(x) == WriteAt(ViewOf(w), addr, data)
  {
    WriteAtIs(w.file, addr, data);
    WriteBelow(w.file, w.start, w.held, addr, data);
  }

  lemma {:induction false} PatchUp(w: WBuf, data: seq<Byte>, at: nat)
    requires InBlock(w) && w.start <= at <= w.start + |w.held| && at + |data| <= BlockEnd(w.start)
    ensures var x := w.(held := Patched(w.held, at - w.start, data));
            && Upwards(w, x) && ViewOf(x) == WriteAt(ViewOf(w), at, data)
            && (x.start + |x.held| == if at + |data| < w.start + |w.held| then w.start + |w.held| else at + |data|)
  {
    hide Patched, WriteAt;
    PatchedIs(w.held, at - w.start, data);
    WriteInside(w.file, w.start, w.held, at - w.start, data);
  }

  lemma {:induction false} FillRight(w: WBuf, data: seq<Byte>, at: nat)
    requires InBlock(w) && w.start <= at <= w.start + |w.held|
    ensures var x := FillOf(w, data, at);
            Upwards(w, x) && ViewOf(x) == WriteAt(ViewOf(w), at, data)
    decreases |data|, at - w.start
  {
    hide Patched, WriteAt, Upwards;
    var left := BlockEnd(w.start) - at;
    if |data| <= left {
      PatchUp(w, data, at);
    } else {
      PatchUp(w, data[..left], at);
      var x := w.(held := Patched(w.held, at - w.start, data[..left]));
      FlushedUp(x);
      FillRight(Flushed(x), data[left..], at + left);
      UpwardsTwice(w, x, Flushed(x));
      UpwardsTwice(w, Flushed(x), FillOf(w, data, at));
      WriteOn(ViewOf(w), at, data[..left], data[left..]);
      assert data[..left] + data[left..] == data;
    }
  }

  // Once it is flushed, WriteData is a write at `addr`.
  lemma {:induction false} WriteDataRight(w: WBuf, data: seq<Byte>, addr: nat)
    requires InBlock(w)
    ensures var x := WriteDataOf(w, data, addr);
            Upwards(w, x) && ViewOf(x) == WriteAt(ViewOf(w), addr, data)
  {
    hide Patched, WriteAt, Upwards, FillOf;
    var end := w.start + |w.held|;
    if |data| > FILEBUFFERSIZE / 2 && addr >= end {
      DirectUp(w, data, addr);
    } else if addr < w.start && addr + |data| <= w.start {
      UnderUp(w, data, addr);
    } else if addr < w.start {
      var left := w.start - addr;
      var x := w.(file := WriteAt(w.file, addr, data[..left]));
      UnderUp(w, data[..left], addr);
      FillRight(x, data[left..], w.start);
      UpwardsTwice(w, x, FillOf(x, data[left..], w.start));
      WriteOn(ViewOf(w), addr, data[..left], data[left..]);
      assert data[..left] + data[left..] == data;
    } else if addr > end {
      var x := WBuf(ViewOf(w), addr, []);
      DirectUp(w, [], addr);
      WriteNothing(ViewOf(w), addr);
      FillRight(x, data, addr);
      UpwardsTwice(w, x, FillOf(x, data, addr));
    } else {
      FillRight(w, data, addr);
    }
  }

  lemma {:induction false} WriteNothing(f: seq<Byte>, pos: nat)
    ensures WriteAt(f, pos, []) == f
  {
  }

  // ----- The file operations

  // Write to the message file at its current position.
  method Write(chnp: RChan, data: seq<Byte>)
    modifies chnp`file, chnp`filepos
    ensures chnp.file == WriteAt(old(chnp.file), old(chnp.filepos), data)
    ensures chnp.filepos == old(chnp.filepos) + |data|
  {
    chnp.file := WriteAt(chnp.file, chnp.filepos, data);
    chnp.filepos := chnp.filepos + |data|;
  }

  method CopyIn(a: array<Byte>, off: nat, data: seq<Byte>)
    requires off + |data| <= a.Length
    modifies a
    ensures a[..] == old(a[..off]) + data + old(a[off + |data|..])
  {
    forall i | 0 <= i < |data| {
      a[off + i] := data[i];
    }
  }

  method FlushWData(chnp: RChan)
    requires chnp.Valid()
    modifies chnp`file, chnp`filepos, chnp`bufstart
    ensures chnp.Valid() && chnp.Buf() == Flushed(old(chnp.Buf()))
  {
    var size := chnp.bufend - chnp.bufstart;
    if size != 0 {
      Write(chnp, chnp.databuffer[..size]);
    }
    chnp.bufstart := chnp.bufend;
  }

  // Copy `d` into the buffer at `addr`, without going past the end of the block.
  method Buffer(chnp: RChan, d: seq<Byte>, addr: nat)
    requires chnp.Valid()
    requires chnp.bufstart <= addr <= chnp.bufend && addr + |d| <= BlockEnd(chnp.bufstart)
    modifies chnp`bufend, chnp.databuffer
    ensures chnp.Valid()
    ensures chnp.Buf() == old(chnp.Buf()).(held := Patched(old(chnp.Buf().held), addr - chnp.bufstart, d))
    ensures chnp.bufend == if old(chnp.bufend) < addr + |d| then addr + |d| else old(chnp.bufend)
  {
    var off := addr - chnp.bufstart;
    ghost var b := chnp.databuffer[..chnp.bufend - chnp.bufstart];
    CopyIn(chnp.databuffer, off, d);
    if addr + |d| > chnp.bufend {
      chnp.bufend := addr + |d|;
    }
    assert chnp.databuffer[..chnp.bufend - chnp.bufstart] == Patched(b, off, d);
  }

  // Write to the file below the buffer, and return to the write point.
  method WriteUnder(chnp: RChan, d: seq<Byte>, addr: nat)
    requires chnp.Valid() && addr + |d| <= chnp.bufstart
    modifies chnp`file, chnp`filepos
    ensures chnp.Valid() && chnp.Buf() == old(chnp.Buf()).(file := WriteAt(old(chnp.file), addr, d))
  {
    hide WriteAt;
    chnp.filepos := addr;
    Write(chnp, d);
    if chnp.bufstart != addr + |d| {
      chnp.filepos := chnp.bufstart;
    }
  }

  // Move the empty buffer to `at`.
  method SeekTo(chnp: RChan, at: nat)
    requires chnp.Valid() && chnp.bufstart <= at
    modifies chnp`file, chnp`filepos, chnp`bufstart, chnp`bufend
    ensures chnp.Valid() && chnp.Buf() == WBuf(old(chnp.View()), at, [])
  {
    hide WriteAt;
    WriteNothing(chnp.file, chnp.bufstart);
    if chnp.bufend > chnp.bufstart {
      FlushWData(chnp);
    }
    chnp.filepos := at;
    chnp.bufstart := at;
    chnp.bufend := at;
  }

  // Much data for above the buffer.
  method WriteDirect(chnp: RChan, data: seq<Byte>, addr: nat)
    requires chnp.Valid() && chnp.bufend <= addr
    modifies chnp`file, chnp`filepos, chnp`bufstart, chnp`bufend
    ensures chnp.Valid() && chnp.Buf() == WBuf(WriteAt(old(chnp.View()), addr, data), addr + |data|, [])
  {
    hide WriteAt;
    WriteNothing(chnp.file, chnp.bufstart);
    if chnp.bufend > chnp.bufstart {
      FlushWData(chnp);
    }
    if chnp.bufstart != addr {
      chnp.filepos := addr;
    }
    Write(chnp, data);
    chnp.bufstart := addr + |data|;
    chnp.bufend := chnp.bufstart;
  }

  // WriteData is the write that `WriteDataOf` describes, and so, once the buffer is flushed, a write
  // at `addr`.
  method WriteData(chnp: RChan, data: seq<Byte>, addr: nat)
    requires chnp.Valid()
    modifies chnp`file, chnp`filepos, chnp`bufstart, chnp`bufend, chnp.databuffer
    ensures chnp.Valid()
    ensures chnp.Buf() == WriteDataOf(old(chnp.Buf()), data, addr)
    ensures chnp.View() == WriteAt(old(chnp.View()), addr, data)
  {
    hide WriteAt, FillOf, Upwards, Patched;
    WriteDataRight(chnp.Buf(), data, addr);
    if |data| > FILEBUFFERSIZE / 2 && addr >= chnp.bufend {
      WriteDirect(chnp, data, addr);
      return;
    }
    var d, at := data, addr;
    if at < chnp.bufstart {
      if at + |d| <= chnp.bufstart {
        WriteUnder(chnp, d, at);
        return;
      }
      var left := chnp.bufstart - at;
      WriteUnder(chnp, d[..left], at);
      d, at := d[left..], chnp.bufstart;
    }
    if at > chnp.bufend {
      SeekTo(chnp, at);
    }
    WriteBlocks(chnp, d, at);
  }

  // The last part of WriteData: fill and flush block after block, and buffer what is left.
  method WriteBlocks(chnp: RChan, data: seq<Byte>, addr: nat)
    requires chnp.Valid() && chnp.bufstart <= addr <= chnp.bufend
    modifies chnp`file, chnp`filepos, chnp`bufstart, chnp`bufend, chnp.databuffer
    ensures chnp.Valid() && chnp.Buf() == FillOf(old(chnp.Buf()), data, addr)
  {
    hide WriteAt, Patched;
    var d, at := data, addr;
    var bufend := BlockEnd(chnp.bufstart);
    while at + |d| > bufend
      invariant chnp.Valid() && chnp.bufstart <= at <= chnp.bufend && bufend == BlockEnd(chnp.bufstart)
      invariant FillOf(chnp.Buf(), d, at) == FillOf(old(chnp.Buf()), data, addr)
      decreases |d|, at - chnp.bufstart
    {
      BlockStep(chnp, d, at);
      d, at := d[bufend - at..], bufend;
      bufend := BlockEnd(chnp.bufstart);
    }
    Buffer(chnp, d, at);
  }

  // One turn: fill the block up, flush it, and begin the next.
  method BlockStep(chnp: RChan, d: seq<Byte>, at: nat)
    requires chnp.Valid() && chnp.bufstart <= at <= chnp.bufend && at + |d| > BlockEnd(chnp.bufstart)
    modifies chnp`file, chnp`filepos, chnp`bufstart, chnp`bufend, chnp.databuffer
    ensures chnp.Valid() && chnp.bufstart == chnp.bufend == BlockEnd(old(chnp.bufstart))
    ensures var left := BlockEnd(old(chnp.bufstart)) - at;
            FillOf(chnp.Buf(), d[left..], at + left) == FillOf(old(chnp.Buf()), d, at)
  {
    hide WriteAt, Patched;
    ghost var w := chnp.Buf();
    var bufend := BlockEnd(chnp.bufstart);
    PatchNothing(w.held);
    if at < bufend {
      Buffer(chnp, d[..bufend - at], at);
    }
    assert chnp.Buf() == w.(held := Patched(w.held, at - w.start, d[..bufend - at]));
    if chnp.bufend > chnp.bufstart {
      FlushWData(chnp);
    }
    // The buffer was full, so that the write point is at the next block: there is no seek to do.
    chnp.bufstart := bufend;
  }

  lemma {:induction false} PatchNothing(b: seq<Byte>)
    ensures Patched(b, |b|, []) == b
  {
  }
}
