/** The sending half of a channel, and aligned buffered reading of the message (HTdaemon/bufferio.c). */
module ReadBuffer {
  import opened Channel
  import opened Parts

  // The value of a sum or difference of two unsigned numbers.
  function Wrap(x: int): nat
    requires -ULONG < x < 2 * ULONG
  {
    if x < 0 then x + ULONG else if x >= ULONG then x - ULONG else x
  }

  // ----- What is read

  // A message as the sender has it: its parts, their files and its size.
  datatype Letter = Letter(parts: seq<Part>, files: Files, size: nat)

  // The parts are those of a message that fits the address space.
  ghost predicate Whole(x: Letter)
  {
    AllInFiles(x.parts, x.files) && Tiled(x.parts, 0, x.size) && x.size + FILEBUFFERSIZE <= ULONG
  }

  ghost function Bytes(x: Letter): seq<Byte>
    requires Whole(x)
  {
    Contents(x.parts, x.files)
  }

  lemma {:induction false} BytesLength(x: Letter)
    requires Whole(x)
    ensures |Bytes(x)| == x.size
  {
    ContentsLength(x.parts, x.files, 0, x.size);
  }

  // The read buffer: the bytes of ch_databuffer in use, and the address ch_bufstart of the first,
  // which may have wrapped below zero.
  datatype Cache = Cache(start: nat, block: seq<Byte>)

  predicate Shaped(c: Cache)
  {
    c.start < ULONG && |c.block| <= FILEBUFFERSIZE
  }

  // ch_bufend.
  function End(c: Cache): nat
    requires Shaped(c)
  {
    Wrap(c.start + |c.block|)
  }

  predicate Hit(c: Cache, addr: nat)
    requires Shaped(c)
  {
    c.start <= addr < End(c)
  }

  const EMPTY := Cache(0, [])

  // The part that has the byte at `addr`, or the number of parts.
  function Holder(parts: seq<Part>, addr: nat): (k: nat)
    ensures k <= |parts| && (k < |parts| ==> addr < parts[k].msgend)
  {
    if parts == [] || addr < parts[0].msgend then 0 else 1 + Holder(parts[1..], addr)
  }

  // Where `addr` is in its part's file, and how far into the file's block.
  function FileAddr(p: Part, addr: nat): nat
    requires p.msgstart <= addr
  {
    p.filestart + (addr - p.msgstart)
  }

  function Offset(p: Part, addr: nat): nat
    requires p.msgstart <= addr
  {
    FileAddr(p, addr) % FILEBUFFERSIZE
  }

  // How much of the file's block is read: up to the end of the part.
  function BlockSize(p: Part, addr: nat): nat
    requires p.msgstart <= addr < p.msgend
  {
    var n := p.msgend - addr + Offset(p, addr);
    if n > FILEBUFFERSIZE then FILEBUFFERSIZE else n
  }

  // The buffer filled from the file block of `addr`.
  function BlockOf(p: Part, files: Files, addr: nat): (c: Cache)
    requires p.msgstart <= addr < p.msgend < ULONG && InFile(p, files)
    ensures Shaped(c)
  {
    var at := FileAddr(p, addr) - Offset(p, addr);
    Cache(Wrap(addr - Offset(p, addr)), files[p.filename][at..at + BlockSize(p, addr)])
  }

  function Least(x: nat, y: nat): nat
  {
    if x < y then x else y
  }

  // Up to `size` bytes at `addr`, from the buffer.
  function FromCache(c: Cache, addr: nat, size: nat): seq<Byte>
    requires Shaped(c) && addr < ULONG && Wrap(addr - c.start) <= |c.block|
  {
    var off := Wrap(addr - c.start);
    c.block[off..off + Least(size, |c.block| - off)]
  }

  // Up to `size` bytes at `addr`, from the file.
  function FromFile(p: Part, files: Files, addr: nat, size: nat): seq<Byte>
    requires p.msgstart <= addr < p.msgend && InFile(p, files)
  {
    files[p.filename][FileAddr(p, addr)..FileAddr(p, addr) + Least(size, p.msgend - addr)]
  }

  datatype Taken = Taken(data: seq<Byte>, cache: Cache)

  // What ReadData reads, and the buffer after it: whatever the buffer holds at the address; else
  // straight from the file, when much is wanted or CH_IGNBUF says so; else through the buffer.
  function ReadDataOf(x: Letter, c: Cache, addr: nat, size: nat, ign: bool): Taken
    requires Whole(x) && addr <= x.size && Shaped(c)
  {
    if Hit(c, addr) then Taken(FromCache(c, addr, size), c)
    else
      var k := Holder(x.parts, addr);
      if k == |x.parts| then Taken([], c)
      else
        HolderHolds(x.parts, 0, x.size, addr);
        var p := x.parts[k];
        if size > FILEBUFFERSIZE / 2 || ign then Taken(FromFile(p, x.files, addr, size), c)
        else
          var b := BlockOf(p, x.files, addr);
          BlockShape(p, addr);
          Taken(FromCache(b, addr, size), b)
  }

  lemma {:induction false} HolderHolds(parts: seq<Part>, from: nat, to: nat, addr: nat)
    requires Tiled(parts, from, to) && from <= addr
    ensures var k := Holder(parts, addr);
            if k < |parts| then parts[k].msgstart <= addr < parts[k].msgend <= to && !Blank(parts[k]) else to <= addr
    decreases |parts|
  {
    if parts == [] {
    } else if addr < parts[0].msgend {
      EndsWithin(parts, from, to, 0);
    } else {
      HolderHolds(parts[1..], After(parts[0], from), to, addr);
    }
  }

  // A block read for `addr`: its bounds, and how far `addr` is from them.
  lemma {:induction false} BlockShape(p: Part, addr: nat)
    requires p.msgstart <= addr < p.msgend && p.msgend + FILEBUFFERSIZE <= ULONG
    ensures var off, n := Offset(p, addr), BlockSize(p, addr); var start := Wrap(addr - off);
            && off < n <= FILEBUFFERSIZE && addr + (n - off) <= p.msgend && start < ULONG
            && Wrap(addr - start) == off && Wrap(start + n) == addr + (n - off)
            && (if off <= addr then start == addr - off else Wrap(start + n) < start)
  {
    hide Offset;
    OffsetSmall(p, addr);
  }

  lemma {:induction false} OffsetSmall(p: Part, addr: nat)
    requires p.msgstart <= addr
    ensures Offset(p, addr) < FILEBUFFERSIZE && Offset(p, addr) <= FileAddr(p, addr)
  {
  }

  // A filled buffer: what it holds, and where it ends.
  lemma {:induction false} BlockEnds(p: Part, files: Files, addr: nat)
    requires p.msgstart <= addr < p.msgend && p.msgend + FILEBUFFERSIZE <= ULONG && InFile(p, files)
    ensures var b := BlockOf(p, files, addr); var off := Offset(p, addr);
            && |b.block| == BlockSize(p, addr) && b.start == Wrap(addr - off) && Wrap(addr - b.start) == off < |b.block|
            && addr < End(b) == addr + (|b.block| - off) <= p.msgend
            && (if off <= addr then b.start == addr - off else End(b) < b.start)
  {
    hide Offset;
    BlockShape(p, addr);
    OffsetSmall(p, addr);
  }

  // ----- When what is read is the message

  // What the buffer holds at `low` and above is the message there.
  ghost predicate TrueFrom(c: Cache, low: nat, m: seq<Byte>)
    requires Shaped(c)
  {
    && End(c) <= |m|
    && forall a :: low <= a && c.start <= a < End(c) ==> c.block[a - c.start] == m[a]
  }

  // The part's block is read for addresses below the part too: its data begin inside a block, and
  // the message has bytes enough in front of them.
  predicate Claims(p: Part)
  {
    p.msgstart < p.msgend && 0 < p.filestart % FILEBUFFERSIZE <= p.msgstart
  }

  // The bytes in front of the part's data, from the start of their block.
  function Front(p: Part): nat
    requires Claims(p)
  {
    p.msgstart - p.filestart % FILEBUFFERSIZE
  }

  // The byte of the part's file at the distance of message address `a` in front of its data.
  function Neighbour(p: Part, files: Files, a: nat): Byte
    requires Claims(p) && InFile(p, files) && Front(p) <= a < p.msgstart
  {
    files[p.filename][p.filestart - (p.msgstart - a)]
  }

  // Wherever a part's block is read for addresses below the part, it has the message's bytes there.
  ghost predicate Safe(x: Letter)
    requires Whole(x)
  {
    forall i, a ::
      (0 <= i < |x.parts| && Claims(x.parts[i]) && Front(x.parts[i]) <= a < x.parts[i].msgstart < |Bytes(x)|) ==>
        Neighbour(x.parts[i], x.files, a) == Bytes(x)[a]
  }

  // Any message is safe whose parts each begin on a block of their file, or further into the block
  // than they begin in the message; so is a message of one part, wherever in its file it begins.
  lemma {:induction false} UnclaimedSafe(x: Letter)
    requires Whole(x) && forall i :: 0 <= i < |x.parts| ==> !Claims(x.parts[i])
    ensures Safe(x)
  {
  }

  lemma {:induction false} OnePartSafe(p: Part, files: Files, size: nat)
    requires Whole(Letter([p], files, size))
    ensures Safe(Letter([p], files, size))
  {
  }

  // ----- A read is of the message if the buffer is

  lemma {:induction false} HitInside(c: Cache, addr: nat)
    requires Shaped(c) && Hit(c, addr)
    ensures addr < ULONG && Wrap(addr - c.start) == addr - c.start < |c.block| == End(c) - c.start
  {
  }

  lemma {:induction false} PartNamed(x: Letter, k: nat)
    requires Whole(x) && k < |x.parts| && x.parts[k].msgstart < x.parts[k].msgend
    ensures x.parts[k].filename in x.files && InFile(x.parts[k], x.files)
  {
  }

  lemma {:induction false} FileLength(p: Part, files: Files, addr: nat, size: nat)
    requires p.msgstart <= addr < p.msgend && InFile(p, files)
    ensures |FromFile(p, files, addr, size)| == Least(size, p.msgend - addr)
  {
  }

  // What any read has in common, right or wrong.
  lemma {:induction false} ReadShape(x: Letter, c: Cache, addr: nat, size: nat, ign: bool)
    requires Whole(x) && addr <= x.size && Shaped(c) && End(c) <= x.size && size > 0
    ensures var t := ReadDataOf(x, c, addr, size, ign);
            && |t.data| <= size && addr + |t.data| <= x.size && (t.data == [] <==> addr == x.size)
            && Shaped(t.cache) && End(t.cache) <= x.size && (ign || addr == x.size ==> t.cache == c)
  {
    hide Offset, Contents, Tiled, BlockOf, BlockSize;
    HolderHolds(x.parts, 0, x.size, addr);
    var k := Holder(x.parts, addr);
    if Hit(c, addr) {
      HitInside(c, addr);
    } else if k < |x.parts| {
      PartNamed(x, k);
      BlockEnds(x.parts[k], x.files, addr);
      FileLength(x.parts[k], x.files, addr, size);
    }
  }

  // A byte of a part's block is the message's, from the part's data on; and in front of them, in a
  // safe message.
  lemma {:induction false} BlockByte(x: Letter, k: nat, addr: nat, a: nat)
    requires Whole(x) && k < |x.parts| && x.parts[k].msgstart <= addr < x.parts[k].msgend <= x.size
    requires var b := BlockOf(x.parts[k], x.files, addr); b.start <= a < End(b)
    requires x.parts[k].msgstart <= a || Safe(x)
    ensures var b := BlockOf(x.parts[k], x.files, addr);
            a < |Bytes(x)| && b.block[a - b.start] == Bytes(x)[a]
  {
    hide Contents, Tiled;
    var p := x.parts[k];
    BytesLength(x);
    PartNamed(x, k);
    BlockEnds(p, x.files, addr);
    if p.msgstart <= a {
      PartByte(x.parts, x.files, 0, x.size, k, a);
    } else {
      FrontOf(p, addr);
      assert Neighbour(p, x.files, a) == Bytes(x)[a];
    }
  }

  // A block that begins below its part's data begins at the front.
  lemma {:induction false} FrontOf(p: Part, addr: nat)
    requires p.msgstart <= addr < p.msgend && Offset(p, addr) <= addr && addr - Offset(p, addr) < p.msgstart
    ensures Claims(p) && Front(p) == addr - Offset(p, addr)
  {
    Remainder(p.filestart, addr - p.msgstart);
  }

  // How far into its block a file is after `d` more bytes.
  lemma {:induction false} Remainder(start: nat, d: nat)
    ensures (start + d) % FILEBUFFERSIZE > d ==> (start + d) % FILEBUFFERSIZE == start % FILEBUFFERSIZE + d
  {
  }

  lemma {:induction false} BlockTrue(x: Letter, k: nat, addr: nat, low: nat)
    requires Whole(x) && k < |x.parts| && x.parts[k].msgstart <= addr < x.parts[k].msgend <= x.size
    requires low == addr || Safe(x)
    ensures TrueFrom(BlockOf(x.parts[k], x.files, addr), low, Bytes(x))
  {
    hide BlockOf, Offset, Bytes, Safe;
    BytesLength(x);
    PartNamed(x, k);
    var b := BlockOf(x.parts[k], x.files, addr);
    BlockEnds(x.parts[k], x.files, addr);
    forall a | low <= a && b.start <= a < End(b)
      ensures b.block[a - b.start] == Bytes(x)[a]
    {
      BlockByte(x, k, addr, a);
    }
  }

  // Reading from a block gives the message's bytes, also when the block wraps below zero.
  lemma {:induction false} BlockData(x: Letter, k: nat, addr: nat, size: nat)
    requires Whole(x) && k < |x.parts| && x.parts[k].msgstart <= addr < x.parts[k].msgend <= x.size && size > 0
    ensures var b := BlockOf(x.parts[k], x.files, addr);
            && Wrap(addr - b.start) < |b.block|
            && var d := FromCache(b, addr, size);
               addr + |d| <= x.size == |Bytes(x)| && d == Bytes(x)[addr..addr + |d|]
  {
    hide Offset, Contents, Tiled, BlockSize;
    var p := x.parts[k];
    PartNamed(x, k);
    BlockEnds(p, x.files, addr);
    var b := BlockOf(p, x.files, addr);
    var d := FromCache(b, addr, size);
    PartSlice(x.parts, x.files, x.size, k, addr, |d|);
    var at := FileAddr(p, addr);
    OffsetSmall(p, addr);
    SliceIn(x.files[p.filename], at - Offset(p, addr), |b.block|, Offset(p, addr), |d|);
  }

  lemma {:induction false} SliceIn(f: seq<Byte>, at: nat, n: nat, off: nat, len: nat)
    requires at + n <= |f| && off + len <= n
    ensures f[at..at + n][off..off + len] == f[at + off..at + off + len]
  {
    var l, r := f[at..at + n][off..off + len], f[at + off..at + off + len];
    assert |l| == |r| && forall i :: 0 <= i < len ==> l[i] == r[i];
  }

  lemma {:induction false} HitData(c: Cache, addr: nat, size: nat, low: nat, m: seq<Byte>)
    requires Shaped(c) && Hit(c, addr) && TrueFrom(c, low, m) && low <= addr && size > 0
    ensures Wrap(addr - c.start) < |c.block|
    ensures var d := FromCache(c, addr, size); addr + |d| <= |m| && d == m[addr..addr + |d|]
  {
    var d := FromCache(c, addr, size);
    forall i | 0 <= i < |d|
      ensures addr + i < |m| && d[i] == m[addr + i]
    {
      assert c.block[addr + i - c.start] == m[addr + i];
    }
  }

  // What a read that misses does.
  lemma {:induction false} MissRead(x: Letter, c: Cache, addr: nat, size: nat, ign: bool)
    requires Whole(x) && addr <= x.size && Shaped(c) && !Hit(c, addr)
    ensures var k := Holder(x.parts, addr); var t := ReadDataOf(x, c, addr, size, ign);
            if k == |x.parts| then x.size <= addr && t == Taken([], c)
            else
              && x.parts[k].msgstart <= addr < x.parts[k].msgend <= x.size && InFile(x.parts[k], x.files)
              && if size > FILEBUFFERSIZE / 2 || ign then t == Taken(FromFile(x.parts[k], x.files, addr, size), c)
                 else
                   var b := BlockOf(x.parts[k], x.files, addr);
                   Wrap(addr - b.start) <= |b.block| && t == Taken(FromCache(b, addr, size), b)
  {
    hide FromCache, FromFile, BlockOf, BlockSize, Offset, Contents;
    HolderHolds(x.parts, 0, x.size, addr);
    var k := Holder(x.parts, addr);
    if k < |x.parts| {
      PartNamed(x, k);
      BlockEnds(x.parts[k], x.files, addr);
    }
  }

  // A buffer true from `low` answers reads at `low` and above with the message, and stays true from
  // where was read; in a safe message it stays true altogether.
  lemma {:induction false} ReadRight(x: Letter, c: Cache, low: nat, addr: nat, size: nat, ign: bool)
    requires Whole(x) && low <= addr <= x.size && Shaped(c) && TrueFrom(c, low, Bytes(x)) && size > 0
    ensures |Bytes(x)| == x.size
    ensures var t := ReadDataOf(x, c, addr, size, ign);
            && Shaped(t.cache) && addr + |t.data| <= x.size && t.data == Bytes(x)[addr..addr + |t.data|]
            && TrueFrom(t.cache, addr, Bytes(x)) && (low == 0 && Safe(x) ==> TrueFrom(t.cache, 0, Bytes(x)))
  {
    hide ReadDataOf, Offset, BlockOf, Bytes, TrueFrom, FromCache, FromFile, Safe, Whole;
    BytesLength(x);
    Higher(c, low, addr, Bytes(x));
    if Hit(c, addr) {
      HitRead(x, c, addr, size, ign);
      HitData(c, addr, size, low, Bytes(x));
    } else {
      MissRead(x, c, addr, size, ign);
      var k := Holder(x.parts, addr);
      if k < |x.parts| {
        FileData(x, k, addr, size);
        BlockTrue(x, k, addr, addr);
        if Safe(x) {
          BlockTrue(x, k, addr, 0);
        }
        BlockData(x, k, addr, size);
      }
    }
  }

  lemma {:induction false} FileData(x: Letter, k: nat, addr: nat, size: nat)
    requires Whole(x) && k < |x.parts| && x.parts[k].msgstart <= addr < x.parts[k].msgend <= x.size && size > 0
    ensures var d := FromFile(x.parts[k], x.files, addr, size);
            addr + |d| <= x.size == |Bytes(x)| && d == Bytes(x)[addr..addr + |d|]
  {
    hide Contents, Tiled;
    var p := x.parts[k];
    PartSlice(x.parts, x.files, x.size, k, addr, Least(size, p.msgend - addr));
  }

  lemma {:induction false} Higher(c: Cache, low: nat, high: nat, m: seq<Byte>)
    requires Shaped(c) && TrueFrom(c, low, m) && low <= high
    ensures TrueFrom(c, high, m)
  {
  }

  // ----- Exactly when every read is of the message

  datatype Request = Request(addr: nat, size: nat, ign: bool)

  predicate Asks(x: Letter, r: Request)
  {
    r.addr <= x.size && r.size > 0
  }

  predicate AllAsk(x: Letter, reqs: seq<Request>)
  {
    forall i :: 0 <= i < |reqs| ==> Asks(x, reqs[i])
  }

  // The buffer after a run of reads that begins with nothing in it.
  ghost function Ran(x: Letter, reqs: seq<Request>): (c: Cache)
    requires Whole(x) && AllAsk(x, reqs)
    ensures Shaped(c) && End(c) <= x.size
  {
    if reqs == [] then EMPTY
    else
      var n := |reqs| - 1;
      var c := Ran(x, reqs[..n]);
      ReadShape(x, c, reqs[n].addr, reqs[n].size, reqs[n].ign);
      ReadDataOf(x, c, reqs[n].addr, reqs[n].size, reqs[n].ign).cache
  }

  // After the reads `reqs`, a read is answered with the message's bytes.
  ghost predicate Answered(x: Letter, reqs: seq<Request>, r: Request)
    requires Whole(x) && AllAsk(x, reqs) && Asks(x, r)
  {
    var d := ReadDataOf(x, Ran(x, reqs), r.addr, r.size, r.ign).data;
    r.addr + |d| <= |Bytes(x)| && d == Bytes(x)[r.addr..r.addr + |d|]
  }

  lemma {:induction false} RanTrue(x: Letter, reqs: seq<Request>)
    requires Whole(x) && AllAsk(x, reqs) && Safe(x)
    ensures TrueFrom(Ran(x, reqs), 0, Bytes(x))
    decreases |reqs|
  {
    BytesLength(x);
    if reqs != [] {
      hide ReadDataOf, TrueFrom, Bytes, Safe;
      var n := |reqs| - 1;
      RanTrue(x, reqs[..n]);
      ReadRight(x, Ran(x, reqs[..n]), 0, reqs[n].addr, reqs[n].size, reqs[n].ign);
    }
  }

  // One small read at the start of a part that claims addresses below it: they are hits from then on.
  lemma {:induction false} ClaimsFront(x: Letter, k: nat, size: nat)
    requires Whole(x) && k < |x.parts| && Claims(x.parts[k]) && 0 < size <= FILEBUFFERSIZE / 2
    ensures x.parts[k].msgend <= x.size && Holder(x.parts, x.parts[k].msgstart) == k
    ensures ReadDataOf(x, EMPTY, x.parts[k].msgstart, size, false).cache
            == BlockOf(x.parts[k], x.files, x.parts[k].msgstart)
    ensures BlockOf(x.parts[k], x.files, x.parts[k].msgstart).start == Front(x.parts[k])
  {
    EndsWithin(x.parts, 0, x.size, k);
    HolderHolds(x.parts, 0, x.size, x.parts[k].msgstart);
    OneHolder(x.parts, 0, x.size, k, x.parts[k].msgstart);
  }

  lemma {:induction false} OneHolder(parts: seq<Part>, from: nat, to: nat, k: nat, addr: nat)
    requires Tiled(parts, from, to) && k < |parts| && parts[k].msgstart <= addr < parts[k].msgend
    ensures Holder(parts, addr) == k
    decreases |parts|
  {
    if k > 0 {
      PartAfter(parts, from, to, k, addr);
      OneHolder(parts[1..], After(parts[0], from), to, k - 1, addr);
    }
  }

  // From then on a byte below the part is answered with its neighbour in the part's file, CH_IGNBUF
  // or not.
  lemma {:induction false} FrontAnswers(x: Letter, k: nat, size: nat, a: nat, ign: bool)
    requires Whole(x) && k < |x.parts| && Claims(x.parts[k]) && 0 < size <= FILEBUFFERSIZE / 2
    requires Front(x.parts[k]) <= a < x.parts[k].msgstart
    ensures x.parts[k].msgend <= x.size
    ensures var c := ReadDataOf(x, EMPTY, x.parts[k].msgstart, size, false).cache;
            Shaped(c) && ReadDataOf(x, c, a, 1, ign) == Taken([Neighbour(x.parts[k], x.files, a)], c)
  {
    hide ReadDataOf, Offset, Contents, Tiled;
    ClaimsFront(x, k, size);
    var p := x.parts[k];
    BlockEnds(p, x.files, p.msgstart);
    var c := BlockOf(p, x.files, p.msgstart);
    assert Hit(c, a);
    HitRead(x, c, a, 1, ign);
    FrontByte(p, x.files, a);
  }

  lemma {:induction false} HitRead(x: Letter, c: Cache, addr: nat, size: nat, ign: bool)
    requires Whole(x) && addr <= x.size && Shaped(c) && Hit(c, addr)
    ensures Wrap(addr - c.start) <= |c.block|
    ensures ReadDataOf(x, c, addr, size, ign) == Taken(FromCache(c, addr, size), c)
  {
  }

  lemma {:induction false} FrontByte(p: Part, files: Files, a: nat)
    requires Claims(p) && InFile(p, files) && Front(p) <= a < p.msgstart && p.msgend + FILEBUFFERSIZE <= ULONG
    ensures var c := BlockOf(p, files, p.msgstart);
            && Wrap(a - c.start) <= |c.block| && FromCache(c, a, 1) == [Neighbour(p, files, a)]
  {
    BlockEnds(p, files, p.msgstart);
    assert Offset(p, p.msgstart) == p.filestart % FILEBUFFERSIZE;
  }

  // Every read, at any address and after any reads, is answered with the message, if and only if
  // the message is safe.
  lemma {:induction false} ReadsRightIff(x: Letter)
    requires Whole(x)
    ensures (forall reqs, r :: AllAsk(x, reqs) && Asks(x, r) ==> Answered(x, reqs, r)) <==> Safe(x)
  {
    hide ReadDataOf, TrueFrom, Neighbour;
    BytesLength(x);
    if Safe(x) {
      forall reqs, r | AllAsk(x, reqs) && Asks(x, r)
        ensures Answered(x, reqs, r)
      {
        RanTrue(x, reqs);
        ReadRight(x, Ran(x, reqs), 0, r.addr, r.size, r.ign);
      }
    } else {
      var k, a := UnsafeAt(x);
      FrontAnswers(x, k, 1, a, false);
      var first := Request(x.parts[k].msgstart, 1, false);
      OneRead(x, first);
      assert !Answered(x, [first], Request(a, 1, false));
    }
  }

  lemma {:induction false} OneRead(x: Letter, r: Request)
    requires Whole(x) && Asks(x, r)
    ensures AllAsk(x, [r]) && Ran(x, [r]) == ReadDataOf(x, EMPTY, r.addr, r.size, r.ign).cache
  {
    assert [r][..0] == [];
  }

  lemma {:induction false} UnsafeAt(x: Letter) returns (k: nat, a: nat)
    requires Whole(x) && !Safe(x)
    ensures k < |x.parts| && Claims(x.parts[k]) && Front(x.parts[k]) <= a < x.parts[k].msgstart < |Bytes(x)|
    ensures Neighbour(x.parts[k], x.files, a) != Bytes(x)[a]
  {
    k, a :| 0 <= k < |x.parts| && Claims(x.parts[k]) && Front(x.parts[k]) <= a < x.parts[k].msgstart < |Bytes(x)|
            && Neighbour(x.parts[k], x.files, a) != Bytes(x)[a];
  }

  // Reading forward is right in any message: a read above all before it.
  lemma {:induction false} ForwardRight(x: Letter, reqs: seq<Request>, r: Request)
    requires Whole(x) && AllAsk(x, reqs) && Asks(x, r)
    requires forall i, j :: 0 <= i < j < |reqs| ==> reqs[i].addr <= reqs[j].addr
    requires forall i :: 0 <= i < |reqs| ==> reqs[i].addr <= r.addr
    ensures Answered(x, reqs, r)
  {
    var low := RanForward(x, reqs, r.addr);
    ReadRight(x, Ran(x, reqs), low, r.addr, r.size, r.ign);
  }

  lemma {:induction false} RanForward(x: Letter, reqs: seq<Request>, addr: nat) returns (low: nat)
    requires Whole(x) && AllAsk(x, reqs)
    requires forall i, j :: 0 <= i < j < |reqs| ==> reqs[i].addr <= reqs[j].addr
    requires forall i :: 0 <= i < |reqs| ==> reqs[i].addr <= addr
    ensures low <= addr && TrueFrom(Ran(x, reqs), low, Bytes(x))
    decreases |reqs|
  {
    BytesLength(x);
    low := 0;
    if reqs != [] {
      hide ReadDataOf, TrueFrom, Bytes;
      var n := |reqs| - 1;
      var was := RanForward(x, reqs[..n], reqs[n].addr);
      ReadRight(x, Ran(x, reqs[..n]), was, reqs[n].addr, reqs[n].size, reqs[n].ign);
      low := reqs[n].addr;
    }
  }

  // A message that is not safe: 1 2 3 4 in one file, and 5 6 behind 9 9 in another.
  function UnsafeLetter(): Letter
  {
    Letter([Part("a", 0, 0, 4, false), Part("b", 2, 4, 6, false)], map["a" := [1, 2, 3, 4], "b" := [9, 9, 5, 6]], 6)
  }

  lemma {:induction false} UnsafeExample()
    ensures var x := UnsafeLetter();
            && Whole(x) && Bytes(x) == [1, 2, 3, 4, 5, 6] && !Safe(x)
            && Claims(x.parts[1]) && Front(x.parts[1]) == 2 && Neighbour(x.parts[1], x.files, 3) == 9
  {
    var x := UnsafeLetter();
    assert x.parts[1..] == [x.parts[1]] && x.parts[1..][1..] == [];
    assert Slice(x.parts[0], x.files) == [1, 2, 3, 4];
    assert Slice(x.parts[1], x.files) == [5, 6];
    assert Contents(x.parts[1..], x.files) == [5, 6];
    assert Neighbour(x.parts[1], x.files, 3) != Bytes(x)[3];
  }

  // ----- The channel

  // A snapshot of a sending channel, without its read buffer.
  datatype SendSnap = SendSnap(
    state: ChState,
    eof: bool,
    ignbuf: bool,
    count: int,
    cntrltime: int,
    msgid: MsgId,
    msgsize: nat,
    msgaddr: nat,
    outDataSize: nat,
    out: seq<Packet>)    // packets written to the circuit

  // `eof`, `ignbuf` and `msgfile` are the flags CH_EOF, CH_IGNBUF and CH_MSGFILE.
  class WChan {
    var state: ChState
    var eof: bool
    var ignbuf: bool
    var msgfile: bool
    var count: int
    var cntrltime: int
    var msgid: MsgId
    var msgsize: nat
    var msgaddr: nat

    var partlist: seq<Part>
    var current: nat           // index of ch_current in partlist
    var fileaddr: nat          // fileaddr_part of the current part
    var filepos: nat           // where the open file stands
    var files: Files

    const databuffer: array<Byte>
    var bufstart: nat          // unsigned: the start may wrap below zero
    var bufend: nat

    var outDataSize: nat       // OutDataSize, of the writer process
    var out: seq<Packet>       // packets written to the circuit

    // A channel with no message.
    constructor (size: nat)
      ensures Valid() && Sound() && fresh(databuffer) && out == []
      ensures Now() == SendSnap(Idle, false, false, 0, 0, "", 0, 0, size, [])
    {
      state, eof, ignbuf, msgfile, count, cntrltime := Idle, false, false, false, 0, 0;
      msgid, msgsize, msgaddr := "", 0, 0;
      partlist, current, fileaddr, filepos, files := [], 0, 0, 0, map[];
      databuffer := new Byte[FILEBUFFERSIZE];
      bufstart, bufend, outDataSize, out := 0, 0, size, [];
    }

    function Now(): SendSnap
      reads `state, `eof, `ignbuf, `count, `cntrltime, `msgid, `msgsize, `msgaddr, `outDataSize, `out
    {
      SendSnap(state, eof, ignbuf, count, cntrltime, msgid, msgsize, msgaddr, outDataSize, out)
    }

    ghost function Mail(): Letter
      reads `partlist, `files, `msgsize
    {
      Letter(partlist, files, msgsize)
    }

    ghost function Message(): seq<Byte>
      requires Whole(Mail())
      reads `partlist, `files, `msgsize
    {
      Bytes(Mail())
    }

    // The message is described, and its current part is one with data.
    ghost predicate Described()
      reads `partlist, `files, `msgsize, `current
    {
      Whole(Mail()) && (current == 0 || (current < |partlist| && !Blank(partlist[current])))
    }

    // The file is open where the reader thinks it is.
    ghost predicate Positioned()
      reads `msgfile, `partlist, `current, `fileaddr, `filepos, `files
    {
      msgfile ==> current < |partlist| && partlist[current].filename in files && fileaddr == filepos
    }

    ghost predicate Buffered()
      reads `bufstart, `bufend, `msgsize
    {
      && databuffer.Length == FILEBUFFERSIZE && bufstart < ULONG && bufend < ULONG && bufend <= msgsize
      && Wrap(bufend - bufstart) <= FILEBUFFERSIZE
    }

    ghost function Held(): (c: Cache)
      requires Buffered()
      reads `bufstart, `bufend, `msgsize, databuffer
      ensures Shaped(c) && End(c) == bufend <= msgsize
    {
      Cache(bufstart, databuffer[..Wrap(bufend - bufstart)])
    }

    ghost predicate Valid()
      reads `partlist, `files, `msgsize, `msgaddr, `current, `msgfile, `fileaddr, `filepos, `bufstart, `bufend
    {
      Described() && Positioned() && Buffered() && msgaddr <= msgsize
    }

    // What the buffer has is the message: all of it in a safe message, and elsewhere what is still
    // to be read.
    ghost predicate Sound()
      requires Valid()
      reads `partlist, `files, `msgsize, `msgaddr, `current, `msgfile, `fileaddr, `filepos, `bufstart, `bufend,
          databuffer
    {
      TrueFrom(Held(), if Safe(Mail()) then 0 else msgaddr, Message())
    }
  }

  // Find the part that holds the current address; `readsize` is what it has from there.
  method Locate(chnp: WChan) returns (k: nat, readsize: nat)
    requires chnp.Described() && chnp.msgaddr <= chnp.msgsize
    ensures k == Holder(chnp.partlist, chnp.msgaddr)
    ensures if k == |chnp.partlist| then readsize == 0
            else readsize == chnp.partlist[k].msgend - chnp.msgaddr > 0
  {
    ghost var parts, addr := chnp.partlist, chnp.msgaddr;
    k := chnp.current;
    if k >= |chnp.partlist| || chnp.msgaddr < chnp.partlist[k].msgstart {
      k := 0;
    }
    readsize := 0;
    forall i | 0 <= i < k
      ensures parts[i].msgend <= addr
    {
      if !Blank(parts[i]) {
        EndsBefore(parts, 0, chnp.msgsize, i, k);
      }
    }
    while k < |chnp.partlist|
      invariant k <= |parts|
      invariant forall i :: 0 <= i < k ==> parts[i].msgend <= addr
    {
      if chnp.msgaddr >= chnp.partlist[k].msgend {
        k := k + 1;
        continue;
      }
      readsize := chnp.partlist[k].msgend - chnp.msgaddr;
      FirstHolder(parts, addr, k);
      return;
    }
    FirstHolder(parts, addr, k);
  }

  lemma {:induction false} FirstHolder(parts: seq<Part>, addr: nat, k: nat)
    requires k <= |parts| && (forall i :: 0 <= i < k ==> parts[i].msgend <= addr)
    requires k < |parts| ==> addr < parts[k].msgend
    ensures Holder(parts, addr) == k
  {
    if k > 0 {
      FirstHolder(parts[1..], addr, k - 1);
    }
  }

  method OpenPart(chnp: WChan, k: nat)
    requires chnp.Described() && chnp.Positioned()
    requires k < |chnp.partlist| && !Blank(chnp.partlist[k]) && chnp.partlist[k].filename in chnp.files
    modifies chnp`current, chnp`msgfile, chnp`fileaddr, chnp`filepos
    ensures chnp.Described() && chnp.Positioned()
    ensures chnp.current == k && chnp.msgfile
  {
    if chnp.current != k || !chnp.msgfile {
      chnp.msgfile := false;
      chnp.current := k;
      chnp.fileaddr := 0;
      chnp.filepos := 0;
      chnp.msgfile := true;
    }
  }

  // Read `n` bytes of the open file at `addr`, seeking when it stands elsewhere.
  method ReadAt(chnp: WChan, addr: nat, n: nat) returns (data: seq<Byte>)
    requires chnp.Positioned() && chnp.msgfile
    requires addr + n <= |chnp.files[chnp.partlist[chnp.current].filename]|
    modifies chnp`fileaddr, chnp`filepos
    ensures chnp.Positioned()
    ensures data == chnp.files[chnp.partlist[chnp.current].filename][addr..addr + n]
  {
    if addr != chnp.fileaddr {
      chnp.filepos := addr;
    }
    data := chnp.files[chnp.partlist[chnp.current].filename][chnp.filepos..chnp.filepos + n];
    chnp.filepos := chnp.filepos + n;
    chnp.fileaddr := addr + n;
  }

  // The part that is open is the one with the current address.
  ghost predicate AtPart(chnp: WChan)
    reads chnp`partlist, chnp`files, chnp`msgsize, chnp`msgaddr, chnp`current, chnp`msgfile, chnp`fileaddr, chnp`filepos
  {
    && chnp.Described() && chnp.Positioned() && chnp.msgfile
    && var p := chnp.partlist[chnp.current];
       p.msgstart <= chnp.msgaddr < p.msgend <= chnp.msgsize && InFile(p, chnp.files)
  }

  // Read `n` bytes of the open file at `addr` into the buffer.
  method LoadBlock(chnp: WChan, addr: nat, n: nat)
    requires chnp.Positioned() && chnp.msgfile && n <= chnp.databuffer.Length
    requires addr + n <= |chnp.files[chnp.partlist[chnp.current].filename]|
    modifies chnp`fileaddr, chnp`filepos, chnp.databuffer
    ensures chnp.Positioned()
    ensures chnp.databuffer[..n] == chnp.files[chnp.partlist[chnp.current].filename][addr..addr + n]
  {
    var data := ReadAt(chnp, addr, n);
    forall i | 0 <= i < n {
      chnp.databuffer[i] := data[i];
    }
    assert chnp.databuffer[..n] == data;
  }

  // Fill the buffer from the file block that holds the current address of the open part.
  method FillBuffer(chnp: WChan)
    requires AtPart(chnp) && chnp.Buffered()
    modifies chnp`fileaddr, chnp`filepos, chnp`bufstart, chnp`bufend, chnp.databuffer
    ensures AtPart(chnp) && chnp.Buffered()
    ensures chnp.Held() == BlockOf(chnp.partlist[chnp.current], chnp.files, chnp.msgaddr)
  {
    hide Whole, Wrap, Offset, BlockOf, BlockSize, InFile;
    var pp := chnp.partlist[chnp.current];
    BlockIs(chnp.Mail(), pp, chnp.msgaddr);
    var offset, readsize := Offset(pp, chnp.msgaddr), BlockSize(pp, chnp.msgaddr);
    LoadBlock(chnp, FileAddr(pp, chnp.msgaddr) - offset, readsize);
    chnp.bufstart := Wrap(chnp.msgaddr - offset);
    chnp.bufend := Wrap(chnp.bufstart + readsize);
    EndBack(chnp.bufstart, readsize);
  }

  lemma {:induction false} BlockIs(x: Letter, p: Part, addr: nat)
    requires Whole(x) && p.msgstart <= addr < p.msgend <= x.size && InFile(p, x.files)
    ensures var off, n := Offset(p, addr), BlockSize(p, addr); var at := FileAddr(p, addr) - off;
            var start := Wrap(addr - off);
            && 0 <= at && addr < ULONG && off < n <= FILEBUFFERSIZE
            && p.filename in x.files && at + n <= |x.files[p.filename]|
            && start < ULONG && Wrap(start + n) <= x.size
            && BlockOf(p, x.files, addr) == Cache(start, x.files[p.filename][at..at + n])
  {
    hide Offset, BlockSize;
    BlockShape(p, addr);
    OffsetSmall(p, addr);
  }

  lemma {:induction false} EndBack(start: nat, n: nat)
    requires start < ULONG && n < ULONG
    ensures Wrap(start + n) < ULONG && Wrap(Wrap(start + n) - start) == n
  {
  }

  // Copy from the buffer.
  method TakeBuffered(chnp: WChan, size: nat) returns (data: seq<Byte>)
    requires chnp.Buffered() && chnp.msgaddr < ULONG && Wrap(chnp.msgaddr - chnp.Held().start) < |chnp.Held().block|
    ensures data == FromCache(chnp.Held(), chnp.msgaddr, size)
  {
    LeftInBuffer(chnp.Held(), chnp.bufend, chnp.msgaddr);
    hide Wrap;
    var n, left := size, Wrap(chnp.bufend - chnp.msgaddr);
    if n > left {
      n := left;
    }
    var off := Wrap(chnp.msgaddr - chnp.bufstart);
    data := chnp.databuffer[off..off + n];
    SliceIn(chnp.databuffer[..], 0, |chnp.Held().block|, off, n);
  }

  lemma {:induction false} LeftInBuffer(c: Cache, end: nat, addr: nat)
    requires Shaped(c) && end == End(c) && addr < ULONG && Wrap(addr - c.start) < |c.block|
    ensures Wrap(end - addr) == |c.block| - Wrap(addr - c.start)
  {
  }

  // Read straight from the file.
  method ReadDirect(chnp: WChan, size: nat) returns (data: seq<Byte>)
    requires AtPart(chnp)
    modifies chnp`fileaddr, chnp`filepos
    ensures AtPart(chnp)
    ensures data == FromFile(chnp.partlist[chnp.current], chnp.files, chnp.msgaddr, size)
  {
    hide Contents, Tiled;
    var pp := chnp.partlist[chnp.current];
    var n := if size > pp.msgend - chnp.msgaddr then pp.msgend - chnp.msgaddr else size;
    data := ReadAt(chnp, pp.filestart + (chnp.msgaddr - pp.msgstart), n);
  }

  // A miss, when the message has a byte at the address.
  method Miss(chnp: WChan, size: nat, k: nat) returns (data: seq<Byte>)
    requires chnp.Valid() && k == Holder(chnp.partlist, chnp.msgaddr) < |chnp.partlist|
             && !Hit(chnp.Held(), chnp.msgaddr)
    modifies chnp`current, chnp`msgfile, chnp`fileaddr, chnp`filepos, chnp`bufstart, chnp`bufend, chnp.databuffer
    ensures chnp.Valid()
    ensures Taken(data, chnp.Held()) == ReadDataOf(chnp.Mail(), old(chnp.Held()), chnp.msgaddr, size, chnp.ignbuf)
  {
    hide Whole, Wrap, BlockOf, FromCache, FromFile, Hit, WChan.Positioned, WChan.Held;
    WholeTiled(chnp.Mail());
    HolderHolds(chnp.partlist, 0, chnp.msgsize, chnp.msgaddr);
    PartNamed(chnp.Mail(), k);
    OpenPart(chnp, k);
    if size > FILEBUFFERSIZE / 2 || chnp.ignbuf {
      data := ReadDirect(chnp, size);
    } else {
      BlockEnds(chnp.partlist[k], chnp.files, chnp.msgaddr);
      FillBuffer(chnp);
      data := TakeBuffered(chnp, size);
    }
  }

  lemma {:induction false} WholeTiled(x: Letter)
    requires Whole(x)
    ensures Tiled(x.parts, 0, x.size) && x.size + FILEBUFFERSIZE <= ULONG
  {
  }

  // The bytes at the current address, from the buffer when they are there.
  method Fetch(chnp: WChan, size: nat) returns (data: seq<Byte>)
    requires chnp.Valid()
    modifies chnp`current, chnp`msgfile, chnp`fileaddr, chnp`filepos, chnp`bufstart, chnp`bufend, chnp.databuffer
    ensures chnp.Valid()
    ensures Taken(data, chnp.Held()) == ReadDataOf(chnp.Mail(), old(chnp.Held()), chnp.msgaddr, size, chnp.ignbuf)
  {
    hide Contents, Tiled, FromCache, BlockOf, FromFile;
    if chnp.msgaddr < chnp.bufstart || chnp.msgaddr >= chnp.bufend {
      var k, readsize := Locate(chnp);
      if readsize == 0 {
        return [];
      }
      data := Miss(chnp, size, k);
    } else {
      HitRead(chnp.Mail(), chnp.Held(), chnp.msgaddr, size, chnp.ignbuf);
      HitInside(chnp.Held(), chnp.msgaddr);
      data := TakeBuffered(chnp, size);
    }
  }

  // ReadData reads at the current address, moves it on, and notes the end of the message; from a
  // sound buffer what it reads is the message's.
  method ReadData(chnp: WChan, size: nat) returns (data: seq<Byte>)
    requires chnp.Valid() && size > 0
    modifies chnp`current, chnp`msgfile, chnp`fileaddr, chnp`filepos, chnp`bufstart, chnp`bufend,
             chnp`msgaddr, chnp`eof, chnp.databuffer
    ensures chnp.Valid()
    ensures Taken(data, chnp.Held())
            == ReadDataOf(chnp.Mail(), old(chnp.Held()), old(chnp.msgaddr), size, chnp.ignbuf)
    ensures chnp.msgaddr == old(chnp.msgaddr) + |data| && |data| <= size
    ensures data == [] <==> old(chnp.msgaddr) == chnp.msgsize
    ensures chnp.eof == (old(chnp.eof) || (data != [] && chnp.msgaddr == chnp.msgsize))
  {
    hide Contents, Tiled, ReadDataOf;
    ReadShape(chnp.Mail(), chnp.Held(), chnp.msgaddr, size, chnp.ignbuf);
    data := Fetch(chnp, size);
    if data != [] {
      chnp.msgaddr := chnp.msgaddr + |data|;
      if chnp.msgaddr == chnp.msgsize {
        chnp.eof := true;
      }
    }
  }
}
