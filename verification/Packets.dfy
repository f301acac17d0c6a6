/** Packets on the circuit: the header's bit fields (HTdaemon/packet.h), and finding packets in a byte
    stream (PacketReader and PassPackets, HTdaemon/packet.c). */
module Packets {
  import opened Channel
  import opened Sequences

  type Bytes = seq<Byte>

  const PKTHDRSIZE := 7
  const CRC_SIZE := 2
  const CRC32_SIZE := 4
  const MAXCRCSIZE := 1024
  const FRONT := 9               // header and its check
  const PKTDATATYPE := 0

  // ----- The header

  type Head = h: Bytes | |h| == PKTHDRSIZE witness [0, 0, 0, 0, 0, 0, 0]

  datatype Fields = Fields(addr: nat, typ: nat, chan: nat, dir: nat, size: nat)

  function GType(h: Head): nat
  {
    h[4] / 32
  }

  function GChan(h: Head): nat
  {
    h[4] / 8 % 4
  }

  function GDir(h: Head): nat
  {
    h[4] / 4 % 2
  }

  function GSize(h: Head): nat
  {
    (h[4] % 4) as int * 0x1_0000 + h[5] as int * 0x100 + h[6] as int
  }

  function GAddr(h: Head): nat
  {
    h[0] as int + h[1] as int * 0x100 + h[2] as int * 0x1_0000 + h[3] as int * 0x100_0000
  }

  function Read(h: Head): Fields
  {
    Fields(GAddr(h), GType(h), GChan(h), GDir(h), GSize(h))
  }

  // The macros that set fields.
  datatype Setter =
    | SType(typ: nat)
    | SChan(chan: nat)
    | SDir(dir: nat)
    | SSize(size: nat)
    | SHdr(typ: nat, chan: nat, dir: nat, size: nat)
    | SAddr(addr: nat)

  predicate InRange(s: Setter)
  {
    match s
    case SType(t) => t < 8
    case SChan(c) => c < 4
    case SDir(d) => d < 2
    case SSize(n) => n < 0x4_0000
    case SHdr(t, c, d, n) => t < 8 && c < 4 && d < 2 && n < 0x4_0000
    case SAddr(a) => a < 0x1_0000_0000
  }

  function Set(h: Head, s: Setter): Head
    requires InRange(s)
  {
    match s
    case SType(t) => h[4 := h[4] % 32 + t * 32]
    case SChan(c) => h[4 := h[4] / 32 * 32 + c * 8 + h[4] % 8]
    case SDir(d) => h[4 := h[4] / 8 * 8 + d * 4 + h[4] % 4]
    case SSize(n) => h[4 := h[4] / 4 * 4 + n / 0x1_0000][5 := n / 0x100 % 0x100][6 := n % 0x100]
    case SHdr(t, c, d, n) => h[4 := t * 32 + c * 8 + d * 4 + n / 0x1_0000][5 := n / 0x100 % 0x100][6 := n % 0x100]
    case SAddr(a) => h[0 := a % 0x100][1 := a / 0x100 % 0x100][2 := a / 0x1_0000 % 0x100][3 := a / 0x100_0000]
  }

  // What a setter is to do, on the fields.
  function Put(f: Fields, s: Setter): Fields
  {
    match s
    case SType(t) => f.(typ := t)
    case SChan(c) => f.(chan := c)
    case SDir(d) => f.(dir := d)
    case SSize(n) => f.(size := n)
    case SHdr(t, c, d, n) => f.(typ := t, chan := c, dir := d, size := n)
    case SAddr(a) => f.(addr := a)
  }

  // The byte that holds four fields.
  function Top(t: nat, c: nat, d: nat, s: nat): Byte
    requires t < 8 && c < 4 && d < 2 && s < 4
  {
    t * 32 + c * 8 + d * 4 + s
  }

  lemma {:induction false} TopParts(t: nat, c: nat, d: nat, s: nat)
    requires t < 8 && c < 4 && d < 2 && s < 4
    ensures var x := Top(t, c, d, s); x / 32 == t && x / 8 % 4 == c && x / 4 % 2 == d && x % 4 == s
  {
    var x := Top(t, c, d, s);
    assert x / 8 == t * 4 + c && x / 4 == t * 8 + c * 2 + d;
  }

  lemma {:induction false} PartsTop(b: Byte)
    ensures b % 32 == b / 8 % 4 * 8 + b / 4 % 2 * 4 + b % 4 && b % 8 == b / 4 % 2 * 4 + b % 4
    ensures b / 8 * 8 == b / 32 * 32 + b / 8 % 4 * 8 && b / 4 * 4 == b / 8 * 8 + b / 4 % 2 * 4
  {
    var q: int := b / 4;
    assert b == 4 * q + b % 4;
    var r: int := q / 2;
    assert q == 2 * r + q % 2 && b / 8 == r;
    var t: int := r / 4;
    assert r == 4 * t + r % 4 && b / 32 == t;
  }

  lemma {:induction false} SizeParts(n: nat)
    requires n < 0x4_0000
    ensures n / 0x1_0000 < 4
    ensures n / 0x1_0000 * 0x1_0000 + n / 0x100 % 0x100 * 0x100 + n % 0x100 == n
  {
  }

  lemma {:induction false} AddrParts(a: nat)
    requires a < 0x1_0000_0000
    ensures a % 0x100 + a / 0x100 % 0x100 * 0x100 + a / 0x1_0000 % 0x100 * 0x1_0000 + a / 0x100_0000 * 0x100_0000 == a
  {
    var b, c := a / 0x100, a / 0x1_0000;
    assert c == b / 0x100 && a / 0x100_0000 == c / 0x100;
    assert a == b * 0x100 + a % 0x100 && b == c * 0x100 + b % 0x100 && c == c / 0x100 * 0x100 + c % 0x100;
  }

  lemma {:induction false} TopReads(h: Head, t: nat, c: nat, d: nat, s: nat)
    requires t < 8 && c < 4 && d < 2 && s < 4
    ensures Read(h[4 := Top(t, c, d, s)])
            == Fields(GAddr(h), t, c, d, s * 0x1_0000 + h[5] as int * 0x100 + h[6] as int)
  {
    TopParts(t, c, d, s);
  }

  lemma {:induction false} SizeReads(h: Head, t: nat, c: nat, d: nat, n: nat)
    requires t < 8 && c < 4 && d < 2 && n < 0x4_0000
    ensures n / 0x1_0000 < 4
    ensures Read(h[4 := Top(t, c, d, n / 0x1_0000)][5 := n / 0x100 % 0x100][6 := n % 0x100])
            == Fields(GAddr(h), t, c, d, n)
  {
    SizeParts(n);
    var g: Head := h[5 := n / 0x100 % 0x100][6 := n % 0x100];
    assert h[4 := Top(t, c, d, n / 0x1_0000)][5 := n / 0x100 % 0x100][6 := n % 0x100]
           == g[4 := Top(t, c, d, n / 0x1_0000)];
    TopReads(g, t, c, d, n / 0x1_0000);
  }

  lemma {:induction false} AddrReads(h: Head, a: nat)
    requires a < 0x1_0000_0000
    ensures Read(Set(h, SAddr(a))) == Read(h).(addr := a)
  {
    AddrParts(a);
  }

  lemma {:induction false} SetIs(h: Head, s: Setter)
    requires InRange(s)
    ensures var b := h[4];
            b / 32 < 8 && match s
            case SType(t) => Set(h, s) == h[4 := Top(t, b / 8 % 4, b / 4 % 2, b % 4)]
            case SChan(c) => Set(h, s) == h[4 := Top(b / 32, c, b / 4 % 2, b % 4)]
            case SDir(d) => Set(h, s) == h[4 := Top(b / 32, b / 8 % 4, d, b % 4)]
            case SSize(n) => n / 0x1_0000 < 4 && Set(h, s) ==
                             h[4 := Top(b / 32, b / 8 % 4, b / 4 % 2, n / 0x1_0000)]
                               [5 := n / 0x100 % 0x100][6 := n % 0x100]
            case SHdr(t, c, d, n) => n / 0x1_0000 < 4 && Set(h, s) ==
                                     h[4 := Top(t, c, d, n / 0x1_0000)][5 := n / 0x100 % 0x100][6 := n % 0x100]
            case SAddr(_) => true
  {
    PartsTop(h[4]);
  }

  // Each setter sets its fields and leaves the others alone.
  lemma {:induction false} SetPuts(h: Head, s: Setter)
    requires InRange(s)
    ensures Read(Set(h, s)) == Put(Read(h), s)
  {
    hide Set, Top;
    var b := h[4];
    SetIs(h, s);
    match s {
      case SType(t) => TopReads(h, t, b / 8 % 4, b / 4 % 2, b % 4);
      case SChan(c) => TopReads(h, b / 32, c, b / 4 % 2, b % 4);
      case SDir(d) => TopReads(h, b / 32, b / 8 % 4, d, b % 4);
      case SSize(n) => SizeReads(h, b / 32, b / 8 % 4, b / 4 % 2, n);
      case SHdr(t, c, d, n) => SizeReads(h, t, c, d, n);
      case SAddr(a) => AddrReads(h, a);
    }
  }

  function SetAll(h: Head, ss: seq<Setter>): Head
    requires forall s :: s in ss ==> InRange(s)
    decreases ss
  {
    if ss == [] then h else SetAll(Set(h, ss[0]), ss[1..])
  }

  function PutAll(f: Fields, ss: seq<Setter>): Fields
    decreases ss
  {
    if ss == [] then f else PutAll(Put(f, ss[0]), ss[1..])
  }

  // So does any run of setters, in any order.
  lemma {:induction false} SetAllPuts(h: Head, ss: seq<Setter>)
    requires forall s :: s in ss ==> InRange(s)
    ensures Read(SetAll(h, ss)) == PutAll(Read(h), ss)
    decreases ss
  {
    if ss != [] {
      SetPuts(h, ss[0]);
      SetAllPuts(Set(h, ss[0]), ss[1..]);
    }
  }

  // Where the fields are: the address first, its lowest byte first; then the small fields; then the rest
  // of the size, its highest byte first.
  lemma {:induction false} Layout(h: Head)
    ensures h == [GAddr(h) % 0x100, GAddr(h) / 0x100 % 0x100, GAddr(h) / 0x1_0000 % 0x100, GAddr(h) / 0x100_0000,
                  GType(h) * 32 + GChan(h) * 8 + GDir(h) * 4 + GSize(h) / 0x1_0000,
                  GSize(h) / 0x100 % 0x100, GSize(h) % 0x100]
  {
    assert GAddr(h) / 0x100 == h[1] as int + h[2] as int * 0x100 + h[3] as int * 0x1_0000;
    assert GAddr(h) / 0x1_0000 == h[2] as int + h[3] as int * 0x100;
    assert GSize(h) / 0x100 == h[4] as int % 4 * 0x100 + h[5] as int;
    assert h[4] / 8 == h[4] / 32 * 4 + h[4] / 8 % 4 && h[4] / 4 == h[4] / 8 * 2 + h[4] / 4 % 2;
  }

  // The data of a NAK: type and length.
  function SNakData(typ: nat, len: nat): Bytes
    requires typ < 8 && len < 0x1_0000_0000
  {
    [typ, len % 0x100, len / 0x100 % 0x100, len / 0x1_0000 % 0x100, len / 0x100_0000]
  }

  function GNakType(p: Bytes): nat
    requires |p| >= 5
  {
    p[0] % 8
  }

  function GNakLength(p: Bytes): nat
    requires |p| >= 5
  {
    p[1] as int + p[2] as int * 0x100 + p[3] as int * 0x1_0000 + p[4] as int * 0x100_0000
  }

  lemma {:induction false} NakBack(typ: nat, len: nat)
    requires typ < 8 && len < 0x1_0000_0000
    ensures var p := SNakData(typ, len); GNakType(p) == typ && GNakLength(p) == len
  {
    AddrParts(len);
  }

  // ----- A packet on the line

  // The check functions and sizes that a link uses.
  datatype Codec = Codec(
    crc: Bytes -> (Byte, Byte),
    crc32: Bytes -> (Byte, Byte, Byte, Byte),
    useDataCrc: bool,
    pktDatSize: nat)

  // What is passed to the driver for a packet.
  datatype Passed = Passed(dir: nat, chan: nat, typ: nat, addr: nat, data: Bytes)

  function Check16(c: Codec, data: Bytes): Bytes
  {
    [c.crc(data).0, c.crc(data).1]
  }

  function Check32(c: Codec, data: Bytes): Bytes
  {
    [c.crc32(data).0, c.crc32(data).1, c.crc32(data).2, c.crc32(data).3]
  }

  function DataCheck(c: Codec, data: Bytes): Bytes
  {
    if !c.useDataCrc || data == [] then [] else if |data| > MAXCRCSIZE then Check32(c, data) else Check16(c, data)
  }

  // The bytes that the check of `size` bytes of data takes.
  function CheckSize(c: Codec, size: nat): nat
  {
    if !c.useDataCrc || size == 0 then 0 else if size > MAXCRCSIZE then CRC32_SIZE else CRC_SIZE
  }

  function MaxPktSize(c: Codec, size: nat): nat
  {
    size + PKTHDRSIZE + CRC_SIZE + if c.useDataCrc then (if size > MAXCRCSIZE then CRC32_SIZE else CRC_SIZE) else 0
  }

  // A packet may be sent: its fields are in range, its data fit, and DATA has some.
  predicate Sendable(c: Codec, p: Passed)
  {
    && p.dir < 2 && p.chan < 4 && p.typ < 8 && p.addr < 0x1_0000_0000
    && |p.data| <= c.pktDatSize && |p.data| < 0x4_0000 && (p.typ == PKTDATATYPE ==> p.data != [])
  }

  const NO_HEADER: Head := [0, 0, 0, 0, 0, 0, 0]

  function HeadOf(p: Passed): Head
    requires p.dir < 2 && p.chan < 4 && p.typ < 8 && p.addr < 0x1_0000_0000 && |p.data| < 0x4_0000
  {
    Set(Set(NO_HEADER, SHdr(p.typ, p.chan, p.dir, |p.data|)), SAddr(p.addr))
  }

  // The bytes of a packet.
  function Frame(c: Codec, p: Passed): Bytes
    requires Sendable(c, p)
  {
    HeadOf(p) + Check16(c, HeadOf(p)) + p.data + DataCheck(c, p.data)
  }

  // ----- Finding packets

  datatype Look = Skip | Wait | Take(consumed: nat, packet: Passed)

  predicate HeaderBad(c: Codec, p: Bytes)
    requires |p| >= FRONT
  {
    p[PKTHDRSIZE..FRONT] != Check16(c, p[..PKTHDRSIZE])
  }

  // What is at the front of the bytes; `hcrcOk` says that its header has been checked before.
  function LookAt(c: Codec, hcrcOk: bool, p: Bytes): (l: Look)
    requires |p| >= FRONT
    ensures l.Take? ==> FRONT <= l.consumed <= |p|
  {
    if !hcrcOk && HeaderBad(c, p) then Skip else LookBehind(c, Read(p[..PKTHDRSIZE]), p)
  }

  // What is behind a good header.
  function LookBehind(c: Codec, f: Fields, p: Bytes): (l: Look)
    requires |p| >= FRONT
    ensures l.Take? ==> FRONT <= l.consumed <= |p|
  {
    var consumed := FRONT + f.size + CheckSize(c, f.size);
    if (f.size > 0 || f.typ == PKTDATATYPE) && (f.size > c.pktDatSize || f.size == 0) then Skip
    else if consumed > |p| then Wait
    else
      var data := p[FRONT..FRONT + f.size];
      if p[FRONT + f.size..consumed] != DataCheck(c, data) then Skip
      else Take(consumed, Passed(f.dir, f.chan, f.typ, f.addr, data))
  }

  // What a stretch of bytes yields: packets, the bytes left over, and whether their header is known
  // to be good.
  datatype Parsed = Parsed(packets: seq<Passed>, rest: Bytes, hcrcOk: bool)

  function Parse(c: Codec, hcrcOk: bool, p: Bytes): Parsed
    decreases |p|
  {
    if |p| < FRONT then Parsed([], p, hcrcOk)
    else match LookAt(c, hcrcOk, p)
      case Skip => Parse(c, false, p[1..])
      case Wait => Parsed([], p, true)
      case Take(consumed, packet) =>
        var r := Parse(c, false, p[consumed..]);
        r.(packets := [packet] + r.packets)
  }

  // More bytes behind do not change what is at the front, unless it was not all there.
  lemma {:induction false} LookMore(c: Codec, hcrcOk: bool, p: Bytes, more: Bytes)
    requires |p| >= FRONT
    ensures !LookAt(c, hcrcOk, p).Wait? ==> LookAt(c, hcrcOk, p + more) == LookAt(c, hcrcOk, p)
    ensures LookAt(c, hcrcOk, p).Wait? ==> LookAt(c, true, p + more) == LookAt(c, hcrcOk, p + more)
  {
    hide Read;
    var q := p + more;
    assert q[..PKTHDRSIZE] == p[..PKTHDRSIZE] && q[PKTHDRSIZE..FRONT] == p[PKTHDRSIZE..FRONT];
    var f := Read(p[..PKTHDRSIZE]);
    var consumed := FRONT + f.size + CheckSize(c, f.size);
    if consumed <= |p| {
      assert q[FRONT..FRONT + f.size] == p[FRONT..FRONT + f.size];
      assert q[FRONT + f.size..consumed] == p[FRONT + f.size..consumed];
    }
  }

  // However the stream is cut, the same packets come out.
  lemma {:induction false} ParseCut(c: Codec, hcrcOk: bool, x: Bytes, y: Bytes)
    ensures var a := Parse(c, hcrcOk, x); var b := Parse(c, a.hcrcOk, a.rest + y);
            Parse(c, hcrcOk, x + y) == Parsed(a.packets + b.packets, b.rest, b.hcrcOk)
    decreases |x|
  {
    hide LookAt, Parse;
    ParseStep(c, hcrcOk, x);
    if |x| >= FRONT {
      LookMore(c, hcrcOk, x, y);
      ParseStep(c, hcrcOk, x + y);
      ParseStep(c, true, x + y);
      match LookAt(c, hcrcOk, x) {
        case Skip =>
          ParseCut(c, false, x[1..], y);
          assert (x + y)[1..] == x[1..] + y;
        case Wait =>
        case Take(consumed, packet) =>
          ParseCut(c, false, x[consumed..], y);
          assert (x + y)[consumed..] == x[consumed..] + y;
          var rest := Parse(c, false, x[consumed..]);
          Assoc([packet], rest.packets, Parse(c, rest.hcrcOk, rest.rest + y).packets);
      }
    }
  }

  lemma {:induction false} ParseStep(c: Codec, hcrcOk: bool, p: Bytes)
    ensures Parse(c, hcrcOk, p) ==
            if |p| < FRONT then Parsed([], p, hcrcOk)
            else match LookAt(c, hcrcOk, p)
              case Skip => Parse(c, false, p[1..])
              case Wait => Parsed([], p, true)
              case Take(consumed, packet) =>
                Parse(c, false, p[consumed..]).(packets := [packet] + Parse(c, false, p[consumed..]).packets)
  {
  }

  // What is left over stays left over until there is more.
  lemma {:induction false} ParseRest(c: Codec, hcrcOk: bool, p: Bytes)
    ensures var r := Parse(c, hcrcOk, p); Parse(c, r.hcrcOk, r.rest) == Parsed([], r.rest, r.hcrcOk)
  {
    hide Parse;
    var r := Parse(c, hcrcOk, p);
    ParseCut(c, hcrcOk, p, []);
    assert p + [] == p && r.rest + [] == r.rest;
    assert |r.packets| == |r.packets + Parse(c, r.hcrcOk, r.rest).packets|;
  }

  // What is left over is less than the largest packet.
  lemma {:induction false} RestSmall(c: Codec, hcrcOk: bool, p: Bytes)
    ensures |Parse(c, hcrcOk, p).rest| < MaxPktSize(c, c.pktDatSize) && |Parse(c, hcrcOk, p).rest| <= |p|
    decreases |p|
  {
    hide Read;
    if |p| >= FRONT {
      match LookAt(c, hcrcOk, p) {
        case Skip => RestSmall(c, false, p[1..]);
        case Wait =>
        case Take(consumed, _) => RestSmall(c, false, p[consumed..]);
      }
    }
  }

  lemma {:induction false} HeadReads(p: Passed)
    requires p.dir < 2 && p.chan < 4 && p.typ < 8 && p.addr < 0x1_0000_0000 && |p.data| < 0x4_0000
    ensures Read(HeadOf(p)) == Fields(p.addr, p.typ, p.chan, p.dir, |p.data|)
  {
    hide Set, Read;
    SetPuts(NO_HEADER, SHdr(p.typ, p.chan, p.dir, |p.data|));
    SetPuts(Set(NO_HEADER, SHdr(p.typ, p.chan, p.dir, |p.data|)), SAddr(p.addr));
  }

  lemma {:induction false} FrameParts(c: Codec, p: Passed, more: Bytes)
    requires Sendable(c, p)
    ensures var q := Frame(c, p) + more; var n := |p.data|;
            && |Frame(c, p)| == FRONT + n + CheckSize(c, n)
            && q[..PKTHDRSIZE] == HeadOf(p) && q[PKTHDRSIZE..FRONT] == Check16(c, HeadOf(p))
            && q[FRONT..FRONT + n] == p.data && q[FRONT + n..FRONT + n + CheckSize(c, n)] == DataCheck(c, p.data)
            && q[|Frame(c, p)|..] == more
  {
    hide HeadOf, Check16, DataCheck;
    CheckSizes(c, p.data);
    CheckSizes(c, HeadOf(p));
    Slices(HeadOf(p), Check16(c, HeadOf(p)), p.data, DataCheck(c, p.data), more);
  }

  lemma {:induction false} Slices(a: Bytes, b: Bytes, c: Bytes, d: Bytes, e: Bytes)
    ensures var q := a + b + c + d + e; var i := |a| + |b|; var j := i + |c|; var k := j + |d|;
            q[..|a|] == a && q[|a|..i] == b && q[i..j] == c && q[j..k] == d && q[k..] == e
  {
  }

  lemma {:induction false} CheckSizes(c: Codec, data: Bytes)
    ensures |DataCheck(c, data)| == CheckSize(c, |data|) && |Check16(c, data)| == CRC_SIZE
  {
  }

  // A packet's bytes are found to be that packet, whatever follows.
  lemma {:induction false} FrameFound(c: Codec, p: Passed, more: Bytes)
    requires Sendable(c, p)
    ensures LookAt(c, false, Frame(c, p) + more) == Take(|Frame(c, p)|, p)
    ensures (Frame(c, p) + more)[|Frame(c, p)|..] == more
  {
    hide Frame, HeadOf, Read, Check16, DataCheck;
    FrameParts(c, p, more);
    HeadReads(p);
  }

  function Frames(c: Codec, ps: seq<Passed>): Bytes
    requires forall p :: p in ps ==> Sendable(c, p)
  {
    if ps == [] then [] else Frame(c, ps[0]) + Frames(c, ps[1..])
  }

  // Packets written one after another are read back, in order, up to whatever comes after them.
  lemma {:induction false} FramesBack(c: Codec, ps: seq<Passed>, more: Bytes)
    requires forall p :: p in ps ==> Sendable(c, p)
    ensures var r := Parse(c, false, more);
            Parse(c, false, Frames(c, ps) + more) == r.(packets := ps + r.packets)
  {
    hide Parse, LookAt, Frame;
    if ps == [] {
      assert Frames(c, ps) + more == more && ps + Parse(c, false, more).packets == Parse(c, false, more).packets;
    } else {
      var rest := Frames(c, ps[1..]) + more;
      FramesBack(c, ps[1..], more);
      FrameFound(c, ps[0], rest);
      Assoc(Frame(c, ps[0]), Frames(c, ps[1..]), more);
      ParseStep(c, false, Frame(c, ps[0]) + rest);
      Assoc([ps[0]], ps[1..], Parse(c, false, more).packets);
    }
  }

  // Noise in front of a packet is passed over, so long as none of it looks like a header.
  lemma {:induction false} NoisePassed(c: Codec, noise: Bytes, p: Bytes)
    requires |p| >= FRONT
    requires forall i :: 0 <= i < |noise| ==> HeaderBad(c, (noise + p)[i..])
    ensures Parse(c, false, noise + p) == Parse(c, false, p)
  {
    hide Parse;
    if noise == [] {
      assert noise + p == p;
    } else {
      var q := noise + p;
      assert q[0..] == q && q[1..] == noise[1..] + p;
      ParseStep(c, false, q);
      forall i | 0 <= i < |noise| - 1
        ensures HeaderBad(c, (noise[1..] + p)[i..])
      {
        assert q[i + 1..] == (noise[1..] + p)[i..];
      }
      NoisePassed(c, noise[1..], p);
    }
  }

  // ----- The program

  // `buf` is PktBuffer, twice as large as the largest packet; what is in it is buf[start..end].
  class PacketBuffer {
    const buf: array<Byte>
    const pktBufSize: nat
    const codec: Codec
    var start: nat
    var end: nat
    var hcrcOk: bool
    var passed: seq<Passed>

    ghost predicate Valid()
      reads `start, `end
    {
      && pktBufSize == MaxPktSize(codec, codec.pktDatSize) && buf.Length == 2 * pktBufSize
      && start <= end <= buf.Length
    }

    // There is room for a read.
    ghost predicate Ready()
      reads `start, `end
    {
      Valid() && end <= pktBufSize
    }

    ghost function Held(): Bytes
      requires Valid()
      reads `start, `end, buf
    {
      buf[start..end]
    }

    // What is in the buffer has been looked at.
    ghost predicate Settled()
      requires Valid()
      reads `start, `end, `hcrcOk, buf
    {
      Parse(codec, hcrcOk, Held()) == Parsed([], Held(), hcrcOk)
    }

    constructor (codec: Codec)
      ensures Ready() && Settled() && fresh(buf) && this.codec == codec
      ensures start == end == 0 && !hcrcOk && passed == []
    {
      this.codec := codec;
      pktBufSize := MaxPktSize(codec, codec.pktDatSize);
      buf := new Byte[2 * MaxPktSize(codec, codec.pktDatSize)];
      start, end, hcrcOk, passed := 0, 0, false, [];
    }
  }

  lemma {:induction false} Within(b: PacketBuffer, i: nat, j: nat)
    requires b.Valid() && i <= j <= b.end - b.start
    ensures b.buf[b.start..b.end][i..j] == b.buf[b.start + i..b.start + j]
  {
    var x, y := b.buf[b.start..b.end][i..j], b.buf[b.start + i..b.start + j];
    forall k | 0 <= k < j - i
      ensures x[k] == y[k]
    {
      assert x[k] == b.buf[b.start..b.end][i + k] == b.buf[b.start + (i + k)];
    }
  }

  // Look at the bytes at the front of the buffer.
  method Examine(b: PacketBuffer) returns (l: Look)
    requires b.Valid() && b.end - b.start >= FRONT
    ensures l == LookAt(b.codec, b.hcrcOk, b.buf[b.start..b.end])
  {
    hide Read, Check16, LookBehind;
    Within(b, 0, PKTHDRSIZE);
    Within(b, PKTHDRSIZE, FRONT);
    var head := b.buf[b.start..b.start + PKTHDRSIZE];
    if !b.hcrcOk && b.buf[b.start + PKTHDRSIZE..b.start + FRONT] != Check16(b.codec, head) {
      return Skip;
    }
    l := ExamineData(b, Read(head));
  }

  method ExamineData(b: PacketBuffer, f: Fields) returns (l: Look)
    requires b.Valid() && b.end - b.start >= FRONT
    ensures l == LookBehind(b.codec, f, b.buf[b.start..b.end])
  {
    hide DataCheck;
    var left, start := b.end - b.start, b.start;
    if f.size == 0 && f.typ != PKTDATATYPE {
      NoCheck(b.codec, []);
      return Take(FRONT, Passed(f.dir, f.chan, f.typ, f.addr, []));
    }
    if f.size > b.codec.pktDatSize || f.size == 0 {
      return Skip;
    }
    var consumed := FRONT + f.size;
    if b.codec.useDataCrc {
      consumed := consumed + if f.size > MAXCRCSIZE then CRC32_SIZE else CRC_SIZE;
    }
    if consumed > left {
      return Wait;
    }
    Within(b, FRONT, FRONT + f.size);
    Within(b, FRONT + f.size, consumed);
    var data := b.buf[start + FRONT..start + FRONT + f.size];
    NoCheck(b.codec, data);
    if b.codec.useDataCrc && b.buf[start + FRONT + f.size..start + consumed] != DataCheck(b.codec, data) {
      return Skip;
    }
    return Take(consumed, Passed(f.dir, f.chan, f.typ, f.addr, data));
  }

  // Go on behind `n` bytes.
  method Advance(b: PacketBuffer, n: nat)
    requires b.Valid() && n <= b.end - b.start
    modifies b`start, b`hcrcOk
    ensures b.Valid() && !b.hcrcOk && b.start == old(b.start) + n
    ensures b.buf[b.start..b.end] == old(b.buf[b.start..b.end])[n..]
  {
    Within(b, n, b.end - b.start);
    b.start := b.start + n;
    b.hcrcOk := false;
  }

  lemma {:induction false} NoCheck(c: Codec, data: Bytes)
    ensures !c.useDataCrc || data == [] ==> DataCheck(c, data) == []
  {
  }

  // Pass on the packets in the buffer.
  method PassPackets(b: PacketBuffer)
    requires b.Valid()
    modifies b`start, b`hcrcOk, b`passed
    ensures b.Valid()
    ensures var r := Parse(b.codec, old(b.hcrcOk), old(b.buf[b.start..b.end]));
            b.passed == old(b.passed) + r.packets && b.buf[b.start..b.end] == r.rest && b.hcrcOk == r.hcrcOk
    ensures b.Settled()
  {
    hide Parse, LookAt;
    ParseRest(b.codec, b.hcrcOk, b.buf[b.start..b.end]);
    ghost var c := b.codec;
    ghost var all := Parse(c, b.hcrcOk, b.buf[b.start..b.end]);
    ghost var done: seq<Passed> := [];
    while b.end - b.start >= FRONT
      invariant b.Valid() && b.passed == old(b.passed) + done
      invariant var r := Parse(c, b.hcrcOk, b.buf[b.start..b.end]); all == r.(packets := done + r.packets)
      decreases b.end - b.start
    {
      ghost var p := b.buf[b.start..b.end];
      ParseStep(c, b.hcrcOk, p);
      var l := Examine(b);
      match l {
        case Skip =>
          Advance(b, 1);
        case Wait =>
          b.hcrcOk := true;
          return;
        case Take(consumed, packet) =>
          b.passed := b.passed + [packet];
          Advance(b, consumed);
          Assoc(done, [packet], Parse(c, false, p[consumed..]).packets);
          done := done + [packet];
      }
    }
    ParseStep(c, b.hcrcOk, b.buf[b.start..b.end]);
  }

  // One read is added to the buffer.
  method Append(b: PacketBuffer, data: Bytes)
    requires b.Ready() && |data| <= b.pktBufSize
    modifies b`end, b.buf
    ensures b.Valid() && b.end == old(b.end) + |data|
    ensures b.buf[b.start..b.end] == old(b.buf[b.start..b.end]) + data
  {
    var i := 0;
    while i < |data|
      invariant 0 <= i <= |data| && b.end == old(b.end)
      invariant b.buf[..old(b.end)] == old(b.buf[..b.end]) && b.buf[old(b.end)..old(b.end) + i] == data[..i]
    {
      b.buf[b.end + i] := data[i];
      i := i + 1;
    }
    b.end := b.end + |data|;
    assert b.buf[b.start..b.end] == b.buf[..old(b.end)][b.start..] + b.buf[old(b.end)..b.end];
  }

  // Move what is left to the front.
  method MoveDown(b: PacketBuffer)
    requires b.Valid()
    modifies b`start, b`end, b.buf
    ensures b.Valid() && b.start == 0 && b.end == old(b.end) - old(b.start)
    ensures b.buf[b.start..b.end] == old(b.buf[b.start..b.end])
  {
    var n := b.end - b.start;
    var i := 0;
    while i < n
      invariant 0 <= i <= n && unchanged(b`start) && unchanged(b`end)
      invariant forall k :: 0 <= k < i ==> b.buf[k] == old(b.buf[b.start + k])
      invariant forall k :: b.start + i <= k < b.buf.Length ==> b.buf[k] == old(b.buf[k])
    {
      b.buf[i] := b.buf[b.start + i];
      i := i + 1;
    }
    b.start, b.end := 0, n;
  }

  function Stream(input: seq<Bytes>): Bytes
  {
    if input == [] then [] else input[0] + Stream(input[1..])
  }

  // One turn of the loop: a read is added, packets are passed on, and room is made for the next read.
  method ReadOnce(b: PacketBuffer, data: Bytes)
    requires b.Ready() && |data| <= b.pktBufSize
    modifies b, b.buf
    ensures b.Ready() && b.Settled()
    ensures var r := Parse(b.codec, old(b.hcrcOk), old(b.Held()) + data);
            b.passed == old(b.passed) + r.packets && b.Held() == r.rest && b.hcrcOk == r.hcrcOk
  {
    hide Parse;
    RestSmall(b.codec, b.hcrcOk, b.Held() + data);
    Append(b, data);
    PassPackets(b);
    var n := b.end - b.start;
    if n > 0 {
      if b.end <= b.pktBufSize {
        return;
      }
      if n > b.pktBufSize {
        assert false;   // more than a packet is never left, so none of it is thrown away
      }
      MoveDown(b);
    } else {
      b.start, b.end := 0, 0;
    }
  }

  // Read and pass on, read by read.  The packets are those of the whole stream, nothing is thrown
  // away, and there is always room for the next read.
  method PacketReader(b: PacketBuffer, input: seq<Bytes>)
    requires b.Ready() && b.Settled() && forall r :: r in input ==> 0 < |r| <= b.pktBufSize
    modifies b, b.buf
    ensures b.Ready() && b.Settled()
    ensures var r := Parse(b.codec, old(b.hcrcOk), old(b.Held()) + Stream(input));
            b.passed == old(b.passed) + r.packets && b.Held() == r.rest && b.hcrcOk == r.hcrcOk
  {
    hide Parse, MaxPktSize, PacketBuffer.Held, PacketBuffer.Valid;
    ghost var c := b.codec;
    ghost var all := Parse(c, b.hcrcOk, b.Held() + Stream(input));
    ghost var done: seq<Passed> := [];
    var i := 0;
    while i < |input|
      invariant 0 <= i <= |input| && b.Ready() && b.Settled() && b.passed == old(b.passed) + done
      invariant var r := Parse(c, b.hcrcOk, b.Held() + Stream(input[i..])); all == r.(packets := done + r.packets)
    {
      StreamCut(c, b.hcrcOk, b.Held(), input, i, done);
      done := done + Parse(c, b.hcrcOk, b.Held() + input[i]).packets;
      ReadOnce(b, input[i]);
      i := i + 1;
    }
    assert b.Held() + Stream(input[i..]) == b.Held();
    assert done + [] == done;
  }

  lemma {:induction false} StreamCut(c: Codec, hcrcOk: bool, rest: Bytes, input: seq<Bytes>, i: nat, done: seq<Passed>)
    requires i < |input|
    ensures var a := Parse(c, hcrcOk, rest + input[i]);
            var b := Parse(c, a.hcrcOk, a.rest + Stream(input[i + 1..]));
            var all := Parse(c, hcrcOk, rest + Stream(input[i..]));
            all == b.(packets := a.packets + b.packets) && done + all.packets == done + a.packets + b.packets
  {
    hide Parse;
    var y := Stream(input[i + 1..]);
    assert input[i..][1..] == input[i + 1..];
    Assoc(rest, input[i], y);
    ParseCut(c, hcrcOk, rest + input[i], y);
  }
}
