/** A message sent in parts, put together when the last part comes (Header/AllParts.c), and the cutting
    of commands to a range of the data (Lib/LinkCmds.c). */
module AllParts {
  import opened Channel
  import opened Sequences
  import opened Parts
  import opened Commands

  // ----- LinkCmds

  predicate Ordered(items: seq<Item>)
  {
    items == [] || ((items[0].Piece? ==> items[0].from <= items[0].to) && Ordered(items[1..]))
  }

  // The pieces that hold addresses [obase, ofend) of what `items` describe from address `oposn` on.
  // A link is the file it is made to, so names are kept.
  function Linked(items: seq<Item>, oposn: int, obase: int, ofend: int): seq<Item>
    requires Ordered(items) && obase < ofend
    decreases items
  {
    if items == [] || oposn >= ofend then []
    else match items[0]
      case Piece(name, from, to) =>
        var length := to - from;
        if oposn + length > obase then
          var skip := if obase > oposn then obase - oposn else 0;
          var over := if oposn + length > ofend then oposn + length - ofend else 0;
          [Piece(name, from + skip, to - over)] + Linked(items[1..], oposn + length - over, obase, ofend)
        else Linked(items[1..], oposn + length, obase, ofend)
      case _ => Linked(items[1..], oposn, obase, ofend)
  }

  function Clamp(x: int, high: int): nat
    requires high >= 0
  {
    if x < 0 then 0 else if x > high then high else x
  }

  lemma {:induction false} AvailableOrdered(items: seq<Item>, files: Files)
    requires Available(items, files)
    ensures Ordered(items)
  {
    if items != [] {
      AvailableOrdered(items[1..], files);
    }
  }

  lemma {:induction false} AvailableMore(item: Item, items: seq<Item>, files: Files)
    requires Available([item], files) && Available(items, files)
    ensures Available([item] + items, files)
            && Bytes([item] + items, files) == Bytes([item], files) + Bytes(items, files)
  {
    assert ([item] + items)[1..] == items && [item][1..] == [];
  }

  // The range [obase, ofend) of bytes that begin at `oposn`, so far as there are any.
  function Range(m: seq<Byte>, oposn: int, obase: int, ofend: int): seq<Byte>
    requires obase < ofend
  {
    m[Clamp(obase - oposn, |m|)..Clamp(ofend - oposn, |m|)]
  }

  lemma {:induction false} RangeOverlap(piece: seq<Byte>, rest: seq<Byte>, oposn: int, obase: int, ofend: int)
    requires obase < ofend && oposn < ofend && oposn + |piece| > obase
    ensures var skip := if obase > oposn then obase - oposn else 0;
            var over := if oposn + |piece| > ofend then oposn + |piece| - ofend else 0;
            skip + over <= |piece| &&
            Range(piece + rest, oposn, obase, ofend)
            == piece[skip..|piece| - over] + Range(rest, oposn + |piece| - over, obase, ofend)
  {
    var over := if oposn + |piece| > ofend then oposn + |piece| - ofend else 0;
    var skip := if obase > oposn then obase - oposn else 0;
    PieceCut(piece, rest, skip, over, if over > 0 then 0 else Clamp(ofend - oposn - |piece|, |rest|));
  }

  lemma {:induction false} RangeBefore(piece: seq<Byte>, rest: seq<Byte>, oposn: int, obase: int, ofend: int)
    requires obase < ofend && oposn + |piece| <= obase
    ensures Range(piece + rest, oposn, obase, ofend) == Range(rest, oposn + |piece|, obase, ofend)
  {
    RestCut(piece, rest, Clamp(obase - oposn - |piece|, |rest|), Clamp(ofend - oposn - |piece|, |rest|));
  }

  // LinkCmds cuts out exactly the range asked for, so far as there is data.
  lemma {:induction false} LinkedBytes(items: seq<Item>, files: Files, oposn: int, obase: int, ofend: int)
    requires Available(items, files) && obase < ofend
    ensures Ordered(items) && Available(Linked(items, oposn, obase, ofend), files)
    ensures Bytes(Linked(items, oposn, obase, ofend), files) == Range(Bytes(items, files), oposn, obase, ofend)
    decreases items, 1
  {
    hide Bytes, Available, Range;
    AvailableOrdered(items, files);
    NoItems(files);
    RangeNone(Bytes(items, files), oposn, obase, ofend);
    if items != [] && oposn < ofend {
      AvailableTail(items, files);
      if items[0].Piece? {
        LinkedPiece(items, files, oposn, obase, ofend);
      } else {
        LinkedBytes(items[1..], files, oposn, obase, ofend);
      }
    }
  }

  lemma {:induction false} RangeNone(m: seq<Byte>, oposn: int, obase: int, ofend: int)
    requires obase < ofend
    ensures m == [] || oposn >= ofend ==> Range(m, oposn, obase, ofend) == []
  {
  }

  lemma {:induction false} LinkedPiece(items: seq<Item>, files: Files, oposn: int, obase: int, ofend: int)
    requires Available(items, files) && obase < ofend && Ordered(items) && items != [] && items[0].Piece?
             && oposn < ofend
    ensures Available(Linked(items, oposn, obase, ofend), files)
    ensures Bytes(Linked(items, oposn, obase, ofend), files) == Range(Bytes(items, files), oposn, obase, ofend)
    decreases items, 0
  {
    hide Bytes, Available, Range;
    AvailableTail(items, files);
    var rest := Bytes(items[1..], files);
    var Piece(name, from, to) := items[0];
    var piece := files[name][from..to];
    var length := to - from;
    if oposn + length > obase {
      var skip := if obase > oposn then obase - oposn else 0;
      var over := if oposn + length > ofend then oposn + length - ofend else 0;
      RangeOverlap(piece, rest, oposn, obase, ofend);
      LinkedBytes(items[1..], files, oposn + length - over, obase, ofend);
      var cut := Piece(name, from + skip, to - over);
      OnePiece(cut, files);
      AvailableMore(cut, Linked(items[1..], oposn + length - over, obase, ofend), files);
      SubSlice(files[name], from, to, skip, over);
    } else {
      RangeBefore(piece, rest, oposn, obase, ofend);
      LinkedBytes(items[1..], files, oposn + length, obase, ofend);
    }
  }

  lemma {:induction false} SubSlice(f: seq<Byte>, from: nat, to: nat, skip: nat, over: nat)
    requires from + skip + over <= to <= |f|
    ensures f[from + skip..to - over] == f[from..to][skip..to - from - over]
  {
    var x, y := f[from + skip..to - over], f[from..to][skip..to - from - over];
    forall i | 0 <= i < |x|
      ensures x[i] == y[i]
    {
      assert y[i] == f[from..to][skip + i] == f[from + (skip + i)];
    }
  }

  lemma {:induction false} NoItems(files: Files)
    ensures Available([], files) && Bytes([], files) == []
  {
  }

  lemma {:induction false} AvailableTail(items: seq<Item>, files: Files)
    requires Available(items, files) && items != []
    ensures Available(items[1..], files)
    ensures match items[0]
            case Piece(name, from, to) =>
              from <= to && name in files && to <= |files[name]| && to < ULONG
              && Bytes(items, files) == files[name][from..to] + Bytes(items[1..], files)
            case _ => Bytes(items, files) == Bytes(items[1..], files)
  {
  }

  lemma {:induction false} OnePiece(p: Item, files: Files)
    requires p.Piece? && p.from <= p.to < ULONG && p.name in files && p.to <= |files[p.name]|
    ensures Available([p], files) && Bytes([p], files) == files[p.name][p.from..p.to]
  {
    assert [p][1..] == [];
  }

  lemma {:induction false} PieceCut(piece: seq<Byte>, rest: seq<Byte>, skip: nat, over: nat, high: nat)
    requires skip + over <= |piece| && high <= |rest| && (over > 0 ==> high == 0)
    ensures (piece + rest)[skip..|piece| - over + high] == piece[skip..|piece| - over] + rest[..high]
  {
  }

  lemma {:induction false} RestCut(piece: seq<Byte>, rest: seq<Byte>, low: nat, high: nat)
    requires low <= high <= |rest|
    ensures (piece + rest)[|piece| + low..|piece| + high] == rest[low..high]
  {
  }

  // ----- getmpcommand: the commands of a stored part, cut to its data

  datatype MpCommand = HdrLength(number: nat) | Plain(command: Command)

  // PartsLength, CmdsLength, Data, HdrStart, filestart, and the commands kept so far.
  datatype Mp = Mp(partsLength: int, cmdsLength: int, data: bool, hdrStart: int, filestart: int, these: seq<Command>)

  // The numbers are as a commands file has them: no piece ends before it begins.
  predicate Ready(m: Mp, x: MpCommand)
  {
    && m.filestart >= 0
    && (x.Plain? && x.command.EndCmd? && m.data ==>
          m.filestart <= x.command.number && m.cmdsLength <= m.hdrStart)
  }

  function Got(m: Mp, x: MpCommand): Mp
    requires Ready(m, x)
  {
    match x
    case HdrLength(n) => m.(hdrStart := n)
    case Plain(FileCmd(name)) => if m.data then m.(these := m.these + [FileCmd(name)]) else m
    case Plain(StartCmd(n)) => if m.data then m.(filestart := n, these := m.these + [StartCmd(n)]) else m
    case Plain(UnlinkCmd(name)) => m.(these := m.these + [UnlinkCmd(name)])
    case Plain(OtherCmd) => m
    case Plain(EndCmd(n)) =>
      if !m.data then m
      else
        var cmdsLength := m.cmdsLength + n - m.filestart;
        var end := if cmdsLength >= m.hdrStart then n - (cmdsLength - m.hdrStart) else n;
        m.(cmdsLength := cmdsLength, data := cmdsLength < m.hdrStart, partsLength := m.partsLength + end - m.filestart,
           these := m.these + [EndCmd(end)])
  }

  class Collector {
    var partsLength: int
    var cmdsLength: int
    var data: bool
    var hdrStart: int
    var filestart: int
    var these: seq<Command>

    function Now(): Mp
      reads this
    {
      Mp(partsLength, cmdsLength, data, hdrStart, filestart, these)
    }

    constructor (partsLength: int)
      ensures Now() == Mp(partsLength, 0, true, MAX_ULONG, 0, [])
    {
      this.partsLength := partsLength;
      cmdsLength, data, hdrStart, filestart, these := 0, true, MAX_ULONG, 0, [];
    }
  }

  const MAX_ULONG := 0xFFFF_FFFF

  method GetMpCommand(c: Collector, x: MpCommand)
    requires Ready(c.Now(), x)
    modifies c
    ensures c.Now() == Got(old(c.Now()), x)
  {
    match x {
      case HdrLength(n) =>
        c.hdrStart := n;
      case Plain(command) =>
        match command {
          case EndCmd(n) =>
            if !c.data {
              return;
            }
            var end := n as int;
            c.cmdsLength := c.cmdsLength + end - c.filestart;
            if c.cmdsLength >= c.hdrStart {
              end := end - (c.cmdsLength - c.hdrStart);
              c.data := false;
            }
            c.partsLength := c.partsLength + end - c.filestart;
            c.these := c.these + [EndCmd(end)];
          case FileCmd(name) =>
            if c.data {
              c.these := c.these + [FileCmd(name)];
            }
          case StartCmd(n) =>
            if c.data {
              c.filestart := n;
              c.these := c.these + [StartCmd(n)];
            }
          case UnlinkCmd(name) =>
            c.these := c.these + [UnlinkCmd(name)];
          case OtherCmd =>
        }
    }
  }

  // What is kept of `items` when `left` bytes of data are still to come, or none (`data` is false).
  function Clip(items: seq<Item>, left: nat, data: bool): seq<Item>
    decreases items
  {
    if items == [] then []
    else match items[0]
      case Piece(name, from, to) =>
        if !data then Clip(items[1..], left, data)
        else if from <= to && to - from < left then [items[0]] + Clip(items[1..], left - (to - from), true)
        else [Piece(name, from, from + left)] + Clip(items[1..], 0, false)
      case Remove(_) => [items[0]] + Clip(items[1..], left, data)
      case Other => Clip(items[1..], left, data)
  }

  // The data of a part are its first `n` bytes.
  lemma {:induction false} ClipBytes(items: seq<Item>, files: Files, left: nat, data: bool)
    requires Available(items, files) && (data ==> left <= |Bytes(items, files)|)
    ensures Available(Clip(items, left, data), files)
    ensures Bytes(Clip(items, left, data), files) == if data then Bytes(items, files)[..left] else []
    decreases items
  {
    hide Bytes, Available;
    NoItems(files);
    if items != [] {
      AvailableTail(items, files);
      match items[0] {
        case Piece(name, from, to) =>
          var piece, rest := files[name][from..to], Bytes(items[1..], files);
          if !data {
            ClipBytes(items[1..], files, left, false);
          } else if to - from < left {
            ClipBytes(items[1..], files, left - (to - from), true);
            OnePiece(items[0], files);
            AvailableMore(items[0], Clip(items[1..], left - (to - from), true), files);
            assert (piece + rest)[..left] == piece + rest[..left - |piece|];
          } else {
            ClipBytes(items[1..], files, 0, false);
            OnePiece(Piece(name, from, from + left), files);
            AvailableMore(Piece(name, from, from + left), Clip(items[1..], 0, false), files);
            SubSlice(files[name], from, to, 0, to - from - left);
            assert (piece + rest)[..left] == piece[..left];
          }
        case Remove(_) =>
          ClipBytes(items[1..], files, left, data);
          NotPiece(items[0], files);
          AvailableMore(items[0], Clip(items[1..], left, data), files);
        case Other =>
          ClipBytes(items[1..], files, left, data);
      }
    }
  }

  lemma {:induction false} NotPiece(item: Item, files: Files)
    requires !item.Piece?
    ensures Available([item], files) && Bytes([item], files) == []
  {
    assert [item][1..] == [];
  }

  predicate AllReady(m: Mp, xs: seq<MpCommand>)
    decreases xs
  {
    xs == [] || (Ready(m, xs[0]) && AllReady(Got(m, xs[0]), xs[1..]))
  }

  function GotAll(m: Mp, xs: seq<MpCommand>): Mp
    requires AllReady(m, xs)
    decreases xs
  {
    if xs == [] then m else GotAll(Got(m, xs[0]), xs[1..])
  }

  function Plains(cmds: seq<Command>): seq<MpCommand>
  {
    if cmds == [] then [] else [Plain(cmds[0])] + Plains(cmds[1..])
  }

  lemma {:induction false} GotStep(m: Mp, c: Command, cmds: seq<Command>)
    requires Ready(m, Plain(c)) && AllReady(Got(m, Plain(c)), Plains(cmds))
    ensures AllReady(m, Plains([c] + cmds)) && GotAll(m, Plains([c] + cmds)) == GotAll(Got(m, Plain(c)), Plains(cmds))
  {
    assert ([c] + cmds)[1..] == cmds;
    assert Plains([c] + cmds) == [Plain(c)] + Plains(cmds);
    assert ([Plain(c)] + Plains(cmds))[1..] == Plains(cmds);
  }

  // The three commands of a piece.
  lemma {:induction false} GotPiece(m: Mp, name: string, from: nat, to: nat, cmds: seq<Command>)
    requires from <= to && m.filestart >= 0 && (m.data ==> m.cmdsLength <= m.hdrStart)
    ensures var t := AfterPiece(m, name, from, to);
            AllReady(t, Plains(cmds)) ==>
              && AllReady(m, Plains([FileCmd(name), StartCmd(from), EndCmd(to)] + cmds))
              && GotAll(m, Plains([FileCmd(name), StartCmd(from), EndCmd(to)] + cmds)) == GotAll(t, Plains(cmds))
  {
    hide AllReady, GotAll;
    var left := m.hdrStart - m.cmdsLength;
    var end := if to - from >= left then from + left else to;
    var m1 := Got(m, Plain(FileCmd(name)));
    var m2 := Got(m1, Plain(StartCmd(from)));
    var m3 := Got(m2, Plain(EndCmd(to)));
    if m.data {
      assert m.these + [FileCmd(name)] + [StartCmd(from)] + [EndCmd(end)]
             == m.these + [FileCmd(name), StartCmd(from), EndCmd(end)];
    }
    if AllReady(m3, Plains(cmds)) {
      GotStep(m2, EndCmd(to), cmds);
      GotStep(m1, StartCmd(from), [EndCmd(to)] + cmds);
      GotStep(m, FileCmd(name), [StartCmd(from)] + ([EndCmd(to)] + cmds));
      assert [FileCmd(name), StartCmd(from), EndCmd(to)] + cmds
             == [FileCmd(name)] + ([StartCmd(from)] + ([EndCmd(to)] + cmds));
    }
  }

  function Least(x: int, y: int): int
  {
    if x < y then x else y
  }

  // Running a stored part's commands through getmpcommand cuts them to the data, and counts the data.
  lemma {:induction false} Collected(m: Mp, items: seq<Item>)
    requires Ordered(items) && m.filestart >= 0 && (m.data ==> m.cmdsLength <= m.hdrStart)
    ensures CollectedIs(m, items)
    decreases items
  {
    hide AllReady, GotAll;
    var left: nat := if m.data then m.hdrStart - m.cmdsLength else 0;
    if items == [] {
      NothingGot(m);
      assert m.these + [] == m.these;
      return;
    }
    LengthPositive(items[1..]);
    match items[0] {
      case Piece(name, from, to) =>
        var t := AfterPiece(m, name, from, to);
        Collected(t, items[1..]);
        CollectedPiece(m, items);
      case Remove(name) =>
        var t := m.(these := m.these + [UnlinkCmd(name)]);
        Collected(t, items[1..]);
        GotStep(m, UnlinkCmd(name), Expand(items[1..]));
        var rest := Clip(items[1..], left, m.data);
        assert ([items[0]] + rest)[1..] == rest;
        Assoc(m.these, [UnlinkCmd(name)], Expand(rest));
      case Other =>
        Collected(m, items[1..]);
        GotStep(m, OtherCmd, Expand(items[1..]));
    }
  }

  // The state after a piece.
  function AfterPiece(m: Mp, name: string, from: nat, to: nat): Mp
    requires from <= to && (m.data ==> m.cmdsLength <= m.hdrStart)
  {
    if !m.data then m
    else
      var left := m.hdrStart - m.cmdsLength;
      var end := if to - from >= left then from + left else to;
      Mp(m.partsLength + end - from, m.cmdsLength + to - from, to - from < left, m.hdrStart, from,
         m.these + [FileCmd(name), StartCmd(from), EndCmd(end)])
  }

  predicate CollectedIs(m: Mp, items: seq<Item>)
    requires m.data ==> m.cmdsLength <= m.hdrStart
  {
    var cmds := Plains(Expand(items));
    var left: nat := if m.data then m.hdrStart - m.cmdsLength else 0;
    && AllReady(m, cmds)
    && GotAll(m, cmds).these == m.these + Expand(Clip(items, left, m.data))
    && GotAll(m, cmds).partsLength == m.partsLength + if m.data then Least(left, Length(items)) else 0
  }

  lemma {:induction false} CollectedPiece(m: Mp, items: seq<Item>)
    requires items != [] && items[0].Piece? && items[0].from <= items[0].to && Length(items[1..]) >= 0
    requires m.filestart >= 0 && (m.data ==> m.cmdsLength <= m.hdrStart)
    requires CollectedIs(AfterPiece(m, items[0].name, items[0].from, items[0].to), items[1..])
    ensures CollectedIs(m, items)
  {
    hide AllReady, GotAll;
    var Piece(name, from, to) := items[0];
    var t := AfterPiece(m, name, from, to);
    GotPiece(m, name, from, to, Expand(items[1..]));
    if m.data {
      var left := m.hdrStart - m.cmdsLength;
      var end := if to - from >= left then from + left else to;
      var rest := Clip(items[1..], if t.data then left - (to - from) else 0, t.data);
      ExpandPiece(name, from, end, rest);
      Assoc(m.these, [FileCmd(name), StartCmd(from), EndCmd(end)], Expand(rest));
    }
  }

  lemma {:induction false} NothingGot(m: Mp)
    ensures AllReady(m, Plains(Expand([]))) && GotAll(m, Plains(Expand([]))) == m
  {
  }

  lemma {:induction false} LengthPositive(items: seq<Item>)
    requires Ordered(items)
    ensures Length(items) >= 0
  {
    if items != [] {
      LengthPositive(items[1..]);
    }
  }

  lemma {:induction false} ExpandPiece(name: string, from: nat, to: nat, rest: seq<Item>)
    ensures Expand([Piece(name, from, to)] + rest) == [FileCmd(name), StartCmd(from), EndCmd(to)] + Expand(rest)
  {
    assert ([Piece(name, from, to)] + rest)[1..] == rest;
  }

  // ----- The directory of parts

  // A part as it is kept: what it and its header are, and how much of that is data.
  datatype Stored = Stored(items: seq<Item>, dataLength: nat)

  type Spool = map<nat, Stored>

  // A part that comes: its number, counted from 0, its commands, and where in them its data and header lie.
  datatype Arrival = Arrival(part: nat, items: seq<Item>, dataStart: nat, dataEnd: nat, hdrEnd: nat)

  predicate Proper(a: Arrival)
  {
    Ordered(a.items) && a.dataStart <= a.dataEnd <= a.hdrEnd
  }

  // LinkCmds, with its test for an empty range.
  function LinkCmds(items: seq<Item>, obase: int, ofend: int): seq<Item>
    requires Ordered(items)
  {
    if ofend <= obase then [] else Linked(items, 0, obase, ofend)
  }

  function StoredOf(a: Arrival): Stored
    requires Proper(a)
  {
    Stored(LinkCmds(a.items, a.dataStart, a.hdrEnd), a.dataEnd - a.dataStart)
  }

  function OwnOf(a: Arrival): seq<Item>
    requires Proper(a)
  {
    LinkCmds(a.items, a.dataStart, a.dataEnd)
  }

  // The parts below `k`, in order.
  function Whole(dir: Spool, a: Arrival, k: nat): seq<Item>
    requires Proper(a) && forall p: nat :: p < k ==> p in dir || p == a.part
  {
    if k == 0 then []
    else
      Whole(dir, a, k - 1) +
      if k - 1 == a.part then OwnOf(a) else Clip(dir[k - 1].items, dir[k - 1].dataLength, true)
  }

  // What the part's data counts for.
  function Weight(s: Stored): int
  {
    Least(s.dataLength, Length(s.items))
  }

  function Weights(dir: Spool, order: seq<nat>): int
    requires forall p :: p in order ==> p in dir
  {
    if order == [] then 0 else Weights(dir, order[..|order| - 1]) + Weight(dir[order[|order| - 1]])
  }

  predicate AllThere(dir: Spool, max: nat, part: nat)
  {
    forall p: nat :: p < max ==> p in dir || p == part
  }

  // A listing of the directory: each part once, in any order.
  ghost predicate Lists(order: seq<nat>, dir: Spool)
  {
    && (forall p :: p in order <==> p in dir)
    && (forall i, j :: 0 <= i < j < |order| ==> order[i] != order[j])
  }

  datatype Outcome = Waiting(dir: Spool) | Complete(cmds: seq<Command>, partsLength: int)

  function Arrived(dir: Spool, max: nat, a: Arrival, order: seq<nat>): Outcome
    requires Proper(a) && forall p :: p in order ==> p in dir
  {
    if AllThere(dir, max, a.part) then
      Complete(Expand(Whole(dir, a, max)), a.dataEnd - a.dataStart + Weights(dir, order))
    else Waiting(dir[a.part := StoredOf(a)])
  }

  // Read a stored part through getmpcommand.
  method ReadPart(s: Stored, partsLength: int) returns (these: seq<Command>, length: int)
    requires Ordered(s.items)
    ensures these == Expand(Clip(s.items, s.dataLength, true)) && length == partsLength + Weight(s)
  {
    var c := new Collector(partsLength);
    GetMpCommand(c, HdrLength(s.dataLength));
    ghost var m := c.Now();
    Collected(m, s.items);
    hide GotAll, AllReady, Clip, Got, Ready, Expand, Plains, Length;
    var cmds := Plains(Expand(s.items));
    var i := 0;
    while i < |cmds|
      invariant 0 <= i <= |cmds| && AllReady(c.Now(), cmds[i..]) && GotAll(c.Now(), cmds[i..]) == GotAll(m, cmds)
      invariant fresh(c)
    {
      GotNext(c.Now(), cmds[i..]);
      assert cmds[i..][1..] == cmds[i + 1..];
      GetMpCommand(c, cmds[i]);
      i := i + 1;
    }
    GotNone(c.Now(), cmds[i..]);
    these, length := c.these, c.partsLength;
  }

  lemma {:induction false} GotNext(m: Mp, xs: seq<MpCommand>)
    requires xs != [] && AllReady(m, xs)
    ensures Ready(m, xs[0]) && AllReady(Got(m, xs[0]), xs[1..]) && GotAll(m, xs) == GotAll(Got(m, xs[0]), xs[1..])
  {
  }

  lemma {:induction false} GotNone(m: Mp, xs: seq<MpCommand>)
    requires xs == [] && AllReady(m, xs)
    ensures GotAll(m, xs) == m
  {
  }

  lemma {:induction false} ExpandConcat(x: seq<Item>, y: seq<Item>)
    ensures Expand(x + y) == Expand(x) + Expand(y)
  {
    hide CommandsOf;
    if x == [] {
      assert x + y == y;
    } else {
      ExpandConcat(x[1..], y);
      assert (x + y)[1..] == x[1..] + y;
      Assoc(CommandsOf(x[0]), Expand(x[1..]), Expand(y));
    }
  }

  class Directory {
    var stored: Spool

    constructor ()
      ensures stored == map[]
    {
      stored := map[];
    }
  }

  predicate GoodSpool(dir: Spool, max: nat)
  {
    forall p :: p in dir ==> p < max && Ordered(dir[p].items)
  }

  // Which parts there are.
  method MarkParts(max: nat, part: nat, order: seq<nat>, ghost dir: Spool) returns (bitvec: array<bool>)
    requires part < max && Lists(order, dir) && GoodSpool(dir, max)
    ensures fresh(bitvec) && bitvec.Length == max && forall p: nat :: p < max ==> bitvec[p] == (p in dir || p == part)
  {
    bitvec := new bool[max](_ => false);
    bitvec[part] := true;
    var i := 0;
    while i < |order|
      invariant 0 <= i <= |order|
      invariant forall p: nat :: p < max ==> bitvec[p] == (p in order[..i] || p == part)
    {
      assert order[..i + 1] == order[..i] + [order[i]];
      assert order[i] in order;
      bitvec[order[i]] := true;
      i := i + 1;
    }
    assert order[..i] == order;
  }

  // Read all the stored parts.
  method ReadParts(d: Directory, max: nat, order: seq<nat>, first: int)
      returns (partvec: array<seq<Command>>, partsLength: int)
    requires Lists(order, d.stored) && GoodSpool(d.stored, max)
    ensures fresh(partvec) && partvec.Length == max && partsLength == first + Weights(d.stored, order)
    ensures forall p: nat :: p in d.stored ==>
              p < max && partvec[p] == Expand(Clip(d.stored[p].items, d.stored[p].dataLength, true))
  {
    hide Clip, Weight, Expand;
    partvec := new seq<Command>[max](_ => []);
    partsLength := first;
    var i := 0;
    while i < |order|
      invariant 0 <= i <= |order| && partsLength == first + Weights(d.stored, order[..i])
      invariant forall p: nat :: p in order[..i] ==>
                  p < max && partvec[p] == Expand(Clip(d.stored[p].items, d.stored[p].dataLength, true))
    {
      var p := order[i];
      assert p in order && order[..i + 1][..i] == order[..i];
      assert order[..i + 1] == order[..i] + [p];
      partvec[p], partsLength := ReadPart(d.stored[p], partsLength);
      i := i + 1;
    }
    assert order[..i] == order;
  }

  // Put the commands of the parts one after another.
  method JoinParts(max: nat, a: Arrival, partvec: array<seq<Command>>, ghost dir: Spool) returns (all: seq<Command>)
    requires Proper(a) && AllThere(dir, max, a.part) && partvec.Length == max
    requires forall p: nat :: p in dir ==> p < max && partvec[p] == Expand(Clip(dir[p].items, dir[p].dataLength, true))
    ensures all == Expand(Whole(dir, a, max))
  {
    hide Clip, OwnOf, Expand, Whole;
    WholeNone(dir, a);
    all := [];
    var partno := 0;
    while partno < max
      invariant 0 <= partno <= max && all == Expand(Whole(dir, a, partno))
    {
      WholeStep(dir, a, partno + 1);
      all := all + if partno == a.part then Expand(OwnOf(a)) else partvec[partno];
      partno := partno + 1;
    }
  }

  lemma {:induction false} WholeNone(dir: Spool, a: Arrival)
    requires Proper(a)
    ensures Expand(Whole(dir, a, 0)) == []
  {
  }

  // Take a part in: keep it, or put the message together.
  method TakePart(d: Directory, max: nat, a: Arrival, order: seq<nat>)
      returns (done: bool, all: seq<Command>, partsLength: int)
    requires Proper(a) && a.part < max && Lists(order, d.stored) && GoodSpool(d.stored, max)
    modifies d
    ensures var o := Arrived(old(d.stored), max, a, order);
            && done == o.Complete?
            && (done ==> o == Complete(all, partsLength) && d.stored == map[])
            && (!done ==> o == Waiting(d.stored))
  {
    hide Clip, Weight, StoredOf, OwnOf, Whole, Expand, Weights;
    var bitvec := MarkParts(max, a.part, order, d.stored);
    all, partsLength := [], a.dataEnd - a.dataStart;
    var partno := 0;
    while partno < max
      invariant 0 <= partno <= max && forall p: nat :: p < partno ==> p in d.stored || p == a.part
    {
      if !bitvec[partno] {
        d.stored := d.stored[a.part := StoredOf(a)];
        return false, all, partsLength;
      }
      partno := partno + 1;
    }
    var partvec;
    partvec, partsLength := ReadParts(d, max, order, partsLength);
    all := JoinParts(max, a, partvec, d.stored);
    d.stored := map[];
    done := true;
  }

  lemma {:induction false} WholeStep(dir: Spool, a: Arrival, k: nat)
    requires Proper(a) && k > 0 && AllThere(dir, k, a.part)
    ensures Expand(Whole(dir, a, k)) == Expand(Whole(dir, a, k - 1)) +
            if k - 1 == a.part then Expand(OwnOf(a)) else Expand(Clip(dir[k - 1].items, dir[k - 1].dataLength, true))
  {
    hide Clip, OwnOf;
    ExpandConcat(Whole(dir, a, k - 1),
                 if k - 1 == a.part then OwnOf(a) else Clip(dir[k - 1].items, dir[k - 1].dataLength, true));
  }

  // ----- What comes out

  // The part's data, among the bytes that its commands describe.
  predicate RightArrival(a: Arrival, files: Files, data: seq<Byte>)
  {
    && Proper(a) && Available(a.items, files) && a.hdrEnd <= |Bytes(a.items, files)|
    && data == Bytes(a.items, files)[a.dataStart..a.dataEnd]
  }

  predicate RightPart(s: Stored, files: Files, data: seq<Byte>)
  {
    && Ordered(s.items) && Available(s.items, files) && s.dataLength == |data| <= |Bytes(s.items, files)|
    && Bytes(s.items, files)[..|data|] == data
  }

  lemma {:induction false} LinkCmdsBytes(items: seq<Item>, files: Files, obase: nat, ofend: nat)
    requires Available(items, files) && obase <= ofend <= |Bytes(items, files)|
    ensures Ordered(items) && Available(LinkCmds(items, obase, ofend), files)
    ensures Bytes(LinkCmds(items, obase, ofend), files) == Bytes(items, files)[obase..ofend]
  {
    AvailableOrdered(items, files);
    NoItems(files);
    if obase < ofend {
      LinkedBytes(items, files, 0, obase, ofend);
    }
  }

  lemma {:induction false} StoredRight(a: Arrival, files: Files, data: seq<Byte>)
    requires RightArrival(a, files, data)
    ensures RightPart(StoredOf(a), files, data)
    ensures Available(OwnOf(a), files) && Bytes(OwnOf(a), files) == data
  {
    hide LinkCmds, Available, Bytes;
    LinkCmdsBytes(a.items, files, a.dataStart, a.hdrEnd);
    LinkCmdsBytes(a.items, files, a.dataStart, a.dataEnd);
    AvailableOrdered(LinkCmds(a.items, a.dataStart, a.hdrEnd), files);
    var m := Bytes(a.items, files);
    assert m[a.dataStart..a.hdrEnd][..a.dataEnd - a.dataStart] == m[a.dataStart..a.dataEnd];
  }

  lemma {:induction false} AvailableConcat(x: seq<Item>, y: seq<Item>, files: Files)
    requires Available(x, files) && Available(y, files)
    ensures Available(x + y, files) && Bytes(x + y, files) == Bytes(x, files) + Bytes(y, files)
  {
    if x == [] {
      assert x + y == y;
    } else {
      AvailableConcat(x[1..], y, files);
      assert (x + y)[1..] == x[1..] + y;
      Assoc(if x[0].Piece? then files[x[0].name][x[0].from..x[0].to] else [], Bytes(x[1..], files), Bytes(y, files));
    }
  }

  // The data of the parts below `k`.
  function Joined(parts: seq<seq<Byte>>, k: nat): seq<Byte>
    requires k <= |parts|
  {
    if k == 0 then [] else Joined(parts, k - 1) + parts[k - 1]
  }

  predicate RightSpool(dir: Spool, files: Files, parts: seq<seq<Byte>>)
  {
    forall p :: p in dir ==> p < |parts| && RightPart(dir[p], files, parts[p])
  }

  lemma {:induction false} WholeBytes(dir: Spool, a: Arrival, k: nat, files: Files, parts: seq<seq<Byte>>)
    requires RightSpool(dir, files, parts) && a.part < |parts| && RightArrival(a, files, parts[a.part])
    requires k <= |parts| && AllThere(dir, k, a.part)
    ensures Available(Whole(dir, a, k), files) && Bytes(Whole(dir, a, k), files) == Joined(parts, k)
  {
    hide Bytes, Available, Clip, OwnOf;
    NoItems(files);
    if k > 0 {
      WholeBytes(dir, a, k - 1, files, parts);
      StoredRight(a, files, parts[a.part]);
      if k - 1 != a.part {
        ClipBytes(dir[k - 1].items, files, dir[k - 1].dataLength, true);
      }
      AvailableConcat(Whole(dir, a, k - 1),
                      if k - 1 == a.part then OwnOf(a) else Clip(dir[k - 1].items, dir[k - 1].dataLength, true), files);
    }
  }

  lemma {:induction false} RightWeight(s: Stored, files: Files, data: seq<Byte>)
    requires RightPart(s, files, data)
    ensures Weight(s) == |data|
  {
    LengthUp(s.items, files);
  }

  // The lengths of the parts below `k` but for one.
  function Others(parts: seq<seq<Byte>>, k: nat, part: nat): nat
    requires k <= |parts|
  {
    if k == 0 then 0 else Others(parts, k - 1, part) + if k - 1 == part then 0 else |parts[k - 1]|
  }

  lemma {:induction false} OthersIs(parts: seq<seq<Byte>>, k: nat, part: nat)
    requires k <= |parts| && part < |parts|
    ensures |Joined(parts, k)| == Others(parts, k, part) + if part < k then |parts[part]| else 0
  {
    if k > 0 {
      OthersIs(parts, k - 1, part);
    }
  }

  lemma {:induction false} WeightsSplit(dir: Spool, x: seq<nat>, y: seq<nat>)
    requires forall p :: p in x + y ==> p in dir
    ensures Weights(dir, x + y) == Weights(dir, x) + Weights(dir, y)
    decreases |y|
  {
    hide Weight;
    if y == [] {
      assert x + y == x;
    } else {
      assert (x + y)[..|x + y| - 1] == x + y[..|y| - 1];
      WeightsSplit(dir, x, y[..|y| - 1]);
    }
  }

  // The order of the listing does not matter.
  lemma {:induction false} WeightsAre(dir: Spool, order: seq<nat>, k: nat, part: nat, files: Files,
                                      parts: seq<seq<Byte>>)
    requires RightSpool(dir, files, parts) && k <= |parts|
    requires forall p: nat :: p in order <==> p < k && p != part
    requires forall i, j :: 0 <= i < j < |order| ==> order[i] != order[j]
    requires forall p :: p in order ==> p in dir
    ensures Weights(dir, order) == Others(parts, k, part)
  {
    hide RightPart, Weight;
    if k == 0 {
      FirstIn(order);
    } else if k - 1 == part {
      WeightsAre(dir, order, k - 1, part, files, parts);
    } else {
      assert k - 1 in order;
      var i :| 0 <= i < |order| && order[i] == k - 1;
      WeightsWithout(dir, order, i);
      RightWeight(dir[k - 1], files, parts[k - 1]);
      Without(order, i, k, part);
      WeightsAre(dir, order[..i] + order[i + 1..], k - 1, part, files, parts);
    }
  }

  lemma {:induction false} FirstIn<T>(s: seq<T>)
    ensures s == [] || s[0] in s
  {
  }

  lemma {:induction false} WeightsWithout(dir: Spool, order: seq<nat>, i: nat)
    requires i < |order| && forall p :: p in order ==> p in dir
    ensures forall p :: p in order[..i] + order[i + 1..] ==> p in dir
    ensures Weights(dir, order) == Weights(dir, order[..i] + order[i + 1..]) + Weight(dir[order[i]])
  {
    hide Weight, Weights;
    var x, p, y := order[..i], order[i], order[i + 1..];
    assert order == x + [p] + y;
    WeightsSplit(dir, x + [p], y);
    WeightsSplit(dir, x, [p]);
    WeightsSplit(dir, x, y);
    WeightOne(dir, p);
  }

  lemma {:induction false} WeightOne(dir: Spool, p: nat)
    requires p in dir
    ensures Weights(dir, [p]) == Weight(dir[p])
  {
    assert [p][..0] == [];
  }

  lemma {:induction false} Without(order: seq<nat>, i: nat, k: nat, part: nat)
    requires k > 0 && i < |order| && order[i] == k - 1 != part
    requires forall p: nat :: p in order <==> p < k && p != part
    requires forall i, j :: 0 <= i < j < |order| ==> order[i] != order[j]
    ensures var o := order[..i] + order[i + 1..];
            && (forall p: nat :: p in o <==> p < k - 1 && p != part)
            && (forall i, j :: 0 <= i < j < |o| ==> o[i] != o[j])
  {
    var o := order[..i] + order[i + 1..];
    forall p: nat
      ensures p in o <==> p < k - 1 && p != part
    {
      if p in o {
        var j :| 0 <= j < |o| && o[j] == p;
        assert o[j] == order[if j < i then j else j + 1];
        assert p in order;
      }
      if p < k - 1 && p != part {
        assert p in order;
        var j :| 0 <= j < |order| && order[j] == p;
        assert o[if j < i then j else j - 1] == p;
      }
    }
  }

  // ----- Every run of arrivals

  function Keep(dir: Spool, max: nat, a: Arrival): Spool
    requires Proper(a)
  {
    if AllThere(dir, max, a.part) then map[] else dir[a.part := StoredOf(a)]
  }

  predicate AllProper(arrivals: seq<Arrival>)
  {
    forall i :: 0 <= i < |arrivals| ==> Proper(arrivals[i])
  }

  function SpoolAfter(arrivals: seq<Arrival>, max: nat): Spool
    requires AllProper(arrivals)
  {
    if arrivals == [] then map[]
    else Keep(SpoolAfter(arrivals[..|arrivals| - 1], max), max, arrivals[|arrivals| - 1])
  }

  function Every(max: nat): set<nat>
  {
    if max == 0 then {} else Every(max - 1) + {max - 1}
  }

  lemma {:induction false} EveryIs(max: nat)
    ensures forall p: nat :: p in Every(max) <==> p < max
  {
    if max > 0 {
      EveryIs(max - 1);
    }
  }

  // The parts that have come since the message was last complete.
  function Since(arrivals: seq<Arrival>, max: nat): set<nat>
  {
    if arrivals == [] then {}
    else
      var s := Since(arrivals[..|arrivals| - 1], max) + {arrivals[|arrivals| - 1].part};
      if s == Every(max) then {} else s
  }

  predicate AllRight(arrivals: seq<Arrival>, files: Files, parts: seq<seq<Byte>>)
  {
    forall i :: 0 <= i < |arrivals| ==>
      arrivals[i].part < |parts| && RightArrival(arrivals[i], files, parts[arrivals[i].part])
  }

  lemma {:induction false} SpoolIs(arrivals: seq<Arrival>, files: Files, parts: seq<seq<Byte>>)
    requires AllRight(arrivals, files, parts) && parts != []
    ensures AllProper(arrivals)
    ensures var dir := SpoolAfter(arrivals, |parts|);
            RightSpool(dir, files, parts) && dir.Keys == Since(arrivals, |parts|) && dir.Keys < Every(|parts|)
  {
    hide RightPart, StoredOf, Every;
    EveryIs(|parts|);
    RightProper(arrivals, files, parts);
    var max := |parts|;
    if arrivals == [] {
      assert 0 in Every(max);
    } else {
      var front, a := arrivals[..|arrivals| - 1], arrivals[|arrivals| - 1];
      SpoolIs(front, files, parts);
      StoredRight(a, files, parts[a.part]);
      ThereIff(SpoolAfter(front, max), max, a.part);
      if max == 1 {
        assert Since(arrivals, max) == {};
        assert 0 in Every(max);
      } else {
        assert Since(arrivals, max) == {} ==> 0 in Every(max);
      }
    }
  }

  lemma {:induction false} RightProper(arrivals: seq<Arrival>, files: Files, parts: seq<seq<Byte>>)
    requires AllRight(arrivals, files, parts)
    ensures AllProper(arrivals)
  {
  }

  lemma {:induction false} ThereIff(dir: Spool, max: nat, part: nat)
    requires dir.Keys <= Every(max) && part < max
    ensures AllThere(dir, max, part) <==> dir.Keys + {part} == Every(max)
  {
    EveryIs(max);
    if dir.Keys + {part} == Every(max) {
      forall p: nat | p < max
        ensures p in dir || p == part
      {
        assert p in Every(max);
      }
    }
  }

  // Part `p` last came as the `i`-th.
  predicate LastCame(arrivals: seq<Arrival>, p: nat, i: nat)
  {
    i < |arrivals| && arrivals[i].part == p && forall j :: i < j < |arrivals| ==> arrivals[j].part != p
  }

  // Of a part that comes again the last is kept; and what TakePart keeps is what is kept.
  lemma {:induction false} LastKept(arrivals: seq<Arrival>, max: nat, p: nat) returns (i: nat)
    requires AllProper(arrivals) && p in SpoolAfter(arrivals, max)
    ensures LastCame(arrivals, p, i) && SpoolAfter(arrivals, max)[p] == StoredOf(arrivals[i])
  {
    var n := |arrivals| - 1;
    if arrivals[n].part == p {
      i := n;
    } else {
      i := LastKept(arrivals[..n], max, p);
    }
  }

  lemma {:induction false} ArrivedKeeps(dir: Spool, max: nat, a: Arrival, order: seq<nat>)
    requires Proper(a) && forall p :: p in order ==> p in dir
    ensures Keep(dir, max, a) == match Arrived(dir, max, a, order) case Waiting(d) => d case Complete(_, _) => map[]
  {
  }

  // Whatever parts come, in whatever order and however often: the message is put together exactly
  // when the last of its parts comes, that part is not also in the directory, and the result is the
  // data of the parts in order, counted once each.
  lemma {:induction false} Reassembled(arrivals: seq<Arrival>, a: Arrival, order: seq<nat>, files: Files,
                                       parts: seq<seq<Byte>>)
    requires AllRight(arrivals, files, parts) && a.part < |parts| && RightArrival(a, files, parts[a.part])
    requires AllProper(arrivals) && Lists(order, SpoolAfter(arrivals, |parts|))
    ensures var dir := SpoolAfter(arrivals, |parts|);
            var o := Arrived(dir, |parts|, a, order);
            && (o.Complete? <==> Since(arrivals, |parts|) + {a.part} == Every(|parts|))
            && (o.Complete? ==>
                  && a.part !in dir && AllThere(dir, |parts|, a.part)
                  && o.cmds == Expand(Whole(dir, a, |parts|))
                  && Available(Whole(dir, a, |parts|), files)
                  && Bytes(Whole(dir, a, |parts|), files) == Joined(parts, |parts|)
                  && o.partsLength == |Joined(parts, |parts|)|)
  {
    hide RightPart, Whole, Available, Bytes, Weights;
    var max := |parts|;
    var dir := SpoolAfter(arrivals, max);
    SpoolIs(arrivals, files, parts);
    ThereIff(dir, max, a.part);
    EveryIs(max);
    if AllThere(dir, max, a.part) {
      WholeBytes(dir, a, max, files, parts);
      assert dir.Keys == Every(max) - {a.part};
      assert forall p: nat :: p in dir <==> p in Every(max) && p != a.part;
      WeightsAre(dir, order, max, a.part, files, parts);
      OthersIs(parts, max, a.part);
    }
  }
}
