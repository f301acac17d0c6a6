/** The part list a sender works from, built from the message's commands file (HTdaemon/commands.c). */
module Commands {
  import opened Channel
  import opened Parts
  import opened ReadBuffer

  // The commands that bear on the parts.  Numbers are unsigned.
  datatype Command =
    | FileCmd(name: string)
    | StartCmd(number: nat)
    | EndCmd(number: nat)
    | UnlinkCmd(name: string)
    | OtherCmd

  predicate Fits(c: Command)
  {
    (c.StartCmd? || c.EndCmd?) ==> c.number < ULONG
  }

  // The parts so far, and the length of the message so far.
  datatype Built = Built(parts: seq<Part>, length: nat)

  predicate Numbers(b: Built)
  {
    b.length < ULONG && (b.parts != [] ==> b.parts[|b.parts| - 1].filestart < ULONG)
  }

  function WithLast(parts: seq<Part>, p: Part): seq<Part>
    requires parts != []
  {
    parts[..|parts| - 1] + [p]
  }

  // The first part of this file is to be removed when the message has gone.
  function Marked(parts: seq<Part>, name: string): seq<Part>
  {
    if parts == [] then [Part(name, 0, 0, 0, true)]
    else if parts[0].filename == name then [parts[0].(unlink := true)] + parts[1..]
    else [parts[0]] + Marked(parts[1..], name)
  }

  // `start` and `end` need a file to apply to.
  predicate Refused(b: Built, c: Command)
  {
    (c.StartCmd? || c.EndCmd?) && b.parts == []
  }

  function Added(b: Built, c: Command): Built
    requires Numbers(b) && Fits(c) && !Refused(b, c)
  {
    match c
    case FileCmd(name) => b.(parts := b.parts + [Part(name, 0, 0, 0, false)])
    case StartCmd(n) =>
      b.(parts := WithLast(b.parts, b.parts[|b.parts| - 1].(filestart := n, msgstart := b.length)))
    case EndCmd(n) =>
      var p := b.parts[|b.parts| - 1];
      var length := Wrap(b.length + n - p.filestart);
      Built(WithLast(b.parts, p.(msgend := length)), length)
    case UnlinkCmd(name) => b.(parts := Marked(b.parts, name))
    case OtherCmd => b
  }

  lemma {:induction false} AddedNumbers(b: Built, c: Command)
    requires Numbers(b) && Fits(c) && !Refused(b, c)
    ensures Numbers(Added(b, c))
  {
    if c.UnlinkCmd? {
      MarkedAt(b.parts, c.name);
    }
  }

  // Marking changes one flag, or adds one part that has no bytes.
  lemma {:induction false} MarkedAt(parts: seq<Part>, name: string)
    ensures var r := Marked(parts, name);
            && |parts| <= |r| <= |parts| + 1
            && (|r| > |parts| ==> r == parts + [Part(name, 0, 0, 0, true)])
            && forall i :: 0 <= i < |parts| ==> r[i] == parts[i].(unlink := r[i].unlink)
  {
    if parts != [] {
      MarkedAt(parts[1..], name);
    }
  }

  class Builder {
    var parts: seq<Part>
    var mesgLength: nat

    function Now(): Built
      reads this
    {
      Built(parts, mesgLength)
    }

    constructor ()
      ensures Now() == Built([], 0)
    {
      parts, mesgLength := [], 0;
    }
  }

  method Unlink(b: Builder, name: string)
    modifies b`parts
    ensures b.parts == Marked(old(b.parts), name)
  {
    var i := 0;
    while i < |b.parts|
      invariant 0 <= i <= |b.parts| && unchanged(b)
      invariant Marked(b.parts, name) == b.parts[..i] + Marked(b.parts[i..], name)
    {
      if b.parts[i].filename == name {
        b.parts := b.parts[i := b.parts[i].(unlink := true)];
        return;
      }
      assert b.parts[i..][1..] == b.parts[i + 1..];
      i := i + 1;
    }
    b.parts := b.parts + [Part(name, 0, 0, 0, true)];
  }

  method GetCommand(b: Builder, c: Command) returns (ok: bool)
    requires Numbers(b.Now()) && Fits(c)
    modifies b
    ensures ok <==> !Refused(old(b.Now()), c)
    ensures b.Now() == if ok then Added(old(b.Now()), c) else old(b.Now())
  {
    match c {
      case EndCmd(n) =>
        if b.parts == [] {
          return false;
        }
        var last := |b.parts| - 1;
        b.mesgLength := Wrap(b.mesgLength + n - b.parts[last].filestart);
        b.parts := b.parts[last := b.parts[last].(msgend := b.mesgLength)];
      case FileCmd(name) =>
        b.parts := b.parts + [Part(name, 0, 0, 0, false)];
      case StartCmd(n) =>
        if b.parts == [] {
          return false;
        }
        var last := |b.parts| - 1;
        b.parts := b.parts[last := b.parts[last].(filestart := n, msgstart := b.mesgLength)];
      case UnlinkCmd(name) =>
        Unlink(b, name);
      case OtherCmd =>
    }
    return true;
  }

  // The whole file of commands: the parts, and whether every command was accepted.
  datatype Outcome = Outcome(built: Built, ok: bool)

  function AllAdded(b: Built, cmds: seq<Command>): Outcome
    requires Numbers(b) && forall c :: c in cmds ==> Fits(c)
    decreases cmds
  {
    if cmds == [] then Outcome(b, true)
    else if Refused(b, cmds[0]) then Outcome(b, false)
    else AddedNumbers(b, cmds[0]); AllAdded(Added(b, cmds[0]), cmds[1..])
  }

  method ReadCmds(b: Builder, cmds: seq<Command>) returns (ok: bool)
    requires Numbers(b.Now()) && forall c :: c in cmds ==> Fits(c)
    modifies b
    ensures Outcome(b.Now(), ok) == AllAdded(old(b.Now()), cmds)
  {
    hide Added, Refused;
    var i := 0;
    while i < |cmds|
      invariant 0 <= i <= |cmds| && Numbers(b.Now())
      invariant AllAdded(old(b.Now()), cmds) == AllAdded(b.Now(), cmds[i..])
    {
      assert cmds[i..][1..] == cmds[i + 1..] && cmds[i] in cmds;
      ghost var was := b.Now();
      ok := GetCommand(b, cmds[i]);
      if !ok {
        return;
      }
      AddedNumbers(was, cmds[i]);
      i := i + 1;
    }
    return true;
  }

  // ----- What a well-formed commands file describes

  // A piece of a file, a file to be removed, or something else.
  datatype Item =
    | Piece(name: string, from: nat, to: nat)
    | Remove(name: string)
    | Other

  function CommandsOf(item: Item): seq<Command>
  {
    match item
    case Piece(name, from, to) => [FileCmd(name), StartCmd(from), EndCmd(to)]
    case Remove(name) => [UnlinkCmd(name)]
    case Other => [OtherCmd]
  }

  function Expand(items: seq<Item>): seq<Command>
  {
    if items == [] then [] else CommandsOf(items[0]) + Expand(items[1..])
  }

  // The pieces in order, and what they come to.
  function Length(items: seq<Item>): int
  {
    if items == [] then 0
    else (if items[0].Piece? then items[0].to - items[0].from else 0) + Length(items[1..])
  }

  predicate Available(items: seq<Item>, files: Files)
  {
    forall i :: 0 <= i < |items| && items[i].Piece? ==>
                  items[i].from <= items[i].to < ULONG
                  && items[i].name in files && items[i].to <= |files[items[i].name]|
  }

  function Bytes(items: seq<Item>, files: Files): seq<Byte>
    requires Available(items, files)
  {
    if items == [] then []
    else (if items[0].Piece? then files[items[0].name][items[0].from..items[0].to] else []) + Bytes(items[1..], files)
  }

  lemma {:induction false} LengthUp(items: seq<Item>, files: Files)
    requires Available(items, files)
    ensures Length(items) >= 0 && |Bytes(items, files)| == Length(items)
  {
    if items != [] {
      LengthUp(items[1..], files);
    }
  }

  lemma {:induction false} TiledMore(parts: seq<Part>, p: Part, from: nat, mid: nat, to: nat)
    requires Tiled(parts, from, mid) && Tiled([p], mid, to)
    ensures Tiled(parts + [p], from, to)
  {
    if parts == [] {
      assert parts + [p] == [p];
    } else {
      TiledMore(parts[1..], p, After(parts[0], from), mid, to);
      assert (parts + [p])[1..] == parts[1..] + [p];
    }
  }

  lemma {:induction false} ContentsMore(parts: seq<Part>, p: Part, files: Files)
    requires AllInFiles(parts, files) && InFile(p, files)
    ensures AllInFiles(parts + [p], files)
    ensures Contents(parts + [p], files) == Contents(parts, files) + Slice(p, files)
  {
    if parts == [] {
      assert parts + [p] == [p];
    } else {
      ContentsMore(parts[1..], p, files);
      assert (parts + [p])[1..] == parts[1..] + [p];
    }
  }

  // The unlink flags have no part in what the message is.
  lemma {:induction false} SameBytes(parts: seq<Part>, other: seq<Part>, files: Files, from: nat, to: nat)
    requires |parts| == |other| && AllInFiles(parts, files) && Tiled(parts, from, to)
    requires forall i :: 0 <= i < |parts| ==> other[i] == parts[i].(unlink := other[i].unlink)
    ensures AllInFiles(other, files) && Tiled(other, from, to) && Contents(other, files) == Contents(parts, files)
  {
    hide Slice, Contents;
    if parts != [] {
      SameBytes(parts[1..], other[1..], files, After(parts[0], from), to);
      assert Slice(other[0], files) == Slice(parts[0], files) by {
        SliceIs(parts[0], files);
        SliceIs(other[0], files);
      }
      ContentsUnfold(parts, files);
      ContentsUnfold(other, files);
    } else {
      assert other == parts;
    }
  }

  // The parts so far are the message so far.
  predicate Describes(b: Built, files: Files, bytes: seq<Byte>)
  {
    && Numbers(b) && AllInFiles(b.parts, files) && Tiled(b.parts, 0, b.length)
    && Contents(b.parts, files) == bytes && |bytes| == b.length
  }

  lemma {:induction false} AddStep(b: Built, c: Command, cmds: seq<Command>)
    requires Numbers(b) && Fits(c) && !Refused(b, c) && forall d :: d in cmds ==> Fits(d)
    ensures Numbers(Added(b, c)) && AllAdded(b, [c] + cmds) == AllAdded(Added(b, c), cmds)
  {
    AddedNumbers(b, c);
    assert ([c] + cmds)[1..] == cmds;
  }

  // file, start and end add one part at the end of the message.
  lemma {:induction false} PieceAdded(b: Built, name: string, from: nat, to: nat, cmds: seq<Command>)
    requires Numbers(b) && from <= to < ULONG && b.length + (to - from) < ULONG && forall d :: d in cmds ==> Fits(d)
    ensures var c := Built(b.parts + [Part(name, from, b.length, b.length + (to - from), false)],
            b.length + (to - from));
            Numbers(c) && AllAdded(b, [FileCmd(name), StartCmd(from), EndCmd(to)] + cmds) == AllAdded(c, cmds)
  {
    hide AllAdded;
    var b1 := Added(b, FileCmd(name));
    var b2 := Added(b1, StartCmd(from));
    AddStep(b, FileCmd(name), [StartCmd(from), EndCmd(to)] + cmds);
    AddStep(b1, StartCmd(from), [EndCmd(to)] + cmds);
    AddStep(b2, EndCmd(to), cmds);
    assert [FileCmd(name), StartCmd(from), EndCmd(to)] + cmds
           == [FileCmd(name)] + ([StartCmd(from), EndCmd(to)] + cmds);
    assert [StartCmd(from), EndCmd(to)] + cmds == [StartCmd(from)] + ([EndCmd(to)] + cmds);
    assert WithLast(b1.parts, b1.parts[|b1.parts| - 1].(filestart := from, msgstart := b.length))
           == b.parts + [Part(name, from, b.length, 0, false)];
  }

  lemma {:induction false} DescribesPiece(b: Built, files: Files, bytes: seq<Byte>, name: string, from: nat, to: nat)
    requires Describes(b, files, bytes) && from <= to < ULONG && b.length + (to - from) < ULONG
    requires name in files && to <= |files[name]|
    ensures Describes(Built(b.parts + [Part(name, from, b.length, b.length + (to - from), false)],
            b.length + (to - from)),
                      files, bytes + files[name][from..to])
  {
    hide Contents, Tiled;
    var p := Part(name, from, b.length, b.length + (to - from), false);
    TiledOne(p);
    TiledMore(b.parts, p, 0, b.length, p.msgend);
    ContentsMore(b.parts, p, files);
  }

  lemma {:induction false} TiledOne(p: Part)
    requires p.msgstart <= p.msgend
    ensures Tiled([p], p.msgstart, p.msgend)
  {
  }

  lemma {:induction false} DescribesUnlink(b: Built, files: Files, bytes: seq<Byte>, name: string)
    requires Describes(b, files, bytes)
    ensures Describes(Added(b, UnlinkCmd(name)), files, bytes)
  {
    hide Contents, Tiled, Marked;
    AddedNumbers(b, UnlinkCmd(name));
    var r := Marked(b.parts, name);
    MarkedAt(b.parts, name);
    if |r| == |b.parts| {
      SameBytes(b.parts, r, files, 0, b.length);
    } else {
      var p := Part(name, 0, 0, 0, true);
      BlankTiled(p, b.length);
      TiledMore(b.parts, p, 0, b.length, b.length);
      ContentsMore(b.parts, p, files);
    }
  }

  lemma {:induction false} BlankTiled(p: Part, at: nat)
    requires Blank(p)
    ensures Tiled([p], at, at)
  {
  }

  lemma {:induction false} ExpandFits(items: seq<Item>, files: Files)
    requires Available(items, files)
    ensures forall c :: c in Expand(items) ==> Fits(c)
  {
    if items != [] {
      ExpandFits(items[1..], files);
    }
  }

  lemma {:induction false} DescribeMore(b: Built, items: seq<Item>, files: Files, bytes: seq<Byte>)
    requires Describes(b, files, bytes) && Available(items, files) && b.length + Length(items) < ULONG
    requires forall c :: c in Expand(items) ==> Fits(c)
    ensures var r := AllAdded(b, Expand(items));
            r.ok && Describes(r.built, files, bytes + Bytes(items, files))
            && r.built.length == b.length + Length(items)
    decreases items
  {
    hide Describes, Wrap, Marked;
    DescribesNumbers(b, files, bytes);
    if items == [] {
      assert bytes + Bytes(items, files) == bytes;
      return;
    }
    var rest := items[1..];
    ExpandFits(rest, files);
    LengthUp(rest, files);
    match items[0] {
      case Piece(name, from, to) =>
        var piece := files[name][from..to];
        var c := Built(b.parts + [Part(name, from, b.length, b.length + (to - from), false)], b.length + (to - from));
        PieceAdded(b, name, from, to, Expand(rest));
        DescribesPiece(b, files, bytes, name, from, to);
        DescribeMore(c, rest, files, bytes + piece);
        assert bytes + piece + Bytes(rest, files) == bytes + Bytes(items, files);
      case Remove(name) =>
        AddStep(b, UnlinkCmd(name), Expand(rest));
        DescribesUnlink(b, files, bytes, name);
        DescribeMore(Added(b, UnlinkCmd(name)), rest, files, bytes);
        assert bytes + Bytes(items, files) == bytes + Bytes(rest, files);
      case Other =>
        AddStep(b, OtherCmd, Expand(rest));
        DescribeMore(b, rest, files, bytes);
        assert bytes + Bytes(items, files) == bytes + Bytes(rest, files);
    }
  }

  lemma {:induction false} DescribesNumbers(b: Built, files: Files, bytes: seq<Byte>)
    requires Describes(b, files, bytes)
    ensures Numbers(b) && |bytes| == b.length
  {
  }

  // The parts of a well-formed commands file tile the message, which is its pieces one after another.
  lemma {:induction false} PartsDescribe(items: seq<Item>, files: Files)
    requires Available(items, files) && Length(items) < ULONG
    ensures (forall c :: c in Expand(items) ==> Fits(c))
    ensures var r := AllAdded(Built([], 0), Expand(items));
            && r.ok && r.built.length == Length(items)
            && AllInFiles(r.built.parts, files) && Tiled(r.built.parts, 0, r.built.length)
            && Contents(r.built.parts, files) == Bytes(items, files)
  {
    ExpandFits(items, files);
    DescribeMore(Built([], 0), items, files, []);
    assert [] + Bytes(items, files) == Bytes(items, files);
  }

  // RecvMessage passes a received file on as a message of one piece, to be removed when it has gone:
  // what is sent on is what was received.
  function Relay(name: string, size: nat): seq<Item>
  {
    [Piece(name, 0, size), Remove(name)]
  }

  lemma {:induction false} Relayed(name: string, contents: seq<Byte>, files: Files)
    requires name in files && files[name] == contents && |contents| < ULONG
    ensures forall c :: c in Expand(Relay(name, |contents|)) ==> Fits(c)
    ensures var r := AllAdded(Built([], 0), Expand(Relay(name, |contents|)));
            && r.ok && AllInFiles(r.built.parts, files) && Contents(r.built.parts, files) == contents
            && ToRemove(r.built.parts) == {name}
  {
    hide AllAdded;
    var items := Relay(name, |contents|);
    RelayIs(name, contents, files);
    PartsDescribe(items, files);
    RemovesExactly(Built([], 0), Expand(items));
  }

  lemma {:induction false} RelayIs(name: string, contents: seq<Byte>, files: Files)
    requires name in files && files[name] == contents && |contents| < ULONG
    ensures var items := Relay(name, |contents|);
            Available(items, files) && Length(items) == |contents| && Bytes(items, files) == contents
            && Unlinks(Expand(items)) == {name}
  {
    hide Length, Bytes, Expand, Unlinks;
    var items := Relay(name, |contents|);
    var rest := items[1..];
    assert rest == [Remove(name)] && rest[1..] == [];
    NoItem(files);
    OneItem(rest, files);
    OneItem(items, files);
    var cmds := [FileCmd(name), StartCmd(0), EndCmd(|contents|), UnlinkCmd(name)];
    assert Expand(items) == cmds;
    assert cmds[1..] == [StartCmd(0), EndCmd(|contents|), UnlinkCmd(name)]
           && cmds[1..][1..] == [EndCmd(|contents|), UnlinkCmd(name)];
    assert [EndCmd(|contents|), UnlinkCmd(name)][1..] == [UnlinkCmd(name)] && [UnlinkCmd(name)][1..] == [];
    OneUnlink([UnlinkCmd(name)]);
    OneUnlink([EndCmd(|contents|), UnlinkCmd(name)]);
    OneUnlink(cmds[1..]);
    OneUnlink(cmds);
  }

  lemma {:induction false} NoItem(files: Files)
    ensures Available([], files) && Length([]) == 0 && Bytes([], files) == [] && Expand([]) == [] && Unlinks([]) == {}
  {
  }

  lemma {:induction false} OneItem(items: seq<Item>, files: Files)
    requires items != [] && Available(items, files)
    ensures Available(items[1..], files) && Expand(items) == CommandsOf(items[0]) + Expand(items[1..])
    ensures Length(items) == (if items[0].Piece? then items[0].to - items[0].from else 0) + Length(items[1..])
    ensures Bytes(items, files)
            == (if items[0].Piece? then files[items[0].name][items[0].from..items[0].to] else [])
               + Bytes(items[1..], files)
  {
  }

  lemma {:induction false} OneUnlink(cmds: seq<Command>)
    requires cmds != []
    ensures Unlinks(cmds) == (if cmds[0].UnlinkCmd? then {cmds[0].name} else {}) + Unlinks(cmds[1..])
  {
  }

  // ----- What is removed

  function ToRemove(parts: seq<Part>): set<string>
  {
    if parts == [] then {} else (if parts[0].unlink then {parts[0].filename} else {}) + ToRemove(parts[1..])
  }

  function Unlinks(cmds: seq<Command>): set<string>
  {
    if cmds == [] then {} else (if cmds[0].UnlinkCmd? then {cmds[0].name} else {}) + Unlinks(cmds[1..])
  }

  lemma {:induction false} MarkedRemoves(parts: seq<Part>, name: string)
    ensures ToRemove(Marked(parts, name)) == ToRemove(parts) + {name}
  {
    if parts != [] {
      if parts[0].filename != name {
        MarkedRemoves(parts[1..], name);
      }
      assert Marked(parts, name)[1..] == if parts[0].filename == name then parts[1..] else Marked(parts[1..], name);
    }
  }

  lemma {:induction false} ToRemoveConcat(x: seq<Part>, y: seq<Part>)
    ensures ToRemove(x + y) == ToRemove(x) + ToRemove(y)
  {
    if x == [] {
      assert x + y == y;
    } else {
      ToRemoveConcat(x[1..], y);
      assert (x + y)[1..] == x[1..] + y;
    }
  }

  lemma {:induction false} AddedRemoves(b: Built, c: Command)
    requires Numbers(b) && Fits(c) && !Refused(b, c)
    ensures ToRemove(Added(b, c).parts) == ToRemove(b.parts) + if c.UnlinkCmd? then {c.name} else {}
  {
    if c.UnlinkCmd? {
      MarkedRemoves(b.parts, c.name);
    } else if c.FileCmd? {
      ToRemoveConcat(b.parts, [Part(c.name, 0, 0, 0, false)]);
    } else if c.StartCmd? || c.EndCmd? {
      var last := |b.parts| - 1;
      var p := Added(b, c).parts[last];
      assert b.parts == b.parts[..last] + [b.parts[last]];
      ToRemoveConcat(b.parts[..last], [b.parts[last]]);
      ToRemoveConcat(b.parts[..last], [p]);
    }
  }

  // Whatever the commands, if they are accepted the files marked for removal are those named to be.
  lemma {:induction false} RemovesExactly(b: Built, cmds: seq<Command>)
    requires Numbers(b) && forall c :: c in cmds ==> Fits(c)
    ensures var r := AllAdded(b, cmds); r.ok ==> ToRemove(r.built.parts) == ToRemove(b.parts) + Unlinks(cmds)
    decreases cmds
  {
    hide Added, ToRemove;
    if cmds != [] && !Refused(b, cmds[0]) {
      AddedNumbers(b, cmds[0]);
      AddedRemoves(b, cmds[0]);
      RemovesExactly(Added(b, cmds[0]), cmds[1..]);
    }
  }
}
