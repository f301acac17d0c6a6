/** Escaping bytes that a circuit would swallow (HTdaemon/cook.c). */
module Cook {
  import opened Channel
  import opened Sequences

  const OFFSET := 40
  const DOLLAR: Byte := 36       // the escape characters are $, %, & and '
  const QUOTE: Byte := 39
  const RETURN: Byte := 13
  const LINE := 78

  // For each character the one that escapes it, or 0.
  type Table = t: seq<Byte> | |t| == 256 witness seq(256, _ => 0)

  type Bytes = seq<Byte>

  // The escape character of a group of 64.
  function EscapeOf(c: Byte): Byte
  {
    DOLLAR + c / 64
  }

  predicate IsEscape(c: Byte)
  {
    DOLLAR <= c <= QUOTE
  }

  // What decoding needs of a table: escape characters are those of their group and are themselves
  // escaped.
  predicate Decodable(t: Table, c: Byte)
  {
    t[c] == 0 || (t[c] == EscapeOf(c) && t[t[c]] != 0)
  }

  predicate Good(t: Table)
  {
    forall c: Byte :: Decodable(t, c)
  }

  // ----- The cooking table

  function TableA(): Table
  {
    seq(256, c requires 0 <= c < 256 =>
      if (c < 32 && c != 9 && c != 10) || IsEscape(c) || c >= 127 then EscapeOf(c) else 0)
  }

  lemma {:induction false} TableAGood()
    ensures Good(TableA())
    ensures TableA()[RETURN] != 0 && forall c: Byte :: TableA()[c] == 0 ==> c < 128
  {
  }

  // Only these may be selected.
  predicate Allowed(n: nat)
  {
    n <= 255 && !(OFFSET - 4 <= n < OFFSET + 64)
  }

  // Escape a character, its escape character, and so on until one is escaped already.
  function Select(t: Table, n: Byte): Table
    decreases if !IsEscape(n) then 2 else if n != DOLLAR then 1 else 0
  {
    var x := EscapeOf(n);
    var u: Table := t[n := x];
    if u[x] != 0 then u else Select(u, x)
  }

  datatype Setting = Setting(table: Table, ok: bool)

  function SelectAll(t: Table, ns: seq<nat>): Setting
    decreases ns
  {
    if ns == [] then Setting(t, true)
    else if !Allowed(ns[0]) then Setting(t, false)
    else SelectAll(Select(t, ns[0]), ns[1..])
  }

  const NO_ESCAPES: Table := seq(256, _ => 0)

  // The characters a table escapes but for escape characters.
  predicate Selected(t: Table, c: Byte)
  {
    t[c] != 0 && !IsEscape(c)
  }

  // A table under construction: only the escape character just set may be missing.
  predicate GoodBut(t: Table, n: Byte)
  {
    forall c: Byte :: c != n ==> t[c] == 0 || (t[c] == EscapeOf(c) && (t[t[c]] != 0 || t[c] == n))
  }

  lemma {:induction false} SelectGood(t: Table, n: Byte)
    requires GoodBut(t, n)
    ensures Good(Select(t, n)) && Select(t, n)[n] != 0
    ensures forall c: Byte :: Selected(Select(t, n), c) <==> Selected(t, c) || (c == n && !IsEscape(n))
    decreases if !IsEscape(n) then 2 else if n != DOLLAR then 1 else 0
  {
    var x := EscapeOf(n);
    var u: Table := t[n := x];
    if u[x] == 0 {
      SelectGood(u, x);
    }
  }

  // SetCookX accepts a list exactly when each character may be selected; the table then escapes
  // those, and can be decoded.
  lemma {:induction false} SelectAllGood(t: Table, ns: seq<nat>)
    requires Good(t)
    ensures var r := SelectAll(t, ns);
            && (r.ok <==> forall n :: n in ns ==> Allowed(n))
            && Good(r.table)
            && (r.ok ==> forall c: Byte :: Selected(r.table, c) <==> Selected(t, c) || c in ns)
    decreases ns
  {
    if ns != [] && Allowed(ns[0]) {
      forall c: Byte | c != ns[0]
        ensures t[c] == 0 || (t[c] == EscapeOf(c) && t[t[c]] != 0)
      {
        assert Decodable(t, c);
      }
      SelectGood(t, ns[0]);
      SelectAllGood(Select(t, ns[0]), ns[1..]);
    }
  }

  // ----- Cooking

  // What one character becomes.
  function Cooked(t: Table, c: Byte): Bytes
  {
    if t[c] != 0 then [t[c], c % 64 + OFFSET] else [c]
  }

  function CookX(t: Table, data: Bytes): Bytes
  {
    if data == [] then [] else Cooked(t, data[0]) + CookX(t, data[1..])
  }

  // CookA also ends lines, which `llen` counts.
  function CookA(t: Table, data: Bytes, llen: nat): Bytes
    decreases data
  {
    if data == [] then (if llen > 0 then [RETURN] else [])
    else
      var piece := Cooked(t, data[0]);
      if llen + |piece| > LINE then piece + [RETURN] + CookA(t, data[1..], 0)
      else piece + CookA(t, data[1..], llen + |piece|)
  }

  // ----- Uncooking

  function Or2(a: nat, b: nat): nat
    requires a < 4 && b < 4
  {
    (if a / 2 == 1 || b / 2 == 1 then 2 else 0) + if a % 2 == 1 || b % 2 == 1 then 1 else 0
  }

  // The character that `v` stands for after escape character `esc`: (v - OFFSET) | (esc & 3) << 6, in
  // eight bits.
  function Decode(esc: Byte, v: Byte): Byte
  {
    var w := if v >= OFFSET then v - OFFSET else v - OFFSET + 256;
    w % 64 + 64 * Or2(w / 64, esc % 4)
  }

  // Whatever the two characters are: the low six bits are the second's, and the others are in either.
  lemma {:induction false} DecodeBits(esc: Byte, v: Byte)
    ensures var w := (v + 256 - OFFSET) % 256; var d := Decode(esc, v);
            && d % 64 == w % 64
            && (d / 64 % 2 == 1 <==> w / 64 % 2 == 1 || esc % 2 == 1)
            && (d / 128 == 1 <==> w / 128 == 1 || esc / 2 % 2 == 1)
  {
    var w := if v >= OFFSET then v - OFFSET else v - OFFSET + 256;
    assert w == (v + 256 - OFFSET) % 256;
    assert Decode(esc, v) / 64 == Or2(w / 64, esc % 4);
    assert w / 64 / 2 == w / 128 && Decode(esc, v) / 64 / 2 == Decode(esc, v) / 128;
  }

  // What has come out, and the escape character that still waits for its second half (0: none).
  datatype Raw = Raw(out: Bytes, esc: Byte)

  // `width` is 128 for UncookA, which drops the eighth bit, and 256 for UncookX.
  function Uncook(t: Table, width: nat, esc: Byte, data: Bytes): Raw
    requires width == 128 || width == 256
    decreases data
  {
    if data == [] then Raw([], esc)
    else
      var c: Byte := data[0] % width;
      if esc != 0 then
        var r := Uncook(t, width, 0, data[1..]);
        r.(out := [Decode(esc, c)] + r.out)
      else if t[c] == 0 then
        var r := Uncook(t, width, 0, data[1..]);
        r.(out := [c] + r.out)
      else Uncook(t, width, if IsEscape(c) then c else 0, data[1..])
  }

  // Cutting the input anywhere makes no difference.
  lemma {:induction false} UncookCut(t: Table, width: nat, esc: Byte, x: Bytes, y: Bytes)
    requires width == 128 || width == 256
    ensures var a := Uncook(t, width, esc, x); var b := Uncook(t, width, a.esc, y);
            Uncook(t, width, esc, x + y) == Raw(a.out + b.out, b.esc)
    decreases x
  {
    if x == [] {
      assert x + y == y;
    } else {
      var c: Byte := x[0] % width;
      var next := if esc != 0 || t[c] == 0 || !IsEscape(c) then 0 else c;
      UncookCut(t, width, next, x[1..], y);
      assert (x + y)[1..] == x[1..] + y;
    }
  }

  function UncookAll(t: Table, width: nat, esc: Byte, chunks: seq<Bytes>): Raw
    requires width == 128 || width == 256
    decreases chunks
  {
    if chunks == [] then Raw([], esc)
    else
      var a := Uncook(t, width, esc, chunks[0]);
      var b := UncookAll(t, width, a.esc, chunks[1..]);
      Raw(a.out + b.out, b.esc)
  }

  function Joined(chunks: seq<Bytes>): Bytes
  {
    if chunks == [] then [] else chunks[0] + Joined(chunks[1..])
  }

  lemma {:induction false} AnyCut(t: Table, width: nat, esc: Byte, chunks: seq<Bytes>)
    requires width == 128 || width == 256
    ensures UncookAll(t, width, esc, chunks) == Uncook(t, width, esc, Joined(chunks))
    decreases chunks
  {
    if chunks != [] {
      AnyCut(t, width, Uncook(t, width, esc, chunks[0]).esc, chunks[1..]);
      UncookCut(t, width, esc, chunks[0], Joined(chunks[1..]));
    }
  }

  // ----- Round trips

  lemma {:induction false} DecodeIs(e: Byte, c: Byte)
    requires IsEscape(e)
    ensures Decode(e, c % 64 + OFFSET) == c <==> e == EscapeOf(c)
  {
  }

  lemma {:induction false} OneByte(t: Table, width: nat, esc: Byte, c: Byte)
    requires (width == 128 || width == 256) && c < width
    ensures Uncook(t, width, esc, [c]) ==
            if esc != 0 then Raw([Decode(esc, c)], 0)
            else if t[c] == 0 then Raw([c], 0)
            else Raw([], if IsEscape(c) then c else 0)
  {
    hide Decode;
    assert [c][1..] == [] && c % width == c;
    NoBytes(t, width, 0);
    NoBytes(t, width, c);
  }

  lemma {:induction false} TwoBytes(t: Table, width: nat, e: Byte, y: Byte)
    requires (width == 128 || width == 256) && e < width && y < width
    ensures var a := Uncook(t, width, 0, [e]); var b := Uncook(t, width, a.esc, [y]);
            Uncook(t, width, 0, [e, y]) == Raw(a.out + b.out, b.esc)
  {
    assert [e, y] == [e] + [y];
    UncookCut(t, width, 0, [e], [y]);
  }

  // One character comes back, with nothing left waiting, exactly when the table is right for it.
  lemma {:induction false} OneBack(t: Table, c: Byte)
    ensures Uncook(t, 256, 0, Cooked(t, c)) == Raw([c], 0) <==> Decodable(t, c)
  {
    hide Uncook, Decode;
    OneByte(t, 256, 0, c);
    if t[c] != 0 {
      var e := t[c];
      var y: Byte := c % 64 + OFFSET;
      TwoBytes(t, 256, e, y);
      OneByte(t, 256, 0, e);
      OneByte(t, 256, Uncook(t, 256, 0, [e]).esc, y);
      var a := Uncook(t, 256, 0, [e]);
      var b := Uncook(t, 256, a.esc, [y]);
      if t[e] == 0 {
        assert e != c && (a.out + b.out)[0] == e;
      } else if IsEscape(e) {
        DecodeIs(e, c);
        assert a.out + b.out == [Decode(e, y)];
      } else {
        assert y != c && a.out + b.out == b.out && (b.out == [] || b.out == [y]);
      }
    }
  }

  lemma {:induction false} PieceBack(t: Table, width: nat, c: Byte)
    requires Decodable(t, c) && (width == 256 || (width == 128 && (t[c] == 0 ==> c < 128)))
    ensures Uncook(t, width, 0, Cooked(t, c)) == Raw([c], 0)
  {
    hide Uncook, Decode;
    if t[c] == 0 {
      OneByte(t, width, 0, c);
    } else {
      var e := t[c];
      var y: Byte := c % 64 + OFFSET;
      TwoBytes(t, width, e, y);
      OneByte(t, width, 0, e);
      OneByte(t, width, e, y);
      DecodeIs(e, c);
    }
  }

  // CookX and UncookX undo each other on all data ...
  lemma {:induction false} RoundTripX(t: Table, data: Bytes)
    requires Good(t)
    ensures Uncook(t, 256, 0, CookX(t, data)) == Raw(data, 0)
  {
    hide Uncook, Cooked;
    if data == [] {
      NoBytes(t, 256, 0);
    } else {
      assert Decodable(t, data[0]);
      PieceBack(t, 256, data[0]);
      RoundTripX(t, data[1..]);
      UncookCut(t, 256, 0, Cooked(t, data[0]), CookX(t, data[1..]));
      assert [data[0]] + data[1..] == data;
    }
  }

  lemma {:induction false} NoBytes(t: Table, width: nat, esc: Byte)
    requires width == 128 || width == 256
    ensures Uncook(t, width, esc, []) == Raw([], esc)
  {
  }

  // ... exactly when the table is good.
  lemma {:induction false} RoundTripOnlyX(t: Table)
    ensures Good(t) <==> forall data: Bytes :: Uncook(t, 256, 0, CookX(t, data)) == Raw(data, 0)
  {
    hide Uncook, Cooked;
    if Good(t) {
      forall data: Bytes
        ensures Uncook(t, 256, 0, CookX(t, data)) == Raw(data, 0)
      {
        RoundTripX(t, data);
      }
    }
    if forall data: Bytes :: Uncook(t, 256, 0, CookX(t, data)) == Raw(data, 0) {
      forall c: Byte
        ensures Decodable(t, c)
      {
        CookOne(t, c);
        assert Uncook(t, 256, 0, CookX(t, [c])) == Raw([c], 0);
        OneBack(t, c);
      }
    }
  }

  lemma {:induction false} CookOne(t: Table, c: Byte)
    ensures CookX(t, [c]) == Cooked(t, c)
  {
    assert [c][1..] == [];
  }

  // One turn of cooking.
  lemma {:induction false} CookATurn(t: Table, data: Bytes, llen: nat)
    requires data != []
    ensures var piece := Cooked(t, data[0]);
            CookA(t, data, llen) ==
            if llen + |piece| > LINE then piece + [RETURN] + CookA(t, data[1..], 0)
            else piece + CookA(t, data[1..], llen + |piece|)
  {
    hide Cooked;
  }

  // What is uncooked piece by piece.
  lemma {:induction false} PiecesBack(t: Table, x: Bytes, y: Bytes, a: Bytes, b: Bytes)
    requires Uncook(t, 128, 0, x) == Raw(a, 0) && Uncook(t, 128, 0, y) == Raw(b, 0)
    ensures Uncook(t, 128, 0, x + y) == Raw(a + b, 0)
  {
    hide Uncook;
    UncookCut(t, 128, 0, x, y);
  }

  // CookA and UncookA undo each other, line ends and all.
  lemma {:induction false} RoundTripA(t: Table, data: Bytes, llen: nat)
    requires Good(t) && t[RETURN] != 0 && forall c: Byte :: t[c] == 0 ==> c < 128
    ensures Uncook(t, 128, 0, CookA(t, data, llen)) == Raw(data, 0)
    decreases data
  {
    hide Uncook, Cooked, CookA;
    OneByte(t, 128, 0, RETURN);
    NoBytes(t, 128, 0);
    if data == [] {
      CookANone(t, llen);
    } else {
      var piece := Cooked(t, data[0]);
      assert Decodable(t, data[0]);
      PieceBack(t, 128, data[0]);
      assert [data[0]] + data[1..] == data;
      CookATurn(t, data, llen);
      if llen + |piece| > LINE {
        RoundTripA(t, data[1..], 0);
        PiecesBack(t, piece, [RETURN], [data[0]], []);
        assert [data[0]] + [] == [data[0]];
        PiecesBack(t, piece + [RETURN], CookA(t, data[1..], 0), [data[0]], data[1..]);
      } else {
        RoundTripA(t, data[1..], llen + |piece|);
        PiecesBack(t, piece, CookA(t, data[1..], llen + |piece|), [data[0]], data[1..]);
      }
    }
  }

  // The circuit may do what it likes with the eighth bit of what CookA makes.
  lemma {:induction false} EighthBit(t: Table, esc: Byte, x: Bytes, y: Bytes)
    requires |x| == |y| && forall i :: 0 <= i < |x| ==> x[i] % 128 == y[i] % 128
    ensures Uncook(t, 128, esc, x) == Uncook(t, 128, esc, y)
    decreases x
  {
    if x != [] {
      var c: Byte := x[0] % 128;
      EighthBit(t, if esc != 0 || t[c] == 0 || !IsEscape(c) then 0 else c, x[1..], y[1..]);
    }
  }

  // What CookX makes holds no selected character ...
  lemma {:induction false} NothingSelected(t: Table, data: Bytes)
    requires Good(t) && forall c: Byte :: Selected(t, c) ==> Allowed(c)
    ensures forall b :: b in CookX(t, data) ==> !Selected(t, b)
  {
    if data != [] {
      NothingSelected(t, data[1..]);
      assert Decodable(t, data[0]);
    }
  }

  // ... and what CookA makes is printing characters, tabs, newlines and line ends.
  predicate Printing(b: Byte)
  {
    32 <= b < 127 || b == 9 || b == 10 || b == RETURN
  }

  lemma {:induction false} OnlyPrinting(data: Bytes, llen: nat)
    ensures forall b :: b in CookA(TableA(), data, llen) ==> Printing(b)
    decreases data
  {
    var t := TableA();
    if data != [] {
      var piece := Cooked(t, data[0]);
      assert forall b :: b in piece ==> Printing(b);
      OnlyPrinting(data[1..], 0);
      OnlyPrinting(data[1..], llen + |piece|);
    }
  }

  // ----- Lines

  // With `used` bytes of a line before them, the bytes come in lines of 79 or 80, and a last one of no
  // more, each with its end.
  predicate InLines(p: Bytes, used: nat)
    decreases p
  {
    if p == [] then used == 0
    else if p[0] == RETURN then
      0 < used <= 80 && (79 <= used || p[1..] == []) && InLines(p[1..], 0)
    else used < 80 && InLines(p[1..], used + 1)
  }

  lemma {:induction false} PieceInLines(piece: Bytes, p: Bytes, used: nat)
    requires RETURN !in piece && used + |piece| <= 80 && InLines(p, used + |piece|)
    ensures InLines(piece + p, used)
    decreases piece
  {
    if piece == [] {
      assert piece + p == p;
    } else {
      PieceInLines(piece[1..], p, used + 1);
      assert (piece + p)[1..] == piece[1..] + p;
    }
  }

  lemma {:induction false} PieceNoEnd(t: Table, c: Byte)
    requires Good(t) && t[RETURN] != 0
    ensures RETURN !in Cooked(t, c) && 1 <= |Cooked(t, c)| <= 2
  {
    assert Decodable(t, c);
  }

  // CookA breaks its output into such lines.
  lemma {:induction false} LinesCooked(t: Table, data: Bytes, llen: nat)
    requires Good(t) && t[RETURN] != 0 && llen <= 78
    ensures InLines(CookA(t, data, llen), llen)
    decreases data
  {
    hide Good, Cooked, CookA, InLines;
    LastLine(llen);
    if data == [] {
      CookANone(t, llen);
    } else {
      var piece := Cooked(t, data[0]);
      PieceNoEnd(t, data[0]);
      CookATurn(t, data, llen);
      if llen + |piece| > LINE {
        LinesCooked(t, data[1..], 0);
        LineEnds(CookA(t, data[1..], 0), llen + |piece|);
        PieceInLines(piece, [RETURN] + CookA(t, data[1..], 0), llen);
        Assoc(piece, [RETURN], CookA(t, data[1..], 0));
      } else {
        LinesCooked(t, data[1..], llen + |piece|);
        PieceInLines(piece, CookA(t, data[1..], llen + |piece|), llen);
      }
    }
  }

  lemma {:induction false} LastLine(llen: nat)
    requires llen <= 78
    ensures InLines(if llen > 0 then [RETURN] else [], llen)
  {
    assert [RETURN][1..] == [];
  }

  lemma {:induction false} LineEnds(p: Bytes, used: nat)
    requires InLines(p, 0) && 79 <= used <= 80
    ensures InLines([RETURN] + p, used)
  {
    assert ([RETURN] + p)[1..] == p;
  }

  lemma {:induction false} LineEndNear(p: Bytes, used: nat, n: nat)
    requires InLines(p, used) && n < |p| && used + n >= 80
    ensures exists i :: 0 <= i <= n && p[i] == RETURN
    decreases p
  {
    if p[0] != RETURN && n > 0 {
      LineEndNear(p[1..], used + 1, n - 1);
      var i :| 0 <= i <= n - 1 && p[1..][i] == RETURN;
      assert p[i + 1] == RETURN;
    }
  }

  lemma {:induction false} TailInLines(p: Bytes, used: nat, k: nat) returns (more: nat)
    requires InLines(p, used) && k <= |p|
    ensures InLines(p[k..], more)
    decreases k
  {
    if k == 0 {
      more := used;
      assert p[0..] == p;
    } else {
      more := TailInLines(p[1..], if p[0] == RETURN then 0 else used + 1, k - 1);
      assert p[1..][k - 1..] == p[k..];
    }
  }

  // No 81 bytes of it follow each other without a line end.
  lemma {:induction false} LinesShort(t: Table, data: Bytes, k: nat)
    requires Good(t) && t[RETURN] != 0 && k + 80 < |CookA(t, data, 0)|
    ensures exists i :: k <= i <= k + 80 && CookA(t, data, 0)[i] == RETURN
  {
    hide CookA, InLines;
    LinesCooked(t, data, 0);
    var p := CookA(t, data, 0);
    var used := TailInLines(p, 0, k);
    LineEndNear(p[k..], used, 80);
    var i :| 0 <= i <= 80 && p[k..][i] == RETURN;
    assert p[k + i] == RETURN;
  }

  // ----- Sizes

  lemma {:induction false} SizeX(t: Table, data: Bytes)
    ensures |data| <= |CookX(t, data)| <= 2 * |data|
  {
    if data != [] {
      SizeX(t, data[1..]);
    }
  }

  // Line ends are one in 79 at most, and one at the end.
  lemma {:induction false} LinesA(t: Table, data: Bytes, llen: nat)
    requires llen <= LINE
    ensures |CookX(t, data)| <= |CookA(t, data, llen)|
    ensures 79 * (|CookA(t, data, llen)| - |CookX(t, data)|) <= |CookX(t, data)| + llen + 79
    decreases data
  {
    if data != [] {
      var piece := Cooked(t, data[0]);
      LinesA(t, data[1..], if llen + |piece| > LINE then 0 else llen + |piece|);
    }
  }

  // The buffer that the program sets aside is enough.
  lemma {:induction false} SizeA(t: Table, data: Bytes)
    ensures |CookA(t, data, 0)| <= 2 * |data| + 2 * |data| / 78 + 2
  {
    SizeX(t, data);
    LinesA(t, data, 0);
  }

  // ----- The program

  // `table` is cook_A, and `lastEsc` what an uncooking function keeps from one call to the next.
  class Cooker {
    const table: array<Byte>
    var lastEsc: Byte

    ghost predicate Valid()
    {
      table.Length == 256
    }

    constructor ()
      ensures Valid() && fresh(table) && table[..] == TableA() && lastEsc == 0
    {
      var t := TableA();
      table := new Byte[256](i requires 0 <= i < 256 => t[i]);
      lastEsc := 0;
    }
  }

  method SelectOne(k: Cooker, first: Byte)
    requires k.Valid()
    modifies k.table
    ensures k.table[..] == Select(old(k.table[..]), first)
  {
    var n := first;
    while true
      invariant Select(k.table[..], n) == Select(old(k.table[..]), first)
      decreases if !IsEscape(n) then 2 else if n != DOLLAR then 1 else 0
    {
      var x := EscapeOf(n);
      ghost var t := k.table[..];
      k.table[n] := x;
      assert k.table[..] == t[n := x];
      if k.table[x] != 0 {
        break;
      }
      n := x;
    }
  }

  method SetCookX(k: Cooker, ns: seq<nat>) returns (ok: bool)
    requires k.Valid()
    modifies k.table
    ensures Setting(k.table[..], ok) == SelectAll(NO_ESCAPES, ns)
  {
    hide Select;
    for i := 0 to 256
      invariant k.table[..i] == NO_ESCAPES[..i]
    {
      k.table[i] := 0;
    }
    assert k.table[..] == NO_ESCAPES;
    var i := 0;
    while i < |ns|
      invariant 0 <= i <= |ns|
      invariant SelectAll(k.table[..], ns[i..]) == SelectAll(NO_ESCAPES, ns)
    {
      if !Allowed(ns[i]) {
        return false;
      }
      assert ns[i..][1..] == ns[i + 1..];
      SelectOne(k, ns[i]);
      i := i + 1;
    }
    ok := true;
  }

  // Write what a character becomes.
  method Put(k: Cooker, c: Byte, buffer: array<Byte>, at: nat) returns (bp: nat)
    requires k.Valid() && buffer != k.table && at + |Cooked(k.table[..], c)| <= buffer.Length
    modifies buffer
    ensures bp == at + |Cooked(k.table[..], c)| <= buffer.Length
    ensures buffer[..bp] == old(buffer[..at]) + Cooked(k.table[..], c)
  {
    var x := k.table[c];
    if x != 0 {
      buffer[at] := x;
      buffer[at + 1] := c % 64 + OFFSET;
      return at + 2;
    }
    buffer[at] := c;
    return at + 1;
  }

  lemma {:induction false} CookXStep(t: Table, done: Bytes, data: Bytes)
    requires data != []
    ensures done + CookX(t, data) == done + Cooked(t, data[0]) + CookX(t, data[1..])
  {
  }

  method CookXInto(k: Cooker, data: Bytes, buffer: array<Byte>) returns (bp: nat)
    requires k.Valid() && buffer != k.table && 2 * |data| <= buffer.Length
    modifies buffer
    ensures bp <= buffer.Length && buffer[..bp] == CookX(k.table[..], data)
  {
    hide CookX;
    bp := 0;
    var i := 0;
    ghost var t := k.table[..];
    CookXNone(t);
    while i < |data|
      invariant 0 <= i <= |data| && bp <= 2 * i && k.table[..] == t
      invariant buffer[..bp] + CookX(t, data[i..]) == CookX(t, data)
    {
      CookXStep(t, buffer[..bp], data[i..]);
      assert data[i..][1..] == data[i + 1..];
      bp := Put(k, data[i], buffer, bp);
      i := i + 1;
    }
    assert data[i..] == [];
    assert buffer[..bp] + [] == buffer[..bp];
  }

  lemma {:induction false} CookXNone(t: Table)
    ensures CookX(t, []) == []
  {
  }

  lemma {:induction false} CookAStep(t: Table, done: Bytes, data: Bytes, llen: nat)
    requires data != []
    ensures var l := llen + |Cooked(t, data[0])|;
            done + CookA(t, data, llen) ==
            if l > LINE then done + Cooked(t, data[0]) + [RETURN] + CookA(t, data[1..], 0)
            else done + Cooked(t, data[0]) + CookA(t, data[1..], l)
  {
    hide Cooked;
    var piece := Cooked(t, data[0]);
    if llen + |piece| > LINE {
      assert done + (piece + [RETURN] + CookA(t, data[1..], 0)) == done + piece + [RETURN] + CookA(t, data[1..], 0);
    }
  }

  lemma {:induction false} CookANone(t: Table, llen: nat)
    ensures CookA(t, [], llen) == if llen > 0 then [RETURN] else []
  {
  }

  method CookAInto(k: Cooker, data: Bytes, buffer: array<Byte>) returns (bp: nat)
    requires k.Valid() && buffer != k.table && 2 * |data| + 2 * |data| / 78 + 2 <= buffer.Length
    modifies buffer
    ensures bp <= buffer.Length && buffer[..bp] == CookA(k.table[..], data, 0)
  {
    hide CookA, Cooked;
    bp := 0;
    var i: nat, llen: nat := 0, 0;
    ghost var t := k.table[..];
    SizeA(t, data);
    while i < |data|
      invariant 0 <= i <= |data| && bp <= buffer.Length && k.table[..] == t
      invariant buffer[..bp] + CookA(t, data[i..], llen) == CookA(t, data, 0)
    {
      CookAStep(t, buffer[..bp], data[i..], llen);
      assert data[i..][1..] == data[i + 1..];
      var was := bp;
      bp := Put(k, data[i], buffer, bp);
      llen := llen + bp - was;
      if llen > LINE {
        buffer[bp] := RETURN;
        bp := bp + 1;
        llen := 0;
      }
      i := i + 1;
    }
    assert data[i..] == [];
    CookANone(t, llen);
    if llen > 0 {
      buffer[bp] := RETURN;
      bp := bp + 1;
    }
  }

  // Uncook the first `size` bytes in place.  The output overtakes no input that is still to be read.
  method UncookInPlace(k: Cooker, width: nat, data: array<Byte>, size: nat) returns (bp: nat)
    requires k.Valid() && data != k.table && size <= data.Length && (width == 128 || width == 256)
    modifies data, k`lastEsc
    ensures bp <= size
    ensures Raw(data[..bp], k.lastEsc) == Uncook(k.table[..], width, old(k.lastEsc), old(data[..size]))
    ensures data[size..] == old(data[size..])
  {
    hide Uncook, Decode;
    ghost var t := k.table[..];
    ghost var input := data[..size];
    ghost var all := Uncook(t, width, k.lastEsc, input);
    var cp := 0;
    bp := 0;
    while cp < size
      invariant bp <= cp <= size && k.table[..] == t
      invariant data[cp..] == old(data[cp..])
      invariant var r := Uncook(t, width, k.lastEsc, input[cp..]); all == Raw(data[..bp] + r.out, r.esc)
    {
      UncookStep(t, width, k.lastEsc, input[cp..]);
      assert input[cp..][1..] == input[cp + 1..] && input[cp] == data[cp];
      ghost var done := data[..bp];
      ghost var piece: Bytes := [];
      var c: Byte := data[cp] % width;
      cp := cp + 1;
      if k.lastEsc != 0 {
        piece := [Decode(k.lastEsc, c)];
        data[bp] := Decode(k.lastEsc, c);
        bp := bp + 1;
        k.lastEsc := 0;
      } else if k.table[c] == 0 {
        piece := [c];
        data[bp] := c;
        bp := bp + 1;
      } else if IsEscape(c) {
        k.lastEsc := c;
      }
      assert data[..bp] == done + piece;
      Assoc(done, piece, Uncook(t, width, k.lastEsc, input[cp..]).out);
    }
    NoBytes(t, width, k.lastEsc);
    assert input[cp..] == [] && data[..bp] + [] == data[..bp];
  }

  lemma {:induction false} UncookStep(t: Table, width: nat, esc: Byte, data: Bytes)
    requires data != [] && (width == 128 || width == 256)
    ensures var c: Byte := data[0] % width;
            var next: Byte := if esc != 0 || t[c] == 0 || !IsEscape(c) then 0 else c;
            var r := Uncook(t, width, next, data[1..]);
            Uncook(t, width, esc, data) ==
            r.(out := (if esc != 0 then [Decode(esc, c)] else if t[c] == 0 then [c] else []) + r.out)
  {
    hide Decode;
    var c: Byte := data[0] % width;
    if esc == 0 && t[c] != 0 {
      var r := Uncook(t, width, if IsEscape(c) then c else 0, data[1..]);
      assert [] + r.out == r.out;
    }
  }
}
