/** The sending side of a stop-and-wait file transfer (Admin/log.c: xproto and mycrc). */
module Log {
  import opened Channel
  import opened Sequences
  import opened Powers

  const HEADER := 4
  const TRAILER := 2
  const DATAZ := 64
  const BUFZ := 70
  const XRETRYS := 4
  const RRETRYS := 5
  const GARBAGE := 2

  const STX: Byte := 2
  const ETX: Byte := 3
  const ENQ: Byte := 5
  const ACK: Byte := 6
  const NAK: Byte := 21

  type Bytes = seq<Byte>

  // What a timed read of the line gives: a byte, or nothing in time.
  datatype In = Got(b: Byte) | Quiet

  datatype Result = Running | Ok | Remterm | Protocol

  // ----- The check bytes

  // Exclusive or of numbers of `w` bits.
  function XorBits(a: nat, b: nat, w: nat): (r: nat)
    requires a < Power(w) && b < Power(w)
    ensures r < Power(w)
  {
    if w == 0 then 0 else (if a % 2 == b % 2 then 0 else 1) + 2 * XorBits(a / 2, b / 2, w - 1)
  }

  lemma {:induction false} EightBits()
    ensures Power(8) == 256
  {
    assert Power(2) == 4;
    assert Power(4) == 4 * Power(2);
    assert Power(6) == 4 * Power(4);
  }

  function Xor(a: Byte, b: Byte): Byte
  {
    EightBits();
    XorBits(a, b, 8)
  }

  function Add(a: Byte, b: Byte): Byte
  {
    if a + b < 256 then a + b else a + b - 256
  }

  function Not(a: Byte): Byte
  {
    255 - a
  }

  lemma {:induction false} BitsDiffer(a: nat, b: nat, c: nat, w: nat)
    requires a < Power(w) && b < Power(w) && c < Power(w) && a != b
    ensures XorBits(a, c, w) != XorBits(b, c, w) && XorBits(c, a, w) != XorBits(c, b, w)
  {
    if w > 0 && a / 2 != b / 2 {
      BitsDiffer(a / 2, b / 2, c / 2, w - 1);
    }
  }

  lemma {:induction false} XorDiffers(a: Byte, b: Byte, c: Byte)
    requires a != b
    ensures Xor(a, c) != Xor(b, c) && Xor(c, a) != Xor(c, b)
  {
    EightBits();
    BitsDiffer(a, b, c, 8);
  }

  lemma {:induction false} BitsHalf(a: nat, b: nat, w: nat)
    requires w > 0 && a < Power(w) && b < Power(w)
    ensures XorBits(a, b, w) / 2 == XorBits(a / 2, b / 2, w - 1)
    ensures XorBits(a, b, w) % 2 == if a % 2 == b % 2 then 0 else 1
  {
  }

  lemma {:induction false} BitsSwap(a: nat, x: nat, y: nat, w: nat)
    requires a < Power(w) && x < Power(w) && y < Power(w)
    ensures XorBits(XorBits(a, x, w), y, w) == XorBits(XorBits(a, y, w), x, w)
  {
    if w > 0 {
      BitsSwap(a / 2, x / 2, y / 2, w - 1);
      var l, r := XorBits(XorBits(a, x, w), y, w), XorBits(XorBits(a, y, w), x, w);
      hide XorBits;
      BitsHalf(a, x, w);
      BitsHalf(a, y, w);
      BitsHalf(XorBits(a, x, w), y, w);
      BitsHalf(XorBits(a, y, w), x, w);
      assert l % 2 == r % 2 && l / 2 == r / 2;
    }
  }

  lemma {:induction false} XorSwaps(a: Byte, x: Byte, y: Byte)
    ensures Xor(Xor(a, x), y) == Xor(Xor(a, y), x)
  {
    EightBits();
    BitsSwap(a, x, y, 8);
  }

  datatype Crc = Crc(lpc: Byte, sum: Byte)

  function Step(c: Crc, x: Byte): Crc
  {
    Crc(Xor(c.lpc, x), Add(c.sum, x))
  }

  function Fold(c: Crc, data: Bytes): Crc
    decreases data
  {
    if data == [] then c else Fold(Step(c, data[0]), data[1..])
  }

  function CrcOf(data: Bytes): Crc
  {
    Fold(Crc(0, 0), data)
  }

  // A block on the line.
  function Encode(seqno: Byte, data: Bytes): Bytes
    requires |data| <= DATAZ
  {
    [STX, seqno, |data|, Not(|data|)] + data + [CrcOf(data).lpc, CrcOf(data).sum]
  }

  lemma {:induction false} FoldLast(c: Crc, data: Bytes, x: Byte)
    ensures Fold(c, data + [x]) == Step(Fold(c, data), x)
    decreases data
  {
    if data == [] {
      assert data + [x] == [x];
    } else {
      FoldLast(Step(c, data[0]), data[1..], x);
      assert (data + [x])[1..] == data[1..] + [x];
    }
  }

  lemma {:induction false} CrcNone()
    ensures CrcOf([]) == Crc(0, 0)
  {
  }

  lemma {:induction false} CrcLast(data: Bytes, x: Byte)
    ensures CrcOf(data + [x]) == Step(CrcOf(data), x)
  {
    FoldLast(Crc(0, 0), data, x);
  }

  lemma {:induction false} SameData(buf: array<Byte>, data: Bytes)
    requires HEADER + |data| <= buf.Length && forall i :: 0 <= i < |data| ==> buf[HEADER + i] == data[i]
    ensures buf[HEADER..HEADER + |data|] == data
  {
  }

  lemma {:induction false} Framed(b: Bytes, data: Bytes)
    requires |data| <= DATAZ && |b| == |data| + HEADER + TRAILER && b[HEADER..HEADER + |data|] == data
    requires b[0] == STX && b[2] == |data| && b[3] == Not(|data|)
    requires Crc(b[|data| + HEADER], b[|data| + HEADER + 1]) == CrcOf(data)
    ensures b == Encode(b[1], data)
  {
    hide CrcOf;
    var n := |data|;
    assert b == b[..HEADER] + b[HEADER..HEADER + n] + b[HEADER + n..];
  }

  // Flip the sequence number, set the sizes and the check bytes; count the check bytes that were wrong.
  method MyCrc(buf: array<Byte>, s: nat) returns (error: nat)
    requires buf.Length == BUFZ && s <= DATAZ
    modifies buf
    ensures buf[..s + HEADER + TRAILER] == Encode(Xor(old(buf[1]), 1), old(buf[HEADER..HEADER + s]))
    ensures buf[HEADER..HEADER + s] == old(buf[HEADER..HEADER + s])
    ensures forall i :: s + HEADER + TRAILER <= i < BUFZ ==> buf[i] == old(buf[i])
    ensures var c := CrcOf(old(buf[HEADER..HEADER + s]));
            error == 0 <==> old(buf[HEADER + s]) == c.lpc && old(buf[HEADER + s + 1]) == c.sum
  {
    hide Fold, CrcOf, Xor, Not;
    CrcNone();
    ghost var data := buf[HEADER..HEADER + s];
    buf[0] := STX;
    buf[1] := Xor(buf[1], 1);
    buf[2], buf[3] := s, Not(s);
    var p := HEADER;
    var lpc: Byte, sum: Byte := 0, 0;
    assert data[..0] == [];
    while p < HEADER + s
      invariant HEADER <= p <= HEADER + s
      invariant Crc(lpc, sum) == CrcOf(data[..p - HEADER])
      invariant buf[0] == STX && buf[1] == Xor(old(buf[1]), 1) && buf[2] == s && buf[3] == Not(s)
      invariant forall i :: HEADER <= i < BUFZ ==> buf[i] == old(buf[i])
    {
      assert data[..p - HEADER] + [buf[p]] == data[..p + 1 - HEADER];
      CrcLast(data[..p - HEADER], buf[p]);
      lpc := Xor(lpc, buf[p]);
      sum := Add(sum, buf[p]);
      p := p + 1;
    }
    assert data[..s] == data;
    SameData(buf, data);
    error := 0;
    if lpc != buf[p] {
      error := error + 1;
    }
    buf[p] := lpc;
    p := p + 1;
    if sum != buf[p] {
      error := error + 1;
    }
    buf[p] := sum;
    SameData(buf, data);
    Framed(buf[..s + HEADER + TRAILER], data);
  }

  // Damage to any one byte of a block shows in its check bytes ...
  lemma {:induction false} OneByteShows(c: Crc, data: Bytes, i: nat, x: Byte)
    requires i < |data| && data[i] != x
    ensures Fold(c, data[i := x]).lpc != Fold(c, data).lpc
    decreases data
  {
    hide Xor;
    var next := Step(c, data[0]);
    if i == 0 {
      XorDiffers(data[0], x, c.lpc);
      StaysDifferent(Step(c, x), next, data[1..]);
      assert data[0 := x][1..] == data[1..];
    } else {
      OneByteShows(next, data[1..], i - 1, x);
      assert data[i := x][1..] == data[1..][i - 1 := x];
    }
  }

  lemma {:induction false} StaysDifferent(c: Crc, d: Crc, data: Bytes)
    requires c.lpc != d.lpc
    ensures Fold(c, data).lpc != Fold(d, data).lpc
    decreases data
  {
    hide Xor;
    if data != [] {
      XorDiffers(c.lpc, d.lpc, data[0]);
      StaysDifferent(Step(c, data[0]), Step(d, data[0]), data[1..]);
    }
  }

  lemma {:induction false} BitsJoin(a: nat, b: nat, c: nat, w: nat)
    requires a < Power(w) && b < Power(w) && c < Power(w)
    ensures XorBits(a, XorBits(b, c, w), w) == XorBits(XorBits(a, b, w), c, w)
    ensures XorBits(a, a, w) == 0 && XorBits(a, 0, w) == a && XorBits(a, b, w) == XorBits(b, a, w)
  {
    if w > 0 {
      BitsJoin(a / 2, b / 2, c / 2, w - 1);
      var l, r := XorBits(a, XorBits(b, c, w), w), XorBits(XorBits(a, b, w), c, w);
      hide XorBits;
      BitsHalf(b, c, w);
      BitsHalf(a, b, w);
      BitsHalf(a, XorBits(b, c, w), w);
      BitsHalf(XorBits(a, b, w), c, w);
      BitsHalf(a, a, w);
      BitsHalf(a, 0, w);
      BitsHalf(b, a, w);
      assert l % 2 == r % 2 && l / 2 == r / 2;
      var u, v := XorBits(a, b, w), XorBits(b, a, w);
      assert u % 2 == v % 2 && u / 2 == v / 2;
      var z := XorBits(a, 0, w);
      assert z % 2 == a % 2 && z / 2 == a / 2;
    }
  }

  lemma {:induction false} XorJoins(a: Byte, b: Byte, c: Byte)
    ensures Xor(a, Xor(b, c)) == Xor(Xor(a, b), c) && Xor(a, a) == 0 && Xor(a, 0) == a && Xor(a, b) == Xor(b, a)
  {
    EightBits();
    BitsJoin(a, b, c, 8);
  }

  // Applied twice, an exclusive-or is undone.
  lemma {:induction false} XorUndone(a: Byte, b: Byte)
    ensures Xor(Xor(a, b), b) == a
  {
    hide Xor;
    XorJoins(a, b, b);
    XorJoins(b, b, b);
  }

  // A difference goes through: in the exclusive-or as `e`, in the sum as `k`.
  lemma {:induction false} Carried(c: Crc, d: Crc, data: Bytes, e: Byte, k: int)
    requires d.lpc == Xor(c.lpc, e) && d.sum == (c.sum + k) % 256
    ensures var f, g := Fold(c, data), Fold(d, data); g.lpc == Xor(f.lpc, e) && g.sum == (f.sum + k) % 256
    decreases data
  {
    hide Xor;
    if data != [] {
      XorSwaps(c.lpc, e, data[0]);
      SumCarried(c.sum, data[0], k);
      Carried(Step(c, data[0]), Step(d, data[0]), data[1..], e, k);
    }
  }

  lemma {:induction false} SumCarried(s: Byte, x: Byte, k: int)
    ensures Add((s + k) % 256, x) == (Add(s, x) + k) % 256
  {
  }

  // What changing one byte does to the check bytes.
  lemma {:induction false} OneChanged(c: Crc, data: Bytes, i: nat, x: Byte)
    requires i < |data|
    ensures var f, g := Fold(c, data), Fold(c, data[i := x]);
            g.lpc == Xor(f.lpc, Xor(data[i], x)) && g.sum == (f.sum as int + (x as int - data[i] as int)) % 256
    decreases data
  {
    hide Xor;
    if i == 0 {
      assert data[0 := x][1..] == data[1..];
      XorJoins(Xor(c.lpc, data[0]), data[0], x);
      XorUndone(c.lpc, data[0]);
      Carried(Step(c, data[0]), Step(c, x), data[1..], Xor(data[0], x), x as int - data[0] as int);
    } else {
      assert data[i := x][1..] == data[1..][i - 1 := x];
      OneChanged(Step(c, data[0]), data[1..], i - 1, x);
    }
  }

  // ... but damage to two bytes does not, if and only if the bits that change are the same in both and
  // the sum of the two is.
  lemma {:induction false} TwoBytesHide(c: Crc, data: Bytes, i: nat, j: nat, x: Byte, y: Byte)
    requires i < j < |data|
    ensures Fold(c, data[i := x][j := y]) == Fold(c, data) <==>
            Xor(data[i], x) == Xor(data[j], y) && (x as int + y as int) % 256 == (data[i] as int + data[j] as int) % 256
  {
    hide Xor, Fold;
    var once := data[i := x];
    OneChanged(c, data, i, x);
    OneChanged(c, once, j, y);
    var f, g, h := Fold(c, data), Fold(c, once), Fold(c, once[j := y]);
    var e, d := Xor(data[i], x), Xor(data[j], y);
    XorUndone(f.lpc, e);
    if e != d {
      XorDiffers(e, d, g.lpc);
    }
    SumsEqual(f.sum, x as int, data[i] as int, y as int, data[j] as int);
  }

  lemma {:induction false} SumsEqual(s: Byte, x: int, a: int, y: int, b: int)
    ensures ((s + (x - a)) % 256 + (y - b)) % 256 == s <==> (x + y) % 256 == (a + b) % 256
  {
  }

  // Two bytes that change places do not show, for one.
  lemma {:induction false} SwapHides(c: Crc, data: Bytes, i: nat, j: nat)
    requires i < j < |data|
    ensures Fold(c, data[i := data[j]][j := data[i]]) == Fold(c, data)
  {
    hide Xor, Fold;
    XorJoins(data[i], data[j], 0);
    TwoBytesHide(c, data, i, j, data[j], data[i]);
  }

  // ----- The sender

  // A reply as xproto has it: the bytes last read, whether a read timed out, and sync errors.
  datatype Answer = Answer(typ: Byte, seqno: Byte, timedout: bool, synce: nat)

  datatype Heard = Heard(answer: Answer, rest: seq<In>) | Waiting

  predicate ReplyType(b: Byte)
  {
    b == ENQ || b == ACK || b == NAK || b == ETX
  }

  // lflush: read until the line is quiet.
  function Flushed(input: seq<In>): seq<In>
  {
    if input == [] then [] else if input[0].Quiet? then input[1..] else Flushed(input[1..])
  }

  // Sync errors make xproto flush the line before it goes on.
  function Settled(h: Heard): Heard
  {
    if h.Heard? && h.answer.synce > GARBAGE then
      if Quiet in h.rest then Heard(h.answer, Flushed(h.rest)) else Waiting
    else h
  }

  // Read one reply.
  function Listen(a: Answer, input: seq<In>): Heard
    decreases input
  {
    if input == [] then Waiting
    else if input[0].Quiet? then Heard(a.(timedout := true), input[1..])
    else
      var t := a.(typ := input[0].b);
      if ReplyType(input[0].b) then
        if |input| == 1 then Waiting
        else if input[1].Quiet? then Heard(t.(timedout := true), input[2..])
        else Heard(t.(seqno := input[1].b), input[2..])
      else if a.synce + 1 > GARBAGE then Heard(t.(synce := a.synce + 1), input[1..])
      else Listen(t.(synce := a.synce + 1), input[1..])
  }

  lemma {:induction false} ListenShorter(a: Answer, input: seq<In>)
    ensures var h := Listen(a, input); h.Heard? ==> |h.rest| < |input|
    ensures var h := Listen(a, input); h.Heard? && a.synce <= GARBAGE < h.answer.synce ==> !ReplyType(h.answer.typ)
    decreases input
  {
    if input != [] && input[0].Got? && !ReplyType(input[0].b) && a.synce + 1 <= GARBAGE {
      ListenShorter(a.(typ := input[0].b, synce := a.synce + 1), input[1..]);
    }
  }

  lemma {:induction false} FlushedShorter(input: seq<In>)
    ensures |Flushed(input)| <= |input|
  {
    if input != [] {
      FlushedShorter(input[1..]);
    }
  }

  // The file is sent in blocks of DATAZ bytes; an empty one ends it.
  function Block(file: Bytes, k: nat): (b: Bytes)
    ensures |b| <= DATAZ
  {
    if k * DATAZ >= |file| then []
    else if (k + 1) * DATAZ <= |file| then file[k * DATAZ..(k + 1) * DATAZ]
    else file[k * DATAZ..]
  }

  function SeqOf(k: nat): Byte
  {
    if k % 2 == 0 then 0 else 1
  }

  // The sender is at block `k`, sent `retrys + 1` times.
  datatype Sender = Sender(k: nat, retrys: nat, status: Result)

  predicate Bad(a: Answer, k: nat)
  {
    a.synce > GARBAGE || a.timedout || a.typ != ACK || a.seqno != SeqOf(k)
  }

  function Answered(s: Sender, file: Bytes, a: Answer): Sender
  {
    var n := |Block(file, s.k)|;
    if a.typ == ETX && a.seqno == ETX then s.(status := if n != 0 then Protocol else Remterm)
    else if Bad(a, s.k) then
      if s.retrys < XRETRYS then s.(retrys := s.retrys + 1) else s.(retrys := s.retrys + 1, status := Protocol)
    else if n == 0 then s.(status := Ok)
    else Sender(s.k + 1, 0, Running)
  }

  // A transfer: the blocks written, by number, and where it ended up.
  datatype Sending = Sending(sender: Sender, sent: seq<nat>)

  function Send(s: Sender, file: Bytes, a: Answer, input: seq<In>): Sending
    decreases |input|
  {
    var h := Settled(Listen(a.(timedout := false, synce := 0), input));
    if h.Waiting? then Sending(s, [s.k])
    else
      var t := Answered(s, file, h.answer);
      if t.status != Running then Sending(t, [s.k])
      else
        SettledShorter(a.(timedout := false, synce := 0), input);
        var more := Send(t, file, h.answer, h.rest);
        Sending(more.sender, [s.k] + more.sent)
  }

  lemma {:induction false} SettledShorter(a: Answer, input: seq<In>)
    ensures var h := Settled(Listen(a, input)); h.Heard? ==> |h.rest| < |input|
  {
    ListenShorter(a, input);
    var h := Listen(a, input);
    if h.Heard? {
      FlushedShorter(h.rest);
    }
  }

  // The blocks on the line, as written.
  function Frames(file: Bytes, sent: seq<nat>): seq<Bytes>
  {
    if sent == [] then []
    else Frames(file, sent[..|sent| - 1]) + [Encode(SeqOf(sent[|sent| - 1]), Block(file, sent[|sent| - 1]))]
  }

  lemma {:induction false} FlipSeq(k: nat)
    ensures Xor(1, 1) == SeqOf(0) && Xor(SeqOf(k), 1) == SeqOf(k + 1)
  {
    assert Xor(1, 1) == 0 && Xor(0, 1) == 1 by {
      SmallXor(8);
    }
  }

  lemma {:induction false} SmallXor(w: nat)
    requires w > 0
    ensures Power(w) > 1 && XorBits(1, 1, w) == 0 && XorBits(0, 1, w) == 1
  {
    NoXor(w - 1);
  }

  lemma {:induction false} NoXor(w: nat)
    ensures XorBits(0, 0, w) == 0
  {
    if w > 0 {
      NoXor(w - 1);
    }
  }

  // The globals of the program, and the line: `input` is what will be heard of the other end.
  class Line {
    const buf: array<Byte>
    var typ: Byte
    var seqno: Byte
    var filesize: int
    var input: seq<In>
    var written: seq<Bytes>

    ghost predicate Valid()
    {
      buf.Length == BUFZ
    }

    function Reply(): Answer
      reads `typ, `seqno
    {
      Answer(typ, seqno, false, 0)
    }

    constructor (input: seq<In>)
      ensures Valid() && fresh(buf) && this.input == input && written == []
    {
      buf := new Byte[BUFZ];
      typ, seqno, filesize, written := 0, 0, 0, [];
      this.input := input;
    }
  }

  // Read until the line is quiet; `quiet` is false when there is no more input before that.
  method Flush(l: Line) returns (quiet: bool)
    modifies l`input
    ensures l.input == Flushed(old(l.input)) && quiet == (Quiet in old(l.input))
  {
    while l.input != []
      invariant Flushed(l.input) == Flushed(old(l.input)) && (Quiet in l.input) == (Quiet in old(l.input))
      decreases |l.input|
    {
      quiet := l.input[0].Quiet?;
      l.input := l.input[1..];
      if quiet {
        return;
      }
    }
    quiet := false;
  }

  // Listen for one reply.
  method Hear(l: Line) returns (heard: bool, timedout: bool, synce: nat)
    modifies l`typ, l`seqno, l`input
    ensures var h := Listen(old(l.Reply()), old(l.input));
            heard == h.Heard? && (heard ==> h == Heard(Answer(l.typ, l.seqno, timedout, synce), l.input))
  {
    timedout, synce := false, 0;
    while l.input != []
      invariant !timedout
      invariant Listen(old(l.Reply()), old(l.input)) == Listen(Answer(l.typ, l.seqno, false, synce), l.input)
      decreases |l.input|
    {
      var x := l.input[0];
      if x.Quiet? {
        l.input := l.input[1..];
        return true, true, synce;
      }
      l.typ := x.b;
      if ReplyType(x.b) {
        if |l.input| == 1 {
          break;
        }
        timedout := l.input[1].Quiet?;
        if !timedout {
          l.seqno := l.input[1].b;
        }
        l.input := l.input[2..];
        return true, timedout, synce;
      }
      synce := synce + 1;
      l.input := l.input[1..];
      if synce > GARBAGE {
        return true, false, synce;
      }
    }
    heard := false;
  }

  lemma {:induction false} FramesMore(file: Bytes, sent: seq<nat>, k: nat)
    ensures Frames(file, sent + [k]) == Frames(file, sent) + [Encode(SeqOf(k), Block(file, k))]
  {
    assert (sent + [k])[..|sent|] == sent;
  }

  // One more write of block `s.k`, and what came of it.
  lemma {:induction false} SendStep(s: Sender, file: Bytes, a: Answer, input: seq<In>, done: seq<nat>)
    requires !a.timedout && a.synce == 0
    ensures var h := Settled(Listen(a, input));
            var all := Send(s, file, a, input);
            if h.Waiting? then all == Sending(s, [s.k])
            else
              var t := Answered(s, file, h.answer);
              if t.status != Running then all == Sending(t, [s.k])
              else
                var more := Send(t, file, h.answer, h.rest);
                all.sender == more.sender && done + all.sent == (done + [s.k]) + more.sent
  {
    var h := Settled(Listen(a, input));
    if h.Heard? && Answered(s, file, h.answer).status == Running {
      var more := Send(Answered(s, file, h.answer), file, h.answer, h.rest);
      assert done + ([s.k] + more.sent) == (done + [s.k]) + more.sent;
    }
  }

  // The sending of what is left only depends on the last reply.
  lemma {:induction false} SendAgain(s: Sender, file: Bytes, a: Answer, input: seq<In>)
    ensures Send(s, file, a, input) == Send(s, file, a.(timedout := false, synce := 0), input)
  {
  }

  // Write the block in the buffer until it is acknowledged, refused for the last time, or given up.
  method SendBlock(l: Line, n: nat, ghost file: Bytes, ghost k: nat, ghost done: seq<nat>)
    returns (status: Result, again: bool, ghost sent: seq<nat>)
    requires l.Valid() && n == |Block(file, k)| && l.buf[..n + HEADER + TRAILER] == Encode(SeqOf(k), Block(file, k))
    modifies l`typ, l`seqno, l`input, l`written
    ensures l.written == old(l.written) + Frames(file, sent)
    ensures var all := Send(Sender(k, 0, Running), file, old(l.Reply()), old(l.input));
            if again then
              && status == Running && n > 0 && |l.input| < |old(l.input)|
              && var more := Send(Sender(k + 1, 0, Running), file, l.Reply(), l.input);
                 all.sender == more.sender && done + all.sent == done + sent + more.sent
            else all.sent == sent && all.sender.status == status
  {
    hide Send, Listen, Encode, Block, Flushed, Frames, SeqOf;
    EncodeSeq(SeqOf(k), Block(file, k));
    var retrys := 0;
    sent := [];
    ghost var all := Send(Sender(k, 0, Running), file, l.Reply(), l.input);
    FramesNone(file);
    while true
      invariant retrys <= XRETRYS && |l.input| <= |old(l.input)|
      invariant l.written == old(l.written) + Frames(file, sent)
      invariant var more := Send(Sender(k, retrys, Running), file, l.Reply(), l.input);
                all.sender == more.sender && all.sent == sent + more.sent
      decreases XRETRYS - retrys
    {
      l.written := l.written + [l.buf[..n + HEADER + TRAILER]];
      FramesMore(file, sent, k);
      SendStep(Sender(k, retrys, Running), file, l.Reply(), l.input, sent);
      ListenShorter(l.Reply(), l.input);
      sent := sent + [k];
      var heard, timedout, synce := Hear(l);
      if !heard {
        return Running, false, sent;
      }
      if l.typ == ETX && l.seqno == ETX {
        return if n != 0 then Protocol else Remterm, false, sent;
      }
      ghost var answer := Answer(l.typ, l.seqno, timedout, synce);
      if synce > GARBAGE {
        FlushedShorter(l.input);
        var quiet := Flush(l);
        if !quiet {
          return Running, false, sent;
        }
      }
      SendAgain(Answered(Sender(k, retrys, Running), file, answer), file, answer, l.input);
      var bad := synce > GARBAGE || timedout || l.typ != ACK || l.seqno != l.buf[1];
      assert bad == Bad(answer, k);
      if !bad {
        if n == 0 {
          return Ok, false, sent;
        }
        return Running, true, sent;
      }
      retrys := retrys + 1;
      if retrys > XRETRYS {
        return Protocol, false, sent;
      }
    }
  }

  lemma {:induction false} EncodeSeq(seqno: Byte, data: Bytes)
    requires |data| <= DATAZ
    ensures |Encode(seqno, data)| == |data| + HEADER + TRAILER && Encode(seqno, data)[1] == seqno
  {
  }

  lemma {:induction false} FramesNone(file: Bytes)
    ensures Frames(file, []) == []
  {
  }

  // Read up to DATAZ bytes of the file into the buffer.
  method ReadBlock(l: Line, file: Bytes, pos: nat) returns (n: nat)
    requires l.Valid() && pos <= |file|
    modifies l.buf
    ensures n == if pos + DATAZ <= |file| then DATAZ else |file| - pos
    ensures l.buf[HEADER..HEADER + n] == file[pos..pos + n] && l.buf[1] == old(l.buf[1])
  {
    n := if pos + DATAZ <= |file| then DATAZ else |file| - pos;
    for i := 0 to n
      invariant l.buf[HEADER..HEADER + i] == file[pos..pos + i] && l.buf[1] == old(l.buf[1])
    {
      l.buf[HEADER + i] := file[pos + i];
    }
  }

  // Where block k begins.
  function At(file: Bytes, k: nat): nat
  {
    if k * DATAZ <= |file| then k * DATAZ else |file|
  }

  lemma {:induction false} BlockAt(file: Bytes, k: nat)
    ensures var pos := At(file, k); var n := if pos + DATAZ <= |file| then DATAZ else |file| - pos;
            n == |Block(file, k)| && file[pos..pos + n] == Block(file, k) && At(file, k + 1) == pos + n
  {
  }

  // Send the whole file.
  method Xproto(l: Line, file: Bytes) returns (status: Result, ghost sent: seq<nat>)
    requires l.Valid()
    modifies l, l.buf
    ensures l.written == old(l.written) + Frames(file, sent)
    ensures var all := Send(Sender(0, 0, Running), file, old(l.Reply()), old(l.input));
            all.sent == sent && all.sender.status == status
  {
    hide Send, Listen, Answered, Encode, Block, Frames, SeqOf, Xor, At;
    l.buf[1] := 1;
    l.filesize := 0;
    var pos := 0;
    ghost var k := 0;
    sent := [];
    FramesNone(file);
    BlockAt(file, 0);
    FirstAt(file);
    FlipSeq(0);
    ghost var all := Send(Sender(0, 0, Running), file, l.Reply(), l.input);
    while true
      invariant pos == At(file, k) <= |file| && Xor(l.buf[1], 1) == SeqOf(k)
      invariant l.written == old(l.written) + Frames(file, sent)
      invariant var more := Send(Sender(k, 0, Running), file, l.Reply(), l.input);
                all.sender == more.sender && all.sent == sent + more.sent
      decreases |l.input|
    {
      BlockAt(file, k);
      var n := ReadBlock(l, file, pos);
      pos := pos + n;
      var _ := MyCrc(l.buf, n);
      EncodeSeq(SeqOf(k), Block(file, k));
      var again;
      ghost var some;
      status, again, some := SendBlock(l, n, file, k, sent);
      FramesConcat(file, sent, some);
      sent := sent + some;
      if !again {
        return;
      }
      l.filesize := l.filesize + n;
      assert l.buf[1] == SeqOf(k);
      FlipSeq(k);
      k := k + 1;
    }
  }

  lemma {:induction false} FirstAt(file: Bytes)
    ensures At(file, 0) == 0
  {
  }

  lemma {:induction false} FramesConcat(file: Bytes, x: seq<nat>, y: seq<nat>)
    ensures Frames(file, x + y) == Frames(file, x) + Frames(file, y)
    decreases y
  {
    if y == [] {
      assert x + y == x;
    } else {
      hide Frames, Encode, Block, SeqOf;
      var k, rest := y[|y| - 1], y[..|y| - 1];
      FramesConcat(file, x, rest);
      FramesMore(file, rest, k);
      FramesMore(file, x + rest, k);
      Snoc(x, y);
      Assoc(Frames(file, x), Frames(file, rest), [Encode(SeqOf(k), Block(file, k))]);
    }
  }

  lemma {:induction false} Snoc<T>(x: seq<T>, y: seq<T>)
    requires y != []
    ensures y == y[..|y| - 1] + [y[|y| - 1]] && x + y == x + y[..|y| - 1] + [y[|y| - 1]]
  {
  }

  function Count(sent: seq<nat>, i: nat): nat
  {
    if sent == [] then 0 else (if sent[0] == i then 1 else 0) + Count(sent[1..], i)
  }

  // Blocks go out in order from `k`, each again or the next.
  predicate InTurn(sent: seq<nat>, k: nat)
  {
    sent == [] || (sent[0] == k && (InTurn(sent[1..], k) || InTurn(sent[1..], k + 1)))
  }

  // No block is written more than XRETRYS + 1 times, and none is skipped.
  lemma {:induction false} SentAtMost(s: Sender, file: Bytes, a: Answer, input: seq<In>, i: nat)
    requires s.status == Running && s.retrys <= XRETRYS
    ensures var sent := Send(s, file, a, input).sent;
            && InTurn(sent, s.k)
            && Count(sent, i) <= (if i < s.k then 0 else if i == s.k then XRETRYS + 1 - s.retrys else XRETRYS + 1)
    decreases |input|
  {
    var b := a.(timedout := false, synce := 0);
    var h := Settled(Listen(b, input));
    if h.Heard? && Answered(s, file, h.answer).status == Running {
      SettledShorter(b, input);
      var t := Answered(s, file, h.answer);
      SentAtMost(t, file, h.answer, h.rest, i);
      var more := Send(t, file, h.answer, h.rest);
      assert ([s.k] + more.sent)[1..] == more.sent;
    }
  }
}
