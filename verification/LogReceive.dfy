/** The receiving side of a stop-and-wait file transfer (Admin/log.c: rproto). */
module LogReceive {
  import opened Channel
  import opened Log

  // The local file: its bytes, where the next write goes, and how coming writes fall short
  // (the bytes each takes; -1 for an error).  Writes past that list are whole.
  datatype Disk = Disk(file: Bytes, pos: nat, faults: seq<int>)

  datatype Mode =
    | NewBlock
    | Sequence
    | Size1
    | Size2
    | Body(got: Bytes)
    | Skipping(nak: bool)   // lflush

  datatype Receiver = Receiver(
    mode: Mode, retrys: nat, garbage: nat, size: Byte,
    seqno: Byte,            // reply.r_seq
    lastseq: Byte, lastsize: int,
    disk: Disk, filesize: int,
    out: seq<Bytes>,        // what was written to the line
    status: Result)

  function Overwrite(f: Bytes, pos: nat, data: Bytes): Bytes
    requires pos <= |f|
  {
    f[..pos] + data + if pos + |data| < |f| then f[pos + |data|..] else []
  }

  // One write call.
  function Taken(d: Disk, data: Bytes): int
  {
    if d.faults == [] then |data|
    else if d.faults[0] < 0 then -1
    else if d.faults[0] > |data| then |data|
    else d.faults[0]
  }

  function Written(d: Disk, data: Bytes): Disk
    requires d.pos <= |d.file|
  {
    var n := Taken(d, data);
    var faults := if d.faults == [] then [] else d.faults[1..];
    if n <= 0 then d.(faults := faults)
    else Disk(Overwrite(d.file, d.pos, data[..n]), d.pos + n, faults)
  }

  // The retry loop around it.
  datatype Saved = Saved(disk: Disk, lastsize: int, ok: bool)

  function SaveBlock(d: Disk, data: Bytes, wretrys: nat): Saved
    requires d.pos <= |d.file| && wretrys <= XRETRYS
    decreases XRETRYS - wretrys
  {
    var n := Taken(d, data);
    var e := Written(d, data);
    if n == |data| then Saved(e, n, true)
    else if wretrys >= XRETRYS then Saved(e, n, false)
    else SaveBlock(if n > 0 then e.(pos := e.pos - n) else e, data, wretrys + 1)
  }

  function Fails(r: Receiver): Receiver
  {
    r.(out := r.out + [[ETX, ETX, ETX, ETX]], status := Protocol)
  }

  function Naks(r: Receiver): Receiver
  {
    r.(mode := NewBlock, out := r.out + [[NAK, r.seqno]])
  }

  predicate Sound(r: Receiver)
  {
    r.disk.pos <= |r.disk.file| && r.lastsize <= r.disk.pos
  }

  // A block has come whole.
  function Accept(r: Receiver, data: Bytes): Receiver
    requires Sound(r)
  {
    var again := r.seqno == r.lastseq && r.lastsize > 0;
    var d := if again then r.disk.(pos := r.disk.pos - r.lastsize) else r.disk;
    var filesize := if again then r.filesize - r.lastsize else r.filesize;
    var w := SaveBlock(d, data, 0);
    var t := r.(mode := NewBlock, disk := w.disk, lastsize := w.lastsize, filesize := filesize);
    if !w.ok then Fails(t)
    else t.(filesize := filesize + |data|, lastseq := r.seqno, out := t.out + [[ACK, r.seqno]])
  }

  function Complete(r: Receiver, got: Bytes): Receiver
    requires Sound(r) && |got| == r.size + TRAILER
  {
    var c := CrcOf(got[..r.size]);
    if c == Crc(got[r.size], got[r.size + 1]) then Accept(r, got[..r.size]) else Naks(r)
  }

  // A byte outside the body of a block.
  function Header(r: Receiver, x: Byte): Receiver
  {
    match r.mode
    case NewBlock =>
      if x == STX then r.(mode := Sequence, retrys := 0, garbage := 0)
      else if r.garbage >= GARBAGE then r.(mode := Skipping(false), garbage := 0)
      else r.(garbage := r.garbage + 1)
    case Sequence => if x > 1 then r.(mode := Skipping(true)) else r.(seqno := x, mode := Size1)
    case Size1 => if x > DATAZ then r.(size := x, mode := Skipping(true)) else r.(size := x, mode := Size2)
    case Size2 =>
      if r.size != Not(x) then r.(mode := Skipping(true))
      else if r.size == 0 then r.(mode := NewBlock, out := r.out + [[ETX, ETX, ETX, ETX]], status := Ok)
      else r.(mode := Body([]))
    case _ => r
  }

  function Silent(r: Receiver): Receiver
  {
    match r.mode
    case Skipping(nak) => if nak then Naks(r) else r.(mode := NewBlock)
    case Body(_) => Naks(r)
    case _ => if r.retrys < RRETRYS then r.(retrys := r.retrys + 1, out := r.out + [[ENQ, ENQ]])
        else Fails(r.(retrys := r.retrys + 1))
  }

  predicate Fit(r: Receiver)
  {
    Sound(r) && (r.mode.Body? ==> |r.mode.got| < r.size + TRAILER)
        && (r.mode.Body? || r.mode.Size2? ==> r.size <= DATAZ)
  }

  function Receive(r: Receiver, x: In): Receiver
    requires Fit(r)
  {
    if r.status != Running then r
    else if x.Quiet? then Silent(r)
    else match r.mode
      case Skipping(_) => r
      case Body(got) =>
        if |got| + 1 < r.size + TRAILER then r.(mode := Body(got + [x.b])) else Complete(r, got + [x.b])
      case _ => Header(r, x.b)
  }

  // A write moves the position on by what it took, and writes no more.
  lemma {:induction false} WrittenIs(d: Disk, data: Bytes)
    requires d.pos <= |d.file|
    ensures var n := Taken(d, data); var e := Written(d, data);
            && n <= |data| && e.pos <= |e.file| && (n > 0 ==> e.pos == d.pos + n) && (n <= 0 ==> e.pos == d.pos)
            && e.file == (if n > 0 then Overwrite(d.file, d.pos, data[..n]) else d.file)
  {
  }

  // The retry loop writes the block, or gives up; either way it can go back over its last write.
  lemma {:induction false} SaveBlockIs(d: Disk, data: Bytes, wretrys: nat)
    requires d.pos <= |d.file| && wretrys <= XRETRYS
    ensures var w := SaveBlock(d, data, wretrys);
            && w.lastsize <= |data| && w.disk.pos <= |w.disk.file| && w.lastsize <= w.disk.pos
            && (w.ok ==>
                  && w.lastsize == |data| && w.disk.pos == d.pos + |data|
                  && w.disk.file == Overwrite(d.file, d.pos, data))
    decreases XRETRYS - wretrys
  {
    hide Overwrite, Taken, Written;
    var n := Taken(d, data);
    var e := Written(d, data);
    WrittenIs(d, data);
    if n == |data| {
      assert data[..n] == data;
      OverwriteNothing(d.file, d.pos, data);
    } else if wretrys < XRETRYS {
      SaveBlockIs(if n > 0 then e.(pos := e.pos - n) else e, data, wretrys + 1);
      if n > 0 {
        OverwriteTwice(d.file, d.pos, data[..n], data);
      }
    }
  }

  lemma {:induction false} OverwriteNothing(f: Bytes, pos: nat, data: Bytes)
    requires pos <= |f|
    ensures data == [] ==> Overwrite(f, pos, data) == f
  {
  }

  // Writing over a part of it again loses nothing.
  lemma {:induction false} OverwriteTwice(f: Bytes, pos: nat, some: Bytes, data: Bytes)
    requires pos <= |f| && some <= data
    ensures pos <= |Overwrite(f, pos, some)| && Overwrite(Overwrite(f, pos, some), pos, data) == Overwrite(f, pos, data)
  {
  }

  lemma {:induction false} AcceptFit(r: Receiver, data: Bytes)
    requires Sound(r)
    ensures Sound(Accept(r, data)) && Accept(r, data).mode == NewBlock
  {
    var again := r.seqno == r.lastseq && r.lastsize > 0;
    var d := if again then r.disk.(pos := r.disk.pos - r.lastsize) else r.disk;
    SaveBlockIs(d, data, 0);
  }

  lemma {:induction false} ReceiveFit(r: Receiver, x: In)
    requires Fit(r)
    ensures Fit(Receive(r, x))
  {
    hide Accept, CrcOf;
    if r.status == Running && x.Got? && r.mode.Body? && |r.mode.got| + 1 == r.size + TRAILER {
      AcceptFit(r, (r.mode.got + [x.b])[..r.size]);
    }
  }

  function ReceiveAll(r: Receiver, input: seq<In>): Receiver
    requires Fit(r)
    decreases input
  {
    if input == [] then r else ReceiveFit(r, input[0]); ReceiveAll(Receive(r, input[0]), input[1..])
  }

  // ----- A block sent whole is taken whole

  function AsInput(data: Bytes): seq<In>
  {
    seq(|data|, i requires 0 <= i < |data| => Got(data[i]))
  }

  lemma {:induction false} ReceiveConcat(r: Receiver, x: seq<In>, y: seq<In>)
    requires Fit(r)
    ensures Fit(ReceiveAll(r, x)) && ReceiveAll(r, x + y) == ReceiveAll(ReceiveAll(r, x), y)
    decreases x
  {
    if x == [] {
      assert x + y == y;
    } else {
      ReceiveFit(r, x[0]);
      ReceiveConcat(Receive(r, x[0]), x[1..], y);
      assert (x + y)[1..] == x[1..] + y;
    }
  }

  lemma {:induction false} BodyTaken(r: Receiver, got: Bytes, rest: Bytes)
    requires Fit(r) && r.status == Running && r.mode == Body(got) && |got| + |rest| == r.size + TRAILER && rest != []
    ensures ReceiveAll(r, AsInput(rest)) == Complete(r, got + rest)
    decreases rest
  {
    hide Complete;
    var t := Receive(r, Got(rest[0]));
    ReceiveFit(r, Got(rest[0]));
    assert AsInput(rest)[1..] == AsInput(rest[1..]);
    if |rest| > 1 {
      BodyTaken(t, got + [rest[0]], rest[1..]);
      CompleteSame(r, t, got + rest);
      assert got + [rest[0]] + rest[1..] == got + rest;
    } else {
      assert got + rest == got + [rest[0]];
      assert AsInput(rest[1..]) == [];
    }
  }

  // The bytes of a block gathered so far do not matter once it is complete.
  lemma {:induction false} CompleteSame(r: Receiver, t: Receiver, got: Bytes)
    requires Sound(r) && t == r.(mode := t.mode) && |got| == r.size + TRAILER
    ensures Complete(t, got) == Complete(r, got)
  {
    hide SaveBlock;
  }

  // What the receiver makes of an undamaged block, from its header on.
  function TakeBlock(r: Receiver, seqno: Byte, data: Bytes): Receiver
    requires Sound(r) && |data| <= DATAZ
  {
    var t := r.(retrys := 0, garbage := 0, seqno := seqno, size := |data|, mode := NewBlock);
    if data == [] then t.(out := t.out + [[ETX, ETX, ETX, ETX]], status := Ok) else Accept(t, data)
  }

  lemma {:induction false} HeaderTaken(r: Receiver, seqno: Byte, n: nat)
    requires Fit(r) && r.status == Running && r.mode == NewBlock && seqno <= 1 && 0 < n <= DATAZ
    ensures ReceiveAll(r, AsInput([STX, seqno, n, Not(n)]))
            == r.(retrys := 0, garbage := 0, seqno := seqno, size := n, mode := Body([]))
  {
    var r1 := Receive(r, Got(STX));
    var r2 := Receive(r1, Got(seqno));
    var r3 := Receive(r2, Got(n));
    var i := AsInput([STX, seqno, n, Not(n)]);
    assert i == [Got(STX), Got(seqno), Got(n), Got(Not(n))];
    assert i[1..] == [Got(seqno), Got(n), Got(Not(n))] && i[1..][1..] == [Got(n), Got(Not(n))];
    assert i[1..][1..][1..] == [Got(Not(n))] && [Got(Not(n))][1..] == [];
    assert ReceiveAll(r3, [Got(Not(n))]) == Receive(r3, Got(Not(n)));
    assert ReceiveAll(r2, i[1..][1..]) == ReceiveAll(r3, [Got(Not(n))]);
    assert ReceiveAll(r1, i[1..]) == ReceiveAll(r2, i[1..][1..]);
  }

  // The bytes that xproto writes for a block are, to a receiver between blocks, that block.
  lemma {:induction false} FrameTaken(r: Receiver, seqno: Byte, data: Bytes)
    requires Fit(r) && r.status == Running && r.mode == NewBlock && seqno <= 1 && |data| <= DATAZ && data != []
    ensures ReceiveAll(r, AsInput(Encode(seqno, data))) == TakeBlock(r, seqno, data)
  {
    hide Receive, Accept, CrcOf, Encode;
    var n := |data|;
    var head := [STX, seqno, n, Not(n)];
    var body := data + [CrcOf(data).lpc, CrcOf(data).sum];
    EncodeIs(seqno, data);
    assert AsInput(head + body) == AsInput(head) + AsInput(body);
    HeaderTaken(r, seqno, n);
    ReceiveConcat(r, AsInput(head), AsInput(body));
    var t := ReceiveAll(r, AsInput(head));
    BodyTaken(t, [], body);
    CompleteSame(t, t.(mode := NewBlock), body);
    assert [] + body == body && body[..n] == data;
  }

  lemma {:induction false} EncodeIs(seqno: Byte, data: Bytes)
    requires |data| <= DATAZ
    ensures Encode(seqno, data) == [STX, seqno, |data|, Not(|data|)] + (data + [CrcOf(data).lpc, CrcOf(data).sum])
  {
    hide Fold;
  }

  // ----- The program

  class Output {
    var file: Bytes
    var pos: nat
    var faults: seq<int>

    function Now(): Disk
      reads this
    {
      Disk(file, pos, faults)
    }

    constructor (faults: seq<int>)
      ensures Now() == Disk([], 0, faults)
    {
      file, pos := [], 0;
      this.faults := faults;
    }
  }

  method WriteSome(f: Output, data: Bytes) returns (n: int)
    requires f.pos <= |f.file|
    modifies f
    ensures n == Taken(old(f.Now()), data) && f.Now() == Written(old(f.Now()), data)
  {
    n := if f.faults == [] then |data|
         else if f.faults[0] < 0 then -1
         else if f.faults[0] > |data| then |data|
         else f.faults[0];
    if f.faults != [] {
      f.faults := f.faults[1..];
    }
    if n > 0 {
      f.file := Overwrite(f.file, f.pos, data[..n]);
      f.pos := f.pos + n;
    }
  }

  method WriteBlock(f: Output, data: Bytes) returns (lastsize: int, ok: bool)
    requires f.pos <= |f.file|
    modifies f
    ensures Saved(f.Now(), lastsize, ok) == SaveBlock(old(f.Now()), data, 0)
  {
    hide Taken, Written, Overwrite;
    var wretrys := 0;
    while true
      invariant wretrys <= XRETRYS && f.pos <= |f.file|
      invariant SaveBlock(f.Now(), data, wretrys) == SaveBlock(old(f.Now()), data, 0)
      decreases XRETRYS - wretrys
    {
      WrittenIs(f.Now(), data);
      lastsize := WriteSome(f, data);
      if lastsize == |data| {
        return lastsize, true;
      }
      if wretrys >= XRETRYS {
        return lastsize, false;
      }
      wretrys := wretrys + 1;
      if lastsize > 0 {
        f.pos := f.pos - lastsize;
      }
    }
  }

  lemma {:induction false} SkipTo(r: Receiver, input: seq<In>)
    requires Fit(r) && r.status == Running && r.mode.Skipping?
    ensures Fit(Silent(r))
    ensures ReceiveAll(r, input) == if Quiet in input then ReceiveAll(Silent(r), Flushed(input)) else r
    decreases input
  {
    if input != [] {
      if input[0].Got? {
        SkipTo(r, input[1..]);
      }
    }
  }

  datatype Tread = Whole | Late | Pending

  // Read the body of a block into the buffer.
  method ReadBody(l: Line, size: nat, ghost r: Receiver) returns (t: Tread, ghost got: Bytes)
    requires l.Valid() && Fit(r) && r.status == Running && r.mode == Body([]) && size == r.size
    modifies l`input, l.buf
    ensures |l.input| <= |old(l.input)|
    ensures var all := ReceiveAll(r, old(l.input));
            match t
            case Whole => |got| == r.size + TRAILER && l.buf[HEADER..HEADER + r.size + TRAILER] == got
                          && Fit(Complete(r, got)) && all == ReceiveAll(Complete(r, got), l.input)
            case Late => all == ReceiveAll(Naks(r), l.input)
            case Pending => all == r.(mode := all.mode)
  {
    hide Complete;
    got := [];
    ghost var s := r;
    var n := size + TRAILER;
    var i := 0;
    while true
      invariant 0 <= i == |got| < n && l.buf[HEADER..HEADER + i] == got && |l.input| <= |old(l.input)|
      invariant s == r.(mode := Body(got)) && Fit(s) && ReceiveAll(s, l.input) == ReceiveAll(r, old(l.input))
      decreases |l.input|
    {
      if l.input == [] {
        return Pending, got;
      }
      var x := l.input[0];
      ReceiveFit(s, x);
      ghost var u := Receive(s, x);
      l.input := l.input[1..];
      if x.Quiet? {
        return Late, got;
      }
      l.buf[HEADER + i] := x.b;
      got := got + [x.b];
      i := i + 1;
      if i == n {
        CompleteSame(r, s, got);
        return Whole, got;
      }
      s := u;
    }
  }

  // The receiver that the program's variables make up.
  function Mirror(l: Line, f: Output, state: Mode, retrys: nat, garbage: nat, size: Byte, lastseq: Byte, lastsize: int,
                  status: Result): Receiver
    reads l`seqno, l`filesize, l`written, f
  {
    Receiver(state, retrys, garbage, size, l.seqno, lastseq, lastsize, f.Now(), l.filesize, l.written, status)
  }

  // A block has come whole, and its check bytes are right.
  method AcceptBlock(l: Line, f: Output, size: Byte, retrys: nat, garbage: nat, lastseq: Byte, lastsize: int)
    returns (seqno: Byte, saved: int, ok: bool)
    requires l.Valid() && size <= DATAZ
             && Sound(Mirror(l, f, NewBlock, retrys, garbage, size, lastseq, lastsize, Running))
    modifies l`filesize, l`written, f
    ensures Mirror(l, f, NewBlock, retrys, garbage, size, seqno, saved, if ok then Running else Protocol)
            == Accept(old(Mirror(l, f, NewBlock, retrys, garbage, size, lastseq, lastsize, Running)),
               l.buf[HEADER..HEADER + size])
  {
    hide SaveBlock;
    if l.seqno == lastseq && lastsize > 0 {
      f.pos := f.pos - lastsize;
      l.filesize := l.filesize - lastsize;
    }
    saved, ok := WriteBlock(f, l.buf[HEADER..HEADER + size]);
    seqno := lastseq;
    if !ok {
      l.written := l.written + [[ETX, ETX, ETX, ETX]];
      return;
    }
    l.filesize := l.filesize + size;
    seqno := l.seqno;
    l.written := l.written + [[ACK, l.seqno]];
  }

  // The body of a block, and the answer to it.  `more` is false when the input ends before that.
  method TakeBody(l: Line, f: Output, size: Byte, retrys: nat, garbage: nat, lastseq: Byte, lastsize: int,
                  ghost r: Receiver)
    returns (seqno: Byte, saved: int, ok: bool, more: bool, ghost s: Receiver)
    requires l.Valid() && Fit(r) && r == Mirror(l, f, Body([]), retrys, garbage, size, lastseq, lastsize, Running)
    modifies l`filesize, l`written, l`input, l.buf, f
    ensures Fit(s) && ReceiveAll(r, old(l.input)) == (if more then ReceiveAll(s, l.input) else s)
    ensures s == Mirror(l, f, if more then NewBlock else s.mode, retrys, garbage, size, seqno, saved,
                        if ok then Running else Protocol)
    ensures |l.input| <= |old(l.input)| && (!more ==> ok)
  {
    hide Accept, CrcOf, ReceiveAll, Encode, Xor;
    var t, got := ReadBody(l, size, r);
    seqno, saved, ok, more := lastseq, lastsize, true, t != Pending;
    match t {
      case Pending =>
        s := ReceiveAll(r, old(l.input));
        ReceiveFits(r, old(l.input));
      case Late =>
        s := Naks(r);
        l.written := l.written + [[NAK, l.seqno]];
      case Whole =>
        s := Complete(r, got);
        Pieces(l.buf, got, size);
        CompleteSame(r, r.(mode := NewBlock), got);
        var error := MyCrc(l.buf, size);
        if error != 0 {
          l.written := l.written + [[NAK, l.seqno]];
        } else {
          seqno, saved, ok := AcceptBlock(l, f, size, retrys, garbage, lastseq, lastsize);
        }
    }
  }

  lemma {:induction false} Pieces(buf: array<Byte>, got: Bytes, size: nat)
    requires |got| == size + TRAILER && HEADER + size + TRAILER <= buf.Length
    requires buf[HEADER..HEADER + size + TRAILER] == got
    ensures buf[HEADER..HEADER + size] == got[..size]
    ensures buf[HEADER + size] == got[size] && buf[HEADER + size + 1] == got[size + 1]
  {
    assert buf[HEADER..HEADER + size] == buf[HEADER..HEADER + size + TRAILER][..size];
    assert buf[HEADER..HEADER + size + TRAILER][size] == buf[HEADER + size];
  }

  lemma {:induction false} ReceiveFits(r: Receiver, input: seq<In>)
    requires Fit(r)
    ensures Fit(ReceiveAll(r, input))
    decreases input
  {
    if input != [] {
      ReceiveFit(r, input[0]);
      ReceiveFits(Receive(r, input[0]), input[1..]);
    }
  }

  // Receive a file.  What is promised is what the byte machine makes of the whole input.
  method Rproto(l: Line, f: Output) returns (status: Result, ghost r: Receiver)
    requires l.Valid() && f.pos <= |f.file|
    modifies l, l.buf, f
    ensures var first := Receiver(NewBlock, 0, 0, 0, 0, 255, 0, old(f.Now()), 0, old(l.written), Running);
            r == ReceiveAll(first, old(l.input))
    ensures r.status == status && r.disk == f.Now() && r.out == l.written && r.filesize == l.filesize
  {
    hide Complete, Accept, CrcOf, ReceiveAll;
    var state, retrys, garbage := NewBlock, 0, 0;
    var size: Byte, lastseq: Byte, lastsize := 0, 255, 0;
    l.seqno, l.filesize := 0, 0;
    ghost var first := Mirror(l, f, state, retrys, garbage, size, lastseq, lastsize, Running);
    r := first;
    while true
      invariant r == Mirror(l, f, state, retrys, garbage, size, lastseq, lastsize, Running)
      invariant Fit(r) && (state == NewBlock || state == Sequence || state == Size1 || state == Size2)
      invariant ReceiveAll(r, l.input) == ReceiveAll(first, old(l.input))
      decreases |l.input|
    {
      ReceiveStep(r, l.input);
      if l.input == [] {
        return Running, r;
      }
      var x := l.input[0];
      ReceiveFit(r, x);
      r := Receive(r, x);
      l.input := l.input[1..];
      if x.Quiet? {
        retrys := retrys + 1;
        if retrys > RRETRYS {
          l.written := l.written + [[ETX, ETX, ETX, ETX]];
          ReceiveEnded(r, l.input);
          return Protocol, r;
        }
        l.written := l.written + [[ENQ, ENQ]];
        continue;
      }
      var flush, nak := false, false;
      match state {
        case NewBlock =>
          if x.b == STX {
            state, retrys, garbage := Sequence, 0, 0;
          } else if garbage >= GARBAGE {
            flush, garbage := true, 0;
          } else {
            garbage := garbage + 1;
          }
        case Sequence =>
          if x.b > 1 {
            flush, nak := true, true;
          } else {
            l.seqno := x.b;
            state := Size1;
          }
        case Size1 =>
          size := x.b;
          if size > DATAZ {
            flush, nak := true, true;
          } else {
            state := Size2;
          }
        case Size2 =>
          state := NewBlock;
          if size != Not(x.b) {
            flush, nak := true, true;
          } else if size == 0 {
            l.written := l.written + [[ETX, ETX, ETX, ETX]];
            ReceiveEnded(r, l.input);
            return Ok, r;
          } else {
            var ok, more;
            lastseq, lastsize, ok, more, r := TakeBody(l, f, size, retrys, garbage, lastseq, lastsize, r);
            if !more {
              return Running, r;
            }
            if !ok {
              ReceiveEnded(r, l.input);
              return Protocol, r;
            }
          }
      }
      if flush {
        state := NewBlock;
        SkipTo(r, l.input);
        FlushedShorter(l.input);
        var quiet := Flush(l);
        if !quiet {
          return Running, r;
        }
        r := Silent(r);
        if nak {
          l.written := l.written + [[NAK, l.seqno]];
        }
      }
    }
  }

  lemma {:induction false} ReceiveStep(r: Receiver, input: seq<In>)
    requires Fit(r)
    ensures input == [] ==> ReceiveAll(r, input) == r
    ensures input != [] ==>
              Fit(Receive(r, input[0])) && ReceiveAll(r, input) == ReceiveAll(Receive(r, input[0]), input[1..])
  {
    if input != [] {
      ReceiveFit(r, input[0]);
    }
  }

  lemma {:induction false} ReceiveEnded(r: Receiver, input: seq<In>)
    requires Fit(r) && r.status != Running
    ensures ReceiveAll(r, input) == r
    decreases input
  {
    if input != [] {
      ReceiveEnded(r, input[1..]);
    }
  }
}
