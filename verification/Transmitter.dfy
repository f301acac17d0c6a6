/** The sending state machine (HTdaemon/transmitter.c) and the cutting of a message into packets
    (SendData, HTdaemon/packet.c). */
module Transmitter {
  import opened Channel
  import opened Parts
  import opened ReadBuffer

  const SOM_TIMEOUT: int := 20
  const MIN_SOM_TIMEOUT: int := 5
  const EOM_TIMEOUT: int := 15
  const MIN_EOM_TIMEOUT: int := 8
  const DOWN_TIMEOUT: int := 60
  const MAX_EOMS: int := 20

  // What the writer process knows beside its channels.
  datatype Writer = Writer(time: int, idleTime: int, linkDown: bool, started: bool, initDataCount: nat, writeAhead: nat)

  function Min(x: nat, y: nat): nat
  {
    if x < y then x else y
  }

  // ----- SendData

  // The next DATA packet, and the channel once its bytes are read.
  function NextData(s: SendSnap, m: seq<Byte>): Packet
    requires s.msgaddr <= |m|
  {
    Data(s.msgaddr, m[s.msgaddr..Min(s.msgaddr + s.outDataSize, |m|)])
  }

  // The channel after reading a packet of a message of `size` bytes.
  function AdvanceOf(s: SendSnap, size: nat): SendSnap
  {
    var to := Min(s.msgaddr + s.outDataSize, size);
    s.(msgaddr := to, eof := s.eof || to == size)
  }

  function SendDataOf(s: SendSnap, m: seq<Byte>): SendSnap
    requires s.msgaddr <= |m|
  {
    AdvanceOf(s, |m|).(out := s.out + [NextData(s, m)])
  }

  // The data of a packet, `sofar` and what is read until it is full or the message ends; and the
  // read buffer after it.
  ghost function PacketFrom(x: Letter, c: Cache, addr: nat, size: nat, ign: bool, sofar: seq<Byte>): (t: Taken)
    requires Whole(x) && addr <= x.size && Shaped(c) && End(c) <= x.size
    ensures Shaped(t.cache) && End(t.cache) <= x.size && (ign ==> t.cache == c)
    ensures |t.data| == |sofar| + Min(size, x.size - addr)
    decreases size
  {
    if size == 0 || addr == x.size then Taken(sofar, c)
    else
      ReadShape(x, c, addr, size, ign);
      var t := ReadDataOf(x, c, addr, size, ign);
      PacketFrom(x, t.cache, addr + |t.data|, size - |t.data|, ign, sofar + t.data)
  }

  ghost function PacketDataOf(x: Letter, c: Cache, addr: nat, size: nat, ign: bool): (t: Taken)
    requires Whole(x) && addr <= x.size && Shaped(c) && End(c) <= x.size
    ensures Shaped(t.cache) && End(t.cache) <= x.size && (ign ==> t.cache == c)
    ensures |t.data| == Min(size, x.size - addr)
  {
    PacketFrom(x, c, addr, size, ign, [])
  }

  // One turn of reading a packet.
  lemma {:induction false} PacketStep(x: Letter, c: Cache, addr: nat, size: nat, ign: bool, sofar: seq<Byte>)
    requires Whole(x) && addr < x.size && Shaped(c) && End(c) <= x.size && size > 0
    ensures var t := ReadDataOf(x, c, addr, size, ign);
            && Shaped(t.cache) && End(t.cache) <= x.size && 0 < |t.data| <= size && addr + |t.data| <= x.size
            && PacketFrom(x, c, addr, size, ign, sofar)
               == PacketFrom(x, t.cache, addr + |t.data|, size - |t.data|, ign, sofar + t.data)
  {
    hide ReadDataOf, Whole, Shaped;
    ReadShape(x, c, addr, size, ign);
  }

  lemma {:induction false} PacketEnd(x: Letter, c: Cache, addr: nat, size: nat, ign: bool, sofar: seq<Byte>)
    requires Whole(x) && addr <= x.size && Shaped(c) && End(c) <= x.size && (size == 0 || addr == x.size)
    ensures PacketFrom(x, c, addr, size, ign, sofar) == Taken(sofar, c)
  {
  }

  lemma {:induction false} Joined(m: seq<Byte>, i: nat, j: nat, k: nat)
    requires i <= j <= k <= |m|
    ensures m[i..j] + m[j..k] == m[i..k]
  {
  }

  // Packets read from a true buffer carry the message, and leave the buffer true from where they end.
  lemma {:induction false} PacketRight(x: Letter, c: Cache, low: nat, from: nat, addr: nat, size: nat, ign: bool,
                                       sofar: seq<Byte>)
    requires Whole(x) && low <= addr <= x.size && Shaped(c) && TrueFrom(c, low, Bytes(x))
             && End(c) <= x.size == |Bytes(x)|
    requires from <= addr && sofar == Bytes(x)[from..addr]
    ensures var t := PacketFrom(x, c, addr, size, ign, sofar); var to := Min(addr + size, x.size);
            && t.data == Bytes(x)[from..to]
            && TrueFrom(t.cache, to, Bytes(x)) && (low == 0 && Safe(x) ==> TrueFrom(t.cache, 0, Bytes(x)))
    decreases size
  {
    hide ReadDataOf, PacketFrom, Bytes, Safe, TrueFrom, Whole;
    if size == 0 || addr == x.size {
      PacketEnd(x, c, addr, size, ign, sofar);
      Higher(c, low, addr, Bytes(x));
    } else {
      ReadRight(x, c, low, addr, size, ign);
      PacketStep(x, c, addr, size, ign, sofar);
      var t := ReadDataOf(x, c, addr, size, ign);
      var next := addr + |t.data|;
      Higher(t.cache, addr, next, Bytes(x));
      Joined(Bytes(x), from, addr, next);
      var rest := size - |t.data|;
      PacketRight(x, t.cache, if low == 0 && Safe(x) then 0 else next, from, next, rest, ign, sofar + t.data);
    }
  }

  lemma {:induction false} Within(chnp: WChan)
    requires chnp.Valid()
    ensures chnp.Buffered() && Whole(chnp.Mail()) && chnp.msgaddr <= chnp.msgsize == chnp.Mail().size
    ensures |chnp.Message()| == chnp.msgsize
  {
    BytesLength(chnp.Mail());
  }

  // Read until the packet is full or the message ends; nothing is read only at the end of the message.
  method ReadLoop(chnp: WChan) returns (data: seq<Byte>)
    requires chnp.Valid() && !chnp.eof && chnp.outDataSize > 0
    modifies chnp`current, chnp`msgfile, chnp`fileaddr, chnp`filepos, chnp`bufstart, chnp`bufend,
             chnp`msgaddr, chnp`eof, chnp.databuffer
    ensures chnp.Valid()
    ensures data == [] <==> old(chnp.msgaddr) == chnp.msgsize
    ensures chnp.msgaddr == Min(old(chnp.msgaddr) + chnp.outDataSize, chnp.msgsize)
    ensures chnp.eof <==> data != [] && chnp.msgaddr == chnp.msgsize
    ensures Taken(data, chnp.Held())
            == PacketDataOf(chnp.Mail(), old(chnp.Held()), old(chnp.msgaddr), chnp.outDataSize, chnp.ignbuf)
  {
    hide Whole, WChan.Positioned, WChan.Buffered, WChan.Held, ReadDataOf, PacketFrom, Shaped, End;
    ghost var x, addr, size, ign := chnp.Mail(), chnp.msgaddr, chnp.outDataSize, chnp.ignbuf;
    ghost var all := PacketDataOf(x, chnp.Held(), addr, size, ign);
    data := [];
    while true
      invariant chnp.Valid() && chnp.Mail() == x && chnp.ignbuf == ign
      invariant |data| < size && !chnp.eof && chnp.msgaddr == addr + |data|
      invariant data != [] ==> chnp.msgaddr < chnp.msgsize
      invariant all == PacketFrom(x, chnp.Held(), chnp.msgaddr, size - |data|, ign, data)
      decreases size - |data|
    {
      ReadShape(x, chnp.Held(), chnp.msgaddr, size - |data|, ign);
      if chnp.msgaddr < chnp.msgsize {
        PacketStep(x, chnp.Held(), chnp.msgaddr, size - |data|, ign, data);
      } else {
        PacketEnd(x, chnp.Held(), chnp.msgaddr, size - |data|, ign, data);
      }
      var d := ReadData(chnp, chnp.outDataSize - |data|);
      if d == [] {
        return;
      }
      data := data + d;
      if |data| >= chnp.outDataSize || chnp.eof {
        break;
      }
    }
    PacketEnd(x, chnp.Held(), chnp.msgaddr, size - |data|, ign, data);
  }

  // A packet with what is read at the current address; a message that has no more bytes is a bad one.
  method SendRead(chnp: WChan) returns (ok: bool)
    requires chnp.Valid() && !chnp.eof && chnp.outDataSize > 0
    modifies chnp`current, chnp`msgfile, chnp`fileaddr, chnp`filepos, chnp`bufstart, chnp`bufend,
             chnp`msgaddr, chnp`eof, chnp`state, chnp`out, chnp.databuffer
    ensures chnp.Valid()
    ensures ok <==> old(chnp.msgaddr) < chnp.msgsize
    ensures var t := PacketDataOf(chnp.Mail(), old(chnp.Held()), old(chnp.msgaddr), chnp.outDataSize, chnp.ignbuf);
            && chnp.Held() == t.cache
            && (ok ==> chnp.Now() == AdvanceOf(old(chnp.Now()), chnp.msgsize).(
                                       out := old(chnp.out) + [Data(old(chnp.msgaddr), t.data)]))
            && (!ok ==> t.data == [] && chnp.Now() == old(chnp.Now()).(state := Ended))
  {
    hide Whole, WChan.Positioned, WChan.Held, PacketDataOf;
    var addr := chnp.msgaddr;
    var data := ReadLoop(chnp);
    ok := data != [];
    if ok {
      chnp.out := chnp.out + [Data(addr, data)];
    } else {
      chnp.state := Ended;
    }
  }

  // One DATA packet: from a sound buffer it has the message's bytes.
  method SendData(chnp: WChan) returns (ok: bool)
    requires chnp.Valid() && !chnp.eof && chnp.outDataSize > 0
    modifies chnp`current, chnp`msgfile, chnp`fileaddr, chnp`filepos, chnp`bufstart, chnp`bufend,
             chnp`msgaddr, chnp`eof, chnp`state, chnp`out, chnp.databuffer
    ensures chnp.Valid()
    ensures ok <==> old(chnp.msgaddr) < chnp.msgsize
    ensures ok ==>
              var t := PacketDataOf(chnp.Mail(), old(chnp.Held()), old(chnp.msgaddr), chnp.outDataSize, chnp.ignbuf);
              && chnp.Held() == t.cache
              && chnp.Now() == AdvanceOf(old(chnp.Now()), chnp.msgsize).(
                                 out := old(chnp.out) + [Data(old(chnp.msgaddr), t.data)])
    ensures !ok ==> chnp.Now() == old(chnp.Now()).(state := Ended)
    ensures |chnp.Message()| == chnp.msgsize
    ensures old(chnp.Sound()) ==> chnp.Sound()
    ensures ok && old(chnp.Sound()) ==> chnp.Now() == SendDataOf(old(chnp.Now()), chnp.Message())
  {
    ghost var s, x, c, addr := chnp.Now(), chnp.Mail(), chnp.Held(), chnp.msgaddr;
    ReadsOn(x, c, s);
    hide Whole, WChan.Positioned, WChan.Buffered, WChan.Held, PacketDataOf, TrueFrom, Bytes, Safe;
    ok := SendRead(chnp);
  }

  // A packet from a sound buffer is the message's next, and leaves the buffer sound.
  lemma {:induction false} ReadsOn(x: Letter, c: Cache, s: SendSnap)
    requires Whole(x) && s.msgaddr <= x.size == s.msgsize && Shaped(c) && End(c) <= x.size
    ensures |Bytes(x)| == x.size
    ensures TrueFrom(c, if Safe(x) then 0 else s.msgaddr, Bytes(x)) ==>
              var t := PacketDataOf(x, c, s.msgaddr, s.outDataSize, s.ignbuf);
              && Data(s.msgaddr, t.data) == NextData(s, Bytes(x))
              && TrueFrom(t.cache, if Safe(x) then 0 else AdvanceOf(s, x.size).msgaddr, Bytes(x))
  {
    hide PacketFrom, Bytes, Safe, TrueFrom, Whole;
    BytesLength(x);
    var low := if Safe(x) then 0 else s.msgaddr;
    if TrueFrom(c, low, Bytes(x)) {
      PacketRight(x, c, low, s.msgaddr, s.msgaddr, s.outDataSize, s.ignbuf, []);
    }
  }

  // ----- Control packets

  function SendEomOf(s: SendSnap, w: Writer): SendSnap
  {
    s.(out := s.out + [Eom(s.msgid, s.msgsize)],
       cntrltime := w.time + EOM_TIMEOUT + if w.linkDown then DOWN_TIMEOUT else 0,
       count := s.count - 1)
  }

  method SendEOM(chnp: WChan, w: Writer)
    modifies chnp`out, chnp`cntrltime, chnp`count
    ensures chnp.Now() == SendEomOf(old(chnp.Now()), w)
  {
    chnp.out := chnp.out + [Eom(chnp.msgid, chnp.msgsize)];
    chnp.cntrltime := w.time + EOM_TIMEOUT;
    if w.linkDown {
      chnp.cntrltime := chnp.cntrltime + DOWN_TIMEOUT;
    }
    chnp.count := chnp.count - 1;
  }

  function SendSomOf(s: SendSnap, w: Writer): SendSnap
  {
    s.(out := s.out + [Som(s.msgid, s.msgsize)],
       cntrltime := w.time + SOM_TIMEOUT + w.writeAhead + if w.linkDown then DOWN_TIMEOUT else 0)
  }

  method SendSOM(chnp: WChan, w: Writer)
    modifies chnp`out, chnp`cntrltime
    ensures chnp.Now() == SendSomOf(old(chnp.Now()), w)
  {
    chnp.out := chnp.out + [Som(chnp.msgid, chnp.msgsize)];
    chnp.cntrltime := w.time + SOM_TIMEOUT + w.writeAhead;
    if w.linkDown {
      chnp.cntrltime := chnp.cntrltime + DOWN_TIMEOUT;
    }
  }

  // The message has been received: an EOMA for it retires it.
  function RecvEomaOf(s: SendSnap, id: MsgId, size: nat): SendSnap
  {
    if id != s.msgid || size != s.msgsize then s else s.(state := Idle)
  }

  method RecvEOMA(chnp: WChan, id: MsgId, size: nat)
    modifies chnp`state
    ensures chnp.Now() == RecvEomaOf(old(chnp.Now()), id, size)
  {
    if id != chnp.msgid || size != chnp.msgsize {
      return;
    }
    chnp.state := Idle;
  }

  // The receiver is ready at `addr`: go on from there, or from where we are if it has nothing.
  function SomaAt(s: SendSnap, addr: nat): SendSnap
  {
    if addr != 0 then s.(msgaddr := addr) else s
  }

  function RecvSomaOf(s: SendSnap, id: MsgId, addr: nat, w: Writer): SendSnap
  {
    if id != s.msgid || addr > s.msgsize then s else SomaStateOf(SomaAt(s, addr), w)
  }

  function SomaStateOf(s: SendSnap, w: Writer): SendSnap
  {
    if s.msgaddr < s.msgsize then s.(eof := false, state := Active)
    else SendEomOf(s.(state := Ending, count := MAX_EOMS), w)
  }

  // Going on from a lower address is sound in a safe message.
  method RecvSOMA(chnp: WChan, id: MsgId, addr: nat, w: Writer)
    requires chnp.Valid()
    modifies chnp`msgaddr, chnp`eof, chnp`state, chnp`count, chnp`out, chnp`cntrltime
    ensures chnp.Valid()
    ensures chnp.Now() == RecvSomaOf(old(chnp.Now()), id, addr, w)
    ensures old(chnp.Sound()) && (Safe(chnp.Mail()) || old(chnp.msgaddr) <= chnp.msgaddr) ==> chnp.Sound()
  {
    hide WChan.Valid, WChan.Sound, WChan.Mail, WChan.Held, SendEomOf, Safe, Whole;
    if id != chnp.msgid || addr > chnp.msgsize {
      return;
    }
    if addr != 0 {
      SeekTo(chnp, addr);
    }
    SomaState(chnp, w);
  }

  // Move the channel to `addr`.
  method SeekTo(chnp: WChan, addr: nat)
    requires chnp.Valid() && addr <= chnp.msgsize
    modifies chnp`msgaddr
    ensures chnp.Valid() && chnp.msgaddr == addr
    ensures old(chnp.Sound()) && (Safe(chnp.Mail()) || old(chnp.msgaddr) <= chnp.msgaddr) ==> chnp.Sound()
  {
    hide Whole, Safe, Bytes, WChan.Held;
    chnp.msgaddr := addr;
  }

  // Active, or ending if there is nothing more to send.
  method SomaState(chnp: WChan, w: Writer)
    modifies chnp`eof, chnp`state, chnp`count, chnp`out, chnp`cntrltime
    ensures chnp.Now() == SomaStateOf(old(chnp.Now()), w)
  {
    hide SendEomOf;
    if chnp.msgaddr < chnp.msgsize {
      chnp.eof := false;
      chnp.state := Active;
    } else {
      chnp.state := Ending;
      chnp.count := MAX_EOMS;
      SendEOM(chnp, w);
    }
  }

  // ----- NAK

  // DATA packets of `n` bytes for [from, to); the last may run on past `to`.
  function Resend(m: seq<Byte>, from: nat, to: nat, n: nat): seq<Packet>
    requires to <= |m| && n > 0
    decreases if from < to then to - from else 0
  {
    if from >= to then []
    else [Data(from, m[from..Min(from + n, |m|)])] + Resend(m, Min(from + n, |m|), to, n)
  }

  // What a NAK brings, if what is sent again is `packets`.
  function NakOf(s: SendSnap, addr: nat, len: nat, packets: seq<Packet>): SendSnap
  {
    if s.state == Idle || s.msgaddr < addr || addr + len > s.msgsize || s.state == Ended then s
    else if len == s.msgsize then s.(msgaddr := addr, state := Active, eof := false)
    else s.(ignbuf := false, out := s.out + packets)
  }

  // What a NAK for bytes of the message makes the channel send again.
  function ResentFor(s: SendSnap, m: seq<Byte>, addr: nat, len: nat): seq<Packet>
    requires s.msgsize == |m| && s.outDataSize > 0
  {
    if addr + len > s.msgsize || len == 0 then [] else Resend(m, addr, addr + len, Min(s.outDataSize, len))
  }

  function RecvNakOf(s: SendSnap, m: seq<Byte>, addr: nat, len: nat): SendSnap
    requires s.msgsize == |m| && s.outDataSize > 0
  {
    NakOf(s, addr, len, ResentFor(s, m, addr, len))
  }

  // The packets read again, whatever the buffer holds: it is not filled meanwhile.
  ghost function ResendThrough(x: Letter, c: Cache, from: nat, to: nat, n: nat): seq<Packet>
    requires Whole(x) && to <= x.size && Shaped(c) && End(c) <= x.size && n > 0
    decreases if from < to then to - from else 0
  {
    if from >= to then []
    else
      var t := PacketDataOf(x, c, from, n, true);
      [Data(from, t.data)] + ResendThrough(x, c, Min(from + n, x.size), to, n)
  }

  ghost function ResentThrough(s: SendSnap, x: Letter, c: Cache, addr: nat, len: nat): seq<Packet>
    requires Whole(x) && s.msgsize == x.size && s.outDataSize > 0 && Shaped(c) && End(c) <= x.size
  {
    if addr + len > s.msgsize || len == 0 then []
    else ResendThrough(x, c, addr, addr + len, Min(s.outDataSize, len))
  }

  // From a buffer true from there on, the packets read again are the message's.
  lemma {:induction false} ResendRight(x: Letter, c: Cache, from: nat, to: nat, n: nat)
    requires Whole(x) && to <= x.size && Shaped(c) && TrueFrom(c, from, Bytes(x)) && n > 0
    ensures |Bytes(x)| == x.size && ResendThrough(x, c, from, to, n) == Resend(Bytes(x), from, to, n)
    decreases if from < to then to - from else 0
  {
    hide PacketFrom, Bytes, TrueFrom;
    BytesLength(x);
    EndWithin(x, c, from);
    if from < to {
      var next := Min(from + n, x.size);
      PacketRight(x, c, from, from, from, n, true, []);
      Higher(c, from, next, Bytes(x));
      ResendRight(x, c, next, to, n);
    }
  }

  lemma {:induction false} EndWithin(x: Letter, c: Cache, low: nat)
    requires Whole(x) && Shaped(c) && TrueFrom(c, low, Bytes(x))
    ensures End(c) <= x.size
  {
    BytesLength(x);
  }

  // The re-sending half of RecvNAK: send again the bytes asked for, past the read buffer but for
  // hits, and take up where we were.
  method ResendData(chnp: WChan, addr: nat, gapend: nat)
    requires chnp.Valid() && chnp.outDataSize > 0 && addr <= gapend <= chnp.msgsize
    modifies chnp, chnp.databuffer
    ensures chnp.Valid() && chnp.Mail() == old(chnp.Mail()) && chnp.Held() == old(chnp.Held())
    ensures chnp.Now() == old(chnp.Now()).(ignbuf := false, out := old(chnp.out) +
                            ResentThrough(old(chnp.Now()), chnp.Mail(), chnp.Held(), addr, gapend - addr))
  {
    hide WChan.Valid, WChan.Buffered, WChan.Held, WChan.Mail, WChan.Sound, ResendThrough, Whole, Shaped, End;
    Within(chnp);
    var saveAddr, saveEof, saveSize := chnp.msgaddr, chnp.eof, chnp.outDataSize;
    Reset(chnp, addr, if saveSize > gapend - addr then gapend - addr else saveSize, false, true);
    ResendLoop(chnp, gapend);
    Reset(chnp, saveAddr, saveSize, saveEof, false);
  }


  function ResetOf(s: SendSnap, addr: nat, size: nat, eof: bool, ignbuf: bool): SendSnap
  {
    s.(msgaddr := addr, outDataSize := size, eof := eof, ignbuf := ignbuf)
  }

  // Move the channel to `addr`, with packets of `size` bytes.
  method Reset(chnp: WChan, addr: nat, size: nat, eof: bool, ignbuf: bool)
    requires chnp.Valid() && addr <= chnp.msgsize
    modifies chnp`msgaddr, chnp`outDataSize, chnp`eof, chnp`ignbuf
    ensures chnp.Valid() && chnp.Now() == ResetOf(old(chnp.Now()), addr, size, eof, ignbuf)
  {
    hide WChan.Buffered, WChan.Described, WChan.Positioned;
    chnp.msgaddr := addr;
    chnp.outDataSize := size;
    chnp.eof := eof;
    chnp.ignbuf := ignbuf;
  }

  method ResendLoop(chnp: WChan, gapend: nat)
    requires chnp.Valid() && !chnp.eof && chnp.ignbuf && chnp.msgaddr <= gapend <= chnp.msgsize
    requires chnp.msgaddr < gapend ==> chnp.outDataSize > 0
    modifies chnp`current, chnp`msgfile, chnp`fileaddr, chnp`filepos, chnp`bufstart, chnp`bufend,
             chnp`msgaddr, chnp`eof, chnp`state, chnp`out, chnp.databuffer
    ensures chnp.Valid() && chnp.Held() == old(chnp.Held()) && chnp.state == old(chnp.state)
    ensures chnp.out == old(chnp.out) + if old(chnp.msgaddr) == gapend then []
                                        else ResendThrough(chnp.Mail(), chnp.Held(), old(chnp.msgaddr), gapend,
                                            chnp.outDataSize)
  {
    hide Whole, WChan.Positioned, WChan.Buffered, WChan.Held, WChan.Sound, PacketDataOf, ResendThrough, Safe, Shaped,
        End, Bytes, SendDataOf;
    if chnp.msgaddr == gapend {
      return;
    }
    ghost var x, c, n, from := chnp.Mail(), chnp.Held(), chnp.outDataSize, chnp.msgaddr;
    ghost var done: seq<Packet> := [];
    assert [] + ResendThrough(x, c, from, gapend, n) == ResendThrough(x, c, from, gapend, n);
    while chnp.msgaddr < gapend
      invariant chnp.Valid() && chnp.Held() == c && chnp.state == old(chnp.state)
      invariant chnp.out == old(chnp.out) + done
      invariant chnp.msgaddr < gapend ==> !chnp.eof
      invariant ResendThrough(x, c, from, gapend, n) == done + ResendThrough(x, c, chnp.msgaddr, gapend, n)
      decreases gapend - chnp.msgaddr
    {
      ThroughStep(x, c, chnp.msgaddr, gapend, n, done);
      done := done + [Data(chnp.msgaddr, PacketDataOf(x, c, chnp.msgaddr, n, true).data)];
      var ok := SendData(chnp);
      if !ok {
        break;
      }
    }
    ThroughEnd(x, c, chnp.msgaddr, gapend, n, done);
  }

  lemma {:induction false} ThroughStep(x: Letter, c: Cache, from: nat, to: nat, n: nat, done: seq<Packet>)
    requires Whole(x) && from < to <= x.size && Shaped(c) && End(c) <= x.size && n > 0
    ensures var p := Data(from, PacketDataOf(x, c, from, n, true).data);
            done + ResendThrough(x, c, from, to, n) == (done + [p]) + ResendThrough(x, c, Min(from + n, x.size), to, n)
  {
    hide PacketDataOf;
  }

  lemma {:induction false} ThroughEnd(x: Letter, c: Cache, from: nat, to: nat, n: nat, done: seq<Packet>)
    requires Whole(x) && to <= x.size && Shaped(c) && End(c) <= x.size && n > 0 && to <= from
    ensures done + ResendThrough(x, c, from, to, n) == done
  {
  }

  // Restart the whole message, or send again the bytes asked for.  What is sent again is the
  // message's if the buffer is sound and the message safe.
  method RecvNAK(chnp: WChan, addr: nat, len: nat)
    requires chnp.Valid() && chnp.outDataSize > 0
    modifies chnp, chnp.databuffer
    ensures chnp.Valid() && chnp.Mail() == old(chnp.Mail()) && chnp.Held() == old(chnp.Held())
    ensures chnp.Now() == NakOf(old(chnp.Now()), addr, len,
            ResentThrough(old(chnp.Now()), chnp.Mail(), chnp.Held(), addr, len))
    ensures |chnp.Message()| == chnp.msgsize
    ensures old(chnp.Sound()) && (Safe(chnp.Mail()) || len != chnp.msgsize) ==> chnp.Sound()
    ensures old(chnp.Sound()) && Safe(chnp.Mail()) ==>
              chnp.Now() == RecvNakOf(old(chnp.Now()), chnp.Message(), addr, len)
  {
    hide Whole, WChan.Valid, WChan.Buffered, WChan.Held, ResentThrough, RecvNakOf, Safe, TrueFrom, Bytes;
    Within(chnp);
    NakRight(chnp.Now(), chnp.Mail(), chnp.Held(), addr, len);
    if chnp.state == Idle || chnp.msgaddr < addr {
      return;
    }
    var gapend := addr + len;
    if gapend > chnp.msgsize {
      return;
    }
    if chnp.state == Ended {
      return;
    }
    if len == chnp.msgsize {
      SeekTo(chnp, addr);
      chnp.state := Active;
      chnp.eof := false;
      return;
    }
    ResendData(chnp, addr, gapend);
  }

  // A true buffer answers every NAK with the message's bytes.
  lemma {:induction false} NakRight(s: SendSnap, x: Letter, c: Cache, addr: nat, len: nat)
    requires Whole(x) && s.msgsize == x.size && s.outDataSize > 0 && Shaped(c) && End(c) <= x.size
    ensures |Bytes(x)| == x.size
    ensures TrueFrom(c, 0, Bytes(x)) ==>
              NakOf(s, addr, len, ResentThrough(s, x, c, addr, len)) == RecvNakOf(s, Bytes(x), addr, len)
  {
    BytesLength(x);
    hide Bytes, TrueFrom, Whole;
    if TrueFrom(c, 0, Bytes(x)) && addr + len <= s.msgsize && 0 < len {
      Higher(c, 0, addr, Bytes(x));
      ResendRight(x, c, addr, addr + len, Min(s.outDataSize, len));
    }
  }

  // The channel works on the message, with nothing asked for so far that it could not send.
  predicate Serves(s: SendSnap, x: Letter)
  {
    s.msgsize == x.size && s.outDataSize > 0
  }

  // After the reads `reqs`, this NAK is answered with the message's bytes.
  ghost predicate NakAnswered(x: Letter, reqs: seq<Request>, s: SendSnap, addr: nat, len: nat)
    requires Whole(x) && AllAsk(x, reqs) && Serves(s, x)
  {
    && |Bytes(x)| == x.size
    && NakOf(s, addr, len, ResentThrough(s, x, Ran(x, reqs), addr, len)) == RecvNakOf(s, Bytes(x), addr, len)
  }

  // Every NAK, after any reads, is answered with the message's bytes, if and only if the message is safe.
  lemma {:induction false} NaksRightIff(x: Letter)
    requires Whole(x)
    ensures (forall reqs, s, addr, len :: AllAsk(x, reqs) && Serves(s, x) ==>
            NakAnswered(x, reqs, s, addr, len)) <==> Safe(x)
  {
    hide NakOf, ResentThrough, RecvNakOf, Bytes, Safe, TrueFrom;
    if Safe(x) {
      forall reqs, s, addr, len | AllAsk(x, reqs) && Serves(s, x)
        ensures NakAnswered(x, reqs, s, addr, len)
      {
        RanTrue(x, reqs);
        NakRight(s, x, Ran(x, reqs), addr, len);
      }
    } else {
      BytesLength(x);
      var k, a := UnsafeAt(x);
      var p := x.parts[k];
      var s := SendSnap(Active, false, false, 0, 0, "", x.size, x.size, 1, []);
      NakLies(x, k, 1, a, s);
      var reqs := [Request(p.msgstart, 1, false)];
      assert NakOf(s, a, 1, ResentThrough(s, x, Ran(x, reqs), a, 1)).out[0] != RecvNakOf(s, Bytes(x), a, 1).out[0];
      assert !NakAnswered(x, reqs, s, a, 1);
    }
  }

  // How an unsafe message is answered for: one small packet sent from the start of the part that
  // claims address `a`, and from then on a NAK for the byte at `a` is answered with the part's
  // neighbour in its file.
  lemma {:induction false} NakLies(x: Letter, k: nat, size: nat, a: nat, s: SendSnap)
    requires Whole(x) && k < |x.parts| && Claims(x.parts[k]) && 0 < size <= FILEBUFFERSIZE / 2
    requires Front(x.parts[k]) <= a < x.parts[k].msgstart < |Bytes(x)|
    requires Serves(s, x) && s.state != Idle && s.state != Ended && a <= s.msgaddr
    ensures |Bytes(x)| == x.size && x.parts[k].msgstart <= x.size
    ensures var reqs := [Request(x.parts[k].msgstart, size, false)];
            && AllAsk(x, reqs)
            && NakOf(s, a, 1, ResentThrough(s, x, Ran(x, reqs), a, 1))
               == s.(ignbuf := false, out := s.out + [Data(a, [Neighbour(x.parts[k], x.files, a)])])
            && RecvNakOf(s, Bytes(x), a, 1) == s.(ignbuf := false, out := s.out + [Data(a, [Bytes(x)[a]])])
  {
    BytesLength(x);
    hide Bytes, Whole, ReadDataOf, Neighbour;
    var r := Request(x.parts[k].msgstart, size, false);
    OneRead(x, r);
    FrontAnswers(x, k, size, a, true);
    var c := Ran(x, [r]);
    OneResent(x, c, a);
    ResendOne(Bytes(x), a);
  }

  lemma {:induction false} OneResent(x: Letter, c: Cache, a: nat)
    requires Whole(x) && a < x.size && Shaped(c) && End(c) <= x.size
    ensures |ReadDataOf(x, c, a, 1, true).data| == 1
    ensures ResendThrough(x, c, a, a + 1, 1) == [Data(a, ReadDataOf(x, c, a, 1, true).data)]
  {
    hide ReadDataOf, Whole;
    ReadShape(x, c, a, 1, true);
    var t := ReadDataOf(x, c, a, 1, true);
    PacketStep(x, c, a, 1, true, []);
    PacketEnd(x, t.cache, a + 1, 0, true, [] + t.data);
    hide PacketFrom;
    assert [] + t.data == t.data;
    ThroughEnd(x, c, a + 1, a + 1, 1, [Data(a, t.data)]);
    ThroughStep(x, c, a, a + 1, 1, []);
    assert [] + [Data(a, t.data)] == [Data(a, t.data)];
    hide ResendThrough;
    assert [] + ResendThrough(x, c, a, a + 1, 1) == ResendThrough(x, c, a, a + 1, 1);
  }

  lemma {:induction false} ResendOne(m: seq<Byte>, a: nat)
    requires a < |m|
    ensures Resend(m, a, a + 1, 1) == [Data(a, [m[a]])]
  {
    ResendStep(m, a, a + 1, 1);
    ResendEnd(m, a + 1, a + 1, 1);
    assert m[a..a + 1] == [m[a]];
  }

  lemma {:induction false} ResendStep(m: seq<Byte>, from: nat, to: nat, n: nat)
    requires from < to <= |m| && n > 0
    ensures Resend(m, from, to, n) == [Data(from, m[from..Min(from + n, |m|)])] + Resend(m, Min(from + n, |m|), to, n)
  {
  }

  lemma {:induction false} ResendEnd(m: seq<Byte>, from: nat, to: nat, n: nat)
    requires to <= |m| && n > 0 && to <= from
    ensures Resend(m, from, to, n) == []
  {
  }

  // Non-empty DATA packets that follow each other from `from` to `to`, with the message's bytes.
  predicate DataRun(packets: seq<Packet>, m: seq<Byte>, from: nat, to: nat)
  {
    if packets == [] then from == to
    else
      && packets[0].Data? && packets[0].addr == from && packets[0].data != []
      && from + |packets[0].data| <= |m| && packets[0].data == m[from..from + |packets[0].data|]
      && DataRun(packets[1..], m, from + |packets[0].data|, to)
  }

  // What is sent again covers the range asked for, and runs past it by less than one packet.
  lemma {:induction false} ResendCovers(m: seq<Byte>, from: nat, to: nat, n: nat) returns (end: nat)
    requires from < to <= |m| && n > 0
    ensures to <= end <= |m| && end < to + n
    ensures DataRun(Resend(m, from, to, n), m, from, end)
    decreases if from < to then to - from else 0
  {
    var next := Min(from + n, |m|);
    ResendStep(m, from, to, n);
    if next < to {
      end := ResendCovers(m, next, to, n);
    } else {
      end := next;
    }
  }

  function Payload(packets: seq<Packet>): seq<Byte>
  {
    if packets == [] || !packets[0].Data? then [] else packets[0].data + Payload(packets[1..])
  }

  lemma {:induction false} RunPayload(packets: seq<Packet>, m: seq<Byte>, from: nat, to: nat)
    requires DataRun(packets, m, from, to) && from <= |m|
    ensures from <= to <= |m| && Payload(packets) == m[from..to]
  {
    if packets != [] {
      var next := from + |packets[0].data|;
      RunPayload(packets[1..], m, next, to);
      assert m[from..next] + m[next..to] == m[from..to];
    }
  }

  // A message sent from its start, packet after packet, is the message; the end is noted with the
  // last packet and not before.
  function SendAll(s: SendSnap, m: seq<Byte>): SendSnap
    requires s.msgaddr <= |m| && s.outDataSize > 0
    decreases |m| - s.msgaddr
  {
    if s.msgaddr == |m| then s else SendAll(SendDataOf(s, m), m)
  }

  lemma {:induction false} SendAllRun(s: SendSnap, m: seq<Byte>)
    requires s.msgaddr < |m| && s.outDataSize > 0 && !s.eof
    ensures var t := SendAll(s, m);
            && t == s.(msgaddr := |m|, eof := true, out := t.out)
            && |s.out| <= |t.out| && t.out[..|s.out|] == s.out
            && DataRun(t.out[|s.out|..], m, s.msgaddr, |m|)
    decreases |m| - s.msgaddr
  {
    var u := SendDataOf(s, m);
    if u.msgaddr < |m| {
      SendAllRun(u, m);
      var t := SendAll(s, m);
      assert t.out[|s.out|..][1..] == t.out[|u.out|..];
    }
  }

  // The first `k` of those packets.
  function SendSome(s: SendSnap, m: seq<Byte>, k: nat): SendSnap
    requires s.msgaddr <= |m|
    decreases k
  {
    if k == 0 || s.msgaddr == |m| then s else SendSome(SendDataOf(s, m), m, k - 1)
  }

  lemma {:induction false} SendSomeRun(s: SendSnap, m: seq<Byte>, k: nat)
    requires s.msgaddr <= |m| && s.outDataSize > 0 && (s.eof <==> s.msgaddr == |m|)
    ensures var t := SendSome(s, m, k);
            && s.msgaddr <= t.msgaddr <= |m| && (t.eof <==> t.msgaddr == |m|)
            && |s.out| <= |t.out| && t.out[..|s.out|] == s.out
            && DataRun(t.out[|s.out|..], m, s.msgaddr, t.msgaddr)
    decreases k
  {
    if k > 0 && s.msgaddr < |m| {
      var u := SendDataOf(s, m);
      SendSomeRun(u, m, k - 1);
      var t := SendSome(s, m, k);
      assert t.out[..|s.out|] == t.out[..|u.out|][..|s.out|] == s.out;
      assert t.out[|s.out|..][1..] == t.out[|u.out|..];
      assert t.out[|s.out|] == t.out[..|u.out|][|s.out|] == NextData(s, m);
    }
  }

  // A message sent from its start: at every packet what has been sent is the message so far, and the
  // end is noted when that is all of it, and not before; and in the end it is all of it.
  lemma {:induction false} Packetised(s: SendSnap, m: seq<Byte>, k: nat)
    requires s.msgaddr == 0 < |m| && s.outDataSize > 0 && !s.eof && s.out == []
    ensures var t := SendSome(s, m, k);
            t.msgaddr <= |m| && Payload(t.out) == m[..t.msgaddr] && (t.eof <==> t.msgaddr == |m|)
    ensures Payload(SendAll(s, m).out) == m && SendAll(s, m).eof
  {
    SendSomeRun(s, m, k);
    var t := SendSome(s, m, k);
    assert t.out[0..] == t.out;
    RunPayload(t.out, m, 0, t.msgaddr);
    assert m[0..t.msgaddr] == m[..t.msgaddr];
    SendAllRun(s, m);
    var out := SendAll(s, m).out;
    assert out[0..] == out;
    RunPayload(out, m, 0, |m|);
    assert m[0..|m|] == m;
  }

  // ----- Starting a message, and the writer's turn

  // A message is set up on the channel, to be sent from `addr`: a new one from 0 (setactive,
  // HTdaemon/message.c), an interrupted one from the address in the saved status.
  function SetupOf(s: SendSnap, id: MsgId, size: nat, addr: nat): SendSnap
  {
    s.(msgid := id, msgsize := size, msgaddr := addr)
  }

  method Setup(chnp: WChan, id: MsgId, parts: seq<Part>, files: Files, size: nat, addr: nat)
    requires AllInFiles(parts, files) && Tiled(parts, 0, size) && size + FILEBUFFERSIZE <= ULONG && addr <= size
    requires chnp.databuffer.Length == FILEBUFFERSIZE
    modifies chnp
    ensures chnp.Valid() && chnp.Sound() && chnp.partlist == parts && chnp.files == files
    ensures chnp.Now() == SetupOf(old(chnp.Now()), id, size, addr)
  {
    hide Contents, Tiled;
    chnp.msgid, chnp.msgsize, chnp.msgaddr := id, size, addr;
    chnp.partlist, chnp.files := parts, files;
    chnp.current, chnp.msgfile := 0, false;
    chnp.bufstart, chnp.bufend := 0, 0;
  }

  // Its commands are refused: the channel has no parts.
  method Clear(chnp: WChan, id: MsgId)
    modifies chnp
    ensures chnp.partlist == [] && chnp.Now() == SetupOf(old(chnp.Now()), id, old(chnp.msgsize), 0)
  {
    chnp.msgid, chnp.msgaddr := id, 0;
    chnp.partlist, chnp.current := [], 0;
    chnp.bufstart, chnp.bufend := 0, 0;
  }

  function StartMessageOf(s: SendSnap, sendsom: bool, w: Writer): SendSnap
  {
    var t := s.(state := Starting, eof := false, ignbuf := false,
                count := if s.msgaddr == 0 then w.initDataCount else 0);
    if !w.started || !sendsom then t else SendSomOf(t, w)
  }

  method StartMessage(chnp: WChan, sendsom: bool, w: Writer)
    modifies chnp`state, chnp`eof, chnp`ignbuf, chnp`count, chnp`out, chnp`cntrltime
    ensures chnp.Now() == StartMessageOf(old(chnp.Now()), sendsom, w)
  {
    chnp.state := Starting;
    chnp.eof := false;
    chnp.ignbuf := false;
    if chnp.msgaddr == 0 {
      chnp.count := w.initDataCount;
    } else {
      chnp.count := 0;
    }
    if !w.started || !sendsom {
      return;
    }
    SendSOM(chnp, w);
  }

  predicate SomDue(s: SendSnap, w: Writer)
  {
    s.cntrltime <= w.time || (s.count == 0 && w.idleTime >= MIN_SOM_TIMEOUT && !w.linkDown)
  }

  predicate EomDue(s: SendSnap, w: Writer)
  {
    s.cntrltime <= w.time || (w.idleTime >= MIN_EOM_TIMEOUT && !w.linkDown)
  }

  // Send the next DATA packet, if there is one; a message with nothing to send is abandoned.
  function NextOf(s: SendSnap, m: seq<Byte>): SendSnap
    requires s.msgaddr <= |m|
  {
    if s.eof then s else if s.msgaddr < |m| then SendDataOf(s, m) else s.(state := Ended)
  }

  // Starting: repeat the SOM when it is due, or send ahead while the window lasts.
  function StartingOf(s: SendSnap, m: seq<Byte>, w: Writer): SendSnap
    requires s.msgaddr <= |m|
  {
    if SomDue(s, w) then SendSomOf(s, w)
    else if s.count == 0 then s
    else NextOf(s.(count := s.count - 1), m)
  }

  function ActiveOf(s: SendSnap, m: seq<Byte>, w: Writer): SendSnap
    requires s.msgaddr <= |m|
  {
    if !s.eof then NextOf(s, m) else SendEomOf(s.(eof := false, state := Ending, count := MAX_EOMS), w)
  }

  // The writer ends with an error: the channel has no message, or has sent its EOMs in vain.
  predicate Stops(s: SendSnap, w: Writer)
  {
    s.state == Idle || (s.state == Ending && EomDue(s, w) && s.count == 0)
  }

  function WriteChanOf(s: SendSnap, m: seq<Byte>, w: Writer): SendSnap
    requires s.msgaddr <= |m|
  {
    match s.state
    case Starting => StartingOf(s, m, w)
    case Active => ActiveOf(s, m, w)
    case Ending => if EomDue(s, w) then SendEomOf(s, w) else s
    case _ => s
  }

  method Next(chnp: WChan)
    requires chnp.Valid() && chnp.Sound() && chnp.outDataSize > 0
    modifies chnp, chnp.databuffer
    ensures chnp.Valid() && chnp.Sound() && chnp.partlist == old(chnp.partlist) && chnp.files == old(chnp.files)
    ensures old(chnp.msgaddr) <= |chnp.Message()| == chnp.msgsize
    ensures chnp.Now() == NextOf(old(chnp.Now()), chnp.Message())
  {
    BytesLength(chnp.Mail());
    hide Whole, WChan.Positioned, WChan.Buffered, WChan.Held, Safe, TrueFrom, SendDataOf;
    if !chnp.eof {
      var _ := SendData(chnp);
    }
  }

  method WriteStarting(chnp: WChan, w: Writer)
    requires chnp.Valid() && chnp.Sound() && chnp.outDataSize > 0
    modifies chnp, chnp.databuffer
    ensures chnp.Valid() && chnp.Sound() && chnp.partlist == old(chnp.partlist) && chnp.files == old(chnp.files)
    ensures old(chnp.msgaddr) <= |chnp.Message()| == chnp.msgsize
    ensures chnp.Now() == StartingOf(old(chnp.Now()), chnp.Message(), w)
  {
    hide WChan.Valid, WChan.Sound, WChan.Message, WChan.Mail, WChan.Held, Whole, Bytes, NextOf, SendSomOf;
    Within(chnp);
    if chnp.cntrltime <= w.time || (chnp.count == 0 && w.idleTime >= MIN_SOM_TIMEOUT && !w.linkDown) {
      SendSOM(chnp, w);
      return;
    }
    if chnp.count == 0 {
      return;
    }
    chnp.count := chnp.count - 1;
    Next(chnp);
  }

  method WriteActive(chnp: WChan, w: Writer)
    requires chnp.Valid() && chnp.Sound() && chnp.outDataSize > 0
    modifies chnp, chnp.databuffer
    ensures chnp.Valid() && chnp.Sound() && chnp.partlist == old(chnp.partlist) && chnp.files == old(chnp.files)
    ensures old(chnp.msgaddr) <= |chnp.Message()| == chnp.msgsize
    ensures chnp.Now() == ActiveOf(old(chnp.Now()), chnp.Message(), w)
  {
    hide WChan.Valid, WChan.Sound, WChan.Message, WChan.Mail, WChan.Held, Whole, Bytes, NextOf, SendEomOf;
    Within(chnp);
    if !chnp.eof {
      Next(chnp);
      return;
    }
    chnp.eof := false;
    chnp.state := Ending;
    chnp.count := MAX_EOMS;
    SendEOM(chnp, w);
  }

  method WriteChan(chnp: WChan, w: Writer) returns (ok: bool)
    requires chnp.Valid() && chnp.Sound() && chnp.outDataSize > 0
    modifies chnp, chnp.databuffer
    ensures chnp.Valid() && chnp.Sound() && chnp.partlist == old(chnp.partlist) && chnp.files == old(chnp.files)
    ensures old(chnp.msgaddr) <= |chnp.Message()| == chnp.msgsize
    ensures ok <==> !Stops(old(chnp.Now()), w)
    ensures chnp.Now() == if ok then WriteChanOf(old(chnp.Now()), chnp.Message(), w) else old(chnp.Now())
  {
    hide WChan.Valid, WChan.Sound, WChan.Message, WChan.Mail, WChan.Held, Whole, Bytes, StartingOf, ActiveOf, SendEomOf;
    Within(chnp);
    match chnp.state {
      case Idle =>
        return false;
      case Starting =>
        WriteStarting(chnp, w);
      case Active =>
        WriteActive(chnp, w);
      case Ending =>
        if chnp.cntrltime <= w.time || (w.idleTime >= MIN_EOM_TIMEOUT && !w.linkDown) {
          if chnp.count == 0 {
            return false;
          }
          SendEOM(chnp, w);
        }
      case Ended =>
    }
    return true;
  }
}
