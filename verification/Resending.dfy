/** Exactly which messages a sender that sends them packet after packet, from the start, sends again
    rightly (RecvNAK and SendData, HTdaemon/transmitter.c and packet.c). */
module Resending {
  import opened Channel
  import opened Parts
  import opened ReadBuffer
  import opened Transmitter

  // How far a sender of packets of `n` bytes is after `i` of them.
  function Reached(x: Letter, n: nat, i: nat): (addr: nat)
    ensures addr <= x.size
  {
    Min(i * n, x.size)
  }

  // What its read buffer holds then.
  ghost function HeldAfter(x: Letter, n: nat, i: nat): (c: Cache)
    requires Whole(x)
    ensures Shaped(c) && End(c) <= x.size
  {
    if i == 0 then EMPTY
    else PacketDataOf(x, HeldAfter(x, n, i - 1), Reached(x, n, i - 1), n, false).cache
  }

  // The channel after `i` packets.
  predicate SoFar(s: SendSnap, x: Letter, n: nat, i: nat)
  {
    s.msgsize == x.size && s.outDataSize == n && s.msgaddr == Reached(x, n, i)
  }

  // A NAK that comes then is answered with the message's bytes.
  ghost predicate ResentRightly(x: Letter, s: SendSnap, n: nat, i: nat, addr: nat, len: nat)
    requires Whole(x) && n > 0 && SoFar(s, x, n, i)
  {
    && |Bytes(x)| == x.size
    && NakOf(s, addr, len, ResentThrough(s, x, HeldAfter(x, n, i), addr, len)) == RecvNakOf(s, Bytes(x), addr, len)
  }

  // In a safe message the buffer has the message's bytes throughout.
  lemma {:induction false} HeldTrue(x: Letter, n: nat, i: nat)
    requires Whole(x) && Safe(x)
    ensures |Bytes(x)| == x.size && TrueFrom(HeldAfter(x, n, i), 0, Bytes(x))
  {
    hide Bytes, Safe, Whole, PacketFrom, Tiled;
    BytesLength(x);
    if i > 0 {
      HeldTrue(x, n, i - 1);
      var addr := Reached(x, n, i - 1);
      assert Bytes(x)[addr..addr] == [];
      PacketRight(x, HeldAfter(x, n, i - 1), 0, addr, addr, n, false, []);
    }
  }

  // A packet of one byte is one read.
  lemma {:induction false} OneBytePacket(x: Letter, c: Cache, addr: nat)
    requires Whole(x) && addr < x.size && Shaped(c) && End(c) <= x.size
    ensures PacketDataOf(x, c, addr, 1, false).cache == ReadDataOf(x, c, addr, 1, false).cache
  {
    hide ReadDataOf, Whole, PacketFrom;
    PacketStep(x, c, addr, 1, false, []);
    var t := ReadDataOf(x, c, addr, 1, false);
    PacketEnd(x, t.cache, addr + 1, 0, false, [] + t.data);
  }

  // A block read for a byte below a part ends below it.
  lemma {:induction false} EndsBelow(x: Letter, k: nat, addr: nat, c: Cache)
    requires Whole(x) && k < |x.parts| && addr < x.parts[k].msgstart < x.parts[k].msgend <= x.size
    requires Shaped(c) && End(c) <= x.parts[k].msgstart
    ensures End(ReadDataOf(x, c, addr, 1, false).cache) <= x.parts[k].msgstart
  {
    hide Offset, Contents, Tiled, BlockOf, BlockSize;
    HolderHolds(x.parts, 0, x.size, addr);
    var j := Holder(x.parts, addr);
    if !Hit(c, addr) && j < |x.parts| {
      HolderBefore(x.parts, 0, x.size, k, addr);
      PartNamed(x, j);
      BlockEnds(x.parts[j], x.files, addr);
    }
  }

  lemma {:induction false} HolderBefore(parts: seq<Part>, from: nat, to: nat, k: nat, addr: nat)
    requires Tiled(parts, from, to) && from <= addr && k < |parts| && addr < parts[k].msgstart < parts[k].msgend
    ensures Holder(parts, addr) < k && parts[Holder(parts, addr)].msgend <= parts[k].msgstart
  {
    var j := Holder(parts, addr);
    HolderHolds(parts, from, to, addr);
    EndsWithin(parts, from, to, k);
    if j < |parts| && j < k {
      EndsBefore(parts, from, to, j, k);
    } else if j < |parts| && k < j {
      EndsBefore(parts, from, to, k, j);
    }
  }

  // Sent byte by byte, the message has brought nothing from a part into the buffer before its data
  // are reached; ...
  lemma {:induction false} NotYet(x: Letter, k: nat, i: nat)
    requires Whole(x) && k < |x.parts| && i <= x.parts[k].msgstart < x.parts[k].msgend <= x.size
    ensures End(HeldAfter(x, 1, i)) <= x.parts[k].msgstart
  {
    hide Whole, ReadDataOf, PacketFrom;
    if i > 0 {
      NotYet(x, k, i - 1);
      OneBytePacket(x, HeldAfter(x, 1, i - 1), i - 1);
      EndsBelow(x, k, i - 1, HeldAfter(x, 1, i - 1));
    }
  }

  // ... and with their first byte comes their block.
  lemma {:induction false} BlockHeld(x: Letter, k: nat)
    requires Whole(x) && k < |x.parts| && Claims(x.parts[k])
    ensures x.parts[k].msgstart < x.parts[k].msgend <= x.size
    ensures HeldAfter(x, 1, x.parts[k].msgstart + 1)
            == ReadDataOf(x, EMPTY, x.parts[k].msgstart, 1, false).cache
  {
    hide ReadDataOf, PacketFrom, Offset, Contents;
    var at := x.parts[k].msgstart;
    EndsWithin(x.parts, 0, x.size, k);
    NotYet(x, k, at);
    OneBytePacket(x, HeldAfter(x, 1, at), at);
    MissesAlike(x, HeldAfter(x, 1, at), at);
  }

  // A read that the buffer does not answer does not depend on it.
  lemma {:induction false} MissesAlike(x: Letter, c: Cache, addr: nat)
    requires Whole(x) && addr < x.size && Shaped(c) && !Hit(c, addr)
    ensures ReadDataOf(x, c, addr, 1, false) == ReadDataOf(x, EMPTY, addr, 1, false)
  {
    HolderHolds(x.parts, 0, x.size, addr);
  }

  // So a part that claims address `a` is the end of it: a NAK for the byte there is answered with the
  // part's neighbour in its file.
  lemma {:induction false} NeighbourSent(x: Letter, k: nat, a: nat, s: SendSnap)
    requires Whole(x) && k < |x.parts| && Claims(x.parts[k]) && Front(x.parts[k]) <= a < x.parts[k].msgstart
    requires s.state != Idle && s.state != Ended && SoFar(s, x, 1, x.parts[k].msgstart + 1)
    ensures |Bytes(x)| == x.size && a < x.size
    ensures var c := HeldAfter(x, 1, x.parts[k].msgstart + 1);
            NakOf(s, a, 1, ResentThrough(s, x, c, a, 1)).out == s.out + [Data(a, [Neighbour(x.parts[k], x.files, a)])]
  {
    hide Bytes, Whole, ReadDataOf, Neighbour, HeldAfter;
    BytesLength(x);
    BlockHeld(x, k);
    FrontAnswers(x, k, 1, a, true);
    OneResent(x, HeldAfter(x, 1, x.parts[k].msgstart + 1), a);
  }

  // However many packets of whatever size a sender has sent from the start of a message, every NAK is
  // answered with the message's bytes, if and only if the message is safe.
  lemma {:induction false} SenderNaksIff(x: Letter)
    requires Whole(x)
    ensures (forall s, n, i, addr, len :: n > 0 && SoFar(s, x, n, i) ==> ResentRightly(x, s, n, i, addr, len))
            <==> Safe(x)
  {
    hide Bytes, Whole, Safe, NakOf, RecvNakOf, ResentThrough, HeldAfter, TrueFrom, Claims, Neighbour;
    if Safe(x) {
      forall s, n, i, addr, len | n > 0 && SoFar(s, x, n, i)
        ensures ResentRightly(x, s, n, i, addr, len)
      {
        HeldTrue(x, n, i);
        NakRight(s, x, HeldAfter(x, n, i), addr, len);
      }
    } else {
      var k, a := UnsafeAt(x);
      var i := x.parts[k].msgstart + 1;
      var s := SendSnap(Active, false, false, 0, 0, "", x.size, Reached(x, 1, i), 1, []);
      NeighbourSent(x, k, a, s);
      RightOne(s, Bytes(x), a);
      var sent := NakOf(s, a, 1, ResentThrough(s, x, HeldAfter(x, 1, i), a, 1));
      assert sent.out[0] != RecvNakOf(s, Bytes(x), a, 1).out[0];
      assert !ResentRightly(x, s, 1, i, a, 1);
    }
  }

  lemma {:induction false} RightOne(s: SendSnap, m: seq<Byte>, a: nat)
    requires s.msgsize == |m| > 1 && s.state == Active && s.outDataSize == 1 && a < s.msgaddr && a < |m|
    ensures RecvNakOf(s, m, a, 1).out == s.out + [Data(a, [m[a]])]
  {
    ResendOne(m, a);
  }

  // The message 1 2 3 4 5 6, of which a sender has sent the first five bytes, one by one: a NAK for
  // address 3 is answered with 9.
  lemma {:induction false} NakExample(s: SendSnap)
    requires s.state == Active && SoFar(s, UnsafeLetter(), 1, 5)
    ensures var x := UnsafeLetter();
            && Whole(x) && Bytes(x) == [1, 2, 3, 4, 5, 6]
            && NakOf(s, 3, 1, ResentThrough(s, x, HeldAfter(x, 1, 5), 3, 1)).out == s.out + [Data(3, [9])]
  {
    UnsafeExample();
    hide NakOf, ResentThrough, Bytes, Whole, HeldAfter;
    NeighbourSent(UnsafeLetter(), 1, 3, s);
  }
}
