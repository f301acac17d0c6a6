/** What is passed on from a byte stream: the packets that are in it, whole and undamaged
    (PacketReader, HTdaemon/packet.c). */
module Deframing {
  import opened Channel
  import opened Sequences
  import opened Packets

  // No undamaged packet is at the front of these bytes.
  ghost predicate NoneAt(c: Codec, p: Bytes)
  {
    forall packet :: Sendable(c, packet) ==> !(Frame(c, packet) <= p)
  }

  // The packets are those of the stream, each the bytes of one, one behind the other; and what is
  // passed over in between, and behind them up to `rest`, begins none.
  ghost predicate Holds(c: Codec, p: Bytes, packets: seq<Passed>, rest: Bytes)
    decreases packets
  {
    if packets == [] then
      |rest| <= |p| && p[|p| - |rest|..] == rest && NoneUntil(c, p, |p| - |rest|)
    else
      Sendable(c, packets[0])
      && exists i :: 0 <= i <= |p| && NoneUntil(c, p, i) && Frame(c, packets[0]) <= p[i..]
                     && Holds(c, p[i..][|Frame(c, packets[0])|..], packets[1..], rest)
  }

  ghost predicate NoneUntil(c: Codec, p: Bytes, i: nat)
    requires i <= |p|
  {
    forall j :: 0 <= j < i ==> NoneAt(c, p[j..])
  }

  // A header that has been checked is good.
  predicate Checked(c: Codec, hcrcOk: bool, p: Bytes)
  {
    hcrcOk ==> |p| >= FRONT && !HeaderBad(c, p)
  }

  // The fields that are read from a header, written, give the header.
  lemma {:induction false} HeadBack(h: Head, data: Bytes)
    requires |data| == Read(h).size
    ensures var f := Read(h); var p := Passed(f.dir, f.chan, f.typ, f.addr, data);
            && p.dir < 2 && p.chan < 4 && p.typ < 8 && p.addr < 0x1_0000_0000 && |p.data| < 0x4_0000
            && HeadOf(p) == h
  {
    TopBack(h[4]);
    WideBack(h[4] % 4, h[5], h[6]);
    AddrBack(h[0], h[1], h[2], h[3]);
    var f := Read(h);
    var p := Passed(f.dir, f.chan, f.typ, f.addr, data);
    var g := HeadOf(p);
    assert forall i :: 0 <= i < PKTHDRSIZE ==> g[i] == h[i];
  }

  lemma {:induction false} TopBack(b: Byte)
    ensures b / 32 < 8 && b / 8 % 4 < 4 && b / 4 % 2 < 2
    ensures b / 32 * 32 + b / 8 % 4 * 8 + b / 4 % 2 * 4 + b % 4 == b
  {
    PartsTop(b);
  }

  lemma {:induction false} WideBack(a: nat, b: Byte, c: Byte)
    requires a < 4
    ensures var n := a * 0x1_0000 + b as int * 0x100 + c as int;
            n < 0x4_0000 && n / 0x1_0000 == a && n / 0x100 % 0x100 == b && n % 0x100 == c
  {
    var n := a * 0x1_0000 + b as int * 0x100 + c as int;
    assert n / 0x100 == a * 0x100 + b as int;
  }

  lemma {:induction false} AddrBack(a: Byte, b: Byte, c: Byte, d: Byte)
    ensures var n := a as int + b as int * 0x100 + c as int * 0x1_0000 + d as int * 0x100_0000;
            && n < 0x1_0000_0000 && n % 0x100 == a && n / 0x100 % 0x100 == b
            && n / 0x1_0000 % 0x100 == c && n / 0x100_0000 == d
  {
    var n := a as int + b as int * 0x100 + c as int * 0x1_0000 + d as int * 0x100_0000;
    var n1 := b as int + c as int * 0x100 + d as int * 0x1_0000;
    var n2 := c as int + d as int * 0x100;
    assert n == a as int + n1 * 0x100 && n1 == b as int + n2 * 0x100;
    assert n / 0x100 == n1 && n1 / 0x100 == n2 && n / 0x1_0000 == n2 && n / 0x100_0000 == d;
  }

  // What is taken for a packet is its bytes, checks and all.
  lemma {:induction false} TakeIsFrame(c: Codec, p: Bytes)
    requires |p| >= FRONT && LookAt(c, false, p).Take?
    ensures var l := LookAt(c, false, p); Sendable(c, l.packet) && p[..l.consumed] == Frame(c, l.packet)
  {
    hide Read, HeadOf, Check16, DataCheck;
    var l := LookAt(c, false, p);
    var h: Head := p[..PKTHDRSIZE];
    HeadBack(h, l.packet.data);
    CheckSizes(c, l.packet.data);
    assert p[..l.consumed] == h + p[PKTHDRSIZE..FRONT] + l.packet.data + DataCheck(c, l.packet.data);
  }

  // A packet is taken if and only if its bytes are there.
  lemma {:induction false} TakeIff(c: Codec, p: Bytes, n: nat, packet: Passed)
    requires |p| >= FRONT
    ensures LookAt(c, false, p) == Take(n, packet)
            <==> Sendable(c, packet) && Frame(c, packet) <= p && n == |Frame(c, packet)|
  {
    hide LookAt, Frame;
    if LookAt(c, false, p) == Take(n, packet) {
      TakeIsFrame(c, p);
    }
    if Sendable(c, packet) && Frame(c, packet) <= p {
      FrameFound(c, packet, p[|Frame(c, packet)|..]);
      assert Frame(c, packet) + p[|Frame(c, packet)|..] == p;
    }
  }

  lemma {:induction false} OnlyTaken(c: Codec, p: Bytes)
    requires |p| >= FRONT && !LookAt(c, false, p).Take?
    ensures NoneAt(c, p)
  {
    hide LookAt, Frame;
    forall packet | Sendable(c, packet)
      ensures !(Frame(c, packet) <= p)
    {
      TakeIff(c, p, |Frame(c, packet)|, packet);
    }
  }

  // Behind a byte that begins no packet.
  lemma {:induction false} HoldsBehind(c: Codec, p: Bytes, packets: seq<Passed>, rest: Bytes)
    requires p != [] && NoneAt(c, p) && Holds(c, p[1..], packets, rest)
    ensures Holds(c, p, packets, rest)
  {
    hide NoneAt, Frame;
    if packets == [] {
      NoneBehind(c, p, |p| - 1 - |rest|);
      assert p[1..][|p| - 1 - |rest|..] == p[|p| - |rest|..];
    } else {
      var i :| 0 <= i <= |p| - 1 && NoneUntil(c, p[1..], i) && Frame(c, packets[0]) <= p[1..][i..]
               && Holds(c, p[1..][i..][|Frame(c, packets[0])|..], packets[1..], rest);
      NoneBehind(c, p, i);
      assert p[1..][i..] == p[i + 1..];
    }
  }

  lemma {:induction false} NoneBehind(c: Codec, p: Bytes, i: nat)
    requires p != [] && i < |p| && NoneAt(c, p) && NoneUntil(c, p[1..], i)
    ensures NoneUntil(c, p, i + 1)
  {
    hide NoneAt;
    forall j | 0 <= j < i + 1
      ensures NoneAt(c, p[j..])
    {
      if j == 0 {
        assert p[0..] == p;
      } else {
        assert p[j..] == p[1..][j - 1..];
      }
    }
  }

  lemma {:induction false} HoldsFirst(c: Codec, p: Bytes, packet: Passed, packets: seq<Passed>, rest: Bytes)
    requires Sendable(c, packet) && Frame(c, packet) <= p && Holds(c, p[|Frame(c, packet)|..], packets, rest)
    ensures Holds(c, p, [packet] + packets, rest)
  {
    hide NoneAt, Frame;
    var all := [packet] + packets;
    assert all[0] == packet && all[1..] == packets && p[0..] == p;
    assert NoneUntil(c, p, 0);
    assert Holds(c, p[0..][|Frame(c, all[0])|..], all[1..], rest);
  }

  // Everything that is passed on is in the stream, undamaged; and everything that is in the stream
  // is passed on, unless it begins inside a packet that is, or behind what is waited for.
  lemma {:induction false} PassedIs(c: Codec, hcrcOk: bool, p: Bytes)
    requires Checked(c, hcrcOk, p)
    ensures var r := Parse(c, hcrcOk, p); Holds(c, p, r.packets, r.rest) && Checked(c, r.hcrcOk, r.rest)
    decreases |p|
  {
    hide Holds, Parse, LookBehind, Frame, NoneAt;
    ParseStep(c, hcrcOk, p);
    var r := Parse(c, hcrcOk, p);
    if |p| < FRONT {
      HoldsNothing(c, p);
    } else {
      match LookAt(c, hcrcOk, p) {
        case Skip =>
          PassedIs(c, false, p[1..]);
          OnlyTaken(c, p);
          HoldsBehind(c, p, r.packets, r.rest);
        case Wait =>
          HoldsNothing(c, p);
        case Take(consumed, packet) =>
          TakeIsFrame(c, p);
          PassedIs(c, false, p[consumed..]);
          assert Frame(c, packet) == p[..consumed];
          HoldsFirst(c, p, packet, Parse(c, false, p[consumed..]).packets, r.rest);
      }
    }
  }

  lemma {:induction false} HoldsNothing(c: Codec, p: Bytes)
    ensures Holds(c, p, [], p)
  {
    assert p[0..] == p;
  }
}
