/** What a sender has sent of its message, whatever turns its writer has had and whatever it has been
    asked for (WriteChan and RecvNAK, HTdaemon/transmitter.c). */
module Sending {
  import opened Channel
  import opened ReadBuffer
  import opened Transmitter

  datatype Act = Turn(w: Writer) | Asked(addr: nat, len: nat)

  predicate Ready(s: SendSnap, m: seq<Byte>)
  {
    s.msgaddr <= |m| && s.msgsize == |m| && s.outDataSize > 0
  }

  function Acted(s: SendSnap, m: seq<Byte>, a: Act): SendSnap
    requires Ready(s, m)
  {
    match a
    case Turn(w) => if Stops(s, w) then s else WriteChanOf(s, m, w)
    case Asked(addr, len) => RecvNakOf(s, m, addr, len)
  }

  // The states of a channel that acts so.
  ghost predicate Acts(ss: seq<SendSnap>, m: seq<Byte>, acts: seq<Act>)
  {
    && |ss| == |acts| + 1
    && forall i :: 0 <= i < |acts| ==> Ready(ss[i], m) ==> ss[i + 1] == Acted(ss[i], m, acts[i])
  }

  // How far the message has been sent, from `from` on.
  function Top(out: seq<Packet>, from: nat): nat
  {
    if out == [] then from
    else
      var p, n := out[|out| - 1], Top(out[..|out| - 1], from);
      if p.Data? && n < p.addr + |p.data| then p.addr + |p.data| else n
  }

  // DATA is the message's, and begins no further than it has been sent; an EOM comes only when all of
  // it has been.
  predicate Follows(p: Packet, top: nat, m: seq<Byte>)
  {
    match p
    case Data(a, d) => d != [] && a <= top && a + |d| <= |m| && d == m[a..a + |d|]
    case Eom(_, _) => top == |m|
    case Som(_, _) => true
    case _ => false
  }

  predicate NoHole(out: seq<Packet>, from: nat, m: seq<Byte>)
  {
    out != [] ==>
      NoHole(out[..|out| - 1], from, m) && Follows(out[|out| - 1], Top(out[..|out| - 1], from), m)
  }

  lemma {:induction false} OneMore(out: seq<Packet>, p: Packet, from: nat, m: seq<Byte>)
    ensures Top(out + [p], from)
            == if p.Data? && Top(out, from) < p.addr + |p.data| then p.addr + |p.data| else Top(out, from)
    ensures NoHole(out, from, m) && Follows(p, Top(out, from), m) ==> NoHole(out + [p], from, m)
  {
    assert (out + [p])[..|out|] == out;
  }

  // A run of DATA that begins no further than that.
  lemma {:induction false} RunMore(out: seq<Packet>, run: seq<Packet>, from: nat, m: seq<Byte>, at: nat, end: nat)
    requires NoHole(out, from, m) && at <= Top(out, from) <= |m| && DataRun(run, m, at, end)
    ensures NoHole(out + run, from, m) && Top(out, from) <= Top(out + run, from) <= |m|
    decreases |run|
  {
    hide Top, NoHole;
    if run == [] {
      assert out + run == out;
    } else {
      OneMore(out, run[0], from, m);
      RunMore(out + [run[0]], run[1..], from, m, at + |run[0].data|, end);
      assert out + [run[0]] + run[1..] == out + run;
    }
  }

  // The channel's position is not beyond what has been sent; at the end of the message all has been.
  ghost predicate Good(s: SendSnap, out: seq<Packet>, from: nat, m: seq<Byte>)
  {
    && Ready(s, m) && NoHole(out, from, m) && s.msgaddr <= Top(out, from) <= |m|
    && (s.eof || s.state == Ending ==> Top(out, from) == |m|)
  }

  lemma {:induction false} TurnGood(s: SendSnap, before: seq<Packet>, out: seq<Packet>, from: nat, m: seq<Byte>,
                                    w: Writer)
      returns (next: seq<Packet>)
    requires Good(s, out, from, m) && s.out == before + out
    ensures var t := WriteChanOf(s, m, w); Good(t, next, from, m) && t.out == before + next && out <= next
  {
    hide Top, NoHole, WriteChanOf;
    next := out;
    if WriteChanOf(s, m, w).out == s.out {
      Idles(s, m, w);
    } else {
      var p := Writes(s, m, w);
      OneMore(out, p, from, m);
      next := out + [p];
      assert s.out + [p] == before + next;
    }
  }

  lemma {:induction false} Idles(s: SendSnap, m: seq<Byte>, w: Writer)
    requires Ready(s, m) && WriteChanOf(s, m, w).out == s.out
    ensures var t := WriteChanOf(s, m, w);
            t.msgaddr == s.msgaddr && t.eof == s.eof && Ready(t, m) && (t.state == Ending ==> s.state == Ending)
  {
  }

  // The packet written at a turn.
  lemma {:induction false} Writes(s: SendSnap, m: seq<Byte>, w: Writer) returns (p: Packet)
    requires Ready(s, m) && WriteChanOf(s, m, w).out != s.out
    ensures var t := WriteChanOf(s, m, w);
            && t.out == s.out + [p] && Ready(t, m) && (p.Data? || p.Som? || p.Eom?)
            && (p.Data? ==> && Follows(p, s.msgaddr, m) && p.addr == s.msgaddr && t.msgaddr == p.addr + |p.data|
                            && (t.eof ==> s.eof || t.msgaddr == |m|) && t.state == s.state != Ending)
            && (!p.Data? ==> t.msgaddr == s.msgaddr && (t.eof ==> s.eof))
            && (p.Som? ==> t.state == s.state)
            && (p.Eom? ==> s.eof || s.state == Ending)
  {
    p := if s.state == Starting && SomDue(s, w) then Som(s.msgid, s.msgsize)
         else if s.state == Ending || s.eof then Eom(s.msgid, s.msgsize) else NextData(s, m);
  }

  lemma {:induction false} AskedGood(s: SendSnap, before: seq<Packet>, out: seq<Packet>, from: nat, m: seq<Byte>,
                                     addr: nat, len: nat)
      returns (next: seq<Packet>)
    requires Good(s, out, from, m) && s.out == before + out
    ensures var t := RecvNakOf(s, m, addr, len); Good(t, next, from, m) && t.out == before + next && out <= next
  {
    hide Top, NoHole, Resend;
    var t := RecvNakOf(s, m, addr, len);
    next := out;
    if t.out != s.out {
      var run := ResentFor(s, m, addr, len);
      var end := ResendCovers(m, addr, addr + len, Min(s.outDataSize, len));
      RunMore(out, run, from, m, addr, end);
      next := out + run;
      assert t.out == before + next;
    }
  }

  // Over any turns and NAKs: what has been written since is the message's, in packets none of which
  // begins beyond what had been sent by then; and there is an EOM only after all of it.
  lemma {:induction false} SentWithoutHoles(ss: seq<SendSnap>, m: seq<Byte>, acts: seq<Act>, n: nat)
      returns (out: seq<Packet>)
    requires Acts(ss, m, acts) && n < |ss| && Ready(ss[0], m)
    requires (ss[0].state == Starting || ss[0].state == Active) && !ss[0].eof
    ensures ss[n].out == ss[0].out + out && NoHole(out, ss[0].msgaddr, m)
    ensures Good(ss[n], out, ss[0].msgaddr, m)
  {
    hide WriteChanOf, RecvNakOf;
    if n == 0 {
      out := [];
      assert ss[0].out + [] == ss[0].out;
    } else {
      out := SentWithoutHoles(ss, m, acts, n - 1);
      assert ss[n] == Acted(ss[n - 1], m, acts[n - 1]);
      match acts[n - 1] {
        case Turn(w) =>
          if !Stops(ss[n - 1], w) {
            out := TurnGood(ss[n - 1], ss[0].out, out, ss[0].msgaddr, m, w);
          }
        case Asked(addr, len) =>
          out := AskedGood(ss[n - 1], ss[0].out, out, ss[0].msgaddr, m, addr, len);
      }
    }
  }

  // Of a message that is abandoned, or gone, nothing is sent any more, whatever is asked for.
  lemma {:induction false} NothingMore(ss: seq<SendSnap>, m: seq<Byte>, acts: seq<Act>, n: nat)
    requires Acts(ss, m, acts) && n < |ss| && Ready(ss[0], m) && (ss[0].state == Ended || ss[0].state == Idle)
    ensures ss[n] == ss[0]
  {
    if n > 0 {
      NothingMore(ss, m, acts, n - 1);
      assert ss[n] == Acted(ss[n - 1], m, acts[n - 1]);
    }
  }

  predicate OnlySoms(out: seq<Packet>)
  {
    forall p :: p in out ==> p.Som?
  }

  // An empty message is announced, and given up at the first turn at which the channel is not to wait
  // for an answer to that: no end of it is ever sent.
  lemma {:induction false} EmptyGivenUp(ss: seq<SendSnap>, acts: seq<Act>, n: nat)
    requires Acts(ss, [], acts) && n < |ss| && Ready(ss[0], []) && ss[0].state == Starting && !ss[0].eof
    ensures ss[0].out <= ss[n].out && OnlySoms(ss[n].out[|ss[0].out|..])
    ensures ss[n].state == Starting || ss[n].state == Active || ss[n].state == Ended
    ensures n < |acts| && acts[n].Turn? ==>
              && (ss[n].state == Active ==> ss[n + 1] == ss[n].(state := Ended))
              && (ss[n].state == Starting && ss[n].count > 0 && ss[n + 1].out == ss[n].out ==> ss[n + 1].state == Ended)
  {
    EmptyRun(ss, acts, n);
    if n < |acts| {
      assert ss[n + 1] == Acted(ss[n], [], acts[n]);
      Grows(ss[n].out, Som(ss[n].msgid, ss[n].msgsize));
    }
  }

  lemma {:induction false} Grows(out: seq<Packet>, p: Packet)
    ensures out + [p] != out
  {
    assert |out + [p]| == |out| + 1;
  }

  lemma {:induction false} EmptyRun(ss: seq<SendSnap>, acts: seq<Act>, n: nat)
    requires Acts(ss, [], acts) && n < |ss| && Ready(ss[0], []) && ss[0].state == Starting && !ss[0].eof
    ensures Ready(ss[n], []) && !ss[n].eof && ss[0].out <= ss[n].out && OnlySoms(ss[n].out[|ss[0].out|..])
    ensures ss[n].state == Starting || ss[n].state == Active || ss[n].state == Ended
  {
    if n > 0 {
      EmptyRun(ss, acts, n - 1);
      assert ss[n] == Acted(ss[n - 1], [], acts[n - 1]);
      assert Resend([], 0, 0, 1) == [];
      if ss[n].out != ss[n - 1].out {
        assert ss[n].out == ss[n - 1].out + [Som(ss[n - 1].msgid, ss[n - 1].msgsize)];
        var k := |ss[0].out|;
        assert ss[n].out[k..] == ss[n - 1].out[k..] + [Som(ss[n - 1].msgid, ss[n - 1].msgsize)];
      }
    }
  }
}
