/** How much of a message is kept when the reader stops: where it is taken up again
    (RecvSOM, HTdaemon/receiver.c; FillGap and QueueGap, HTdaemon/gap.c). */
module Retained {
  import opened Channel
  import opened GapList
  import opened WriteBuffer
  import opened Receiver
  import opened Resumption

  // A message is coming in, or has ended.
  predicate Live(s: Snap)
  {
    ((s.state == Active || s.state == Ending) && s.msgfile) || s.state == Ended
  }

  // The first byte that is missing, or the size.
  function Front(s: Snap): nat
  {
    First(s.gaps, s.msgsize)
  }

  // goodaddr goes down only as far as the first byte that is missing, and stays there.
  predicate Moves(s: Snap, t: Snap)
  {
    && Live(t) && t.msgid == s.msgid && t.msgsize == s.msgsize
    && (s.goodaddr <= t.goodaddr || Front(t) <= t.goodaddr)
    && (Front(s) <= s.goodaddr ==> Front(t) <= t.goodaddr)
    && (Front(s) == s.goodaddr ==> Front(t) == t.goodaddr)
  }

  // ----- Each event

  lemma {:induction false} FillMoves(gl: seq<Gap>, start: nat, end: nat, limit: nat)
    requires Well(gl, limit) && start < end
    ensures BeginsIn(gl, start, end) || First(Filled(gl, start, end), limit) == First(gl, limit)
  {
    if gl != [] && gl[0].end <= start {
      assert Filled(gl, start, end)[0] == gl[0];
    }
  }

  lemma {:induction false} OldMoves(s: Snap, addr: nat, data: seq<Byte>)
    requires Live(s) && s.msgfile && (s.state == Active || s.state == Ending) && Well(s.gaps, s.msgsize) && data != []
    ensures Moves(s, RecvOldOf(s, addr, data))
  {
    hide WriteAt, Filled, BeginsIn, Hits, First;
    FillMoves(s.gaps, addr, addr + |data|, s.msgsize);
  }

  lemma {:induction false} PlacedMoves(s: Snap, addr: nat, size: nat, env: Env)
    requires Live(s) && s.msgfile && (s.state == Active || s.state == Ending) && Well(s.gaps, s.msgsize)
    requires size > 0 && s.msgaddr <= addr && addr + size <= s.msgsize
    ensures Moves(s, Placed(s, addr, size, env)) && Placed(s, addr, size, env).state == s.state
    ensures s.msgaddr == addr && s.gaps == [] ==> addr <= Placed(s, addr, size, env).goodaddr
  {
    hide Filled, BeginsIn, Queued, QueueNaks;
    if s.msgaddr < addr {
      QueuedWell(s.gaps, s.msgaddr, addr, env.time, s.msgsize);
      QueuedNak(s.gaps, s.msgaddr, addr, env.time, s.msgsize);
    } else {
      FillMoves(s.gaps, addr, addr + size, s.msgsize);
    }
  }

  lemma {:induction false} AskedMoves(s: Snap, maxlength: nat, env: Env)
    requires Live(s) && Well(s.gaps, s.msgsize)
    ensures Moves(s, AskAgain(s, maxlength, env)) && Front(AskAgain(s, maxlength, env)) == Front(s)
    ensures AskAgain(s, maxlength, env).goodaddr == s.goodaddr
  {
    hide NakAll;
    NakAllRanges(s.gaps, maxlength, s.eomcount, env, s.msgsize);
  }

  lemma {:induction false} NewMoves(s: Snap, addr: nat, data: seq<Byte>, env: Env)
    requires Live(s) && s.msgfile && (s.state == Active || s.state == Ending) && Well(s.gaps, s.msgsize)
    requires data != [] && s.msgaddr <= addr && addr + |data| <= s.msgsize
    ensures Moves(s, RecvNewOf(s, addr, data, env))
    ensures s.msgaddr == addr && s.gaps == [] ==> addr <= RecvNewOf(s, addr, data, env).goodaddr
  {
    hide WriteAt, Placed, AskAgain, First;
    var p := Placed(s, addr, |data|, env);
    PlacedMoves(s, addr, |data|, env);
    PlacedWell(s, addr, |data|, env);
    AskedMoves(p, env.window % ULONG, env);
  }

  lemma {:induction false} EomMoves(s: Snap, env: Env)
    requires Live(s) && Well(s.gaps, s.msgsize)
    ensures Moves(s, RecvEomOf(s, s.msgid, s.msgsize, env))
  {
    hide MissedTail, FinishOf, First, Well;
    if s.state != Ended {
      MissedTailWell(s, env);
      NotedMoves(s, env);
      FinishMoves(MissedTail(s, env), s.msgaddr == 0 && 0 < s.msgsize, env);
    }
  }

  lemma {:induction false} FinishMoves(s: Snap, wholeMissing: bool, env: Env)
    requires Live(s) && Well(s.gaps, s.msgsize)
    ensures Moves(s, FinishOf(s, wholeMissing, env))
  {
    hide AskAgain, NakAll, First;
    AskedMoves(s.(eomcount := s.eomcount + 1), env.naksize % ULONG, env);
  }

  lemma {:induction false} NotedMoves(s: Snap, env: Env)
    requires Live(s) && s.state != Ended && Well(s.gaps, s.msgsize)
    ensures Moves(s, MissedTail(s, env))
  {
    hide Queued, QueueNaks;
    if s.msgaddr < s.msgsize {
      QueuedWell(s.gaps, s.msgaddr, s.msgsize, env.time, s.msgsize);
      QueuedNak(s.gaps, s.msgaddr, s.msgsize, env.time, s.msgsize);
    }
  }

  lemma {:induction false} EventMoves(x: Reader, e: Event)
    requires Live(x.s)
    ensures Moves(x.s, Handled(x, e).s)
  {
    hide RecvOldOf, RecvNewOf, RecvEomOf, DataBuf, EomBuf, ClosedBuf, First, InBlock, Well;
    if Proper(x) {
      match e {
        case GotData(addr, data, env) =>
          if data != [] && x.s.state != Ended && addr + |data| <= x.s.msgsize {
            if addr < x.s.msgaddr {
              OldMoves(x.s, addr, data);
            } else {
              NewMoves(x.s, addr, data, env);
            }
          }
        case GotEom(env) => EomMoves(x.s, env);
        case _ =>
      }
    }
  }

  lemma {:induction false} RunMoves(x: Reader, es: seq<Event>)
    requires Live(x.s)
    ensures Moves(x.s, Resumption.After(x, es).s)
    decreases |es|
  {
    hide Handled, First, Live;
    if es != [] {
      RunMoves(x, es[..|es| - 1]);
      EventMoves(Resumption.After(x, es[..|es| - 1]), es[|es| - 1]);
    }
  }

  // ----- Where the message is taken up again

  // The reader stops, saving its status, and starts; the message is announced again.
  function TakenUp(s: Snap, env: Env): Snap
  {
    RecvSomOf(InitStatusOf(Save(s)), s.msgid, s.msgsize, true, env)
  }

  function Least(a: nat, b: nat): nat
  {
    if a < b then a else b
  }

  lemma {:induction false} TakenUpAt(s: Snap, env: Env)
    requires s.state == Active || s.state == Ending
    ensures var t := TakenUp(s, env); var at := Least(|s.disk|, s.goodaddr);
            t.msgaddr == at && t.pout == s.pout + [Soma(s.msgid, at)] && t.gaps == [] && t.view == s.disk
  {
  }

  // A message that has begun.
  function Begun(s: Snap, id: MsgId, size: nat, env: Env): Reader
  {
    Reader(SomaOf(NewMesgOf(s, id, size), env), WBuf([], 0, []))
  }

  // Whatever has come of a message since it began, it is taken up again at the first byte that is
  // missing, or where its file on disk ends.
  lemma {:induction false} TakenUpWhereMissing(s: Snap, id: MsgId, size: nat, env: Env, es: seq<Event>, later: Env)
    ensures var x := Resumption.After(Begun(s, id, size, env), es).s;
            x.state != Ended ==>
              && TakenUp(x, later).msgaddr == Least(|x.disk|, First(x.gaps, size))
              && TakenUp(x, later).pout == x.pout + [Soma(id, TakenUp(x, later).msgaddr)]
  {
    hide Handled, TakenUp;
    var b := Begun(s, id, size, env);
    assert Front(b.s) == size;
    RunMoves(b, es);
    var x := Resumption.After(b, es).s;
    if x.state != Ended {
      TakenUpAt(x, later);
    }
  }

  // A packet that came in its turn, when nothing was missing.
  predicate InTurn(s: Snap, e: Event)
  {
    && e.GotData? && e.data != [] && e.addr == s.msgaddr && e.addr + |e.data| <= s.msgsize
    && s.gaps == [] && s.state != Ended
  }

  // And of one that had been taken up again before: however often it is, it is not taken up again
  // below a packet that came in its turn, but for a byte that is missing or the end of its file.
  lemma {:induction false} TakenUpPast(x: Reader, es: seq<Event>, i: nat, later: Env)
    requires Live(x.s) && i < |es|
    requires Proper(Resumption.After(x, es[..i])) && InTurn(Resumption.After(x, es[..i]).s, es[i])
    ensures var y := Resumption.After(x, es).s;
            y.state != Ended ==>
              Least(|y.disk|, Least(es[i].addr, First(y.gaps, y.msgsize))) <= TakenUp(y, later).msgaddr
  {
    hide Handled, TakenUp, Proper, First;
    RunMoves(x, es[..i]);
    var was := Resumption.After(x, es[..i]);
    assert es[..i + 1][..i] == es[..i];
    InTurnGood(was, es[i]);
    Rest(x, es, i + 1);
    var y := Resumption.After(x, es).s;
    if y.state != Ended {
      TakenUpAt(y, later);
    }
  }

  lemma {:induction false} InTurnGood(x: Reader, e: Event)
    requires Live(x.s) && Proper(x) && InTurn(x.s, e)
    ensures e.addr <= Handled(x, e).s.goodaddr && Live(Handled(x, e).s)
  {
    hide RecvNewOf, DataBuf, InBlock, Well;
    NewMoves(x.s, e.addr, e.data, e.env);
  }

  lemma {:induction false} Rest(x: Reader, es: seq<Event>, k: nat)
    requires k <= |es| && Live(Resumption.After(x, es[..k]).s)
    ensures Moves(Resumption.After(x, es[..k]).s, Resumption.After(x, es).s)
    decreases |es|
  {
    hide Handled, First, Live;
    if k == |es| {
      assert es[..k] == es;
    } else {
      var n := |es| - 1;
      assert es[..n][..k] == es[..k];
      Rest(x, es[..n], k);
      EventMoves(Resumption.After(x, es[..n]), es[n]);
    }
  }

  // ----- An EOM before the SOM

  // What may happen to a reader: an event, or a stop and a start.
  datatype Chance = Comes(e: Event) | Restarts

  function Met(x: Reader, c: Chance): Reader
  {
    match c
    case Comes(e) => Handled(x, e)
    case Restarts => Reader(InitStatusOf(x.s), WBuf(x.s.disk, 0, []))
  }

  function MetAll(x: Reader, cs: seq<Chance>): Reader
  {
    if cs == [] then x else Met(MetAll(x, cs[..|cs| - 1]), cs[|cs| - 1])
  }

  // The message counts as ended, also in the saved status.
  predicate Closed(s: Snap, id: MsgId, size: nat)
  {
    && s.state == Ended && s.msgid == id && s.msgsize == size && !s.msgfile
    && s.status.state == Ended && s.status.msgid == id && s.status.msgsize == size
  }

  lemma {:induction false} ClosedStays(x: Reader, c: Chance, id: MsgId, size: nat)
    requires Closed(x.s, id, size)
    ensures Closed(Met(x, c).s, id, size) && Met(x, c).s.handed == x.s.handed
    ensures c.Comes? && c.e.GotSom? && Proper(x) ==> Met(x, c).s.pout == x.s.pout + [Eoma(id, size)]
  {
    hide AbortOf, MissedTail, FinishOf, NewMesgOf, SomaOf, ResumeOf, RecvOldOf, RecvNewOf, InBlock, Well;
  }

  lemma {:induction false} AllClosed(x: Reader, cs: seq<Chance>, id: MsgId, size: nat)
    requires Closed(x.s, id, size)
    ensures Closed(MetAll(x, cs).s, id, size) && MetAll(x, cs).s.handed == x.s.handed
    decreases |cs|
  {
    hide Met;
    if cs != [] {
      AllClosed(x, cs[..|cs| - 1], id, size);
      ClosedStays(MetAll(x, cs[..|cs| - 1]), cs[|cs| - 1], id, size);
    }
  }

  // An EOM that reaches a reader which has started again, before the SOM of its message: the message
  // is never handed over, whatever comes, and however often the reader stops; and its SOMs are answered
  // as if it had been.
  lemma {:induction false} EarlyEomLoses(x: Reader, cs: seq<Chance>, env: Env, later: Env)
    requires Proper(x) && x.s.state == Starting && Proper(MetAll(Handled(x, GotEom(env)), cs))
    ensures var y := MetAll(Handled(x, GotEom(env)), cs);
            && y.s.handed == x.s.handed && y.s.state == Ended
            && Handled(y, GotSom(later)).s.pout == y.s.pout + [Eoma(x.s.msgid, x.s.msgsize)]
            && Handled(y, GotSom(later)).s.handed == x.s.handed
  {
    hide MissedTail, FinishOf, InBlock, Well;
    var b := Handled(x, GotEom(env));
    assert Closed(b.s, x.s.msgid, x.s.msgsize);
    hide Handled, Proper, Closed;
    AllClosed(b, cs, x.s.msgid, x.s.msgsize);
    ClosedStays(MetAll(b, cs), Comes(GotSom(later)), x.s.msgid, x.s.msgsize);
    ClosedIs(MetAll(b, cs).s, x.s.msgid, x.s.msgsize);
  }

  lemma {:induction false} ClosedIs(s: Snap, id: MsgId, size: nat)
    requires Closed(s, id, size)
    ensures s.state == Ended
  {
  }
}
