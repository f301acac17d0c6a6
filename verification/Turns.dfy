/** When a writer that hears nothing writes (WriteChan, HTdaemon/transmitter.c): over any run of its turns. */
module Turns {
  import opened Channel
  import opened ReadBuffer
  import opened Transmitter

  // Turns of the writer, with nothing heard between them; it does not stop at any.
  ghost predicate Run(ss: seq<SendSnap>, m: seq<Byte>, ws: seq<Writer>)
  {
    && |ss| == |ws| + 1
    && forall i :: 0 <= i < |ws| ==>
         ss[i].msgaddr <= |m| && !Stops(ss[i], ws[i]) && ss[i + 1] == WriteChanOf(ss[i], m, ws[i])
  }

  // A turn at which an EOM is written, a SOM, DATA, or nothing.
  predicate EomAt(ss: seq<SendSnap>, i: nat)
    requires i + 1 < |ss|
  {
    ss[i + 1].out == ss[i].out + [Eom(ss[i].msgid, ss[i].msgsize)]
  }

  predicate SomAt(ss: seq<SendSnap>, i: nat)
    requires i + 1 < |ss|
  {
    ss[i + 1].out == ss[i].out + [Som(ss[i].msgid, ss[i].msgsize)]
  }

  predicate DataAt(ss: seq<SendSnap>, i: nat)
    requires i + 1 < |ss|
  {
    && |ss[i + 1].out| == |ss[i].out| + 1 && ss[i + 1].out[..|ss[i].out|] == ss[i].out
    && ss[i + 1].out[|ss[i].out|].Data?
  }

  // More time for a line that is down.
  function Slack(w: Writer): int
  {
    if w.linkDown then DOWN_TIMEOUT else 0
  }

  // Long enough after the turn `last`, or on an idle line, for another EOM, or another SOM.
  predicate EomWaited(last: Writer, w: Writer)
  {
    last.time + EOM_TIMEOUT + Slack(last) <= w.time || (MIN_EOM_TIMEOUT <= w.idleTime && !w.linkDown)
  }

  predicate SomWaited(last: Writer, w: Writer, ahead: int)
  {
    last.time + SOM_TIMEOUT + last.writeAhead + Slack(last) <= w.time
    || (ahead == 0 && MIN_SOM_TIMEOUT <= w.idleTime && !w.linkDown)
  }

  // ----- EOMs

  lemma {:induction false} AfterEom(s: SendSnap, m: seq<Byte>, w: Writer)
    requires s.msgaddr <= |m| && WriteChanOf(s, m, w).out == s.out + [Eom(s.msgid, s.msgsize)]
    ensures var t := WriteChanOf(s, m, w);
            && t.state == Ending && t.cntrltime == w.time + EOM_TIMEOUT + Slack(w)
            && t.msgid == s.msgid && t.msgsize == s.msgsize && t.msgaddr == s.msgaddr
            && (s.state == Active ==> t.count == MAX_EOMS - 1)
            && (s.state != Active ==> s.state == Ending && t.count == s.count - 1)
  {
    assert s.out + [Eom(s.msgid, s.msgsize)] != s.out;
    Last(s.out, Eom(s.msgid, s.msgsize));
    if s.state == Active || s.state == Starting {
      Last(s.out, NextData(s, m));
    }
  }

  lemma {:induction false} Last(out: seq<Packet>, p: Packet)
    ensures (out + [p])[|out|] == p && |out + [p]| == |out| + 1
  {
  }

  // With nothing written in between the channel stays as it was.
  lemma {:induction false} WaitsStill(ss: seq<SendSnap>, m: seq<Byte>, ws: seq<Writer>, i: nat, j: nat)
    requires Run(ss, m, ws) && i <= j < |ss| && ss[i].state == Ending
    requires forall k :: i <= k < j ==> !EomAt(ss, k)
    ensures ss[j] == ss[i]
    decreases j
  {
    if i < j {
      WaitsStill(ss, m, ws, i, j - 1);
      assert ss[j] == WriteChanOf(ss[j - 1], m, ws[j - 1]);
      assert !EomAt(ss, j - 1);
    }
  }

  // After an EOM, the next is written at the first turn that comes long enough after it, or finds the
  // line idle, and at none before; and nothing else is written.
  lemma {:induction false} EomsApart(ss: seq<SendSnap>, m: seq<Byte>, ws: seq<Writer>, i: nat, j: nat)
    requires Run(ss, m, ws) && i < j < |ws| && EomAt(ss, i)
    requires forall k :: i < k < j ==> !EomAt(ss, k)
    ensures EomAt(ss, j) <==> EomWaited(ws[i], ws[j])
    ensures !EomAt(ss, j) ==> ss[j + 1] == ss[j]
  {
    assert ss[i + 1] == WriteChanOf(ss[i], m, ws[i]);
    AfterEom(ss[i], m, ws[i]);
    WaitsStill(ss, m, ws, i + 1, j);
    assert ss[j + 1] == WriteChanOf(ss[j], m, ws[j]) && !Stops(ss[j], ws[j]);
    Last(ss[j].out, Eom(ss[j].msgid, ss[j].msgsize));
  }

  // The EOMs written in the first `n` turns.
  function Eoms(ss: seq<SendSnap>, n: nat): nat
    requires n < |ss|
  {
    if n == 0 then 0 else Eoms(ss, n - 1) + if EomAt(ss, n - 1) then 1 else 0
  }

  // The last turn of these at which one was.
  function LastEom(ss: seq<SendSnap>, n: nat): (i: nat)
    requires n < |ss| && Eoms(ss, n) > 0
    ensures i < n && EomAt(ss, i) && forall k :: i < k < n ==> !EomAt(ss, k)
  {
    if EomAt(ss, n - 1) then n - 1 else LastEom(ss, n - 1)
  }

  // What is left of the EOMs that a message has.
  lemma {:induction false} EomsLeft(ss: seq<SendSnap>, m: seq<Byte>, ws: seq<Writer>, n: nat)
    requires Run(ss, m, ws) && n < |ss| && (ss[0].state == Starting || ss[0].state == Active)
    ensures ss[n].state != Idle
    ensures if Eoms(ss, n) == 0 then ss[n].state != Ending
            else ss[n].state == Ending && ss[n].count == MAX_EOMS - Eoms(ss, n)
  {
    if n > 0 {
      EomsLeft(ss, m, ws, n - 1);
      assert ss[n] == WriteChanOf(ss[n - 1], m, ws[n - 1]);
      if EomAt(ss, n - 1) {
        AfterEom(ss[n - 1], m, ws[n - 1]);
      } else if ss[n - 1].state == Active {
        Last(ss[n - 1].out, Eom(ss[n - 1].msgid, ss[n - 1].msgsize));
      }
    }
  }

  // A writer that hears nothing gives up when it has written MAX_EOMS EOMs, each long enough after
  // the one before or on an idle line, and has waited so for the last: not before.
  lemma {:induction false} GivesUp(ss: seq<SendSnap>, m: seq<Byte>, ws: seq<Writer>, w: Writer)
    requires Run(ss, m, ws) && (ss[0].state == Starting || ss[0].state == Active)
    ensures var n := |ws|;
            Stops(ss[n], w) <==> Eoms(ss, n) == MAX_EOMS && EomWaited(ws[LastEom(ss, n)], w)
  {
    hide Run, EomAt;
    var n := |ws|;
    RunLength(ss, m, ws);
    EomsLeft(ss, m, ws, n);
    if Eoms(ss, n) > 0 {
      LastDue(ss, m, ws, n);
    }
  }

  lemma {:induction false} RunLength(ss: seq<SendSnap>, m: seq<Byte>, ws: seq<Writer>)
    requires Run(ss, m, ws)
    ensures |ss| == |ws| + 1
  {
  }

  lemma {:induction false} LastDue(ss: seq<SendSnap>, m: seq<Byte>, ws: seq<Writer>, n: nat)
    requires Run(ss, m, ws) && n < |ss| && Eoms(ss, n) > 0
    ensures var i := LastEom(ss, n); ss[n].cntrltime == ws[i].time + EOM_TIMEOUT + Slack(ws[i])
  {
    var i := LastEom(ss, n);
    assert ss[i + 1] == WriteChanOf(ss[i], m, ws[i]);
    AfterEom(ss[i], m, ws[i]);
    WaitsStill(ss, m, ws, i + 1, n);
  }

  // The same of one that was at its end already.
  lemma {:induction false} CountsDown(ss: seq<SendSnap>, m: seq<Byte>, ws: seq<Writer>, n: nat)
    requires Run(ss, m, ws) && n < |ss| && ss[0].state == Ending
    ensures ss[n].state == Ending && ss[n].count == ss[0].count - Eoms(ss, n)
  {
    if n > 0 {
      CountsDown(ss, m, ws, n - 1);
      assert ss[n] == WriteChanOf(ss[n - 1], m, ws[n - 1]);
      Last(ss[n - 1].out, Eom(ss[n - 1].msgid, ss[n - 1].msgsize));
    }
  }

  // At its end a writer writes EOMs only; on the way there DATA at every turn, and at the end of the
  // message its first EOM at once.
  lemma {:induction false} ActiveWrites(ss: seq<SendSnap>, m: seq<Byte>, ws: seq<Writer>, i: nat)
    requires Run(ss, m, ws) && i < |ws| && ss[i].state == Active && ss[i].outDataSize > 0
    requires ss[i].eof <==> ss[i].msgaddr == |m|
    ensures if ss[i].msgaddr == |m| then EomAt(ss, i) && ss[i + 1].state == Ending
            else DataAt(ss, i) && ss[i + 1].out[|ss[i].out|] == NextData(ss[i], m) && ss[i + 1].state == Active
                 && ss[i].msgaddr < ss[i + 1].msgaddr <= |m|
  {
    assert ss[i + 1] == WriteChanOf(ss[i], m, ws[i]);
    Last(ss[i].out, NextData(ss[i], m));
  }

  // ----- SOMs

  lemma {:induction false} AfterSom(s: SendSnap, m: seq<Byte>, w: Writer)
    requires s.msgaddr <= |m| && WriteChanOf(s, m, w).out == s.out + [Som(s.msgid, s.msgsize)]
    ensures var t := WriteChanOf(s, m, w);
            && s.state == Starting && t == s.(out := t.out, cntrltime := t.cntrltime)
            && t.cntrltime == w.time + SOM_TIMEOUT + w.writeAhead + Slack(w)
  {
    Last(s.out, Som(s.msgid, s.msgsize));
    Last(s.out, Eom(s.msgid, s.msgsize));
    Last(s.out, NextData(s, m));
  }

  // While a message is announced, only the window and what is sent ahead change between SOMs.
  lemma {:induction false} AnnouncedStill(ss: seq<SendSnap>, m: seq<Byte>, ws: seq<Writer>, i: nat, j: nat)
    requires Run(ss, m, ws) && i <= j < |ss| && ss[i].state == Starting
    requires forall k :: i <= k < j ==> !SomAt(ss, k)
    ensures ss[j].state == Starting || ss[j].state == Ended
    ensures ss[j].cntrltime == ss[i].cntrltime
    ensures ss[j].count <= ss[i].count || ss[j].count < 0
    decreases j
  {
    if i < j {
      AnnouncedStill(ss, m, ws, i, j - 1);
      assert ss[j] == WriteChanOf(ss[j - 1], m, ws[j - 1]);
      assert !SomAt(ss, j - 1);
    }
  }

  // The next SOM is written at the first turn that comes long enough after the last, or finds the line
  // idle when nothing more may be sent ahead, and at none before.
  lemma {:induction false} SomsApart(ss: seq<SendSnap>, m: seq<Byte>, ws: seq<Writer>, i: nat, j: nat)
    requires Run(ss, m, ws) && i < j < |ws| && SomAt(ss, i) && ss[j].state == Starting
    requires forall k :: i < k < j ==> !SomAt(ss, k)
    ensures SomAt(ss, j) <==> SomWaited(ws[i], ws[j], ss[j].count)
    ensures !SomAt(ss, j) && ss[j].count == 0 ==> ss[j + 1] == ss[j]
  {
    assert ss[i + 1] == WriteChanOf(ss[i], m, ws[i]);
    AfterSom(ss[i], m, ws[i]);
    AnnouncedStill(ss, m, ws, i + 1, j);
    assert ss[j + 1] == WriteChanOf(ss[j], m, ws[j]);
    Last(ss[j].out, Som(ss[j].msgid, ss[j].msgsize));
    Last(ss[j].out, NextData(ss[j], m));
  }

  // A message begun with a SOM is announced again as if that had been written at a turn.
  lemma {:induction false} FirstSom(s: SendSnap, first: Writer, ss: seq<SendSnap>, m: seq<Byte>, ws: seq<Writer>,
                                    j: nat)
    requires first.started && ss != [] && ss[0] == StartMessageOf(s, true, first)
    requires Run(ss, m, ws) && j < |ws| && ss[j].state == Starting && forall k :: 0 <= k < j ==> !SomAt(ss, k)
    ensures ss[0].out == s.out + [Som(s.msgid, s.msgsize)]
    ensures SomAt(ss, j) <==> SomWaited(first, ws[j], ss[j].count)
  {
    AnnouncedStill(ss, m, ws, 0, j);
    assert ss[j + 1] == WriteChanOf(ss[j], m, ws[j]);
    Last(ss[j].out, Som(ss[j].msgid, ss[j].msgsize));
    Last(ss[j].out, NextData(ss[j], m));
  }

  // The DATA packets written in the first `n` turns.
  function Datas(ss: seq<SendSnap>, n: nat): nat
    requires n < |ss|
  {
    if n == 0 then 0 else Datas(ss, n - 1) + if DataAt(ss, n - 1) then 1 else 0
  }

  // No more is sent ahead than the window allows, and from elsewhere than the start nothing.
  lemma {:induction false} AheadAtMost(s: SendSnap, sendsom: bool, first: Writer, ss: seq<SendSnap>, m: seq<Byte>,
                                       ws: seq<Writer>, n: nat)
    requires Run(ss, m, ws) && n < |ss| && ss[0] == StartMessageOf(s, sendsom, first)
    ensures Datas(ss, n) <= if s.msgaddr == 0 then first.initDataCount else 0
    ensures ss[n].state == Starting || ss[n].state == Ended
  {
    AheadLeft(ss, m, ws, n);
  }

  lemma {:induction false} AheadLeft(ss: seq<SendSnap>, m: seq<Byte>, ws: seq<Writer>, n: nat)
    requires Run(ss, m, ws) && n < |ss| && ss[0].state == Starting && ss[0].count >= 0
    ensures ss[n].state == Starting || ss[n].state == Ended
    ensures 0 <= ss[n].count <= ss[0].count - Datas(ss, n)
  {
    if n > 0 {
      AheadLeft(ss, m, ws, n - 1);
      assert ss[n] == WriteChanOf(ss[n - 1], m, ws[n - 1]);
      Last(ss[n - 1].out, Som(ss[n - 1].msgid, ss[n - 1].msgsize));
      Last(ss[n - 1].out, NextData(ss[n - 1], m));
    }
  }
}
