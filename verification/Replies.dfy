/** What is on its way back to the sender: a sender that has begun a message hears of no other until
    the receiver has begun it too. */
module Replies {
  import opened Channel
  import opened GapList
  import opened Receiver
  import opened Coverage
  import opened ReadBuffer
  import opened System
  import opened Delivery
  import T = Transmitter

  predicate OnlyEomas(rev: seq<Packet>)
  {
    forall p :: p in rev ==> p.Eoma?
  }

  // Behind an EOMA for message `id` there are only EOMAs.
  predicate EomaLast(rev: seq<Packet>, id: MsgId)
  {
    forall i, j :: 0 <= i < j < |rev| && rev[i].Eoma? && rev[i].id == id ==> rev[j].Eoma?
  }

  // Until the receiver has begun the sender's message, the sender is still announcing it, and hears of
  // others only that they have arrived; once the message has been handed over, that comes last.
  predicate Replying(l: Link, msgs: seq<Msg>)
  {
    var n := |l.r.handed|;
    && (n < l.started && l.r.state != Active && l.r.state != Ending ==> l.s.state == Starting && OnlyEomas(l.rev))
    && (n == l.started && 0 < n <= |msgs| ==>
         EomaLast(l.rev, msgs[n - 1].id) && (l.retired == l.started ==> OnlyEomas(l.rev)))
  }

  // ----- What the receiver answers

  lemma {:induction false} NewHands(s: Snap, addr: nat, data: seq<Byte>, env: Env)
    requires data != [] && Well(s.gaps, s.msgsize) && s.msgaddr <= addr && addr + |data| <= s.msgsize
    ensures RecvNewOf(s, addr, data, env).handed == s.handed
  {
    hide Filled, BeginsIn, NakAll, Queued, Naks, WriteAt;
    PlacedWell(s, addr, |data|, env);
  }

  lemma {:induction false} OldHands(s: Snap, addr: nat, data: seq<Byte>)
    requires data != []
    ensures var t := RecvOldOf(s, addr, data);
            t.handed == s.handed || t.pout == s.pout + [Eoma(s.msgid, s.msgsize)]
  {
    hide Filled, BeginsIn, Hits, WriteAt;
  }

  // A message is handed over with an EOMA, and nothing else.
  lemma {:induction false} DataHands(s: Snap, addr: nat, data: seq<Byte>, env: Env)
    requires data != [] && Well(s.gaps, s.msgsize)
    ensures var t := RecvDataOf(s, addr, data, env);
            t.handed == s.handed || t.pout == s.pout + [Eoma(s.msgid, s.msgsize)]
  {
    hide RecvOldOf, RecvNewOf;
    if addr + |data| <= s.msgsize {
      if addr < s.msgaddr {
        OldHands(s, addr, data);
      } else {
        NewHands(s, addr, data, env);
      }
    }
  }

  lemma {:induction false} EomHands(s: Snap, id: MsgId, size: nat, env: Env)
    requires (s.state == Active || s.state == Ending) && Well(s.gaps, s.msgsize) && env.naksize % ULONG > 0
    ensures var t := RecvEomOf(s, id, size, env);
            t.handed == s.handed || t.pout == s.pout + [Eoma(s.msgid, s.msgsize)]
  {
    if id == s.msgid && size == s.msgsize {
      EomHandsOver(s, env);
      if s.gaps == [] && s.msgsize <= s.msgaddr {
        AskNone(MissedTail(s, env).(eomcount := s.eomcount + 1), env.naksize % ULONG, env);
      }
    }
  }

  lemma {:induction false} AskNone(s: Snap, maxlength: nat, env: Env)
    requires s.gaps == []
    ensures AskAgain(s, maxlength, env) == s
  {
    assert s.pout + [] == s.pout;
  }

  // No EOMA of a message comes before it has been handed over.
  lemma {:induction false} NoEoma(rev: seq<Packet>, handed: seq<Handed>, msgs: seq<Msg>, i: nat)
    requires AllAcknowledge(rev, handed) && Prefix(handed, msgs) && Distinct(msgs) && |handed| < |msgs| && i < |rev|
    ensures !(rev[i].Eoma? && rev[i].id == msgs[|handed|].id)
  {
    if i == 0 {
      if rev[0].Eoma? {
        var j :| 0 <= j < |handed| && handed[j].id == rev[0].id;
        assert msgs[j].id != msgs[|handed|].id;
      }
    } else {
      NoEoma(rev[1..], handed, msgs, i - 1);
    }
  }

  // So the first one comes last.
  lemma {:induction false} FirstEoma(rev: seq<Packet>, p: Packet, handed: seq<Handed>, msgs: seq<Msg>)
    requires AllAcknowledge(rev, handed) && Prefix(handed, msgs) && Distinct(msgs) && |handed| < |msgs|
    ensures EomaLast(rev + [p], msgs[|handed|].id)
  {
    hide AllAcknowledge, Prefix, Distinct;
    forall i: nat | i < |rev|
      ensures !(rev[i].Eoma? && rev[i].id == msgs[|handed|].id)
    {
      NoEoma(rev, handed, msgs, i);
    }
  }

  // ----- Every step keeps this

  lemma {:induction false} StartReplies(l: Link, k: Link, msgs: seq<Msg>, sendsom: bool, w: T.Writer)
    requires Inv(l, msgs) && Replying(l, msgs) && Start(l, k, msgs, sendsom, w)
    ensures Replying(k, msgs)
  {
    hide InOrder, AllAcknowledge, Prefix, Incoming, Suspended, Done, Blank;
  }

  lemma {:induction false} WriteReplies(l: Link, k: Link, msgs: seq<Msg>, w: T.Writer)
    requires Inv(l, msgs) && Replying(l, msgs) && Write(l, k, msgs, w)
    ensures Replying(k, msgs)
  {
    hide InOrder, AllAcknowledge, Prefix, ReceiverOk, OnlyEomas, EomaLast, T.StartingOf, T.ActiveOf;
    if l.s.state == Starting {
      WriteSends(l.s, msgs[l.started - 1], w);
    }
  }

  lemma {:induction false} SenderReplies(l: Link, k: Link, msgs: seq<Msg>, w: T.Writer)
    requires Inv(l, msgs) && Distinct(msgs) && Replying(l, msgs) && SenderReceives(l, k, msgs, w)
    ensures Replying(k, msgs)
  {
    hide InOrder, Prefix, ReceiverOk, Distinct, AllAcknowledge;
    DropReply(l, msgs);
    if l.rev[0].Eoma? {
      Acknowledged(l, msgs, l.rev[0].id);
    }
  }

  lemma {:induction false} LoseReplies(l: Link, k: Link, msgs: seq<Msg>)
    requires Replying(l, msgs) && Lose(l, k)
    ensures Replying(k, msgs)
  {
  }

  // The message that is coming in.
  lemma {:induction false} IncomingNow(l: Link, msgs: seq<Msg>)
    requires Inv(l, msgs) && (l.r.state == Active || l.r.state == Ending)
    ensures var n := |l.r.handed|;
            n + 1 == l.started <= |msgs| && Incoming(l, msgs[n]) && InOrder(l.fwd, msgs, n, l.started)
  {
    hide AllAcknowledge, Prefix, InOrder;
  }

  lemma {:induction false} Continued(l: Link, k: Link, r: Snap, msgs: seq<Msg>)
    requires Inv(l, msgs) && Distinct(msgs) && |l.r.handed| + 1 == l.started <= |msgs|
    requires Continues(l.r, r, msgs[|l.r.handed|].content) && k == Reply(l.(fwd := k.fwd), r)
    requires r.handed == l.r.handed || r.pout == [Eoma(l.r.msgid, l.r.msgsize)]
    ensures Replying(k, msgs)
  {
    hide InOrder, AllAcknowledge, Prefix, Distinct, ReceiverOk, EomaLast;
    var n := |l.r.handed|;
    if r.handed == l.r.handed {
      ReceivingState(r, msgs[n].content);
    } else {
      FirstEoma(l.rev, Eoma(l.r.msgid, l.r.msgsize), l.r.handed, msgs);
    }
  }

  lemma {:induction false} DataReplies(l: Link, k: Link, r: Snap, msgs: seq<Msg>, fileThere: bool, env: Env)
    requires Inv(l, msgs) && Distinct(msgs) && ReceiverReceives(l, k, r, msgs, fileThere, env) && l.fwd[0].p.Data?
    requires var n := |l.r.handed|;
             n + 1 == l.started <= |msgs| && Incoming(l, msgs[n]) && InOrder(l.fwd, msgs, n, l.started)
    ensures Replying(k, msgs)
  {
    hide InOrder, Receiving, Stoppable, RecvDataOf, Inv, Distinct, Replying, Continues;
    var n := |l.r.handed|;
    var Data(addr, data) := l.fwd[0].p;
    TailInOrder(l.fwd, msgs, n, l.started);
    ReceivingOpen(l.r, msgs[n].content);
    NoReplyYet(l, msgs);
    DataKeeps(l.r, r, msgs[n].content, addr, data, env);
    DataHands(l.r, addr, data, env);
    Continued(l, k, r, msgs);
  }

  lemma {:induction false} EomReplies(l: Link, k: Link, r: Snap, msgs: seq<Msg>, fileThere: bool, env: Env)
    requires Inv(l, msgs) && Distinct(msgs) && ReceiverReceives(l, k, r, msgs, fileThere, env) && l.fwd[0].p.Eom?
    requires var n := |l.r.handed|;
             n + 1 == l.started <= |msgs| && Incoming(l, msgs[n]) && InOrder(l.fwd, msgs, n, l.started)
    ensures Replying(k, msgs)
  {
    hide InOrder, Receiving, Stoppable, RecvEomOf, Inv, Distinct, Replying, Continues;
    var n := |l.r.handed|;
    var Eom(id, size) := l.fwd[0].p;
    ReceivingOpen(l.r, msgs[n].content);
    NoReplyYet(l, msgs);
    EomKeeps(l.r, r, msgs[n].content, id, size, env);
    EomHands(l.r, id, size, env);
    Continued(l, k, r, msgs);
  }

  lemma {:induction false} NoReplyYet(l: Link, msgs: seq<Msg>)
    requires Inv(l, msgs)
    ensures l.r.pout == []
  {
  }

  // A SOM is answered at once with a SOMA, or with an EOMA if the message has been handed over.
  lemma {:induction false} SomStarts(s: Snap, id: MsgId, size: nat, fileThere: bool, env: Env)
    requires s.pout == [] && !(s.state == Ended && s.msgid == id && s.msgsize == size)
    ensures var t := RecvSomOf(s, id, size, fileThere, env);
            && t.state == Active && t.handed == s.handed && t.msgid == id
            && t.pout == [Soma(id, t.msgaddr)]
            && (s.msgid != id ==> t.msgaddr == 0 && t.gaps == []) && (!s.msgfile ==> t.gaps == [])
            && (s.msgid == id && s.msgsize == size && s.msgfile ==> t.msgaddr == s.msgaddr && t.gaps == s.gaps)
  {
  }

  lemma {:induction false} IncomingReplies(l: Link, k: Link, r: Snap, msgs: seq<Msg>, fileThere: bool, env: Env)
    requires Inv(l, msgs) && Distinct(msgs) && ReceiverReceives(l, k, r, msgs, fileThere, env)
    requires l.r.state == Active || l.r.state == Ending
    ensures Replying(k, msgs)
  {
    hide Inv, InOrder, Incoming, Distinct, OnlyEomas, EomaLast;
    IncomingNow(l, msgs);
    if l.fwd[0].p.Data? {
      DataReplies(l, k, r, msgs, fileThere, env);
    } else if l.fwd[0].p.Eom? {
      EomReplies(l, k, r, msgs, fileThere, env);
    } else {
      NoReplyYet(l, msgs);
      SomStarts(l.r, l.fwd[0].p.id, l.fwd[0].p.size, fileThere, env);
    }
  }

  lemma {:induction false} MoreEomas(rev: seq<Packet>, p: Packet, id: MsgId)
    requires p.Eoma?
    ensures OnlyEomas(rev) ==> OnlyEomas(rev + [p])
    ensures EomaLast(rev, id) ==> EomaLast(rev + [p], id)
  {
  }

  lemma {:induction false} DoneReplies(l: Link, k: Link, r: Snap, msgs: seq<Msg>, fileThere: bool, env: Env)
    requires Inv(l, msgs) && Distinct(msgs) && Replying(l, msgs) && ReceiverReceives(l, k, r, msgs, fileThere, env)
    requires var n := |l.r.handed|;
             0 < n <= l.started <= |msgs| && Done(l.r, msgs[n - 1]) && InOrder(l.fwd, msgs, n - 1, l.started)
    ensures Replying(k, msgs)
  {
    hide InOrder, Inv, Distinct, OnlyEomas, EomaLast, RecvDataOf, RecvEomOf, RecvSomOf;
    var n := |l.r.handed|;
    MoreEomas(l.rev, Eoma(l.r.msgid, l.r.msgsize), msgs[n - 1].id);
    if l.fwd[0].of == n - 1 || !l.fwd[0].p.Som? {
      DoneStays(l, k, r, msgs, fileThere, env);
    } else {
      DoneStarts(l, k, r, msgs, fileThere, env);
      ReceivingState(k.r, msgs[n].content);
    }
  }

  lemma {:induction false} BlankReplies(l: Link, k: Link, r: Snap, msgs: seq<Msg>, fileThere: bool, env: Env)
    requires Inv(l, msgs) && Distinct(msgs) && Replying(l, msgs) && ReceiverReceives(l, k, r, msgs, fileThere, env)
    requires Blank(l.r) && InOrder(l.fwd, msgs, 0, l.started)
    ensures Replying(k, msgs)
  {
    hide InOrder, AllAcknowledge, Prefix, Distinct, OnlyEomas, EomaLast;
    TailInOrder(l.fwd, msgs, 0, l.started);
    ContentNotEmpty(msgs, l.fwd[0].of);
    assert l.rev + [] == l.rev;
  }

  lemma {:induction false} ReceiverReplies(l: Link, k: Link, r: Snap, msgs: seq<Msg>, fileThere: bool, env: Env)
    requires Inv(l, msgs) && Distinct(msgs) && Replying(l, msgs) && ReceiverReceives(l, k, r, msgs, fileThere, env)
    ensures Replying(k, msgs)
  {
    hide InOrder, AllAcknowledge, Prefix, Distinct, ReceiverReceives, Replying, Incoming, Suspended, Done, Blank;
    var n := |l.r.handed|;
    if l.r.state == Active || l.r.state == Ending {
      IncomingReplies(l, k, r, msgs, fileThere, env);
    } else if Blank(l.r) && InOrder(l.fwd, msgs, 0, l.started) {
      BlankReplies(l, k, r, msgs, fileThere, env);
    } else if n < l.started && Suspended(l, msgs[n]) && InOrder(l.fwd, msgs, n, l.started) {
      SuspendedTakes(l, k, r, msgs, fileThere, env);
      Handled(l, k, r, msgs, fileThere, env);
      SuspendedReplies(l, k, msgs);
    } else if n < l.started && Incoming(l, msgs[n]) {
      IncomingState(l, msgs[n]);
      assert false;
    } else {
      DoneReplies(l, k, r, msgs, fileThere, env);
    }
  }

  lemma {:induction false} IncomingState(l: Link, m: Msg)
    requires Incoming(l, m)
    ensures l.r.state == Active || l.r.state == Ending
  {
  }

  lemma {:induction false} SuspendedReplies(l: Link, k: Link, msgs: seq<Msg>)
    requires Replying(l, msgs) && |l.r.handed| < l.started <= |msgs|
    requires || k == l.(fwd := k.fwd)
             || (Incoming(k, msgs[|l.r.handed|]) && k.started == l.started && k.r.handed == l.r.handed)
    ensures Replying(k, msgs)
  {
    if k != l.(fwd := k.fwd) {
      IncomingState(k, msgs[|l.r.handed|]);
    }
  }

  lemma {:induction false} RestartReplies(l: Link, k: Link, msgs: seq<Msg>, r: Snap, addr: nat, gone: bool, w: T.Writer)
    requires Inv(l, msgs) && Distinct(msgs) && Restart(l, k, r, addr, gone, w)
    ensures Replying(k, msgs)
  {
    hide InOrder, AllAcknowledge, Prefix, ReceiverOk, SenderRestarted, Distinct;
    SenderRestarts(l, msgs, addr, gone, w);
  }

  lemma {:induction false} StepReplies(l: Link, k: Link, msgs: seq<Msg>)
    requires Inv(l, msgs) && Distinct(msgs) && Replying(l, msgs) && Step(l, k, msgs)
    ensures Replying(k, msgs)
  {
    hide Inv, Distinct, Replying, Start, Write, SenderReceives, ReceiverReceives, Lose, SaveStatus, Restart;
    if sendsom, w :| Start(l, k, msgs, sendsom, w) {
      StartReplies(l, k, msgs, sendsom, w);
    } else if w :| Write(l, k, msgs, w) {
      WriteReplies(l, k, msgs, w);
    } else if w :| SenderReceives(l, k, msgs, w) {
      SenderReplies(l, k, msgs, w);
    } else if r, fileThere, env :| ReceiverReceives(l, k, r, msgs, fileThere, env) {
      ReceiverReplies(l, k, r, msgs, fileThere, env);
    } else if Lose(l, k) {
      LoseReplies(l, k, msgs);
    } else if SaveStatus(l, k) {
      SaveReplies(l, k, msgs);
    } else {
      var r, addr, gone, w :| Restart(l, k, r, addr, gone, w);
      RestartReplies(l, k, msgs, r, addr, gone, w);
    }
  }

  lemma {:induction false} SaveReplies(l: Link, k: Link, msgs: seq<Msg>)
    requires Replying(l, msgs) && SaveStatus(l, k)
    ensures Replying(k, msgs)
  {
  }

  // In every run.
  lemma {:induction false} RunReplies(run: seq<Link>, msgs: seq<Msg>, i: nat)
    requires Run(run, msgs) && Distinct(msgs) && i < |run|
    ensures Replying(run[i], msgs)
  {
    hide Inv, Distinct, Step, Replying;
    if i == 0 {
      InitReplies(run[0], msgs);
    } else {
      RunReplies(run, msgs, i - 1);
      RunKeeps(run, msgs, i - 1);
      assert Step(run[i - 1], run[i], msgs);
      StepReplies(run[i - 1], run[i], msgs);
    }
  }

  lemma {:induction false} InitReplies(l: Link, msgs: seq<Msg>)
    requires Init(l)
    ensures Replying(l, msgs)
  {
  }
}
