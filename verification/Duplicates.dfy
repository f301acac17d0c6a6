/** What it means that a message is handed over as a possible duplicate (CH_RDUP, HTdaemon/receiver.c
    and status.c). */
module Duplicates {
  import opened Channel
  import opened GapList
  import opened Receiver
  import opened Coverage
  import opened ReadBuffer
  import opened System
  import opened Delivery
  import opened Replies
  import T = Transmitter

  // The receiver takes the oldest packet, and finds no file.
  predicate TakesWithout(l: Link, k: Link, r: Snap, msgs: seq<Msg>, fileThere: bool, env: Env)
  {
    !fileThere && ReceiverReceives(l, k, r, msgs, fileThere, env)
  }

  // The message that was coming in is begun anew, because its file is gone.
  ghost predicate FileGone(l: Link, k: Link, msgs: seq<Msg>)
  {
    && l.fwd != [] && l.fwd[0].p == Som(l.r.msgid, l.r.msgsize) && l.r.state == Starting
    && exists r, fileThere, env :: TakesWithout(l, k, r, msgs, fileThere, env)
  }

  // The session ends again before the sender has announced the message again.
  ghost predicate Forgets(l: Link, k: Link)
  {
    l.r.state == Starting && exists r, addr, gone, w :: Restart(l, k, r, addr, gone, w)
  }

  // By the `i`th state message number `n` has lost its file, and since then no session has ended
  // before it was announced again.
  ghost predicate Flagged(run: seq<Link>, msgs: seq<Msg>, n: nat, i: nat)
    requires i < |run|
  {
    0 < i &&
    if |run[i - 1].r.handed| != n then Flagged(run, msgs, n, i - 1)
    else FileGone(run[i - 1], run[i], msgs)
         || (Flagged(run, msgs, n, i - 1) && !Forgets(run[i - 1], run[i]))
  }

  // ----- What each step does to the flag

  // The flag is saved, and only a message coming in has one.
  predicate Saved(s: Snap)
  {
    s.status.rdup == s.rdup && (s.state == Idle || s.state == Ended ==> !s.rdup)
  }

  // The message goes on with its flag, or is handed over with it.
  predicate Goes(was: Snap, now: Snap)
  {
    || (now.handed == was.handed && now.rdup == was.rdup)
    || (|now.handed| == |was.handed| + 1 && now.handed[..|was.handed|] == was.handed
        && now.handed[|was.handed|].dup == was.rdup && !now.rdup)
  }

  lemma {:induction false} OldGoes(s: Snap, addr: nat, data: seq<Byte>)
    requires Saved(s) && data != []
    ensures var t := RecvOldOf(s, addr, data); Saved(t) && Goes(s, t)
  {
    hide Filled, BeginsIn, Hits, WriteAt;
  }

  lemma {:induction false} PlacedGoes(s: Snap, addr: nat, size: nat, env: Env)
    requires Saved(s) && size > 0 && s.msgaddr <= addr
    ensures var t := Placed(s, addr, size, env); Saved(t) && t.handed == s.handed && t.rdup == s.rdup
  {
    hide Queued, Naks, Filled, BeginsIn;
  }

  lemma {:induction false} NewGoes(s: Snap, addr: nat, data: seq<Byte>, env: Env)
    requires Saved(s) && data != [] && Well(s.gaps, s.msgsize) && s.msgaddr <= addr && addr + |data| <= s.msgsize
    ensures var t := RecvNewOf(s, addr, data, env); Saved(t) && Goes(s, t)
  {
    hide Placed, NakAll, WriteAt;
    PlacedWell(s, addr, |data|, env);
    PlacedGoes(s, addr, |data|, env);
  }

  lemma {:induction false} DataGoes(s: Snap, addr: nat, data: seq<Byte>, env: Env)
    requires Saved(s) && data != [] && Well(s.gaps, s.msgsize)
    ensures var t := RecvDataOf(s, addr, data, env); Saved(t) && Goes(s, t)
  {
    hide RecvOldOf, RecvNewOf;
    if addr + |data| <= s.msgsize {
      if addr < s.msgaddr {
        OldGoes(s, addr, data);
      } else {
        NewGoes(s, addr, data, env);
      }
    }
  }

  lemma {:induction false} TailGoes(s: Snap, env: Env)
    requires Saved(s) && (s.state == Active || s.state == Ending)
    ensures var t := MissedTail(s, env);
            && Saved(t) && t.handed == s.handed && t.rdup == s.rdup && (t.state == Active || t.state == Ending)
  {
    hide Queued, Naks;
  }

  lemma {:induction false} FinishGoes(s: Snap, wholeMissing: bool, env: Env)
    requires Saved(s) && Well(s.gaps, s.msgsize)
    ensures var t := FinishOf(s, wholeMissing, env); Saved(t) && Goes(s, t)
  {
    hide NakAll;
  }

  lemma {:induction false} EomGoes(s: Snap, id: MsgId, size: nat, env: Env)
    requires Saved(s) && Well(s.gaps, s.msgsize) && (s.state == Starting ==> id != s.msgid)
    requires s.state == Idle ==> id != s.msgid
    ensures var t := RecvEomOf(s, id, size, env); Saved(t) && Goes(s, t)
  {
    hide MissedTail, FinishOf;
    if s.state == Active || s.state == Ending {
      MissedTailWell(s, env);
      MissedTailUp(s, env);
      TailGoes(s, env);
      FinishGoes(MissedTail(s, env), s.msgaddr == 0 && 0 < s.msgsize, env);
    }
  }

  lemma {:induction false} SomGoes(s: Snap, id: MsgId, size: nat, fileThere: bool, env: Env)
    requires Saved(s)
    ensures var t := RecvSomOf(s, id, size, fileThere, env);
            && Saved(t) && t.handed == s.handed
            && t.rdup == (s.rdup
                          || (id == s.msgid && size == s.msgsize && s.state != Ended && !s.msgfile && !fileThere))
  {
  }

  lemma {:induction false} RestartGoes(s: Snap)
    requires Saved(s)
    ensures var t := InitStatusOf(s);
            && Saved(t) && t.handed == s.handed
            && t.rdup == (s.status.rdup && (s.status.state == Active || s.status.state == Ending))
  {
  }

  // ----- And over runs

  // A message whose session ended has no file open, and its SOM comes before any EOM of it.
  lemma {:induction false} WhereFrom(l: Link, msgs: seq<Msg>)
    requires Inv(l, msgs) && Distinct(msgs) && l.fwd != []
    ensures l.r.state == Starting ==> !l.fwd[0].p.Eom? && !l.r.msgfile
    ensures l.r.state == Active || l.r.state == Ending ==>
              l.r.msgfile && (l.r.status.state == Active || l.r.status.state == Ending)
    ensures l.r.state == Idle && l.fwd[0].p.Eom? ==> l.fwd[0].p.id != l.r.msgid
    ensures l.r.state == Idle && l.fwd[0].p.Som? ==> l.fwd[0].p.id != l.r.msgid
  {
    hide AllAcknowledge, Prefix, Stoppable, InOrder;
    OldestOk(l, msgs);
    ContentNotEmpty(msgs, l.fwd[0].of);
  }

  lemma {:induction false} StatusThere(l: Link, msgs: seq<Msg>)
    requires Inv(l, msgs)
    ensures l.r.state == Active || l.r.state == Ending ==> l.r.status.state == Active || l.r.status.state == Ending
  {
    hide AllAcknowledge, Prefix, Stoppable, InOrder;
  }

  lemma {:induction false} TakenGoes(l: Link, k: Link, r: Snap, msgs: seq<Msg>, fileThere: bool, env: Env)
    requires Inv(l, msgs) && Distinct(msgs) && Saved(l.r) && ReceiverReceives(l, k, r, msgs, fileThere, env)
    ensures Saved(k.r) && (Goes(l.r, k.r) || FileGone(l, k, msgs))
  {
    hide Inv, Distinct, RecvDataOf, RecvEomOf, RecvSomOf, Well;
    Handled(l, k, r, msgs, fileThere, env);
    WhereFrom(l, msgs);
    match l.fwd[0].p {
      case Data(addr, data) => DataGoes(l.r, addr, data, env);
      case Eom(id, size) => EomGoes(l.r, id, size, env);
      case Som(id, size) =>
        SomGoes(l.r, id, size, fileThere, env);
        if id == l.r.msgid && size == l.r.msgsize && l.r.state != Ended && !l.r.msgfile && !fileThere {
          assert TakesWithout(l, k, r, msgs, fileThere, env);
        }
    }
  }

  lemma {:induction false} GoneFlags(l: Link, k: Link, msgs: seq<Msg>)
    requires Inv(l, msgs) && Distinct(msgs) && Saved(l.r) && FileGone(l, k, msgs)
    ensures Saved(k.r) && k.r.rdup && k.r.handed == l.r.handed
  {
    hide Inv, Distinct, RecvSomOf, Well;
    var r, fileThere, env :| TakesWithout(l, k, r, msgs, fileThere, env);
    WhereFrom(l, msgs);
    SomGoes(l.r, l.r.msgid, l.r.msgsize, fileThere, env);
  }

  lemma {:induction false} RestartFlags(l: Link, k: Link, msgs: seq<Msg>, r: Snap, addr: nat, gone: bool, w: T.Writer)
    requires Inv(l, msgs) && Saved(l.r) && Restart(l, k, r, addr, gone, w)
    ensures Saved(k.r) && k.r.handed == l.r.handed
    ensures k.r.rdup == (l.r.rdup && l.r.state != Starting)
  {
    hide Inv, T.StartMessageOf;
    StatusThere(l, msgs);
    StatusStarting(l, msgs);
    RestartGoes(r);
  }

  lemma {:induction false} StatusStarting(l: Link, msgs: seq<Msg>)
    requires Inv(l, msgs)
    ensures l.r.state == Starting ==> l.r.status.state == Starting
  {
    hide AllAcknowledge, Prefix, Stoppable, InOrder;
  }

  lemma {:induction false} StepFlags(l: Link, k: Link, msgs: seq<Msg>)
    requires Inv(l, msgs) && Distinct(msgs) && Saved(l.r) && Step(l, k, msgs)
    ensures Saved(k.r)
    ensures if FileGone(l, k, msgs) then k.r.rdup && k.r.handed == l.r.handed
            else if Forgets(l, k) then !k.r.rdup && k.r.handed == l.r.handed
            else Goes(l.r, k.r)
  {
    hide Inv, Distinct, ReceiverReceives, Restart, FileGone;
    if FileGone(l, k, msgs) {
      GoneFlags(l, k, msgs);
    } else if Forgets(l, k) {
      var r, addr, gone, w :| Restart(l, k, r, addr, gone, w);
      RestartFlags(l, k, msgs, r, addr, gone, w);
    } else if r, fileThere, env :| ReceiverReceives(l, k, r, msgs, fileThere, env) {
      TakenGoes(l, k, r, msgs, fileThere, env);
    } else if r, addr, gone, w :| Restart(l, k, r, addr, gone, w) {
      RestartFlags(l, k, msgs, r, addr, gone, w);
    }
  }

  // At every point of every run the messages handed over as possible duplicates are those that were
  // begun anew because their file was gone, and of which no session ended after that before they were
  // announced again.
  lemma {:induction false} DuplicateIff(run: seq<Link>, msgs: seq<Msg>, i: nat)
    requires Run(run, msgs) && Distinct(msgs) && i < |run|
    ensures var r := run[i].r;
            && Saved(r) && (r.rdup <==> Flagged(run, msgs, |r.handed|, i))
            && (forall n :: 0 <= n < |r.handed| ==> (r.handed[n].dup <==> Flagged(run, msgs, n, i)))
            && forall n :: n > |r.handed| ==> !Flagged(run, msgs, n, i)
  {
    hide Inv, Distinct, Step, FileGone, Forgets;
    if i > 0 {
      DuplicateIff(run, msgs, i - 1);
      RunKeeps(run, msgs, i - 1);
      assert Step(run[i - 1], run[i], msgs);
      StepFlags(run[i - 1], run[i], msgs);
    }
  }

  // So a message that has lost its file, and is interrupted twice before it is announced again, is
  // handed over unflagged.
  lemma {:induction false} TwiceForgets(s: Snap, m: seq<Byte>)
    requires Receiving(s, m) && Saved(s) && s.rdup
    ensures InitStatusOf(s).rdup && InitStatusOf(s).state == Starting
    ensures !InitStatusOf(InitStatusOf(s)).rdup
  {
  }
}
