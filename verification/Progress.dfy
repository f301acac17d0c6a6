/** Nothing is ever lost for good: from every state of every run each message can still be delivered,
    by nothing but what the two ends do, and without ending the session before the sender gives up. */
module Progress {
  import opened Channel
  import opened GapList
  import opened Receiver
  import opened Coverage
  import opened Repair
  import opened ReadBuffer
  import opened System
  import opened Delivery
  import opened Replies
  import T = Transmitter

  // The messages to be sent; what the two ends know beside the time; whether the circuit may lose
  // packets; and whether the sender gives up when it has sent its EOMs, and where it begins then.
  datatype World = World(msgs: seq<Msg>, w: T.Writer, env: Env, lossy: bool, limit: bool, saved: nat)

  datatype Moment = Moment(l: Link, time: int)

  // Messages have names and bytes, and NAKs have room.
  ghost predicate Good(x: World)
  {
    Distinct(x.msgs) && Room(x.env)
  }

  // The session ends because the sender gives up.
  ghost predicate GivesUp(l: Link, k: Link, x: World, w: T.Writer)
  {
    x.limit && l.s.state == Ending && T.Stops(l.s, w)
    && exists r :: Restart(l, k, r, T.Min(x.saved, l.s.msgsize), false, w)
  }

  // The two ends go on: neither stops but for that, every file is there, and time does not run back.
  ghost predicate Goes(a: Moment, b: Moment, x: World)
  {
    var w, env := x.w.(time := b.time), x.env.(time := b.time);
    && a.time <= b.time
    && (|| (exists sendsom :: Start(a.l, b.l, x.msgs, sendsom, w))
        || (Write(a.l, b.l, x.msgs, w) && !(x.limit && T.Stops(a.l.s, w)))
        || GivesUp(a.l, b.l, x, w)
        || SenderReceives(a.l, b.l, x.msgs, w)
        || (exists r :: ReceiverReceives(a.l, b.l, r, x.msgs, true, env))
        || (x.lossy && Lose(a.l, b.l)))
  }

  ghost predicate Path(path: seq<Moment>, x: World)
  {
    path != [] && forall i :: 0 <= i < |path| - 1 ==> Goes(path[i], path[i + 1], x)
  }

  // They can go on from `a` to `b`.
  ghost predicate Leads(a: Moment, b: Moment, x: World)
  {
    exists path :: Path(path, x) && path[0] == a && path[|path| - 1] == b
  }

  lemma {:induction false} Stays(a: Moment, x: World)
    ensures Leads(a, a, x)
  {
    assert Path([a], x) && [a][0] == a;
  }

  lemma {:induction false} Joined(a: Moment, b: Moment, c: Moment, x: World)
    requires Leads(a, b, x) && Leads(b, c, x)
    ensures Leads(a, c, x)
  {
    hide Goes;
    var p :| Path(p, x) && p[0] == a && p[|p| - 1] == b;
    var q :| Path(q, x) && q[0] == b && q[|q| - 1] == c;
    var z := p + q[1..];
    forall i | 0 <= i < |z| - 1
      ensures Goes(z[i], z[i + 1], x)
    {
      if i >= |p| - 1 {
        assert Goes(q[i + 1 - |p|], q[i + 2 - |p|], x);
      } else {
        assert Goes(p[i], p[i + 1], x);
      }
    }
    assert z[0] == a && z[|z| - 1] == c;
  }

  // What holds of every state of every run.
  ghost predicate Sound(l: Link, x: World)
  {
    Good(x) && Inv(l, x.msgs) && Replying(l, x.msgs)
  }

  lemma {:induction false} OneStep(a: Moment, b: Moment, x: World)
    requires Sound(a.l, x) && Goes(a, b, x)
    ensures Leads(a, b, x) && Sound(b.l, x)
  {
    hide Inv, Replying, Distinct, Start, Write, SenderReceives, ReceiverReceives, Lose, GivesUp, Room;
    GoesSteps(a, b, x);
    StepKeeps(a.l, b.l, x.msgs);
    StepReplies(a.l, b.l, x.msgs);
    hide Goes;
    var path := [a, b];
    assert path[0] == a && path[1] == b;
    assert Path(path, x);
  }

  lemma {:induction false} GoesSteps(a: Moment, b: Moment, x: World)
    requires Goes(a, b, x)
    ensures Step(a.l, b.l, x.msgs)
  {
    hide Start, Write, SenderReceives, ReceiverReceives, Lose, SaveStatus, Restart;
  }

  // ----- Single steps

  // The writer has its turn.
  lemma {:induction false} Wrote(a: Moment, x: World, time: int) returns (b: Moment)
    requires Sound(a.l, x) && a.l.started > 0 && a.time <= time
    requires !(x.limit && T.Stops(a.l.s, x.w.(time := time)))
    ensures Leads(a, b, x) && Sound(b.l, x) && b.time == time
    ensures a.l.started <= |x.msgs| && a.l.s.msgaddr <= |x.msgs[a.l.started - 1].content|
    ensures b.l == Transmit(a.l, T.WriteChanOf(a.l.s, x.msgs[a.l.started - 1].content, x.w.(time := time)))
  {
    hide Inv, Replying, Good, T.Stops;
    var k := WriterCan(a.l, x.msgs, x.w.(time := time));
    b := Moment(k, time);
    OneStep(a, b, x);
  }

  // The sender takes in the oldest reply.
  lemma {:induction false} Heard(a: Moment, x: World) returns (b: Moment)
    requires Sound(a.l, x) && a.l.rev != []
    ensures Leads(a, b, x) && Sound(b.l, x) && b.time == a.time
    ensures SenderReceives(a.l, b.l, x.msgs, x.w.(time := a.time))
  {
    hide Inv, Replying, Good, SenderReceives;
    var k := SenderCan(a.l, x.msgs, x.w.(time := a.time));
    b := Moment(k, a.time);
    OneStep(a, b, x);
  }

  // The receiver takes in the oldest packet.
  lemma {:induction false} Taken(a: Moment, x: World) returns (b: Moment, r: Snap)
    requires Sound(a.l, x) && a.l.fwd != []
    ensures Leads(a, b, x) && Sound(b.l, x) && b.time == a.time
    ensures ReceiverReceives(a.l, b.l, r, x.msgs, true, x.env.(time := a.time))
  {
    hide Inv, Replying, Distinct, ReceiverReceives;
    var k, t := ReceiverCan(a.l, x.msgs, true, x.env.(time := a.time));
    b, r := Moment(k, a.time), t;
    OneStep(a, b, x);
  }

  // Whatever is on its way gets lost.
  lemma {:induction false} Cleared(a: Moment, x: World) returns (b: Moment)
    requires Sound(a.l, x) && x.lossy
    ensures Leads(a, b, x) && Sound(b.l, x) && b == a.(l := a.l.(fwd := [], rev := []))
    decreases |a.l.fwd| + |a.l.rev|
  {
    hide Sound, Leads;
    if Still(a.l) {
      Stays(a, x);
      b := a;
    } else {
      var k := a.(l := if a.l.fwd != [] then a.l.(fwd := a.l.fwd[1..]) else a.l.(rev := a.l.rev[1..]));
      assert Lose(a.l, k.l) && Goes(a, k, x);
      OneStep(a, k, x);
      b := Cleared(k, x);
      Joined(a, k, b, x);
    }
  }

  // ----- What the two ends are

  // Nothing is on its way.
  predicate Still(l: Link)
  {
    l.fwd == [] && l.rev == []
  }

  lemma {:induction false} SenderNow(l: Link, x: World)
    requires Sound(l, x) && l.s.state != Idle
    ensures 0 < l.started <= |x.msgs| && Sending(l.s, x.msgs[l.started - 1])
    ensures l.s.out == [] && l.s.outDataSize > 0 && x.msgs[l.started - 1].content != []
  {
    hide ReceiverOk, AllAcknowledge, Prefix;
  }

  // The message that is being received, ...
  lemma {:induction false} ReceiverNow(l: Link, x: World)
    requires Sound(l, x) && (l.r.state == Active || l.r.state == Ending)
    ensures var n := |l.r.handed|;
            && n + 1 == l.started <= |x.msgs| && l.r.msgid == x.msgs[n].id && l.r.pout == []
            && Receiving(l.r, x.msgs[n].content) && l.r.msgsize == |x.msgs[n].content|
  {
    hide Receiving, Prefix, AllAcknowledge, Stoppable, InOrder;
    IncomingNow(l, x.msgs);
    ReceivingFile(l.r, x.msgs[|l.r.handed|].content);
  }

  // ... or has been handed over, ...
  lemma {:induction false} HandedNow(l: Link, x: World)
    requires Sound(l, x) && l.started > 0 && |l.r.handed| == l.started
    ensures l.started <= |x.msgs| && Done(l.r, x.msgs[l.started - 1]) && l.r.pout == []
  {
    hide Receiving, Prefix, AllAcknowledge, Stoppable, InOrder, Interruptible;
  }

  // ... or has not been heard of.
  lemma {:induction false} NotYet(l: Link, x: World)
    requires Sound(l, x) && |l.r.handed| < l.started
    ensures l.started == |l.r.handed| + 1 <= |x.msgs| && l.r.pout == []
    ensures l.r.state == Ended ==> l.r.msgid != x.msgs[l.started - 1].id
    ensures l.r.state != Active && l.r.state != Ending ==> l.s.state == Starting
    ensures l.s.state != Idle
  {
    hide Receiving, Prefix, AllAcknowledge, Stoppable, InOrder, Interruptible;
    var n := |l.r.handed|;
    if Incoming(l, x.msgs[n]) {
      ReceivingState(l.r, x.msgs[n].content);
    } else if Suspended(l, x.msgs[n]) {
      IsStarting(l.r, x.msgs[n].content);
    } else if 0 < n {
      assert x.msgs[n - 1].id != x.msgs[n].id;
    }
  }

  // ----- What the writer sends

  function Later(time: int, than: int): int
  {
    if time < than then than else time
  }

  // An announcement, of the start or the end of the sender's message, is on its way.
  predicate Announced(a: Link, b: Link, p: Packet)
    requires a.started > 0
  {
    && b == a.(fwd := [Sent(p, a.started - 1)], s := b.s)
    && b.s.msgid == a.s.msgid && b.s.msgsize == a.s.msgsize && b.s.msgaddr == a.s.msgaddr
  }

  lemma {:induction false} SomSent(a: Moment, x: World) returns (b: Moment)
    requires Sound(a.l, x) && Still(a.l) && a.l.s.state == Starting
    ensures Leads(a, b, x) && Sound(b.l, x) && 0 < a.l.started <= |x.msgs| && b.l.s.state == Starting
    ensures var m := x.msgs[a.l.started - 1]; Announced(a.l, b.l, Som(m.id, |m.content|))
  {
    hide Leads, Sound;
    SenderNow(a.l, x);
    b := Wrote(a, x, Later(a.time, a.l.s.cntrltime));
  }

  lemma {:induction false} EomSent(a: Moment, x: World, time: int) returns (b: Moment)
    requires Sound(a.l, x) && Still(a.l) && a.l.s.state == Ending && a.time <= time && a.l.s.cntrltime <= time
    requires !(x.limit && a.l.s.count == 0)
    ensures Leads(a, b, x) && Sound(b.l, x) && b.time == time && 0 < a.l.started <= |x.msgs| && b.l.s.state == Ending
    ensures var m := x.msgs[a.l.started - 1]; Announced(a.l, b.l, Eom(m.id, |m.content|))
    ensures b.l.s.count == a.l.s.count - 1
  {
    hide Leads, Sound;
    SenderNow(a.l, x);
    b := Wrote(a, x, time);
  }

  // The writer goes on to the end of its message, whatever becomes of what it sends.
  lemma {:induction false} Exhausted(a: Moment, x: World) returns (b: Moment)
    requires Sound(a.l, x) && x.lossy && Still(a.l) && (a.l.s.state == Active || a.l.s.state == Ending)
    ensures Leads(a, b, x) && Sound(b.l, x) && Still(b.l) && b.l.s.state == Ending
    ensures b.l == a.l.(s := b.l.s) && b.l.s.msgid == a.l.s.msgid && b.l.s.msgsize == a.l.s.msgsize
    ensures b.l.s.count == if a.l.s.state == Ending then a.l.s.count else T.MAX_EOMS - 1
    decreases a.l.s.state == Active, a.l.s.msgsize - a.l.s.msgaddr
  {
    hide Leads, Sound;
    if a.l.s.state == Ending {
      Stays(a, x);
      b := a;
    } else {
      SenderNow(a.l, x);
      var c := Wrote(a, x, a.time);
      var d := Cleared(c, x);
      b := Exhausted(d, x);
      Joined(a, c, d, x);
      Joined(a, d, b, x);
    }
  }

  // ----- The message gets begun

  // The receiver's answer to a SOM for a message it has not handed over: it is ready for it.
  lemma {:induction false} SomTakenNow(a: Moment, x: World) returns (b: Moment)
    requires Sound(a.l, x) && a.l.rev == [] && |a.l.r.handed| < a.l.started <= |x.msgs|
    requires var m := x.msgs[a.l.started - 1]; a.l.fwd == [Sent(Som(m.id, |m.content|), a.l.started - 1)]
    ensures Leads(a, b, x) && Sound(b.l, x)
    ensures b.l == a.l.(fwd := [], rev := b.l.rev, r := b.l.r, back := b.l.back) && b.l.r.state == Active
    ensures b.l.r.handed == a.l.r.handed && b.l.rev == [Soma(x.msgs[a.l.started - 1].id, b.l.r.msgaddr)]
    ensures a.l.r.msgid != x.msgs[a.l.started - 1].id ==> b.l.r.msgaddr == 0 && b.l.r.gaps == []
    ensures a.l.r.state != Active && a.l.r.state != Ending ==> b.l.r.gaps == []
    ensures a.l.r.state == Active || a.l.r.state == Ending ==>
              b.l.r.msgaddr == a.l.r.msgaddr && b.l.r.gaps == a.l.r.gaps && b.l.back == a.l.back
  {
    hide Leads, Sound, RecvSomOf, Well;
    var m := x.msgs[a.l.started - 1];
    NotYet(a.l, x);
    FileNow(a.l, x);
    var r;
    b, r := Taken(a, x);
    SomStarts(a.l.r, m.id, |m.content|, true, x.env.(time := a.time));
  }

  // The sender goes on from where the receiver is.
  lemma {:induction false} SomaHeard(a: Moment, x: World) returns (b: Moment)
    requires Sound(a.l, x) && a.l.fwd == [] && a.l.s.state == Starting && a.l.r.state == Active
    requires 0 < a.l.started <= |x.msgs| && a.l.rev == [Soma(x.msgs[a.l.started - 1].id, a.l.r.msgaddr)]
    ensures Leads(a, b, x) && Sound(b.l, x) && b.l.rev == [] && (b.l.s.state == Active || b.l.s.state == Ending)
    ensures b.l == a.l.(fwd := b.l.fwd, rev := [], s := b.l.s)
    ensures b.l.s.state == Active ==> b.l.fwd == []
    ensures b.l.s.state == Ending ==> b.l.s.count == T.MAX_EOMS - 1 && b.l.s.msgaddr == b.l.s.msgsize
    ensures b.l.s.msgaddr == (if a.l.r.msgaddr != 0 then a.l.r.msgaddr else a.l.s.msgaddr)
    ensures b.l.s.msgsize == a.l.s.msgsize == |x.msgs[a.l.started - 1].content| > 0
  {
    hide Leads, Sound, Receiving;
    SenderNow(a.l, x);
    ReceiverNow(a.l, x);
    ReceivingWithin(a.l.r, x.msgs[a.l.started - 1].content);
    b := Heard(a, x);
  }

  // The file is open while the message comes in, and only then.
  lemma {:induction false} FileNow(l: Link, x: World)
    requires Sound(l, x) && |l.r.handed| < l.started <= |x.msgs|
    ensures l.r.state == Active || l.r.state == Ending ==>
              l.r.msgfile && l.r.msgid == x.msgs[l.started - 1].id && l.r.msgsize == |x.msgs[l.started - 1].content|
    ensures l.r.state != Active && l.r.state != Ending && l.r.msgid == x.msgs[l.started - 1].id ==> !l.r.msgfile
  {
    hide Inv, Replying, Receiving;
    if l.r.state == Active || l.r.state == Ending {
      ReceiverNow(l, x);
      ReceivingFile(l.r, x.msgs[|l.r.handed|].content);
    } else {
      ClosedNow(l, x);
    }
  }

  lemma {:induction false} ClosedNow(l: Link, x: World)
    requires Sound(l, x) && |l.r.handed| < l.started <= |x.msgs| && l.r.state != Active && l.r.state != Ending
    ensures l.r.msgid == x.msgs[l.started - 1].id ==> !l.r.msgfile
  {
    hide Prefix, AllAcknowledge, Stoppable, InOrder;
    var n := |l.r.handed|;
    if Incoming(l, x.msgs[n]) {
      ReceivingState(l.r, x.msgs[n].content);
    } else if !Suspended(l, x.msgs[n]) && 0 < n {
      assert x.msgs[n - 1].id != x.msgs[n].id;
    }
  }

  lemma {:induction false} ReceivingWithin(s: Snap, m: seq<Byte>)
    requires Receiving(s, m)
    ensures s.msgaddr <= |m|
  {
  }

  // The sender announces its message, and goes on from where the receiver is.
  lemma {:induction false} Announces(a: Moment, x: World) returns (b: Moment)
    requires Sound(a.l, x) && x.lossy && Still(a.l) && |a.l.r.handed| < a.l.started && a.l.s.state == Starting
    ensures Leads(a, b, x) && Sound(b.l, x) && Still(b.l) && (b.l.s.state == Active || b.l.s.state == Ending)
    ensures b.l.started == a.l.started && b.l.r.handed == a.l.r.handed && b.l.r.state == Active
    ensures b.l.s.state == Ending ==> b.l.s.count == T.MAX_EOMS - 1 && b.l.s.msgaddr == b.l.s.msgsize
    ensures b.l.s.msgaddr == (if b.l.r.msgaddr != 0 then b.l.r.msgaddr else a.l.s.msgaddr)
    ensures a.l.r.state != Active && a.l.r.state != Ending ==> b.l.r.gaps == []
    ensures a.l.r.state == Active || a.l.r.state == Ending ==>
              b.l.r.msgaddr == a.l.r.msgaddr && b.l.r.gaps == a.l.r.gaps && b.l.back == a.l.back
  {
    hide Leads, Sound;
    NotYet(a.l, x);
    SenderNow(a.l, x);
    var c := SomSent(a, x);
    var d := SomTakenNow(c, x);
    var e := SomaHeard(d, x);
    b := Cleared(e, x);
    Joined(a, c, d, x);
    Joined(a, d, e, x);
    Joined(a, e, b, x);
  }

  // A message that is coming in: its sender comes to its end.
  lemma {:induction false} ToEnd(a: Moment, x: World) returns (b: Moment)
    requires Sound(a.l, x) && x.lossy && Still(a.l) && (a.l.r.state == Active || a.l.r.state == Ending)
    ensures Leads(a, b, x) && Sound(b.l, x) && Still(b.l) && b.l.s.state == Ending
    ensures b.l.started == a.l.started && b.l.r.handed == a.l.r.handed && b.l.back == a.l.back
    ensures b.l.r.state == Active || b.l.r.state == Ending
    ensures b.l.r.msgaddr == a.l.r.msgaddr && b.l.r.gaps == a.l.r.gaps
    ensures b.l.s.count == if a.l.s.state == Ending then a.l.s.count else T.MAX_EOMS - 1
  {
    hide Leads, Sound;
    ReceiverNow(a.l, x);
    NotYet(a.l, x);
    SenderNow(a.l, x);
    if a.l.s.state == Starting {
      var c := Announces(a, x);
      b := Exhausted(c, x);
      Joined(a, c, b, x);
    } else {
      b := Exhausted(a, x);
    }
  }

  // ----- From a position below which nothing is missing, the message comes in order

  function Bytes(l: Link, x: World): seq<Byte>
  {
    ContentOf(x.msgs, |l.r.handed|)
  }

  // Both ends are at the same address.
  ghost predicate Level(l: Link)
  {
    && Still(l) && |l.r.handed| < l.started && l.s.state == Active && Solid(l.r)
    && (l.r.state == Active || l.r.state == Ending) && l.r.msgaddr == l.s.msgaddr
  }

  lemma {:induction false} NextSent(a: Moment, x: World) returns (b: Moment)
    requires Sound(a.l, x) && Still(a.l) && |a.l.r.handed| < a.l.started && a.l.s.state == Active
    requires a.l.s.msgaddr < |Bytes(a.l, x)|
    ensures Leads(a, b, x) && Sound(b.l, x) && a.l.s.msgaddr < b.l.s.msgaddr <= |Bytes(a.l, x)|
    ensures var data := Bytes(a.l, x)[a.l.s.msgaddr..b.l.s.msgaddr];
            b.l == a.l.(s := b.l.s, fwd := [Sent(Data(a.l.s.msgaddr, data), a.l.started - 1)])
    ensures b.l.s.state == Active
  {
    hide Leads, Sound;
    NotYet(a.l, x);
    SenderNow(a.l, x);
    b := Wrote(a, x, a.time);
  }

  lemma {:induction false} Fed(a: Moment, x: World) returns (b: Moment)
    requires Sound(a.l, x) && x.lossy && Level(a.l) && a.l.s.msgaddr < |Bytes(a.l, x)|
    ensures Leads(a, b, x) && Sound(b.l, x) && Level(b.l) && a.l.s.msgaddr < b.l.s.msgaddr <= |Bytes(a.l, x)|
    ensures b.l.started == a.l.started && b.l.r.handed == a.l.r.handed
  {
    hide Leads, Sound, RecvDataOf, UpToDisk, Receiving;
    ReceiverNow(a.l, x);
    ReceivingFile(a.l.r, Bytes(a.l, x));
    var c := NextSent(a, x);
    var d, r := Taken(c, x);
    NextSolid(a.l.r, r, Bytes(a.l, x), Bytes(a.l, x)[a.l.s.msgaddr..c.l.s.msgaddr], x.env.(time := c.time));
    b := Cleared(d, x);
    Joined(a, c, d, x);
    Joined(a, d, b, x);
  }

  lemma {:induction false} AllFed(a: Moment, x: World) returns (b: Moment)
    requires Sound(a.l, x) && x.lossy && Level(a.l) && a.l.s.msgaddr <= |Bytes(a.l, x)|
    ensures Leads(a, b, x) && Sound(b.l, x) && Level(b.l) && b.l.s.msgaddr == |Bytes(a.l, x)|
    ensures b.l.started == a.l.started && b.l.r.handed == a.l.r.handed
    decreases |Bytes(a.l, x)| - a.l.s.msgaddr
  {
    hide Leads, Sound, Level;
    if a.l.s.msgaddr == |Bytes(a.l, x)| {
      Stays(a, x);
      b := a;
    } else {
      var c := Fed(a, x);
      b := AllFed(c, x);
      Joined(a, c, b, x);
    }
  }

  // The receiver's answer to an EOM: the message is handed over, or asked for again.
  lemma {:induction false} EomTakenNow(a: Moment, x: World) returns (b: Moment)
    requires Sound(a.l, x) && a.l.rev == [] && (a.l.r.state == Active || a.l.r.state == Ending)
    requires 0 < a.l.started <= |x.msgs| && Overdue(a.l.r, x.env.(time := a.time))
    requires var m := x.msgs[a.l.started - 1]; a.l.fwd == [Sent(Eom(m.id, |m.content|), a.l.started - 1)]
    ensures Leads(a, b, x) && Sound(b.l, x) && b.l == a.l.(fwd := [], rev := b.l.rev, r := b.l.r)
    ensures || |b.l.r.handed| == a.l.started
            || (&& b.l.r.handed == a.l.r.handed && (b.l.r.state == Active || b.l.r.state == Ending)
                && b.l.rev != [] && AsksFor(b.l.rev[0], b.l.r)
                && Missing(b.l.r, |Bytes(b.l, x)|) == Missing(a.l.r, |Bytes(a.l, x)|))
  {
    hide Leads, Inv, Replying, Distinct, RecvEomOf, Receiving, Overdue;
    ReceiverNow(a.l, x);
    var m := Bytes(a.l, x);
    ReceivingFile(a.l.r, m);
    var r;
    b, r := Taken(a, x);
    EomAsks(a.l.r, r, m, x.env.(time := a.time));
    if Receiving(r, m) {
      ReceivingState(r, m);
    }
  }

  // Only what is missing is asked for.
  lemma {:induction false} SomeMissing(l: Link, x: World)
    requires Sound(l, x) && (l.r.state == Active || l.r.state == Ending) && l.rev != [] && AsksFor(l.rev[0], l.r)
    ensures Missing(l.r, |Bytes(l, x)|) != {}
  {
    hide Inv, Replying, Good;
    ReceiverNow(l, x);
    assert l.rev[0].addr in Missing(l.r, |Bytes(l, x)|);
  }

  // Nothing is missing: the message is handed over.
  lemma {:induction false} Completed(a: Moment, x: World, time: int) returns (b: Moment)
    requires Sound(a.l, x) && x.lossy && Still(a.l) && |a.l.r.handed| < a.l.started && a.l.s.state == Ending
    requires a.l.r.state == Active || a.l.r.state == Ending
    requires a.l.r.gaps == [] && a.l.r.msgaddr == |Bytes(a.l, x)| && !(x.limit && a.l.s.count == 0)
    requires a.time <= time && a.l.s.cntrltime <= time
    ensures Leads(a, b, x) && Sound(b.l, x) && Still(b.l) && |b.l.r.handed| == b.l.started == a.l.started
    ensures b.l.s.state == Ending
  {
    hide Leads, Sound;
    NotYet(a.l, x);
    var c := EomSent(a, x, time);
    var d := EomTakenNow(c, x);
    assert Missing(a.l.r, |Bytes(a.l, x)|) == {};
    if |d.l.r.handed| != a.l.started {
      SomeMissing(d.l, x);
      assert false;
    }
    b := Cleared(d, x);
    Joined(a, c, d, x);
    Joined(a, d, b, x);
  }

  lemma {:induction false} FedThrough(a: Moment, x: World) returns (b: Moment)
    requires Sound(a.l, x) && x.lossy && Level(a.l)
    ensures Leads(a, b, x) && Sound(b.l, x) && Still(b.l) && |b.l.r.handed| == b.l.started == a.l.started
    ensures b.l.s.state == Ending
  {
    hide Leads, Sound, Receiving, Solid;
    ReceiverNow(a.l, x);
    ReceivingWithin(a.l.r, Bytes(a.l, x));
    var c := AllFed(a, x);
    ReceiverNow(c.l, x);
    SolidAll(c.l.r, Bytes(c.l, x));
    var d := Exhausted(c, x);
    b := Completed(d, x, Later(d.time, d.l.s.cntrltime));
    Joined(a, c, d, x);
    Joined(a, d, b, x);
  }

  // A receiver that has nothing asks for the whole message, and its sender begins again.
  lemma {:induction false} WholeAgain(a: Moment, x: World) returns (b: Moment)
    requires Sound(a.l, x) && x.lossy && Still(a.l) && a.l.s.state == Ending && !(x.limit && a.l.s.count == 0)
    requires (a.l.r.state == Active || a.l.r.state == Ending) && a.l.r.gaps == [] && a.l.r.msgaddr == 0
    ensures Leads(a, b, x) && Sound(b.l, x) && Level(b.l) && b.l.started == a.l.started
  {
    hide Leads, Inv, Replying, Distinct, RecvEomOf, Receiving;
    ReceiverNow(a.l, x);
    SenderNow(a.l, x);
    var m := Bytes(a.l, x);
    ReceivingFile(a.l.r, m);
    var c := EomSent(a, x, Later(a.time, a.l.s.cntrltime));
    var d, r := Taken(c, x);
    WholeAsked(a.l.r, r, m, x.env.(time := c.time));
    var e := Heard(d, x);
    b := Cleared(e, x);
    Joined(a, c, d, x);
    Joined(a, d, e, x);
    Joined(a, e, b, x);
  }

  // A receiver that does not know of the message, or was interrupted in it.
  lemma {:induction false} Introduced(a: Moment, x: World) returns (b: Moment)
    requires Sound(a.l, x) && x.lossy && Still(a.l) && |a.l.r.handed| < a.l.started
    requires a.l.r.state != Active && a.l.r.state != Ending
    ensures Leads(a, b, x) && Sound(b.l, x) && Still(b.l) && |b.l.r.handed| == b.l.started == a.l.started
    ensures b.l.s.state == Ending
  {
    hide Leads, Sound;
    NotYet(a.l, x);
    var c := Announces(a, x);
    ReceiverNow(c.l, x);
    SenderNow(c.l, x);
    var d := c;
    if c.l.s.state == Active && c.l.s.msgaddr == c.l.r.msgaddr {
      b := FedThrough(c, x);
    } else if c.l.r.msgaddr != 0 {
      b := Completed(c, x, Later(c.time, c.l.s.cntrltime));
    } else {
      d := Exhausted(c, x);
      var e := WholeAgain(d, x);
      b := FedThrough(e, x);
      Joined(c, d, e, x);
      Joined(c, e, b, x);
    }
    Joined(a, c, b, x);
  }

  // The sender's answer to a NAK begins with DATA for what was asked for.
  lemma {:induction false} NakAnswered(a: Moment, x: World) returns (b: Moment)
    requires Sound(a.l, x) && a.l.fwd == [] && a.l.s.state == Ending && 0 < a.l.started <= |x.msgs|
    requires a.l.rev != [] && AsksFor(a.l.rev[0], a.l.r) && a.l.r.msgsize == |x.msgs[a.l.started - 1].content|
    ensures Leads(a, b, x) && Sound(b.l, x) && b.l == a.l.(fwd := b.l.fwd, rev := b.l.rev, s := b.l.s)
    ensures (b.l.s.state == Active || b.l.s.state == Ending) && b.l.s.count == a.l.s.count
    ensures b.l.fwd != [] && b.l.fwd[0].p.Data? && b.l.fwd[0].p.addr == a.l.rev[0].addr
    ensures b.l.fwd[0].of == a.l.started - 1
  {
    hide Leads, Inv, Replying, Good, Has;
    SenderNow(a.l, x);
    b := Heard(a, x);
    if a.l.rev[0].len == a.l.r.msgsize {
      var c := Wrote(b, x, b.time);
      Joined(a, b, c, x);
      b := c;
    } else {
      T.ResendStep(x.msgs[a.l.started - 1].content, a.l.rev[0].addr, a.l.rev[0].addr + a.l.rev[0].len,
                   T.Min(a.l.s.outDataSize, a.l.rev[0].len));
    }
  }

  // DATA for a missing byte: less is missing after it.
  lemma {:induction false} DataTakenNow(a: Moment, x: World) returns (b: Moment)
    requires Sound(a.l, x) && (a.l.r.state == Active || a.l.r.state == Ending) && 0 < a.l.started <= |x.msgs|
    requires a.l.fwd != [] && a.l.fwd[0].p.Data? && a.l.fwd[0].of == a.l.started - 1
    requires a.l.fwd[0].p.addr <= a.l.r.msgaddr && !Has(a.l.r, a.l.fwd[0].p.addr)
    ensures Leads(a, b, x) && Sound(b.l, x) && b.l == a.l.(fwd := b.l.fwd, rev := b.l.rev, r := b.l.r)
    ensures || |b.l.r.handed| == a.l.started
            || (&& b.l.r.handed == a.l.r.handed && (b.l.r.state == Active || b.l.r.state == Ending)
                && Missing(b.l.r, |Bytes(b.l, x)|) < Missing(a.l.r, |Bytes(a.l, x)|))
  {
    hide Leads, Inv, Replying, Distinct, RecvDataOf, Receiving;
    ReceiverNow(a.l, x);
    OldestOk(a.l, x.msgs);
    var m := Bytes(a.l, x);
    ReceivingFile(a.l.r, m);
    var r;
    b, r := Taken(a, x);
    var Data(addr, data) := a.l.fwd[0].p;
    DataKeeps(a.l.r, r, m, addr, data, x.env.(time := a.time));
    DataFills(a.l.r, r, m, addr, data, x.env.(time := a.time));
    if Receiving(r, m) {
      ReceivingState(r, m);
    }
  }

  // The sender has sent its EOMs: the session ends, and the next begins.
  lemma {:induction false} NewSession(a: Moment, x: World) returns (b: Moment)
    requires Sound(a.l, x) && Still(a.l) && a.l.s.state == Ending && x.limit && a.l.s.count == 0
    requires a.l.back ==> a.l.r.state != Active && a.l.r.state != Ending
    ensures Leads(a, b, x) && Sound(b.l, x) && Still(b.l) && b.l.started == a.l.started
    ensures b.l.s.state == Starting && b.l.r.handed == a.l.r.handed
    ensures b.l.r.state != Active && b.l.r.state != Ending
  {
    hide Leads, Inv, Replying, Distinct, Room;
    var time := Later(a.time, a.l.s.cntrltime);
    var w := x.w.(time := time);
    CanBecome(a.l.r, a.l.r);
    hide Became;
    var r := if a.l.r.msgfile then AllOnDisk(a.l.r) else a.l.r;
    var addr := T.Min(x.saved, a.l.s.msgsize);
    b := Moment(a.l.(r := InitStatusOf(r), s := SenderRestarted(a.l.s, addr, false, w)), time);
    assert b.l == a.l.(fwd := [], rev := [], r := InitStatusOf(r), s := SenderRestarted(a.l.s, addr, false, w));
    assert Restart(a.l, b.l, r, addr, false, w);
    OneStep(a, b, x);
  }

  // When an EOM may be sent, and is answered.
  function EomTime(a: Moment): int
  {
    var t := Later(a.time, a.l.s.cntrltime);
    if a.l.r.gaps == [] then t else Later(t, a.l.r.gaps[0].time + NAK_TIMEOUT)
  }

  // One EOM less is left, unless the sender has come to its end anew.
  function Left(count: int, eoms: nat): int
  {
    (if count < T.MAX_EOMS then count else T.MAX_EOMS) - eoms
  }

  // One round of asking: an EOM, and if it does not bring the message to be handed over a NAK, and of
  // the answer as much as one packet.
  lemma {:induction false} Round(a: Moment, x: World) returns (b: Moment)
    requires Sound(a.l, x) && x.lossy && Still(a.l) && a.l.s.state == Ending && |a.l.r.handed| < a.l.started
    requires (a.l.r.state == Active || a.l.r.state == Ending) && !(x.limit && a.l.s.count == 0)
    ensures Leads(a, b, x) && Sound(b.l, x) && Still(b.l) && b.l.started == a.l.started && b.l.s.state != Idle
    ensures Left(a.l.s.count, 1) <= b.l.s.count && b.l.back == a.l.back
    ensures || |b.l.r.handed| == a.l.started
            || (&& b.l.r.handed == a.l.r.handed && (b.l.r.state == Active || b.l.r.state == Ending)
                && b.l.s.state == Ending && Missing(b.l.r, |Bytes(b.l, x)|) < Missing(a.l.r, |Bytes(a.l, x)|))
  {
    hide Leads, Sound, Missing, Has, AsksFor;
    NotYet(a.l, x);
    var c := EomSent(a, x, EomTime(a));
    var d := EomTakenNow(c, x);
    Joined(a, c, d, x);
    var e := d;
    if |d.l.r.handed| != a.l.started {
      Asked(d.l, x);
      var f := NakAnswered(d, x);
      var g := DataTakenNow(f, x);
      e := Cleared(g, x);
      Joined(d, f, g, x);
      Joined(d, g, e, x);
      Joined(a, d, e, x);
      if |e.l.r.handed| != a.l.started {
        b := Exhausted(e, x);
        Joined(a, e, b, x);
        return;
      }
    }
    b := Cleared(e, x);
    Joined(a, e, b, x);
  }

  lemma {:induction false} Asked(l: Link, x: World)
    requires Sound(l, x) && (l.r.state == Active || l.r.state == Ending) && l.rev != [] && AsksFor(l.rev[0], l.r)
    ensures l.r.msgsize == |x.msgs[l.started - 1].content| && l.rev[0].Nak?
    ensures l.rev[0].addr <= l.r.msgaddr && !Has(l.r, l.rev[0].addr)
  {
    ReceiverNow(l, x);
  }

  lemma {:induction false} Fewer(m: set<nat>, n: set<nat>)
    requires m < n
    ensures |m| < |n|
  {
    var rest := n - m;
    assert n == m + rest && m * rest == {} && rest != {};
    assert |n| == |m| + |rest|;
  }

  // A message may be coming in that may not be interrupted, from a sender that gives up: then fewer
  // bytes are missing than it has EOMs left.
  predicate Enough(l: Link, x: World, eoms: int)
  {
    x.limit && l.back && (l.r.state == Active || l.r.state == Ending) ==>
      |Missing(l.r, |Bytes(l, x)|)| < Left(eoms, 0)
  }

  // Round after round, until nothing is missing, or the sender gives up.
  lemma {:induction false} Repaired(a: Moment, x: World) returns (b: Moment)
    requires Sound(a.l, x) && x.lossy && Still(a.l) && a.l.s.state == Ending && |a.l.r.handed| < a.l.started
    requires (a.l.r.state == Active || a.l.r.state == Ending) && Enough(a.l, x, a.l.s.count)
    ensures Leads(a, b, x) && Sound(b.l, x) && Still(b.l) && |b.l.r.handed| == b.l.started == a.l.started
    ensures b.l.s.state != Idle
    decreases Missing(a.l.r, |Bytes(a.l, x)|)
  {
    hide Leads, Sound, Missing;
    if x.limit && a.l.s.count == 0 {
      var c := NewSession(a, x);
      b := Introduced(c, x);
      Joined(a, c, b, x);
    } else {
      b := Round(a, x);
      if |b.l.r.handed| != a.l.started {
        var c := b;
        Fewer(Missing(c.l.r, |Bytes(c.l, x)|), Missing(a.l.r, |Bytes(a.l, x)|));
        b := Repaired(c, x);
        Joined(a, c, b, x);
      }
    }
  }

  // ----- The message is retired

  // A message handed over is acknowledged again whenever its sender announces it.
  lemma {:induction false} Acked(a: Moment, x: World) returns (b: Moment)
    requires Sound(a.l, x) && a.l.rev == [] && |a.l.r.handed| == a.l.started && 0 < a.l.started <= |x.msgs|
    requires var m := x.msgs[a.l.started - 1];
             && a.l.s.msgid == m.id && a.l.s.msgsize == |m.content| && a.l.s.out == []
             && (|| a.l.fwd == [Sent(Som(m.id, |m.content|), a.l.started - 1)]
                 || a.l.fwd == [Sent(Eom(m.id, |m.content|), a.l.started - 1)])
    ensures Leads(a, b, x) && Sound(b.l, x) && Still(b.l)
    ensures b.l.started == b.l.retired == a.l.started && b.l.r.handed == a.l.r.handed && b.l.s.state == Idle
  {
    hide Leads, Sound, Well;
    HandedNow(a.l, x);
    var c, r := Taken(a, x);
    assert c.l.rev == [Eoma(a.l.s.msgid, a.l.s.msgsize)];
    b := EomaHeard(c, x);
    Joined(a, c, b, x);
  }

  lemma {:induction false} EomaHeard(a: Moment, x: World) returns (b: Moment)
    requires Sound(a.l, x) && a.l.rev == [Eoma(a.l.s.msgid, a.l.s.msgsize)] && a.l.fwd == [] && a.l.s.out == []
    requires a.l.started > 0
    ensures Leads(a, b, x) && Sound(b.l, x) && Still(b.l) && b.l.r == a.l.r
    ensures b.l.started == b.l.retired == a.l.started && b.l.s.state == Idle
  {
    hide Leads, Sound;
    b := Heard(a, x);
  }

  lemma {:induction false} Retired(a: Moment, x: World) returns (b: Moment)
    requires Sound(a.l, x) && x.lossy && Still(a.l) && |a.l.r.handed| == a.l.started && a.l.s.state != Idle
    ensures Leads(a, b, x) && Sound(b.l, x) && Still(b.l)
    ensures b.l.started == b.l.retired == a.l.started && b.l.r.handed == a.l.r.handed && b.l.s.state == Idle
  {
    hide Leads, Sound;
    SenderNow(a.l, x);
    var d := a;
    if a.l.s.state == Starting {
      d := SomSent(a, x);
    } else {
      var c := Exhausted(a, x);
      if x.limit && c.l.s.count == 0 {
        DoneNow(c.l, x);
        var e := NewSession(c, x);
        d := SomSent(e, x);
        Joined(c, e, d, x);
      } else {
        d := EomSent(c, x, Later(c.time, c.l.s.cntrltime));
      }
      Joined(a, c, d, x);
    }
    SenderNow(d.l, x);
    b := Acked(d, x);
    Joined(a, d, b, x);
  }

  lemma {:induction false} DoneNow(l: Link, x: World)
    requires Sound(l, x) && l.started > 0 && |l.r.handed| == l.started
    ensures l.r.state == Ended
  {
    HandedNow(l, x);
  }

  // ----- All messages

  // EOMs that the sender has at its end, now or when it comes there.
  function Eoms(s: SendSnap): int
  {
    if s.state == Ending then s.count else T.MAX_EOMS - 1
  }

  // Nothing is missing below the receiver's position, where the sender is, or will be when its
  // announcement is heard.
  ghost predicate InStep(l: Link)
  {
    && (l.r.state == Active || l.r.state == Ending) && Solid(l.r)
    && (|| (l.s.state == Active && l.s.msgaddr == l.r.msgaddr)
        || (l.s.state == Starting && l.r.msgaddr != 0))
  }

  lemma {:induction false} InStepThrough(a: Moment, x: World) returns (b: Moment)
    requires Sound(a.l, x) && x.lossy && Still(a.l) && |a.l.r.handed| < a.l.started && InStep(a.l)
    ensures Leads(a, b, x) && Sound(b.l, x) && Still(b.l) && |b.l.r.handed| == b.l.started == a.l.started
    ensures b.l.s.state == Ending
  {
    hide Leads, Sound, Receiving;
    var c := a;
    Stays(a, x);
    if a.l.s.state == Starting {
      c := Announces(a, x);
    }
    if c.l.s.state == Active {
      b := FedThrough(c, x);
    } else {
      ReceiverNow(c.l, x);
      SenderNow(c.l, x);
      SolidAll(c.l.r, Bytes(c.l, x));
      b := Completed(c, x, Later(c.time, c.l.s.cntrltime));
    }
    Joined(a, c, b, x);
  }

  // The sender never gives up, or the message may be interrupted, or what is missing will come first.
  ghost predicate Deliverable(l: Link, x: World)
  {
    InStep(l) || Enough(l, x, Eoms(l.s))
  }

  // From every state the message that is being sent can be delivered and retired, whatever has been
  // lost of it: what is on its way is lost too, the message is begun if the receiver does not know of
  // it, and else its sender comes to its end, from where what is missing is asked for.
  lemma {:induction false} Recovers(a: Moment, x: World) returns (b: Moment)
    requires Sound(a.l, x) && x.lossy && a.l.s.state != Idle && Deliverable(a.l, x)
    ensures Leads(a, b, x) && Sound(b.l, x) && Still(b.l)
    ensures b.l.started == b.l.retired == |b.l.r.handed| == a.l.started && b.l.s.state == Idle
  {
    hide Leads, Sound;
    var c := Cleared(a, x);
    HandedWithin(c.l, x);
    if |c.l.r.handed| < c.l.started {
      var e := c;
      if InStep(c.l) {
        e := InStepThrough(c, x);
      } else if c.l.r.state == Active || c.l.r.state == Ending {
        var d := ToEnd(c, x);
        assert Missing(d.l.r, |Bytes(d.l, x)|) == Missing(a.l.r, |Bytes(a.l, x)|);
        e := Repaired(d, x);
        Joined(c, d, e, x);
      } else {
        e := Introduced(c, x);
      }
      Joined(a, c, e, x);
      c := e;
    }
    b := Retired(c, x);
    Joined(a, c, b, x);
  }

  lemma {:induction false} HandedWithin(l: Link, x: World)
    requires Sound(l, x)
    ensures |l.r.handed| <= l.started <= |x.msgs|
  {
    hide AllAcknowledge, Prefix, InOrder, Incoming, Suspended, Blank, Done;
  }

  // The next message is started.
  lemma {:induction false} Started(a: Moment, x: World) returns (b: Moment)
    requires Sound(a.l, x) && Still(a.l) && a.l.started < |x.msgs| && a.l.s.state == Idle
    ensures Leads(a, b, x) && Sound(b.l, x) && Still(b.l)
    ensures b.l == a.l.(started := a.l.started + 1, s := b.l.s) && b.l.s.state == Starting && b.l.s.msgaddr == 0
  {
    hide Leads, AllAcknowledge, Prefix, ReceiverOk, Replying, Distinct;
    var m := x.msgs[a.l.started];
    var w := x.w.(time := a.time);
    b := Moment(Transmit(a.l.(started := a.l.started + 1),
                         T.StartMessageOf(T.SetupOf(a.l.s, m.id, |m.content|, 0), false, w)), a.time);
    assert Start(a.l, b.l, x.msgs, false, w);
    OneStep(a, b, x);
  }

  // ----- Without loss

  // The sender has sent its message, and the receiver has it, up to `addr`; nothing is on its way.
  ghost predicate Midway(l: Link, x: World, addr: nat)
  {
    && Sound(l, x) && Still(l) && |l.r.handed| < l.started
    && l.s.state == Active && l.s.msgaddr == addr
    && l.r.state == Active && l.r.msgaddr == addr && l.r.gaps == []
  }

  lemma {:induction false} NextKept(s: Snap, t: Snap, data: seq<Byte>, env: Env)
    requires s.state == Active && s.msgfile && s.gaps == [] && s.pout == []
    requires data != [] && s.msgaddr + |data| <= s.msgsize && UpToDisk(RecvDataOf(s, s.msgaddr, data, env), t)
    ensures t.state == Active && t.gaps == [] && t.pout == [] && t.msgaddr == s.msgaddr + |data|
    ensures t.handed == s.handed
  {
  }

  lemma {:induction false} Packet(a: Moment, x: World, addr: nat) returns (b: Moment, to: nat)
    requires Midway(a.l, x, addr) && addr < |Bytes(a.l, x)|
    ensures addr < to <= |Bytes(a.l, x)| && Leads(a, b, x) && Midway(b.l, x, to)
    ensures b.l.started == a.l.started && b.l.r.handed == a.l.r.handed
  {
    hide Leads, Sound, RecvDataOf, UpToDisk, Receiving;
    ReceiverNow(a.l, x);
    ReceivingFile(a.l.r, Bytes(a.l, x));
    var c := NextSent(a, x);
    to := c.l.s.msgaddr;
    var r;
    b, r := Taken(c, x);
    NextKept(a.l.r, r, Bytes(a.l, x)[addr..to], x.env.(time := c.time));
    Joined(a, c, b, x);
  }

  // Packet after packet, the two ends reach the end of the message together.
  lemma {:induction false} AllPackets(a: Moment, x: World, addr: nat) returns (b: Moment)
    requires Midway(a.l, x, addr) && addr <= |Bytes(a.l, x)|
    ensures Leads(a, b, x) && Midway(b.l, x, |Bytes(a.l, x)|)
    ensures b.l.started == a.l.started && b.l.r.handed == a.l.r.handed
    decreases |Bytes(a.l, x)| - addr
  {
    hide Leads, Midway;
    if addr == |Bytes(a.l, x)| {
      Stays(a, x);
      b := a;
    } else {
      var c, to := Packet(a, x, addr);
      b := AllPackets(c, x, to);
      Joined(a, c, b, x);
    }
  }

  // The end is announced, the message handed over and retired.
  lemma {:induction false} Concluded(a: Moment, x: World) returns (b: Moment)
    requires Midway(a.l, x, |Bytes(a.l, x)|)
    ensures Leads(a, b, x) && Sound(b.l, x) && Still(b.l) && b.l.s.state == Idle && b.l.started == a.l.started
  {
    hide Leads, Inv, Replying, Distinct, RecvEomOf, Receiving;
    ReceiverNow(a.l, x);
    SenderNow(a.l, x);
    ReceivingFile(a.l.r, Bytes(a.l, x));
    var c := Wrote(a, x, a.time);
    assert c.l.fwd == [Sent(Eom(a.l.r.msgid, a.l.r.msgsize), a.l.started - 1)];
    var d, r := Taken(c, x);
    EomHandsOver(a.l.r, x.env.(time := c.time));
    EomHands(a.l.r, a.l.r.msgid, a.l.r.msgsize, x.env.(time := c.time));
    assert d.l.rev == [Eoma(a.l.r.msgid, a.l.r.msgsize)];
    b := EomaHeard(d, x);
    Joined(a, c, d, x);
    Joined(a, d, b, x);
  }

  // The next message is another one.
  lemma {:induction false} OtherNow(l: Link, x: World)
    requires Sound(l, x) && l.s.state == Idle && l.started < |x.msgs|
    ensures l.r.msgid != x.msgs[l.started].id
  {
    hide Incoming, Suspended, AllAcknowledge, Prefix, InOrder;
    if l.started > 0 {
      assert x.msgs[l.started - 1].id != x.msgs[l.started].id;
    }
  }

  lemma {:induction false} NextDelivered(a: Moment, x: World) returns (b: Moment)
    requires Sound(a.l, x) && Still(a.l) && a.l.s.state == Idle && a.l.started < |x.msgs|
    ensures Leads(a, b, x) && Sound(b.l, x) && Still(b.l) && b.l.s.state == Idle && b.l.started == a.l.started + 1
  {
    hide Leads, Sound;
    OtherNow(a.l, x);
    IdleAll(a.l, x);
    var c := Started(a, x);
    var d := SomSent(c, x);
    var e := SomTakenNow(d, x);
    var f := SomaHeard(e, x);
    var g := AllPackets(f, x, 0);
    b := Concluded(g, x);
    Joined(a, c, d, x);
    Joined(a, d, e, x);
    Joined(a, e, f, x);
    Joined(a, f, g, x);
    Joined(a, g, b, x);
  }

  // Between messages, with nothing on its way, the rest can be delivered without losing a packet.
  lemma {:induction false} WithoutLoss(a: Moment, x: World) returns (b: Moment)
    requires Sound(a.l, x) && Still(a.l) && a.l.s.state == Idle
    ensures Leads(a, b, x) && Sound(b.l, x) && b.l.retired == |x.msgs| == |b.l.r.handed|
    decreases |x.msgs| - a.l.started
  {
    hide Leads, Sound;
    IdleAll(a.l, x);
    if a.l.started == |x.msgs| {
      Stays(a, x);
      b := a;
    } else {
      var c := NextDelivered(a, x);
      b := WithoutLoss(c, x);
      Joined(a, c, b, x);
    }
  }

  // ----- From every state

  lemma {:induction false} Remaining(a: Moment, x: World) returns (b: Moment)
    requires Sound(a.l, x) && x.lossy && Deliverable(a.l, x)
    ensures Leads(a, b, x) && Sound(b.l, x) && b.l.retired == |x.msgs| == |b.l.r.handed|
  {
    hide Leads, Sound;
    var c;
    if a.l.s.state != Idle {
      c := Recovers(a, x);
    } else {
      c := Cleared(a, x);
    }
    b := WithoutLoss(c, x);
    Joined(a, c, b, x);
  }

  lemma {:induction false} IdleAll(l: Link, x: World)
    requires Sound(l, x) && l.s.state == Idle
    ensures l.retired == l.started == |l.r.handed| <= |x.msgs|
  {
    HandedWithin(l, x);
  }

  // From every state of every run, and at any time, the two ends can go on so that all messages are
  // handed over, whole and in order, and all are retired; if the sender never gives up, without
  // either of them stopping.
  lemma {:induction false} Delivers(run: seq<Link>, x: World, i: nat, time: int) returns (b: Moment)
    requires Run(run, x.msgs) && Good(x) && x.lossy && i < |run| && Deliverable(run[i], x)
    ensures Leads(Moment(run[i], time), b, x)
    ensures b.l.retired == |x.msgs| == |b.l.r.handed| && Prefix(b.l.r.handed, x.msgs)
  {
    hide Leads, Step, Inv, Replying, Run, Distinct, Prefix;
    RunKeeps(run, x.msgs, i);
    RunReplies(run, x.msgs, i);
    b := Remaining(Moment(run[i], time), x);
    SoundPrefix(b.l, x);
  }

  lemma {:induction false} SoundPrefix(l: Link, x: World)
    requires Sound(l, x)
    ensures Prefix(l.r.handed, x.msgs)
  {
    hide Prefix;
  }
}
