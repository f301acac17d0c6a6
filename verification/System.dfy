/** One channel of a link as a state machine: a sender, a receiver, and a circuit that loses packets
    but neither reorders nor repeats them; either end may stop and start again. */
module System {
  import opened Channel
  import opened GapList
  import Receiver
  import Coverage
  import opened ReadBuffer
  import T = Transmitter

  datatype Msg = Msg(id: MsgId, content: seq<Byte>)

  // A packet on its way to the receiver.  `of` is the number of the message it was sent for: it is
  // not in the packet, and no step looks at it.
  datatype Sent = Sent(p: Packet, of: nat)

  datatype Link = Link(
    started: nat,        // messages the sender has started; it works on the last of them
    retired: nat,        // messages the sender has had an EOMA for
    s: SendSnap,
    r: Snap,
    fwd: seq<Sent>,      // DATA, SOM and EOM on their way, oldest first
    rev: seq<Packet>,    // NAK, SOMA and EOMA on their way back
    back: bool)          // the reader went back below wrong bytes in the file to resume this message

  // Messages have distinct names, and bytes.
  ghost predicate Distinct(msgs: seq<Msg>)
  {
    && (forall i :: 0 <= i < |msgs| ==> msgs[i].id != "" && msgs[i].content != [])
    && (forall i, j :: 0 <= i < j < |msgs| ==> msgs[i].id != msgs[j].id)
  }

  function Tag(packets: seq<Packet>, of: nat): seq<Sent>
  {
    seq(|packets|, i requires 0 <= i < |packets| => Sent(packets[i], of))
  }

  // What the sender wrote enters the circuit.
  function Transmit(l: Link, s: SendSnap): Link
    requires l.started > 0
  {
    l.(s := s.(out := []), fwd := l.fwd + Tag(s.out, l.started - 1))
  }

  // What the receiver answered enters the circuit.
  function Reply(l: Link, r: Snap): Link
  {
    l.(r := r.(pout := []), rev := l.rev + r.pout)
  }

  predicate Init(l: Link)
  {
    && l.started == 0 && l.retired == 0 && l.fwd == [] && l.rev == [] && !l.back
    && l.s.state == Idle && l.s.msgid == "" && l.s.out == [] && l.s.outDataSize > 0
    && l.r == Snap(Idle, false, false, "", 0, 0, 0, [], 0, 0, 0, [], [], Status(Idle, "", 0, 0, false), [], [])
  }

  // FindMessage: with its last message retired, the sender starts the next.
  predicate Start(l: Link, k: Link, msgs: seq<Msg>, sendsom: bool, w: T.Writer)
  {
    && l.s.state == Idle && l.retired == l.started < |msgs|
    && var m := msgs[l.started];
       k == Transmit(l.(started := l.started + 1),
                     T.StartMessageOf(T.SetupOf(l.s, m.id, |m.content|, 0), sendsom, w))
  }

  // The writer's turn.
  predicate Write(l: Link, k: Link, msgs: seq<Msg>, w: T.Writer)
  {
    && 0 < l.started <= |msgs| && l.s.msgaddr <= |msgs[l.started - 1].content|
    && k == Transmit(l, T.WriteChanOf(l.s, msgs[l.started - 1].content, w))
  }

  function Retires(l: Link, id: MsgId, size: nat): nat
  {
    if id == l.s.msgid && size == l.s.msgsize then l.started else l.retired
  }

  // The sender takes in a packet.  An EOMA for its message retires it.
  predicate SenderReceives(l: Link, k: Link, msgs: seq<Msg>, w: T.Writer)
  {
    && 0 < l.started <= |msgs| && l.rev != []
    && var m := msgs[l.started - 1].content;
       var q := l.(rev := l.rev[1..]);
       match l.rev[0]
       case Nak(addr, len) =>
         l.s.msgsize == |m| && l.s.outDataSize > 0 && k == Transmit(q, T.RecvNakOf(l.s, m, addr, len))
       case Soma(id, addr) => k == Transmit(q, T.RecvSomaOf(l.s, id, addr, w))
       case Eoma(id, size) => k == Transmit(q.(retired := Retires(l, id, size)), T.RecvEomaOf(l.s, id, size))
       case _ => false
  }

  // After a SOM of message `m`: has the reader gone back in its file, to goodaddr, with wrong bytes
  // from there on (receiver.c:778)?
  predicate BackAfter(l: Link, id: MsgId, size: nat, fileThere: bool, m: seq<Byte>)
  {
    if id != l.r.msgid || size != l.r.msgsize then false
    else if l.r.state == Ended || l.r.msgfile then l.back
    else fileThere && !Coverage.ResumeSafe(l.r, m)
  }

  // The contents of message number `of`.
  function ContentOf(msgs: seq<Msg>, of: nat): seq<Byte>
  {
    if of < |msgs| then msgs[of].content else []
  }

  // The receiver takes in a packet, and is `r` after it.  NAKs have room: `naksize` is not 0.
  predicate ReceiverReceives(l: Link, k: Link, r: Snap, msgs: seq<Msg>, fileThere: bool, env: Env)
  {
    && l.fwd != [] && env.naksize % ULONG > 0 && Well(l.r.gaps, l.r.msgsize)
    && var q := l.(fwd := l.fwd[1..]);
       match l.fwd[0].p
       case Data(addr, data) => data != [] && Became(l.r, Receiver.RecvDataOf(l.r, addr, data, env), r)
           && k == Reply(q, r)
       case Eom(id, size) => Became(l.r, Receiver.RecvEomOf(l.r, id, size, env), r) && k == Reply(q, r)
       case Som(id, size) =>
         && r == Receiver.RecvSomOf(l.r, id, size, fileThere, env)
         && k == Reply(q.(back := BackAfter(l, id, size, fileThere, ContentOf(msgs, l.fwd[0].of))), r)
       case _ => false
  }

  predicate Lose(l: Link, k: Link)
  {
    || (l.fwd != [] && k == l.(fwd := l.fwd[1..]))
    || (l.rev != [] && k == l.(rev := l.rev[1..]))
  }

  // The reader saves its status now and then.
  predicate SaveStatus(l: Link, k: Link)
  {
    k == l.(r := Receiver.Save(l.r))
  }

  // The writer starts again at the address it saved; a message already retired may be sent again,
  // or be gone.
  function SenderRestarted(s: SendSnap, addr: nat, gone: bool, w: T.Writer): SendSnap
  {
    if s.state == Idle && (gone || s.msgid == "") then s.(msgid := "", msgaddr := 0)
    else T.StartMessageOf(T.SetupOf(s, s.msgid, s.msgsize, addr), false, w)
  }

  // The session ends, and both ends start again: the circuit is empty, and the reader has its saved
  // status and what is on disk, where the last buffer may have gone or not (`r`).  A message that
  // the reader had gone back for below wrong bytes is not interrupted a second time.
  predicate Restart(l: Link, k: Link, r: Snap, addr: nat, gone: bool, w: T.Writer)
  {
    && (l.back ==> l.r.state != Active && l.r.state != Ending)
    && addr <= l.s.msgsize
    && Became(l.r, l.r, r)
    && k == l.(fwd := [], rev := [], r := Receiver.InitStatusOf(r), s := SenderRestarted(l.s, addr, gone, w))
  }

  ghost predicate Step(l: Link, k: Link, msgs: seq<Msg>)
  {
    || (exists sendsom, w :: Start(l, k, msgs, sendsom, w))
    || (exists w :: Write(l, k, msgs, w))
    || (exists w :: SenderReceives(l, k, msgs, w))
    || (exists r, fileThere, env :: ReceiverReceives(l, k, r, msgs, fileThere, env))
    || Lose(l, k)
    || SaveStatus(l, k)
    || (exists r, addr, gone, w :: Restart(l, k, r, addr, gone, w))
  }

  ghost predicate Run(run: seq<Link>, msgs: seq<Msg>)
  {
    && run != [] && Init(run[0])
    && forall i :: 0 <= i < |run| - 1 ==> Step(run[i], run[i + 1], msgs)
  }

  // What has been handed over is the first messages, in order, whole.
  ghost predicate Prefix(handed: seq<Handed>, msgs: seq<Msg>)
  {
    && |handed| <= |msgs|
    && forall i :: 0 <= i < |handed| ==>
         handed[i].id == msgs[i].id && handed[i].size == |msgs[i].content| && handed[i].contents == msgs[i].content
  }
}
