/** Every message is handed over at most once, in order and whole, before its sender retires it. */
module Delivery {
  import opened Channel
  import opened GapList
  import opened Receiver
  import opened Coverage
  import opened ReadBuffer
  import opened System
  import T = Transmitter

  // ----- The invariant

  // A packet of message `m` carries that message's bytes, or its name and size.
  predicate Carries(p: Packet, m: Msg)
  {
    match p
    case Data(addr, data) =>
      data != [] && addr + |data| <= |m.content| && data == m.content[addr..addr + |data|]
    case Som(id, size) => id == m.id && size == |m.content|
    case Eom(id, size) => id == m.id && size == |m.content|
    case _ => false
  }

  // The circuit holds packets of the messages from `low` to `high`, in that order.
  predicate InOrder(fwd: seq<Sent>, msgs: seq<Msg>, low: nat, high: nat)
    requires high <= |msgs|
    decreases fwd
  {
    fwd == [] || (low <= fwd[0].of < high && Carries(fwd[0].p, msgs[fwd[0].of])
        && InOrder(fwd[1..], msgs, fwd[0].of, high))
  }

  predicate NoEom(fwd: seq<Sent>)
  {
    fwd == [] || (!fwd[0].p.Eom? && NoEom(fwd[1..]))
  }

  // The sender's channel works on message `m`, and will find bytes when it reads.
  predicate Sending(s: SendSnap, m: Msg)
  {
    && s.msgid == m.id && s.msgsize == |m.content| && s.msgaddr <= s.msgsize && s.state != Ended
    && (s.state == Active || (s.state == Starting && s.count != 0) ==> (s.eof <==> s.msgaddr == s.msgsize))
    && (s.state == Ending ==> s.msgaddr == s.msgsize)
  }

  // The sender's channel has no message.
  predicate Quiet(s: SendSnap)
  {
    s.state == Idle && s.msgid == ""
  }

  predicate SenderOk(l: Link, msgs: seq<Msg>)
  {
    && l.retired <= l.started <= |msgs| && l.started <= l.retired + 1
    && l.s.outDataSize > 0 && l.s.out == []
    && (l.s.state == Idle ==> l.retired == l.started)
    && (Quiet(l.s) || (l.started > 0 && Sending(l.s, msgs[l.started - 1])))
    && (l.started > 0 ==> l.s.msgaddr <= l.s.msgsize == |msgs[l.started - 1].content|)
    && (l.started == 0 ==> l.rev == [])
  }

  // Acknowledgements are of messages handed over.
  predicate Acknowledges(p: Packet, handed: seq<Handed>)
  {
    match p
    case Nak(_, _) => true
    case Soma(id, _) => id != ""
    case Eoma(id, _) => exists j :: 0 <= j < |handed| && handed[j].id == id
    case _ => false
  }

  predicate AllAcknowledge(rev: seq<Packet>, handed: seq<Handed>)
  {
    rev == [] || (Acknowledges(rev[0], handed) && AllAcknowledge(rev[1..], handed))
  }

  // Nothing received yet.
  predicate Blank(r: Snap)
  {
    && r.state == Idle && r.msgid == "" && r.gaps == [] && r.handed == [] && r.status.state == Idle
    && r.status.msgid == ""
  }

  // The last message received is `m`, and it has been handed over.
  predicate Done(r: Snap, m: Msg)
  {
    && r.state == Ended && r.status.state == Ended && r.gaps == []
    && r.msgid == m.id == r.status.msgid && r.msgsize == |m.content| == r.status.msgsize
  }

  // Message `m` is coming in.
  ghost predicate Incoming(l: Link, m: Msg)
  {
    l.r.msgid == m.id && Receiving(l.r, m.content) && (!l.back ==> Stoppable(l.r, m.content))
  }

  // Message `m` was coming in before the session began; its SOM has not come yet.
  ghost predicate Suspended(l: Link, m: Msg)
  {
    && l.r.msgid == m.id && Interruptible(l.r, m.content)
    && l.rev == [] && l.s.state == Starting && NoEom(l.fwd)
  }

  ghost predicate ReceiverOk(l: Link, msgs: seq<Msg>)
    requires l.started <= |msgs|
  {
    var n := |l.r.handed|;
    && l.r.pout == [] && n <= l.started
    && (|| (Blank(l.r) && InOrder(l.fwd, msgs, 0, l.started))
        || (n < l.started && (Incoming(l, msgs[n]) || Suspended(l, msgs[n])) && InOrder(l.fwd, msgs, n, l.started))
        || (0 < n && Done(l.r, msgs[n - 1]) && InOrder(l.fwd, msgs, n - 1, l.started)))
  }

  ghost predicate Inv(l: Link, msgs: seq<Msg>)
  {
    && SenderOk(l, msgs) && l.retired <= |l.r.handed|
    && Prefix(l.r.handed, msgs) && AllAcknowledge(l.rev, l.r.handed)
    && ReceiverOk(l, msgs)
  }

  // ----- What the sender keeps

  predicate AllCarry(packets: seq<Packet>, m: Msg)
  {
    packets == [] || (Carries(packets[0], m) && AllCarry(packets[1..], m))
  }

  lemma {:induction false} RunCarries(packets: seq<Packet>, m: Msg, from: nat, to: nat)
    requires T.DataRun(packets, m.content, from, to)
    ensures AllCarry(packets, m)
  {
    if packets != [] {
      RunCarries(packets[1..], m, from + |packets[0].data|, to);
    }
  }

  predicate NoEoms(packets: seq<Packet>)
  {
    forall p :: p in packets ==> !p.Eom?
  }

  // What the sender wrote is of its message, and the channel goes on.
  predicate SentOk(s: SendSnap, t: SendSnap, m: Msg)
  {
    Sending(t, m) && AllCarry(t.out, m) && t.outDataSize == s.outDataSize
  }

  lemma {:induction false} StartSends(s: SendSnap, m: Msg, sendsom: bool, w: T.Writer)
    requires s.out == [] && m.content != []
    ensures var t := T.StartMessageOf(T.SetupOf(s, m.id, |m.content|, 0), sendsom, w);
            SentOk(s, t, m) && t.state == Starting
  {
  }

  // A writer that has started again sends nothing at first.
  lemma {:induction false} RestartSends(s: SendSnap, m: Msg, addr: nat, w: T.Writer)
    requires Sending(s, m) && s.out == [] && m.content != [] && addr <= s.msgsize
    ensures var t := T.StartMessageOf(T.SetupOf(s, s.msgid, s.msgsize, addr), false, w);
            SentOk(s, t, m) && t.state == Starting && t.out == []
  {
  }

  lemma {:induction false} NextSends(s: SendSnap, m: Msg)
    requires Sending(s, m) && s.out == [] && s.outDataSize > 0 && (s.eof <==> s.msgaddr == s.msgsize)
    ensures SentOk(s, T.NextOf(s, m.content), m) && NoEoms(T.NextOf(s, m.content).out)
    ensures T.NextOf(s, m.content).state == s.state
  {
  }

  lemma {:induction false} WriteSends(s: SendSnap, m: Msg, w: T.Writer)
    requires Sending(s, m) && s.out == [] && s.outDataSize > 0
    ensures var t := T.WriteChanOf(s, m.content, w);
            && SentOk(s, t, m) && (t.state == Idle ==> s.state == Idle)
            && (s.state == Starting ==> t.state == Starting && NoEoms(t.out))
  {
    hide T.NextOf;
    var t := T.WriteChanOf(s, m.content, w);
    if s.state == Starting && !T.SomDue(s, w) && s.count != 0 {
      NextSends(s.(count := s.count - 1), m);
    } else if s.state == Active && !s.eof {
      NextSends(s, m);
    } else {
      assert Sending(t, m);
      assert t.out == [] || (|t.out| == 1 && Carries(t.out[0], m) && t.out[1..] == []);
      assert AllCarry(t.out, m);
    }
  }

  lemma {:induction false} NakSends(s: SendSnap, m: Msg, addr: nat, len: nat)
    requires Sending(s, m) && s.out == [] && s.outDataSize > 0 && m.content != []
    ensures var t := T.RecvNakOf(s, m.content, addr, len); SentOk(s, t, m) && (t.state == Idle ==> s.state == Idle)
  {
    hide T.Resend;
    if addr + len <= s.msgsize && 0 < len < s.msgsize {
      var n := T.Min(s.outDataSize, len);
      var end := T.ResendCovers(m.content, addr, addr + len, n);
      var packets := T.Resend(m.content, addr, addr + len, n);
      RunCarries(packets, m, addr, end);
      assert s.out + packets == packets;
    }
  }

  lemma {:induction false} SomaSends(s: SendSnap, m: Msg, id: MsgId, addr: nat, w: T.Writer)
    requires Sending(s, m) && s.out == []
    ensures var t := T.RecvSomaOf(s, id, addr, w); SentOk(s, t, m) && (t.state == Idle ==> s.state == Idle)
  {
  }

  lemma {:induction false} EomaSends(s: SendSnap, m: Msg, id: MsgId, size: nat)
    requires Sending(s, m) && s.out == []
    ensures SentOk(s, T.RecvEomaOf(s, id, size), m)
  {
  }

  // ----- The circuit

  lemma {:induction false} Later(fwd: seq<Sent>, msgs: seq<Msg>, low: nat, low': nat, high: nat)
    requires high <= |msgs| && low' <= low && InOrder(fwd, msgs, low, high)
    ensures InOrder(fwd, msgs, low', high)
  {
  }

  lemma {:induction false} More(fwd: seq<Sent>, msgs: seq<Msg>, low: nat, high: nat)
    requires high < |msgs| && InOrder(fwd, msgs, low, high)
    ensures InOrder(fwd, msgs, low, high + 1)
    decreases fwd
  {
    if fwd != [] {
      More(fwd[1..], msgs, fwd[0].of, high);
    }
  }

  lemma {:induction false} TagInOrder(packets: seq<Packet>, msgs: seq<Msg>, low: nat, of: nat)
    requires low <= of < |msgs| && AllCarry(packets, msgs[of])
    ensures InOrder(Tag(packets, of), msgs, low, of + 1)
    decreases packets
  {
    if packets != [] {
      TagInOrder(packets[1..], msgs, of, of);
      assert Tag(packets, of)[1..] == Tag(packets[1..], of);
    }
  }

  lemma {:induction false} EnterInOrder(fwd: seq<Sent>, packets: seq<Packet>, msgs: seq<Msg>, low: nat, of: nat)
    requires low <= of < |msgs| && AllCarry(packets, msgs[of]) && InOrder(fwd, msgs, low, of + 1)
    ensures InOrder(fwd + Tag(packets, of), msgs, low, of + 1)
    decreases fwd
  {
    if fwd == [] {
      TagInOrder(packets, msgs, low, of);
      assert fwd + Tag(packets, of) == Tag(packets, of);
    } else {
      EnterInOrder(fwd[1..], packets, msgs, fwd[0].of, of);
      assert (fwd + Tag(packets, of))[1..] == fwd[1..] + Tag(packets, of);
    }
  }

  lemma {:induction false} EnterNoEom(fwd: seq<Sent>, packets: seq<Packet>, of: nat)
    requires NoEom(fwd) && NoEoms(packets)
    ensures NoEom(fwd + Tag(packets, of))
    decreases |fwd| + |packets|
  {
    var all := fwd + Tag(packets, of);
    if fwd != [] {
      EnterNoEom(fwd[1..], packets, of);
      assert all[1..] == fwd[1..] + Tag(packets, of);
    } else if packets != [] {
      EnterNoEom([], packets[1..], of);
      assert all[1..] == [] + Tag(packets[1..], of);
      assert all[0].p in packets;
    }
  }

  // ----- What the receiver answers

  lemma {:induction false} AcknowledgeMore(rev: seq<Packet>, more: seq<Packet>, handed: seq<Handed>)
    requires AllAcknowledge(rev, handed) && AllAcknowledge(more, handed)
    ensures AllAcknowledge(rev + more, handed)
  {
    if rev == [] {
      assert rev + more == more;
    } else {
      AcknowledgeMore(rev[1..], more, handed);
      assert (rev + more)[1..] == rev[1..] + more;
    }
  }

  lemma {:induction false} AcknowledgeLater(rev: seq<Packet>, handed: seq<Handed>, more: seq<Handed>)
    requires AllAcknowledge(rev, handed)
    ensures AllAcknowledge(rev, handed + more)
  {
    if rev != [] {
      AcknowledgeLater(rev[1..], handed, more);
      if rev[0].Eoma? {
        var j :| 0 <= j < |handed| && handed[j].id == rev[0].id;
        assert (handed + more)[j].id == rev[0].id;
      }
    }
  }

  lemma {:induction false} NaksAcknowledge(addr: nat, length: nat, bytes: int, env: Env, msgsize: nat,
                                           handed: seq<Handed>)
    ensures AllAcknowledge(Naks(addr, length, bytes, env, msgsize), handed)
    decreases bytes
  {
    if length > 0 && bytes > 0 {
      var len := NakLen(addr, length, 4 * env.outDataSize, msgsize);
      NaksAcknowledge(addr + len, length - len, bytes - env.nakBytes, env, msgsize, handed);
    }
  }

  lemma {:induction false} NakAllAcknowledges(gl: seq<Gap>, maxlength: nat, eomcount: nat, env: Env, msgsize: nat,
                                              handed: seq<Handed>)
    requires Well(gl, msgsize)
    ensures AllAcknowledge(NakAll(gl, maxlength, eomcount, env, msgsize).naks, handed)
  {
    hide Naks;
    if gl != [] && maxlength != 0 {
      var naks := NaksFor(gl[0], eomcount, env, msgsize);
      var max := if Due(gl[0], eomcount, env) then (maxlength - NakBytes(naks)) % ULONG else maxlength;
      NakAllAcknowledges(gl[1..], max, eomcount, env, msgsize, handed);
      NaksAcknowledge(gl[0].start, gl[0].end - gl[0].start, env.outDataSize, env, msgsize, handed);
      AcknowledgeMore(naks, NakAll(gl[1..], max, eomcount, env, msgsize).naks, handed);
    }
  }

  // All the answers are NAKs, or acknowledge what was handed over.
  predicate Answers(s: Snap)
  {
    AllAcknowledge(s.pout, s.handed)
  }

  lemma {:induction false} AskAnswers(s: Snap, maxlength: nat, env: Env)
    requires Well(s.gaps, s.msgsize) && Answers(s)
    ensures Answers(AskAgain(s, maxlength, env))
  {
    hide NakAll, AllAcknowledge;
    NakAllAcknowledges(s.gaps, maxlength, s.eomcount, env, s.msgsize, s.handed);
    AcknowledgeMore(s.pout, NakAll(s.gaps, maxlength, s.eomcount, env, s.msgsize).naks, s.handed);
  }

  lemma {:induction false} NoteAnswers(s: Snap, end: nat, env: Env)
    requires Answers(s)
    ensures Answers(Note(s, end, env))
  {
    hide Queued, Naks;
    var q := Queued(s.gaps, s.msgaddr, end, env.time);
    if q.nak && s.msgaddr <= q.end {
      NaksAcknowledge(s.msgaddr, q.end - s.msgaddr, env.outDataSize, env, s.msgsize, s.handed);
    }
    AcknowledgeMore(s.pout, QueueNaks(q, s.msgaddr, env, s.msgsize), s.handed);
  }

  lemma {:induction false} EndAnswers(s: Snap)
    requires Answers(s)
    ensures Answers(EndMesgOf(s))
  {
    var t := EndMesgOf(s);
    AcknowledgeLater(s.pout, s.handed, t.handed[|s.handed|..]);
    assert t.handed == s.handed + t.handed[|s.handed|..];
    assert t.handed[|s.handed|].id == s.msgid;
    assert AllAcknowledge([Eoma(s.msgid, s.msgsize)], t.handed);
    AcknowledgeMore(s.pout, [Eoma(s.msgid, s.msgsize)], t.handed);
  }

  lemma {:induction false} DataAnswers(s: Snap, addr: nat, data: seq<Byte>, env: Env)
    requires Well(s.gaps, s.msgsize) && data != [] && Answers(s)
    ensures Answers(RecvDataOf(s, addr, data, env))
  {
    hide Filled, Hits, BeginsIn, WriteAt, NakAll, Note, EndMesgOf, AskAgain;
    var end := addr + |data|;
    if addr < s.msgaddr {
      var t := RefilledOf(s, addr, data);
      EndAnswers(t);
    } else if end <= s.msgsize {
      PlacedWell(s, addr, |data|, env);
      NoteAnswers(s, addr, env);
      NoteKeeps(s, addr, env);
      AskAnswers(Placed(s, addr, |data|, env), env.window % ULONG, env);
    }
  }

  lemma {:induction false} EomAnswers(s: Snap, id: MsgId, size: nat, env: Env)
    requires Well(s.gaps, s.msgsize) && Answers(s) && id == s.msgid && size == s.msgsize
    requires s.state == Active || s.state == Ending
    ensures Answers(RecvEomOf(s, id, size, env))
  {
    hide NakAll, Note, EndMesgOf, AskAgain;
    MissedTailWell(s, env);
    NoteAnswers(s, s.msgsize, env);
    NoteKeeps(s, s.msgsize, env);
    var t := MissedTail(s, env);
    AskAnswers(t.(eomcount := t.eomcount + 1), env.naksize % ULONG, env);
    EndAnswers(AskAgain(t.(eomcount := t.eomcount + 1), env.naksize % ULONG, env));
  }

  lemma {:induction false} NoteKeeps(s: Snap, end: nat, env: Env)
    ensures Note(s, end, env).handed == s.handed && Note(s, end, env).msgsize == s.msgsize
  {
  }

  // ----- The sender's steps keep the invariant

  lemma {:induction false} StartKeeps(l: Link, k: Link, msgs: seq<Msg>, sendsom: bool, w: T.Writer)
    requires Inv(l, msgs) && Distinct(msgs) && Start(l, k, msgs, sendsom, w)
    ensures Inv(k, msgs)
  {
    hide Prefix, AllAcknowledge, InOrder, Receiving, Interruptible, Distinct;
    var m := msgs[l.started];
    ContentNotEmpty(msgs, l.started);
    var t := T.StartMessageOf(T.SetupOf(l.s, m.id, |m.content|, 0), sendsom, w);
    StartSends(l.s, m, sendsom, w);
    var low := if Blank(l.r) then 0 else |l.r.handed| - 1;
    More(l.fwd, msgs, low, l.started);
    EnterInOrder(l.fwd, t.out, msgs, low, l.started);
  }

  lemma {:induction false} ContentNotEmpty(msgs: seq<Msg>, i: nat)
    requires Distinct(msgs) && i < |msgs|
    ensures msgs[i].content != [] && msgs[i].id != ""
  {
  }

  // The sender's channel goes from l.s to `s`.
  lemma {:induction false} SendsKeep(l: Link, s: SendSnap, msgs: seq<Msg>)
    requires Inv(l, msgs) && l.started > 0 && SentOk(l.s, s, msgs[l.started - 1])
    requires s.state == Idle ==> l.retired == l.started
    requires l.r.state == Starting ==> s.state == Starting && NoEoms(s.out)
    ensures Inv(Transmit(l, s), msgs)
  {
    hide Prefix, AllAcknowledge, InOrder, NoEom, NoEoms, Receiving, Interruptible, Carries;
    var k := Transmit(l, s);
    var n := |l.r.handed|;
    var of := l.started - 1;
    if Blank(l.r) && InOrder(l.fwd, msgs, 0, l.started) {
      EnterInOrder(l.fwd, s.out, msgs, 0, of);
    } else if n < l.started && InOrder(l.fwd, msgs, n, l.started) && (Incoming(l, msgs[n]) || Suspended(l, msgs[n])) {
      EnterInOrder(l.fwd, s.out, msgs, n, of);
      if Suspended(l, msgs[n]) {
        IsStarting(l.r, msgs[n].content);
        EnterNoEom(l.fwd, s.out, of);
      }
    } else {
      EnterInOrder(l.fwd, s.out, msgs, n - 1, of);
    }
  }

  lemma {:induction false} IsStarting(r: Snap, m: seq<Byte>)
    requires Interruptible(r, m)
    ensures r.state == Starting
  {
  }

  // A channel without a message stays as it is.
  lemma {:induction false} QuietKeeps(l: Link, msgs: seq<Msg>)
    requires Inv(l, msgs) && l.started > 0
    ensures Inv(Transmit(l, l.s), msgs)
  {
    assert l.fwd + Tag(l.s.out, l.started - 1) == l.fwd;
    assert Transmit(l, l.s) == l;
  }

  lemma {:induction false} WriteKeeps(l: Link, k: Link, msgs: seq<Msg>, w: T.Writer)
    requires Inv(l, msgs) && Write(l, k, msgs, w)
    ensures Inv(k, msgs)
  {
    hide Prefix, AllAcknowledge, InOrder, NoEom, NoEoms, AllCarry;
    if Quiet(l.s) {
      QuietKeeps(l, msgs);
    } else {
      hide T.StartingOf, T.ActiveOf;
      var m := msgs[l.started - 1];
      WriteSends(l.s, m, w);
      StartingWhileSuspended(l, msgs);
      SendsKeep(l, T.WriteChanOf(l.s, m.content, w), msgs);
    }
  }

  lemma {:induction false} StartingWhileSuspended(l: Link, msgs: seq<Msg>)
    requires Inv(l, msgs)
    ensures l.r.state == Starting ==> l.s.state == Starting && l.rev == []
  {
  }

  // A packet from the receiver is taken in, or lost.
  lemma {:induction false} DropReply(l: Link, msgs: seq<Msg>)
    requires Inv(l, msgs) && l.rev != []
    ensures Inv(l.(rev := l.rev[1..]), msgs) && l.r.state != Starting
    ensures Acknowledges(l.rev[0], l.r.handed)
  {
    hide Prefix, InOrder, NoEom;
  }

  // An EOMA for the sender's message means that it has been handed over.
  lemma {:induction false} Acknowledged(l: Link, msgs: seq<Msg>, id: MsgId)
    requires Inv(l, msgs) && Distinct(msgs) && l.started > 0
    requires Acknowledges(Eoma(id, 0), l.r.handed)
    ensures id != "" && (id == l.s.msgid ==> |l.r.handed| == l.started)
  {
    hide InOrder, Incoming, Suspended, Done, Blank, AllAcknowledge;
    var j :| 0 <= j < |l.r.handed| && l.r.handed[j].id == id;
    assert msgs[j].id == id;
  }

  lemma {:induction false} SenderKeeps(l: Link, k: Link, msgs: seq<Msg>, w: T.Writer)
    requires Inv(l, msgs) && Distinct(msgs) && SenderReceives(l, k, msgs, w)
    ensures Inv(k, msgs)
  {
    hide Prefix, AllAcknowledge, InOrder, NoEom, NoEoms, AllCarry, Distinct, Incoming, Suspended;
    DropReply(l, msgs);
    var q := l.(rev := l.rev[1..]);
    var m := msgs[l.started - 1];
    ContentNotEmpty(msgs, l.started - 1);
    match l.rev[0] {
      case Nak(addr, len) =>
        if Quiet(l.s) {
          QuietKeeps(q, msgs);
        } else {
          NakSends(l.s, m, addr, len);
          SendsKeep(q, T.RecvNakOf(l.s, m.content, addr, len), msgs);
        }
      case Soma(id, addr) =>
        if Quiet(l.s) {
          QuietKeeps(q, msgs);
        } else {
          SomaSends(l.s, m, id, addr, w);
          SendsKeep(q, T.RecvSomaOf(l.s, id, addr, w), msgs);
        }
      case Eoma(id, size) =>
        Acknowledged(l, msgs, id);
        if Quiet(l.s) {
          QuietKeeps(q, msgs);
        } else {
          var q' := q.(retired := Retires(l, id, size));
          EomaSends(l.s, m, id, size);
          SendsKeep(q', T.RecvEomaOf(l.s, id, size), msgs);
        }
    }
  }

  // ----- The circuit's and the reader's steps keep the invariant

  lemma {:induction false} TailInOrder(fwd: seq<Sent>, msgs: seq<Msg>, low: nat, high: nat)
    requires high <= |msgs| && fwd != [] && InOrder(fwd, msgs, low, high)
    ensures low <= fwd[0].of < high && Carries(fwd[0].p, msgs[fwd[0].of])
    ensures InOrder(fwd[1..], msgs, fwd[0].of, high) && InOrder(fwd[1..], msgs, low, high)
  {
    Later(fwd[1..], msgs, fwd[0].of, low, high);
  }

  lemma {:induction false} LoseKeeps(l: Link, k: Link, msgs: seq<Msg>)
    requires Inv(l, msgs) && Lose(l, k)
    ensures Inv(k, msgs)
  {
    hide Prefix, AllAcknowledge, InOrder, Receiving, Interruptible;
    if l.rev != [] && k == l.(rev := l.rev[1..]) {
      DropReply(l, msgs);
    } else {
      var low := if Blank(l.r) && InOrder(l.fwd, msgs, 0, l.started) then 0
                 else if InOrder(l.fwd, msgs, |l.r.handed|, l.started) then |l.r.handed| else |l.r.handed| - 1;
      TailInOrder(l.fwd, msgs, low, l.started);
      if |l.r.handed| > 0 && InOrder(l.fwd, msgs, |l.r.handed| - 1, l.started) {
        TailInOrder(l.fwd, msgs, |l.r.handed| - 1, l.started);
      }
    }
  }

  lemma {:induction false} SaveKeeps(l: Link, k: Link, msgs: seq<Msg>)
    requires Inv(l, msgs) && SaveStatus(l, k)
    ensures Inv(k, msgs)
  {
    hide Prefix, AllAcknowledge, InOrder, NoEom;
    var n := |l.r.handed|;
    if n < l.started && Incoming(l, msgs[n]) && InOrder(l.fwd, msgs, n, l.started) {
      SaveReceiving(l.r, msgs[n].content);
    } else if n < l.started && Suspended(l, msgs[n]) && InOrder(l.fwd, msgs, n, l.started) {
      assert Suspended(k, msgs[n]);
    }
  }

  lemma {:induction false} SameFile(s: Snap, t: Snap, m: seq<Byte>)
    requires t.disk == s.disk && t.view == s.view && t.bufstart == s.bufstart && t.msgaddr == s.msgaddr
    ensures Stoppable(s, m) ==> Stoppable(t, m)
  {
  }

  lemma {:induction false} SaveReceiving(s: Snap, m: seq<Byte>)
    requires Receiving(s, m)
    ensures Receiving(Save(s), m) && (Stoppable(s, m) ==> Stoppable(Save(s), m))
  {
    Coverage.SaveKeeps(s, m);
    SameFile(s, Save(s), m);
  }

  lemma {:induction false} FlushKeeps(s: Snap, t: Snap, m: seq<Byte>)
    requires Receiving(s, m) && Stoppable(s, m) && Became(s, s, t)
    ensures Receiving(t, m) && Stoppable(t, m)
  {
  }

  lemma {:induction false} SenderRestarts(l: Link, msgs: seq<Msg>, addr: nat, gone: bool, w: T.Writer)
    requires SenderOk(l, msgs) && Distinct(msgs) && addr <= l.s.msgsize
    ensures var t := SenderRestarted(l.s, addr, gone, w);
            && SenderOk(l.(s := t), msgs) && (l.s.state != Idle ==> t.state == Starting)
  {
    if !(l.s.state == Idle && (gone || l.s.msgid == "")) {
      ContentNotEmpty(msgs, l.started - 1);
      RestartSends(l.s, msgs[l.started - 1], addr, w);
    }
  }

  lemma {:induction false} RestartKeepsInv(l: Link, k: Link, msgs: seq<Msg>, r: Snap, addr: nat, gone: bool,
                                           w: T.Writer)
    requires Inv(l, msgs) && Distinct(msgs) && Restart(l, k, r, addr, gone, w)
    ensures Inv(k, msgs)
  {
    hide Prefix, InOrder, Receiving, Interruptible, Stoppable, SenderRestarted;
    SenderRestarts(l, msgs, addr, gone, w);
    EmptyInOrder(msgs, l.started);
    var n := |l.r.handed|;
    if n < l.started && Incoming(l, msgs[n]) {
      ReceivingState(l.r, msgs[n].content);
      FlushKeeps(l.r, r, msgs[n].content);
      RestartKeeps(r, msgs[n].content);
      assert Suspended(k, msgs[n]);
    } else if n < l.started && Suspended(l, msgs[n]) {
      SuspendedDisk(l.r, msgs[n].content);
      RestartAgain(r, msgs[n].content);
      assert Suspended(k, msgs[n]);
    }
  }

  lemma {:induction false} EmptyInOrder(msgs: seq<Msg>, high: nat)
    requires high <= |msgs|
    ensures forall low: nat :: InOrder([], msgs, low, high)
  {
  }

  lemma {:induction false} ReceivingState(s: Snap, m: seq<Byte>)
    requires Receiving(s, m)
    ensures s.state == Active || s.state == Ending
  {
  }

  lemma {:induction false} SuspendedDisk(s: Snap, m: seq<Byte>)
    requires Interruptible(s, m)
    ensures !s.msgfile
  {
  }

  // ----- The receiver's steps keep the invariant

  // The receiver took the oldest packet, and answered.
  predicate Took(l: Link, k: Link, r: Snap)
  {
    && l.fwd != [] && Answers(r) && l.r.handed <= r.handed
    && k == Reply(l.(fwd := l.fwd[1..], back := k.back), r)
  }

  lemma {:induction false} OldestOk(l: Link, msgs: seq<Msg>)
    requires Inv(l, msgs) && l.fwd != []
    ensures l.fwd[0].of < l.started && Carries(l.fwd[0].p, msgs[l.fwd[0].of])
  {
    hide AllAcknowledge, Prefix, Incoming, Suspended, Done, Blank;
  }

  lemma {:induction false} TakeKeeps(l: Link, k: Link, r: Snap, msgs: seq<Msg>)
    requires Inv(l, msgs) && Took(l, k, r) && Prefix(r.handed, msgs)
    requires |r.handed| <= l.started && ReceiverOk(k, msgs)
    ensures Inv(k, msgs)
  {
    hide Prefix, InOrder, AllAcknowledge, ReceiverOk, Sending, Quiet;
    OldestOk(l, msgs);
    var more := r.handed[|l.r.handed|..];
    assert r.handed == l.r.handed + more;
    AcknowledgeLater(l.rev, l.r.handed, more);
    AcknowledgeMore(l.rev, r.pout, r.handed);
  }

  lemma {:induction false} NoAnswer(s: Snap)
    requires s.pout == []
    ensures Answers(s)
  {
  }

  // An EOMA for the last message.
  lemma {:induction false} RepeatedEoma(s: Snap, msgs: seq<Msg>)
    requires s.pout == [] && s.handed != [] && Prefix(s.handed, msgs) && s.msgid == msgs[|s.handed| - 1].id
    ensures Answers(s.(pout := s.pout + [Eoma(s.msgid, s.msgsize)]))
  {
    assert s.handed[|s.handed| - 1].id == s.msgid;
  }

  // Nothing has come yet: only a SOM starts anything.
  lemma {:induction false} BlankTakes(l: Link, k: Link, r: Snap, msgs: seq<Msg>, fileThere: bool, env: Env)
    requires Inv(l, msgs) && Distinct(msgs) && ReceiverReceives(l, k, r, msgs, fileThere, env)
    requires Blank(l.r) && InOrder(l.fwd, msgs, 0, l.started)
    ensures Inv(k, msgs)
  {
    hide InOrder, AllAcknowledge, Distinct, Receiving, Stoppable, Sending, SomaOf, NewMesgOf;
    TailInOrder(l.fwd, msgs, 0, l.started);
    ContentNotEmpty(msgs, l.fwd[0].of);
    NoAnswer(l.r);
    if l.fwd[0].p.Som? {
      assert l.started == 1;
      NewAnswers(l.r, l.fwd[0].p.id, l.fwd[0].p.size, env);
      NewMesgKeeps(l.r, msgs[0].content, l.fwd[0].p.id, env);
      QuietAnswers(r, msgs[0].content);
    }
    TakeKeeps(l, k, r, msgs);
  }

  lemma {:induction false} NewAnswers(s: Snap, id: MsgId, size: nat, env: Env)
    requires s.pout == [] && id != ""
    ensures var t := SomaOf(NewMesgOf(s, id, size), env);
            && Answers(t) && t.pout == [Soma(id, 0)]
            && t.msgaddr == 0 && t.view == [] && t.gaps == [] && t.handed == s.handed
  {
  }

  // Answering does not touch what is being received.
  lemma {:induction false} QuietAnswers(s: Snap, m: seq<Byte>)
    requires Receiving(s, m)
    ensures Receiving(s.(pout := []), m) && (Stoppable(s, m) ==> Stoppable(s.(pout := []), m))
  {
    var t := s.(pout := []);
    SameFile(s, t, m);
  }

  lemma {:induction false} PrefixMore(handed: seq<Handed>, h: Handed, msgs: seq<Msg>)
    requires Prefix(handed, msgs) && |handed| < |msgs|
    requires h.id == msgs[|handed|].id && h.size == |msgs[|handed|].content| && h.contents == msgs[|handed|].content
    ensures Prefix(handed + [h], msgs)
  {
  }

  // DATA or EOM for the message coming in: it goes on coming in, or has been handed over.
  lemma {:induction false} ContinueKeeps(l: Link, k: Link, r: Snap, msgs: seq<Msg>)
    requires Inv(l, msgs) && Took(l, k, r) && k.back == l.back
    requires var n := |l.r.handed|; n < l.started && Incoming(l, msgs[n]) && InOrder(l.fwd, msgs, n, l.started)
                                    && Continues(l.r, r, msgs[n].content)
    requires var n := |l.r.handed|; !l.back && r.msgfile && n < |msgs| ==> Stoppable(r, msgs[n].content)
    ensures Inv(k, msgs)
  {
    hide InOrder, AllAcknowledge, Receiving, Stoppable, Prefix, Answers;
    var n := |l.r.handed|;
    var m := msgs[n].content;
    TailInOrder(l.fwd, msgs, n, l.started);
    ReceivingOpen(l.r, m);
    if Receiving(r, m) && r.handed == l.r.handed && r.msgid == l.r.msgid {
      ReceivingOpen(r, m);
      QuietAnswers(r, m);
      assert Incoming(k, msgs[n]);
    } else {
      PrefixMore(l.r.handed, Handed(l.r.msgid, |m|, m, l.r.rdup), msgs);
      assert Done(k.r, msgs[n]);
    }
    TakeKeeps(l, k, r, msgs);
  }

  lemma {:induction false} ReceivingOpen(s: Snap, m: seq<Byte>)
    requires Receiving(s, m)
    ensures s.msgfile && s.msgsize == |m| && (s.state == Active || s.state == Ending) && Well(s.gaps, s.msgsize)
  {
  }

  lemma {:induction false} DataTaken(l: Link, k: Link, r: Snap, msgs: seq<Msg>, fileThere: bool, env: Env)
    requires Inv(l, msgs) && ReceiverReceives(l, k, r, msgs, fileThere, env) && l.fwd[0].p.Data?
    requires var n := |l.r.handed|; n < l.started && Incoming(l, msgs[n]) && InOrder(l.fwd, msgs, n, l.started)
    ensures Inv(k, msgs)
  {
    hide InOrder, AllAcknowledge, Receiving, Stoppable, Prefix, RecvDataOf, Continues;
    var n := |l.r.handed|;
    var m := msgs[n].content;
    var Data(addr, data) := l.fwd[0].p;
    TailInOrder(l.fwd, msgs, n, l.started);
    NoAnswer(l.r);
    ReceivingOpen(l.r, m);
    DataAnswers(l.r, addr, data, env);
    DataKeeps(l.r, r, m, addr, data, env);
    if !l.back && r.msgfile {
      DataStops(l.r, r, m, addr, data, env);
    }
    HandedGrows(l.r, r, m);
    assert Answers(r);
    ContinueKeeps(l, k, r, msgs);
  }

  lemma {:induction false} HandedGrows(s: Snap, t: Snap, m: seq<Byte>)
    requires Continues(s, t, m)
    ensures s.handed <= t.handed
  {
  }

  lemma {:induction false} EomTaken(l: Link, k: Link, r: Snap, msgs: seq<Msg>, fileThere: bool, env: Env)
    requires Inv(l, msgs) && ReceiverReceives(l, k, r, msgs, fileThere, env) && l.fwd[0].p.Eom?
    requires var n := |l.r.handed|; n < l.started && Incoming(l, msgs[n]) && InOrder(l.fwd, msgs, n, l.started)
    ensures Inv(k, msgs)
  {
    hide InOrder, AllAcknowledge, Receiving, Stoppable, Prefix, RecvEomOf, Continues;
    var n := |l.r.handed|;
    var m := msgs[n].content;
    var Eom(id, size) := l.fwd[0].p;
    TailInOrder(l.fwd, msgs, n, l.started);
    ReceivingOpen(l.r, m);
    NoAnswer(l.r);
    EomAnswers(l.r, id, size, env);
    EomKeeps(l.r, r, m, id, size, env);
    if !l.back && r.msgfile {
      EomStops(l.r, r, m, id, size, env);
    }
    HandedGrows(l.r, r, m);
    assert Answers(r);
    ContinueKeeps(l, k, r, msgs);
  }

  // A repeated SOM for the message coming in.
  lemma {:induction false} SomTaken(l: Link, k: Link, r: Snap, msgs: seq<Msg>, fileThere: bool, env: Env)
    requires Inv(l, msgs) && Distinct(msgs) && ReceiverReceives(l, k, r, msgs, fileThere, env) && l.fwd[0].p.Som?
    requires var n := |l.r.handed|; n < l.started && Incoming(l, msgs[n]) && InOrder(l.fwd, msgs, n, l.started)
    ensures Inv(k, msgs)
  {
    hide InOrder, AllAcknowledge, Receiving, Stoppable, Prefix, Distinct;
    var n := |l.r.handed|;
    var m := msgs[n].content;
    TailInOrder(l.fwd, msgs, n, l.started);
    ContentNotEmpty(msgs, n);
    ReceivingOpen(l.r, m);
    RepeatKeeps(l.r, m, env);
    SameFile(l.r, r, m);
    SomaAnswers(l.r, env);
    ContinueKeeps(l, k, r, msgs);
  }

  lemma {:induction false} SomaAnswers(s: Snap, env: Env)
    requires s.pout == [] && s.msgid != ""
    ensures Answers(SomaOf(s, env))
  {
  }

  // A message interrupted before: DATA is ignored, and its SOM makes the reader take it up where its
  // file is good, or start it afresh if the file is gone.
  lemma {:induction false} SuspendedTakes(l: Link, k: Link, r: Snap, msgs: seq<Msg>, fileThere: bool, env: Env)
    requires Inv(l, msgs) && Distinct(msgs) && ReceiverReceives(l, k, r, msgs, fileThere, env)
    requires var n := |l.r.handed|; n < l.started && Suspended(l, msgs[n]) && InOrder(l.fwd, msgs, n, l.started)
    ensures Inv(k, msgs)
    ensures var m := msgs[|l.r.handed|];
            if !l.fwd[0].p.Som? then k == l.(fwd := l.fwd[1..])
            else
              var at := if fileThere then ResumedAt(l.r) else 0;
              && Incoming(k, m) && k.r.msgaddr == at && k.rev == [Soma(m.id, at)] && k.r.gaps == []
              && k.r.view == (if fileThere then l.r.disk else []) && k.r.handed == l.r.handed
  {
    hide InOrder, AllAcknowledge, Receiving, Stoppable, Prefix, Distinct, Interruptible, SomaOf, ResumeOf, NewMesgOf;
    var n := |l.r.handed|;
    var m := msgs[n].content;
    TailInOrder(l.fwd, msgs, n, l.started);
    ContentNotEmpty(msgs, n);
    InterruptibleState(l.r, m);
    NoAnswer(l.r);
    if l.fwd[0].p.Som? {
      if fileThere {
        ResumeKeeps(l.r, m, env);
        ResumedIs(l.r, env);
      } else {
        NewMesgKeeps(l.r.(rdup := true), m, l.r.msgid, env);
        NewAnswers(l.r.(rdup := true), l.r.msgid, |m|, env);
      }
      QuietAnswers(r, m);
      assert Incoming(k, msgs[n]);
    } else {
      assert k.r == l.r && k.back == l.back;
      assert Suspended(k, msgs[n]);
    }
    TakeKeeps(l, k, r, msgs);
  }

  lemma {:induction false} ResumedIs(s: Snap, env: Env)
    requires s.pout == [] && s.msgid != ""
    ensures var t := SomaOf(ResumeOf(s), env);
            && Answers(t) && t.pout == [Soma(s.msgid, ResumedAt(s))]
            && t.msgaddr == ResumedAt(s) && t.view == s.disk && t.gaps == [] && t.handed == s.handed
  {
  }

  lemma {:induction false} InterruptibleState(s: Snap, m: seq<Byte>)
    requires Interruptible(s, m)
    ensures s.state == Starting && !s.msgfile && s.msgsize == |m|
  {
  }

  // Once the last message has been handed over its packets bring an EOMA at most, and others nothing.
  lemma {:induction false} DoneAnswer(l: Link, k: Link, r: Snap, msgs: seq<Msg>, fileThere: bool, env: Env)
    requires Distinct(msgs) && ReceiverReceives(l, k, r, msgs, fileThere, env) && l.started <= |msgs|
    requires var n := |l.r.handed|;
             && 0 < n <= l.started && Done(l.r, msgs[n - 1]) && InOrder(l.fwd, msgs, n - 1, l.started)
             && (l.fwd[0].of == n - 1 || !l.fwd[0].p.Som?)
    ensures r.(pout := l.r.pout, disk := l.r.disk, bufstart := l.r.bufstart) == l.r
    ensures r.pout == l.r.pout || r.pout == l.r.pout + [Eoma(l.r.msgid, l.r.msgsize)]
    ensures k == Reply(l.(fwd := l.fwd[1..], back := k.back), r)
  {
    hide InOrder, SomaOf, NewMesgOf, ResumeOf, AbortOf, FinishOf, MissedTail, RecvOldOf, RecvNewOf;
    TailInOrder(l.fwd, msgs, |l.r.handed| - 1, l.started);
  }

  lemma {:induction false} DoneStays(l: Link, k: Link, r: Snap, msgs: seq<Msg>, fileThere: bool, env: Env)
    requires Inv(l, msgs) && Distinct(msgs) && ReceiverReceives(l, k, r, msgs, fileThere, env)
    requires var n := |l.r.handed|; 0 < n && Done(l.r, msgs[n - 1]) && InOrder(l.fwd, msgs, n - 1, l.started)
                                    && (l.fwd[0].of == n - 1 || !l.fwd[0].p.Som?)
    ensures Inv(k, msgs) && Done(k.r, msgs[|l.r.handed| - 1]) && k.r.handed == l.r.handed
    ensures k.rev == l.rev || k.rev == l.rev + [Eoma(l.r.msgid, l.r.msgsize)]
  {
    hide InOrder, AllAcknowledge, Receiving, Stoppable, Prefix, ReceiverReceives, Distinct;
    Handled(l, k, r, msgs, fileThere, env);
    DoneAnswer(l, k, r, msgs, fileThere, env);
    TailInOrder(l.fwd, msgs, |l.r.handed| - 1, l.started);
    NoAnswer(l.r);
    RepeatedEoma(l.r, msgs);
    TakeKeeps(l, k, r, msgs);
  }

  // ... and the next SOM a new message.
  lemma {:induction false} DoneStarts(l: Link, k: Link, r: Snap, msgs: seq<Msg>, fileThere: bool, env: Env)
    requires Inv(l, msgs) && Distinct(msgs) && ReceiverReceives(l, k, r, msgs, fileThere, env)
    requires var n := |l.r.handed|; 0 < n && Done(l.r, msgs[n - 1]) && InOrder(l.fwd, msgs, n - 1, l.started)
                                    && l.fwd[0].of != n - 1 && l.fwd[0].p.Som?
    ensures Inv(k, msgs)
    ensures var n := |l.r.handed|;
            && n < l.started && l.fwd[0].of == n && Incoming(k, msgs[n]) && k.r.handed == l.r.handed
            && k.r.msgaddr == 0 && k.r.view == [] && k.r.gaps == [] && k.rev == l.rev + [Soma(msgs[n].id, 0)]
  {
    hide InOrder, AllAcknowledge, Receiving, Stoppable, Prefix, SomaOf, NewMesgOf, ResumeOf;
    var n := |l.r.handed|;
    TailInOrder(l.fwd, msgs, n - 1, l.started);
    var m := msgs[n].content;
    ContentNotEmpty(msgs, n);
    assert msgs[n - 1].id != msgs[n].id;
    NewAnswers(l.r, msgs[n].id, |m|, env);
    NewMesgKeeps(l.r, m, msgs[n].id, env);
    QuietAnswers(r, m);
    assert Incoming(k, msgs[n]);
    TakeKeeps(l, k, r, msgs);
  }

  lemma {:induction false} ReceiverKeeps(l: Link, k: Link, r: Snap, msgs: seq<Msg>, fileThere: bool, env: Env)
    requires Inv(l, msgs) && Distinct(msgs) && ReceiverReceives(l, k, r, msgs, fileThere, env)
    ensures Inv(k, msgs)
  {
    hide InOrder, AllAcknowledge, Incoming, Suspended, Done, Blank, Prefix, Distinct, ReceiverReceives;
    assert l.fwd != [] && (l.fwd[0].p.Data? || l.fwd[0].p.Eom? || l.fwd[0].p.Som?) by {
      Handled(l, k, r, msgs, fileThere, env);
    }
    var n := |l.r.handed|;
    if Blank(l.r) && InOrder(l.fwd, msgs, 0, l.started) {
      BlankTakes(l, k, r, msgs, fileThere, env);
    } else if n < l.started && InOrder(l.fwd, msgs, n, l.started) && Suspended(l, msgs[n]) {
      SuspendedTakes(l, k, r, msgs, fileThere, env);
    } else if n < l.started && InOrder(l.fwd, msgs, n, l.started) && Incoming(l, msgs[n]) {
      if l.fwd[0].p.Data? {
        DataTaken(l, k, r, msgs, fileThere, env);
      } else if l.fwd[0].p.Eom? {
        EomTaken(l, k, r, msgs, fileThere, env);
      } else {
        SomTaken(l, k, r, msgs, fileThere, env);
      }
    } else if l.fwd[0].of == n - 1 || !l.fwd[0].p.Som? {
      DoneStays(l, k, r, msgs, fileThere, env);
    } else {
      DoneStarts(l, k, r, msgs, fileThere, env);
    }
  }

  lemma {:induction false} Handled(l: Link, k: Link, r: Snap, msgs: seq<Msg>, fileThere: bool, env: Env)
    requires ReceiverReceives(l, k, r, msgs, fileThere, env)
    ensures l.fwd != [] && (l.fwd[0].p.Data? || l.fwd[0].p.Eom? || l.fwd[0].p.Som?)
    ensures k.s == l.s && k.started == l.started && k.retired == l.retired && k.fwd == l.fwd[1..]
  {
  }

  // ----- The invariant lets every packet be taken

  lemma {:induction false} GapsWell(l: Link, msgs: seq<Msg>)
    requires Inv(l, msgs)
    ensures Well(l.r.gaps, l.r.msgsize)
  {
    hide InOrder, AllAcknowledge, Prefix, Stoppable, NoEom;
  }

  // With all of the view on disk.
  function AllOnDisk(s: Snap): Snap
  {
    s.(disk := s.view, bufstart := if s.bufstart < |s.view| then |s.view| else s.bufstart)
  }

  lemma {:induction false} CanBecome(was: Snap, s: Snap)
    ensures Became(was, s, if was.msgfile then AllOnDisk(s) else s)
  {
  }

  // No step of the receiver is ruled out by what the step takes for granted: whatever comes next on the
  // circuit, it is taken.
  lemma {:induction false} ReceiverCan(l: Link, msgs: seq<Msg>, fileThere: bool, env: Env) returns (k: Link, r: Snap)
    requires Inv(l, msgs) && l.fwd != [] && env.naksize % ULONG > 0
    ensures ReceiverReceives(l, k, r, msgs, fileThere, env)
  {
    hide Inv, Well, RecvDataOf, RecvEomOf, RecvSomOf, Became;
    GapsWell(l, msgs);
    OldestOk(l, msgs);
    var q := l.(fwd := l.fwd[1..]);
    match l.fwd[0].p {
      case Data(addr, data) =>
        var s := RecvDataOf(l.r, addr, data, env);
        CanBecome(l.r, s);
        r := if l.r.msgfile then AllOnDisk(s) else s;
        k := Reply(q, r);
      case Eom(id, size) =>
        var s := RecvEomOf(l.r, id, size, env);
        CanBecome(l.r, s);
        r := if l.r.msgfile then AllOnDisk(s) else s;
        k := Reply(q, r);
      case Som(id, size) =>
        r := RecvSomOf(l.r, id, size, fileThere, env);
        k := Reply(q.(back := BackAfter(l, id, size, fileThere, ContentOf(msgs, l.fwd[0].of))), r);
    }
  }

  // Nor is one of the sender: it can always have its turn, and take what comes back.
  lemma {:induction false} WriterCan(l: Link, msgs: seq<Msg>, w: T.Writer) returns (k: Link)
    requires Inv(l, msgs) && l.started > 0
    ensures Write(l, k, msgs, w)
  {
    k := Transmit(l, T.WriteChanOf(l.s, msgs[l.started - 1].content, w));
  }

  lemma {:induction false} SenderCan(l: Link, msgs: seq<Msg>, w: T.Writer) returns (k: Link)
    requires Inv(l, msgs) && l.rev != []
    ensures SenderReceives(l, k, msgs, w)
  {
    hide InOrder, Prefix, Incoming, Suspended, Done, Blank, T.RecvNakOf, T.RecvSomaOf, T.RecvEomaOf;
    var q := l.(rev := l.rev[1..]);
    match l.rev[0] {
      case Nak(addr, len) => k := Transmit(q, T.RecvNakOf(l.s, msgs[l.started - 1].content, addr, len));
      case Soma(id, addr) => k := Transmit(q, T.RecvSomaOf(l.s, id, addr, w));
      case Eoma(id, size) => k := Transmit(q.(retired := Retires(l, id, size)), T.RecvEomaOf(l.s, id, size));
    }
  }

  // ----- Every run

  lemma {:induction false} StepKeeps(l: Link, k: Link, msgs: seq<Msg>)
    requires Inv(l, msgs) && Distinct(msgs) && Step(l, k, msgs)
    ensures Inv(k, msgs)
  {
    hide Inv, Distinct, Start, Write, SenderReceives, ReceiverReceives, Lose, SaveStatus, Restart;
    if sendsom, w :| Start(l, k, msgs, sendsom, w) {
      StartKeeps(l, k, msgs, sendsom, w);
    } else if w :| Write(l, k, msgs, w) {
      WriteKeeps(l, k, msgs, w);
    } else if w :| SenderReceives(l, k, msgs, w) {
      SenderKeeps(l, k, msgs, w);
    } else if r, fileThere, env :| ReceiverReceives(l, k, r, msgs, fileThere, env) {
      ReceiverKeeps(l, k, r, msgs, fileThere, env);
    } else if Lose(l, k) {
      LoseKeeps(l, k, msgs);
    } else if SaveStatus(l, k) {
      SaveKeeps(l, k, msgs);
    } else {
      var r, addr, gone, w :| Restart(l, k, r, addr, gone, w);
      RestartKeepsInv(l, k, msgs, r, addr, gone, w);
    }
  }

  lemma {:induction false} InitHolds(l: Link, msgs: seq<Msg>)
    requires Init(l)
    ensures Inv(l, msgs)
  {
  }

  lemma {:induction false} RunKeeps(run: seq<Link>, msgs: seq<Msg>, i: nat)
    requires Run(run, msgs) && Distinct(msgs) && i < |run|
    ensures Inv(run[i], msgs)
  {
    hide Inv, Distinct, Step;
    if i == 0 {
      InitHolds(run[0], msgs);
    } else {
      RunKeeps(run, msgs, i - 1);
      assert Step(run[i - 1], run[i], msgs);
      StepKeeps(run[i - 1], run[i], msgs);
    }
  }

  // At every point of every run, what has been handed over is the first messages of the sender's
  // list, once each, in order, with all their bytes; what the sender has retired is among it, and at
  // most one message more.
  lemma {:induction false} Delivered(run: seq<Link>, msgs: seq<Msg>, i: nat)
    requires Run(run, msgs) && Distinct(msgs) && i < |run|
    ensures var l := run[i]; var n := |l.r.handed|;
            && Prefix(l.r.handed, msgs)
            && l.retired <= n <= l.started <= l.retired + 1
  {
    RunKeeps(run, msgs, i);
  }

  // No identifier is ever handed over twice.
  lemma {:induction false} OnlyOnce(run: seq<Link>, msgs: seq<Msg>, i: nat, a: nat, b: nat)
    requires Run(run, msgs) && Distinct(msgs) && i < |run| && a < b < |run[i].r.handed|
    ensures run[i].r.handed[a].id != run[i].r.handed[b].id
  {
    hide Inv, Run;
    Delivered(run, msgs, i);
    assert msgs[a].id != msgs[b].id;
  }
}
