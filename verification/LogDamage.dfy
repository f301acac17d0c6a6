/** What the two ends of the file transfer make of damage: a block whose check bytes are wrong is
    refused, nothing is written or acknowledged that was not on the line with the right ones, and the
    sender goes on only when it is acknowledged. */
module LogDamage {
  import opened Channel
  import opened Log
  import opened LogReceive
  import opened LogLink

  // The receiver has refused the block `seqno`: it is as it was, but for what it has answered.
  predicate Refuses(r: Receiver, t: Receiver, seqno: Byte)
  {
    t == r.(retrys := 0, garbage := 0, seqno := seqno, size := t.size, out := r.out + [[NAK, seqno]])
  }

  predicate Right(body: Bytes, n: nat)
    requires |body| == n + TRAILER
  {
    body[n] == CrcOf(body[..n]).lpc && body[n + 1] == CrcOf(body[..n]).sum
  }

  // A block is taken if its check bytes are right, and else refused.
  lemma {:induction false} BlockHeard(r: Receiver, seqno: Byte, n: nat, body: Bytes)
    requires Fit(r) && r.status == Running && r.mode == NewBlock && seqno <= 1 && 0 < n <= DATAZ
    requires |body| == n + TRAILER
    ensures var t := ReceiveAll(r, AsInput([STX, seqno, n, Not(n)] + body));
            if Right(body, n) then t == TakeBlock(r, seqno, body[..n]) else Refuses(r, t, seqno)
  {
    hide Receive, Accept, CrcOf;
    var head := [STX, seqno, n, Not(n)];
    assert AsInput(head + body) == AsInput(head) + AsInput(body);
    HeaderTaken(r, seqno, n);
    ReceiveConcat(r, AsInput(head), AsInput(body));
    var t := ReceiveAll(r, AsInput(head));
    BodyTaken(t, [], body);
    CompleteSame(t, t.(mode := NewBlock), body);
    assert [] + body == body;
  }

  // One damaged byte, of the data or of the check bytes, is always noticed.
  lemma {:induction false} OneByteRefused(r: Receiver, seqno: Byte, data: Bytes, i: nat, x: Byte)
    requires Fit(r) && r.status == Running && r.mode == NewBlock && seqno <= 1 && 0 < |data| <= DATAZ
    requires HEADER <= i < |Encode(seqno, data)| && Encode(seqno, data)[i] != x
    ensures Refuses(r, ReceiveAll(r, AsInput(Encode(seqno, data)[i := x])), seqno)
  {
    hide Receive, ReceiveAll, Fold, TakeBlock;
    var n := |data|;
    var head, body := [STX, seqno, n, Not(n)], data + [CrcOf(data).lpc, CrcOf(data).sum];
    EncodeIs(seqno, data);
    var k := i - HEADER;
    var hurt := body[k := x];
    assert Encode(seqno, data)[i := x] == head + hurt;
    BlockHeard(r, seqno, n, hurt);
    if k < n {
      assert hurt[..n] == data[k := x];
      OneByteShows(Crc(0, 0), data, k, x);
    } else {
      assert hurt[..n] == data;
    }
  }

  // A header that cannot be one.
  predicate HeaderHurt(head: Bytes)
  {
    && |head| >= 2 && head[0] == STX
    && (|| (|head| == 2 && head[1] > 1)
        || (|head| == 3 && head[1] <= 1 && head[2] > DATAZ)
        || (|head| == 4 && head[1] <= 1 && head[2] <= DATAZ && head[3] != Not(head[2])))
  }

  lemma {:induction false} HurtSkips(r: Receiver, head: Bytes)
    requires Fit(r) && r.status == Running && r.mode == NewBlock && HeaderHurt(head)
    ensures var t := ReceiveAll(r, AsInput(head));
            t == r.(mode := Skipping(true), retrys := 0, garbage := 0, seqno := t.seqno, size := t.size)
  {
    var r1 := Receive(r, Got(STX));
    var i := AsInput(head);
    assert i[0] == Got(STX) && i[1] == Got(head[1]);
    var r2 := Receive(r1, i[1]);
    if |head| == 2 {
      assert i[1..][1..] == [] && ReceiveAll(r1, i[1..]) == ReceiveAll(r2, []);
    } else {
      assert i[2] == Got(head[2]);
      var r3 := Receive(r2, i[2]);
      assert ReceiveAll(r1, i[1..]) == ReceiveAll(r2, i[1..][1..]);
      if |head| == 3 {
        assert i[1..][1..][1..] == [] && ReceiveAll(r2, i[1..][1..]) == ReceiveAll(r3, []);
      } else {
        assert i[3] == Got(head[3]);
        assert i[1..][1..][1..] == [i[3]] && ReceiveAll(r2, i[1..][1..]) == ReceiveAll(r3, [i[3]]);
        assert [i[3]][1..] == [] && ReceiveAll(r3, [i[3]]) == ReceiveAll(Receive(r3, i[3]), []);
      }
    }
  }

  // It is refused, once the line is silent, whatever comes until then.
  lemma {:induction false} HeaderRefused(r: Receiver, head: Bytes, noise: Bytes)
    requires Fit(r) && r.status == Running && r.mode == NewBlock && HeaderHurt(head)
    ensures var t := ReceiveAll(r, AsInput(head) + (AsInput(noise) + [Quiet])); Refuses(r, t, t.seqno)
  {
    hide ReceiveAll, Receive;
    ReceiveConcat(r, AsInput(head), AsInput(noise) + [Quiet]);
    HurtSkips(r, head);
    var s := ReceiveAll(r, AsInput(head));
    SkipTo(s, AsInput(noise) + [Quiet]);
    QuietEnds(noise);
    ReceiveStep(Silent(s), []);
  }

  lemma {:induction false} QuietEnds(noise: Bytes)
    ensures Quiet in AsInput(noise) + [Quiet] && Flushed(AsInput(noise) + [Quiet]) == []
  {
    var i := AsInput(noise) + [Quiet];
    assert i[|noise|] == Quiet;
    if noise != [] {
      QuietEnds(noise[1..]);
      assert i[1..] == AsInput(noise[1..]) + [Quiet];
    }
  }

  // ----- What may happen on the line, is what the line of `LogLink` may do

  // A block of which the body is damaged, so that it shows.
  lemma {:induction false} DamageIsMissed(l: Link, seqno: Byte, n: nat, body: Bytes)
    requires l.r.status == Running && l.r.mode == NewBlock && Fit(l.r) && l.fwd != [] && seqno <= 1 && 0 < n <= DATAZ
    requires |body| == n + TRAILER && !Right(body, n)
    ensures var r := ReceiveAll(l.r, AsInput([STX, seqno, n, Not(n)] + body));
            ReceiverMisses(l, l.(r := r, fwd := l.fwd[1..], rev := l.rev + [Back([NAK, seqno], 0)]), r, 1)
  {
    hide ReceiveAll, Right;
    BlockHeard(l.r, seqno, n, body);
  }

  // Silence where a block was expected.
  lemma {:induction false} SilenceIsMissed(l: Link)
    requires l.r.status == Running && l.r.mode == NewBlock && Fit(l.r)
    ensures var r := ReceiveAll(l.r, [Quiet]);
            && r.disk == l.r.disk && |r.out| == |l.r.out| + 1
            && ReceiverMisses(l, l.(r := r, rev := l.rev + [Back(r.out[|r.out| - 1], 0)]), r, 0)
  {
    var r := Receive(l.r, Quiet);
    ReceiveFit(l.r, Quiet);
    assert ReceiveAll(l.r, [Quiet]) == ReceiveAll(r, []) == r;
    assert l.fwd[0..] == l.fwd;
  }

  // An undamaged block is taken as `ReceiverTakes` says.
  lemma {:induction false} BlockIsTaken(l: Link, file: Bytes)
    requires l.r.status == Running && l.r.mode == NewBlock && Fit(l.r) && l.fwd != [] && Block(file, l.fwd[0]) != []
    ensures var n := l.fwd[0]; var r := ReceiveAll(l.r, AsInput(Encode(SeqOf(n), Block(file, n))));
            var taken := if r.status == Running && r.lastseq != l.r.lastseq then l.taken + 1 else l.taken;
            ReceiverTakes(l, l.(r := r, fwd := l.fwd[1..], rev := l.rev + Answers(l, r, n), taken := taken), file)
  {
    hide ReceiveAll, TakeBlock, Encode, Block;
    FrameTaken(l.r, SeqOf(l.fwd[0]), Block(file, l.fwd[0]));
  }

  // ----- Nothing else is ever taken

  // The bytes that came.
  function Came(input: seq<In>): Bytes
  {
    if input == [] then []
    else Came(input[..|input| - 1]) + if input[|input| - 1].Got? then [input[|input| - 1].b] else []
  }

  predicate Ends(p: Bytes, q: Bytes)
  {
    |q| <= |p| && p[|p| - |q|..] == q
  }

  // What the receiver has of a block came last, while it goes on.
  predicate Heard(r: Receiver, p: Bytes)
  {
    r.status == Running ==>
    match r.mode
    case Sequence => Ends(p, [STX])
    case Size1 => Ends(p, [STX, r.seqno])
    case Size2 => Ends(p, [STX, r.seqno, r.size])
    case Body(got) => r.size > 0 && Ends(p, [STX, r.seqno, r.size, Not(r.size)] + got)
    case _ => true
  }

  lemma {:induction false} EndsMore(p: Bytes, q: Bytes, x: Byte)
    requires Ends(p, q)
    ensures Ends(p + [x], q + [x])
  {
  }

  lemma {:induction false} StepHeard(r: Receiver, p: Bytes, x: Byte)
    requires Fit(r) && Heard(r, p)
    ensures Heard(Receive(r, Got(x)), p + [x])
  {
    hide Complete, Ends;
    if r.status == Running {
      match r.mode {
        case NewBlock => LastByte(p, x);
        case Sequence => EndsMore(p, [STX], x);
          assert [STX] + [x] == [STX, x];
        case Size1 => EndsMore(p, [STX, r.seqno], x);
          assert [STX, r.seqno] + [x] == [STX, r.seqno, x];
        case Size2 => EndsMore(p, [STX, r.seqno, r.size], x);
          assert [STX, r.seqno, r.size] + [x] == [STX, r.seqno, r.size, x] + [];
          if r.size == Not(x) {
            assert x == Not(r.size);
          }
        case Body(got) =>
          EndsMore(p, [STX, r.seqno, r.size, Not(r.size)] + got, x);
          assert [STX, r.seqno, r.size, Not(r.size)] + got + [x] == [STX, r.seqno, r.size, Not(r.size)] + (got + [x]);
          if |got| + 1 == r.size + TRAILER {
            CompleteMode(r, got + [x]);
          }
        case _ =>
      }
    }
  }

  lemma {:induction false} CompleteMode(r: Receiver, got: Bytes)
    requires Sound(r) && |got| == r.size + TRAILER
    ensures Complete(r, got).mode == NewBlock
  {
    hide Accept, CrcOf;
    AcceptFit(r, got[..r.size]);
  }

  lemma {:induction false} LastByte(p: Bytes, x: Byte)
    ensures Ends(p + [x], [x])
  {
  }

  // What the receiver has of a block stays when nothing comes.
  lemma {:induction false} QuietHeard(r: Receiver, p: Bytes)
    requires Fit(r) && Heard(r, p)
    ensures Heard(Receive(r, Quiet), p)
  {
    hide Ends;
  }

  lemma {:induction false} AllHeard(r: Receiver, input: seq<In>)
    requires Fit(r) && r.mode == NewBlock
    ensures Fit(ReceiveAll(r, input)) && Heard(ReceiveAll(r, input), Came(input))
    decreases |input|
  {
    hide Receive, Heard;
    if input == [] {
      NoneHeard(r);
    } else {
      var n := |input| - 1;
      var front, x := input[..n], input[n];
      assert input == front + [x];
      AllHeard(r, front);
      ReceiveConcat(r, front, [x]);
      var s := ReceiveAll(r, front);
      ReceiveStep(s, [x]);
      ReceiveStep(Receive(s, x), []);
      assert [x][1..] == [];
      if x.Got? {
        StepHeard(s, Came(front), x.b);
      } else {
        QuietHeard(s, Came(front));
        assert Came(front) + [] == Came(front);
      }
    }
  }

  lemma {:induction false} NoneHeard(r: Receiver)
    requires r.mode == NewBlock
    ensures Heard(r, [])
  {
  }

  // Whatever comes, in whatever order, damaged or not: the file is written, and a block acknowledged,
  // only when the last that came is that block as it is sent, check bytes and all.
  lemma {:induction false} OnlyBlocks(r: Receiver, input: seq<In>, x: In) returns (data: Bytes)
    requires Fit(r) && r.mode == NewBlock
    ensures var s := ReceiveAll(r, input); var t := ReceiveAll(r, input + [x]);
            || (t.disk == s.disk && t.filesize == s.filesize && t.lastseq == s.lastseq && t.lastsize == s.lastsize
                && (t.out == s.out || (exists a: Bytes :: t.out == s.out + [a] && a != [] && a[0] != ACK)))
            || (0 < |data| <= DATAZ && Ends(Came(input + [x]), Encode(s.seqno, data)))
  {
    hide Heard, Accept, CrcOf, Encode, Ends;
    AllHeard(r, input);
    ReceiveConcat(r, input, [x]);
    var s := ReceiveAll(r, input);
    ReceiveStep(s, [x]);
    ReceiveStep(Receive(s, x), []);
    assert [x][1..] == [];
    data := [];
    if s.status == Running && x.Got? && s.mode.Body? && |s.mode.got| + 1 == s.size + TRAILER {
      var got := s.mode.got + [x.b];
      if CrcOf(got[..s.size]) == Crc(got[s.size], got[s.size + 1]) {
        data := got[..s.size];
        BodyHeard(s, Came(input), x.b);
        EncodeIs(s.seqno, data);
        assert got == data + [got[s.size], got[s.size + 1]];
        assert input + [x] == input + [x] && (input + [x])[..|input|] == input;
      }
    }
  }

  lemma {:induction false} BodyHeard(s: Receiver, p: Bytes, x: Byte)
    requires s.status == Running && s.mode.Body? && Heard(s, p)
    ensures s.size > 0 && Ends(p + [x], [STX, s.seqno, s.size, Not(s.size)] + (s.mode.got + [x]))
  {
    EndsMore(p, [STX, s.seqno, s.size, Not(s.size)] + s.mode.got, x);
    assert [STX, s.seqno, s.size, Not(s.size)] + s.mode.got + [x]
           == [STX, s.seqno, s.size, Not(s.size)] + (s.mode.got + [x]);
  }

  // ----- What the sender takes for an acknowledgement

  // After no more than `room` bytes of noise, an ACK of block `k`.
  predicate AckIn(input: seq<In>, k: nat, room: nat)
    decreases input
  {
    && |input| >= 2 && input[0].Got?
    && if ReplyType(input[0].b) then input[0].b == ACK && input[1] == Got(SeqOf(k))
       else room > 0 && AckIn(input[1..], k, room - 1)
  }

  lemma {:induction false} AckHeard(a: Answer, input: seq<In>, k: nat)
    requires !a.timedout && a.synce <= GARBAGE && Listen(a, input).Heard?
    ensures Bad(Listen(a, input).answer, k) <==> !AckIn(input, k, GARBAGE - a.synce)
    decreases input
  {
    if input[0].Got? && !ReplyType(input[0].b) && a.synce < GARBAGE {
      AckHeard(a.(typ := input[0].b, synce := a.synce + 1), input[1..], k);
    }
  }

  // Whatever is heard, and whatever was heard before: the sender goes on to the next block if and only
  // if the block is acknowledged in time, by its number, behind little noise; unless that is the end.
  lemma {:induction false} GoesOnIff(s: Sender, file: Bytes, a: Answer, input: seq<In>)
    requires s.status == Running && Block(file, s.k) != []
    requires Settled(Listen(a.(timedout := false, synce := 0), input)).Heard?
    ensures var t := Answered(s, file, Settled(Listen(a.(timedout := false, synce := 0), input)).answer);
            && (t == Sender(s.k + 1, 0, Running) <==> AckIn(input, s.k, GARBAGE))
            && (t != Sender(s.k + 1, 0, Running) ==> t.k == s.k && t.retrys <= s.retrys + 1)
  {
    AckHeard(a.(timedout := false, synce := 0), input, s.k);
  }
}
