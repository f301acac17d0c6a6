/** From which states a transfer can still come to a good end: the runs of which `LogLink` speaks do. */
module LogProgress {
  import opened Channel
  import opened Log
  import opened LogReceive
  import opened LogLink

  // Block `k` is on its way to a receiver that has the blocks before it, on a disk that takes every write.
  predicate Sending(l: Link, file: Bytes, k: nat)
  {
    && l.s.k == k && l.s.status == Running && l.taken == k && l.fwd == [k] && l.rev == []
    && l.r.status == Running && Has(l.r, file, k) && l.r.disk.faults == []
  }

  lemma {:induction false} HasSound(r: Receiver, file: Bytes, j: nat)
    requires Has(r, file, j)
    ensures Sound(r)
  {
    if j > 0 {
      BlockPlace(file, j - 1);
    }
  }

  // A block sent, taken and acknowledged brings the next.
  lemma {:induction false} Exchange(l: Link, file: Bytes, k: nat) returns (m: Link, n: Link)
    requires Sending(l, file, k) && Block(file, k) != []
    ensures LogLink.Step(l, m, file) && LogLink.Step(m, n, file) && Sending(n, file, k + 1)
  {
    hide Block, At, SaveBlock;
    var data := Block(file, k);
    HasSound(l.r, file, k);
    var r0 := l.r.(retrys := 0, garbage := 0, seqno := SeqOf(k), size := |data|, mode := NewBlock);
    HasStill(l.r, r0, file, k);
    AcceptNew(r0, file, k);
    NotAgain(l.r, file, k);
    SavedWhole(l.r.disk, data);
    var r := TakeBlock(l.r, SeqOf(k), data);
    assert r == Accept(r0, data) && r.status == Running;
    m := l.(r := r, fwd := [], rev := [Back([ACK, SeqOf(k)], k)], taken := k + 1);
    assert l.rev + Answers(l, r, k) == m.rev;
    assert ReceiverTakes(l, m, file);
    n := Goes(m.(rev := []), file, Answer(ACK, SeqOf(k), false, 0));
    assert SenderHears(m, n, file);
  }

  lemma {:induction false} NotAgain(r: Receiver, file: Bytes, k: nat)
    requires Has(r, file, k)
    ensures r.lastseq != SeqOf(k)
  {
    if k > 0 {
      Parity(k - 1);
    }
  }

  lemma {:induction false} SavedWhole(d: Disk, data: Bytes)
    requires d.pos <= |d.file| && d.faults == [] && data != []
    ensures SaveBlock(d, data, 0).ok && SaveBlock(d, data, 0).disk.faults == []
  {
  }

  // The empty block ends both ends.
  lemma {:induction false} Ending(l: Link, file: Bytes, k: nat) returns (m: Link, n: Link)
    requires Sending(l, file, k) && Block(file, k) == []
    ensures LogLink.Step(l, m, file) && LogLink.Step(m, n, file)
    ensures n.r.status == Ok && n.s.status == Remterm
  {
    hide Block, At, Accept;
    HasSound(l.r, file, k);
    var r := TakeBlock(l.r, SeqOf(k), []);
    m := l.(r := r, fwd := [], rev := [Back([ETX, ETX, ETX, ETX], k)]);
    assert l.rev + Answers(l, r, k) == m.rev;
    assert ReceiverTakes(l, m, file);
    n := Goes(m.(rev := []), file, Answer(ETX, ETX, false, 0));
    assert SenderHears(m, n, file);
  }

  // Both ends have finished well.
  predicate Finished(l: Link)
  {
    l.r.status == Ok && l.s.status == Remterm
  }

  // The run can go on to a good end.
  ghost predicate Ends(run: seq<Link>, file: Bytes)
  {
    exists all :: run <= all && run != [] && Run(all, file) && Finished(all[|all| - 1])
  }

  lemma {:induction false} EndsEarlier(run: seq<Link>, more: seq<Link>, file: Bytes)
    requires run != [] && run <= more && Ends(more, file)
    ensures Ends(run, file)
  {
    hide Run, Finished;
    var all :| more <= all && Run(all, file) && Finished(all[|all| - 1]);
    assert run <= all;
  }

  lemma {:induction false} OneMore(run: seq<Link>, m: Link, file: Bytes)
    requires run != [] && Run(run, file) && LogLink.Step(run[|run| - 1], m, file)
    ensures Run(run + [m], file)
  {
    hide LogLink.Step;
    var z := run + [m];
    assert z[0] == run[0];
    forall i | 0 <= i < |z| - 1
      ensures LogLink.Step(z[i], z[i + 1], file)
    {
      if i < |run| - 1 {
        assert LogLink.Step(run[i], run[i + 1], file);
      }
    }
  }

  // From a block on its way, without loss, to the end.
  lemma {:induction false} Onwards(run: seq<Link>, file: Bytes, k: nat)
    requires run != [] && Run(run, file) && Sending(run[|run| - 1], file, k)
    ensures Ends(run, file)
    decreases |file| - At(file, k)
  {
    hide Run, Sending, LogLink.Step, Finished, Ends;
    var l := run[|run| - 1];
    var m, n;
    if Block(file, k) == [] {
      m, n := Ending(l, file, k);
    } else {
      m, n := Exchange(l, file, k);
    }
    OneMore(run, m, file);
    OneMore(run + [m], n, file);
    if Block(file, k) == [] {
      EndsHere(run + [m] + [n], file);
    } else {
      BlockAt(file, k);
      Onwards(run + [m] + [n], file, k + 1);
    }
    EndsEarlier(run, run + [m] + [n], file);
  }

  lemma {:induction false} EndsHere(run: seq<Link>, file: Bytes)
    requires run != [] && Run(run, file) && Finished(run[|run| - 1])
    ensures Ends(run, file)
  {
    assert run <= run;
  }

  // ----- Which states are hopeless

  // A block the sender waits for is on its way, or an acknowledgement of it.
  predicate Hope(l: Link)
  {
    l.s.k in l.fwd || (exists b :: b in l.rev && b.reply != [] && b.reply[0] == ACK && b.of == l.s.k)
  }

  // The sender may write its block once more, or need not.
  predicate CanFinish(l: Link)
  {
    l.s.retrys < XRETRYS || Hope(l)
  }

  // While the receiver runs it does not say that it has ended.
  predicate NoEnd(l: Link)
  {
    l.r.status == Running ==> forall b :: b in l.rev && b.reply != [] ==> b.reply[0] != ETX
  }

  lemma {:induction false} NoEndKeeps(l: Link, m: Link, file: Bytes)
    requires Inv(l, file) && NoEnd(l) && LogLink.Step(l, m, file)
    ensures NoEnd(m)
  {
    hide Block, At, InOrder, Replies, Has, Inv, Answered, TakeBlock;
    if ReceiverTakes(l, m, file) {
      TakenAnswer(l.r, SeqOf(l.fwd[0]), Block(file, l.fwd[0]));
    }
  }

  lemma {:induction false} TakenAnswer(r: Receiver, seqno: Byte, data: Bytes)
    requires LogReceive.Sound(r) && |data| <= DATAZ
    ensures var t := TakeBlock(r, seqno, data); t.status == Running ==> t.out == r.out + [[ACK, seqno]]
  {
    hide SaveBlock;
  }

  // No state from which the sender's block can still be taken, or the transfer has failed already.
  predicate Doomed(l: Link)
  {
    || l.s.status == Protocol || l.r.status == Protocol
    || (l.s.status == Running && l.r.status == Running && l.s.retrys == XRETRYS && !Hope(l) && NoEnd(l))
  }

  // An acknowledgement with the sender's number is of its block.
  lemma {:induction false} HearDoomed(l: Link, m: Link, file: Bytes)
    requires Inv(l, file) && Doomed(l) && SenderHears(l, m, file)
    ensures Doomed(m)
  {
    hide Block, At, Has, SeqOf, InOrder;
    var k := l.s.k;
    Parity(k);
    if k > 0 {
      Parity(k - 1);
    }
    assert l.rev[0] in l.rev;
  }

  lemma {:induction false} MissDoomed(l: Link, m: Link, file: Bytes, a: Answer, lost: nat)
    requires Doomed(l) && SenderMisses(l, m, file, a, lost)
    ensures Doomed(m)
  {
    hide Block, At, Hope, NoEnd;
  }

  // The block before it may be taken again, to no avail.
  lemma {:induction false} TakeDoomed(l: Link, m: Link, file: Bytes)
    requires Inv(l, file) && Doomed(l) && ReceiverTakes(l, m, file)
    ensures Doomed(m)
  {
    hide Block, At, SeqOf, Replies, TakeBlock;
    var n := l.fwd[0];
    TakeCases(l, m, file);
    if l.s.status != Protocol {
      assert n in l.fwd;
      assert n == l.taken - 1 && Block(file, n) != [];
      TakenAnswer(l.r, SeqOf(n), Block(file, n));
      TakenEnds(l.r, SeqOf(n), Block(file, n));
    }
  }

  lemma {:induction false} TakenEnds(r: Receiver, seqno: Byte, data: Bytes)
    requires LogReceive.Sound(r) && |data| <= DATAZ && data != [] && r.status == Running
    ensures var t := TakeBlock(r, seqno, data); t.status == Running || t.status == Protocol
  {
    hide SaveBlock;
  }

  lemma {:induction false} DropDoomed(l: Link, m: Link, r: Receiver, lost: nat)
    requires Doomed(l) && ReceiverMisses(l, m, r, lost)
    ensures Doomed(m)
  {
  }

  lemma {:induction false} LoseDoomed(l: Link, m: Link)
    requires Doomed(l) && Lose(l, m)
    ensures Doomed(m)
  {
  }

  lemma {:induction false} StepDoomed(l: Link, m: Link, file: Bytes)
    requires Inv(l, file) && Doomed(l) && LogLink.Step(l, m, file)
    ensures Doomed(m)
  {
    hide Inv, SenderHears, SenderMisses, ReceiverTakes, ReceiverMisses, Lose, Doomed;
    if SenderHears(l, m, file) {
      HearDoomed(l, m, file);
    } else if a, lost :| SenderMisses(l, m, file, a, lost) {
      MissDoomed(l, m, file, a, lost);
    } else if ReceiverTakes(l, m, file) {
      TakeDoomed(l, m, file);
    } else if Lose(l, m) {
      LoseDoomed(l, m);
    } else {
      var r, lost :| ReceiverMisses(l, m, r, lost);
      DropDoomed(l, m, r, lost);
    }
  }

  // ----- From the others there is a way

  lemma {:induction false} Dropped(run: seq<Link>, file: Bytes, fwd: nat, rev: nat) returns (more: seq<Link>)
    requires run != [] && Run(run, file) && fwd <= |run[|run| - 1].fwd| && rev <= |run[|run| - 1].rev|
    ensures var l := run[|run| - 1];
            run <= more && Run(more, file) && more[|more| - 1] == l.(fwd := l.fwd[fwd..], rev := l.rev[rev..])
    decreases fwd + rev
  {
    hide Run;
    var l := run[|run| - 1];
    more := run;
    if fwd + rev > 0 {
      var m := if fwd > 0 then l.(fwd := l.fwd[1..]) else l.(rev := l.rev[1..]);
      assert Lose(l, m);
      OneMore(run, m, file);
      more := Dropped(run + [m], file, if fwd > 0 then fwd - 1 else 0, if fwd > 0 then rev else rev - 1);
    }
  }

  // Both ends go on, with the block `l.s.k` not yet retired, on a disk that takes every write.
  predicate Going(l: Link, file: Bytes)
  {
    Inv(l, file) && l.s.status == Running && l.r.status == Running && l.r.disk.faults == []
  }

  // The next reply acknowledges the sender's block.
  predicate AckNext(l: Link)
  {
    l.rev != [] && l.rev[0].reply != [] && l.rev[0].reply[0] == ACK && l.rev[0].of == l.s.k
  }

  lemma {:induction false} AckMoves(l: Link, file: Bytes) returns (m: Link)
    requires Going(l, file) && AckNext(l)
    ensures LogLink.Step(l, m, file) && l.taken == l.s.k + 1 && Has(l.r, file, l.taken)
    ensures m == l.(s := Sender(l.s.k + 1, 0, Running), fwd := l.fwd + [l.s.k + 1], rev := l.rev[1..])
  {
    hide Block, At, SeqOf, Has, InOrder;
    var b := l.rev[0].reply;
    m := Goes(l.(rev := l.rev[1..]), file, Answer(b[0], b[1], false, 0));
    assert SenderHears(l, m, file);
  }

  // It is heard, and the next block is on its way.
  lemma {:induction false} AckHeard(run: seq<Link>, file: Bytes)
    requires run != [] && Run(run, file) && Going(run[|run| - 1], file) && AckNext(run[|run| - 1])
    ensures Ends(run, file)
  {
    hide Run, Ends, Has, Inv, LogLink.Step, AckNext;
    var l := run[|run| - 1];
    var m := AckMoves(l, file);
    OneMore(run, m, file);
    var more := Dropped(run + [m], file, |l.fwd|, |m.rev|);
    assert m.fwd[|l.fwd|..] == [l.s.k + 1];
    Onwards(more, file, l.s.k + 1);
    EndsEarlier(run, more, file);
  }

  // The sender's block is on its way, and nothing else.
  lemma {:induction false} BlockComes(run: seq<Link>, file: Bytes)
    requires run != [] && Run(run, file) && Going(run[|run| - 1], file)
    requires var l := run[|run| - 1]; l.fwd == [l.s.k] && l.rev == []
    ensures Ends(run, file)
  {
    hide Run, Block, At, Ends, SeqOf, Has, TakeBlock;
    var l := run[|run| - 1];
    if l.taken == l.s.k {
      Onwards(run, file, l.s.k);
    } else {
      var r := TakenAgain(l, file);
      var m := l.(r := r, fwd := [], rev := [Back([ACK, SeqOf(l.s.k)], l.s.k)]);
      assert l.rev + Answers(l, r, l.s.k) == m.rev;
      HasSound(l.r, file, l.taken);
      assert ReceiverTakes(l, m, file);
      StepKeeps(l, m, file);
      OneMore(run, m, file);
      AckHeard(run + [m], file);
      EndsEarlier(run, run + [m], file);
    }
  }

  // The receiver has it already, and says so.
  lemma {:induction false} TakenAgain(l: Link, file: Bytes) returns (r: Receiver)
    requires Going(l, file) && l.taken == l.s.k + 1
    ensures LogReceive.Sound(l.r) && r == TakeBlock(l.r, SeqOf(l.s.k), Block(file, l.s.k))
    ensures r.status == Running && r.lastseq == l.r.lastseq && r.out == l.r.out + [[ACK, SeqOf(l.s.k)]]
    ensures r.disk.faults == []
  {
    hide Block, At, SaveBlock, Has;
    var k := l.s.k;
    var data := Block(file, k);
    HasSound(l.r, file, k + 1);
    var r0 := l.r.(retrys := 0, garbage := 0, seqno := SeqOf(k), size := |data|, mode := NewBlock);
    HasStill(l.r, r0, file, k + 1);
    AcceptAgain(r0, file, k + 1);
    r := TakeBlock(l.r, SeqOf(k), data);
    HasLast(l.r, file, k + 1);
    SavedWhole(l.r.disk.(pos := l.r.disk.pos - l.r.lastsize), data);
  }

  lemma {:induction false} HasLast(r: Receiver, file: Bytes, j: nat)
    requires Has(r, file, j) && j > 0 && Block(file, j - 1) != []
    ensures r.lastseq == SeqOf(j - 1) && 0 < r.lastsize <= r.disk.pos <= |r.disk.file|
  {
    HasSound(r, file, j);
  }

  // A time-out, with a retry left: the block is written again.
  lemma {:induction false} Again(l: Link, file: Bytes) returns (m: Link)
    requires Going(l, file) && l.s.retrys < XRETRYS
    ensures LogLink.Step(l, m, file)
    ensures m == l.(s := l.s.(retrys := l.s.retrys + 1), fwd := l.fwd + [l.s.k], rev := [])
  {
    hide Block, At, SeqOf, Has, InOrder, Replies, Inv;
    var a := Answer(0, 0, true, 0);
    m := Goes(l.(rev := l.rev[|l.rev|..]), file, a);
    assert SenderMisses(l, m, file, a, |l.rev|);
  }

  lemma {:induction false} Retried(run: seq<Link>, file: Bytes)
    requires run != [] && Run(run, file) && Going(run[|run| - 1], file) && run[|run| - 1].s.retrys < XRETRYS
    ensures Ends(run, file)
  {
    hide Run, Ends, Inv, LogLink.Step;
    var l := run[|run| - 1];
    var m := Again(l, file);
    OneMore(run, m, file);
    var more := Dropped(run + [m], file, |l.fwd|, 0);
    assert m.fwd[|l.fwd|..] == [l.s.k];
    RunKeeps(more, file, |more| - 1);
    BlockComes(more, file);
    EndsEarlier(run, more, file);
  }

  // The last block on its way is the sender's, if any is.
  lemma {:induction false} LastIs(fwd: seq<nat>, low: nat, high: nat)
    requires InOrder(fwd, low, high) && high in fwd
    ensures fwd[|fwd| - 1] == high
    decreases fwd
  {
    if |fwd| > 1 {
      if high !in fwd[1..] {
        assert fwd[0] == high;
        TailFrom(fwd[1..], high, high);
      }
      LastIs(fwd[1..], fwd[0], high);
    }
  }

  lemma {:induction false} Hopeful(run: seq<Link>, file: Bytes)
    requires run != [] && Run(run, file) && Going(run[|run| - 1], file) && Hope(run[|run| - 1])
    ensures Ends(run, file)
  {
    hide Run, Block, At, Ends, SeqOf, Has, Replies, LogLink.Step;
    var l := run[|run| - 1];
    if l.s.k in l.fwd {
      LastIs(l.fwd, Before(l.taken), l.s.k);
      var more := Dropped(run, file, |l.fwd| - 1, |l.rev|);
      assert l.fwd[|l.fwd| - 1..] == [l.s.k];
      RunKeeps(more, file, |more| - 1);
      BlockComes(more, file);
      EndsEarlier(run, more, file);
    } else {
      var b :| b in l.rev && b.reply != [] && b.reply[0] == ACK && b.of == l.s.k;
      var i: nat :| i < |l.rev| && l.rev[i] == b;
      var more := Dropped(run, file, 0, i);
      RunKeeps(more, file, |more| - 1);
      AckHeard(more, file);
      EndsEarlier(run, more, file);
    }
  }

  // ----- Every run

  lemma {:induction false} RunNoEnd(run: seq<Link>, file: Bytes, i: nat)
    requires Run(run, file) && i < |run|
    ensures NoEnd(run[i])
  {
    hide LogLink.Step, Inv, NoEnd;
    if i == 0 {
      var faults :| Init(run[0], faults);
      assert run[0].rev == [];
      EmptyNoEnd(run[0]);
    } else {
      RunNoEnd(run, file, i - 1);
      RunKeeps(run, file, i - 1);
      assert LogLink.Step(run[i - 1], run[i], file);
      NoEndKeeps(run[i - 1], run[i], file);
    }
  }

  lemma {:induction false} EmptyNoEnd(l: Link)
    requires l.rev == []
    ensures NoEnd(l)
  {
  }

  lemma {:induction false} RunDoomed(run: seq<Link>, file: Bytes, i: nat, j: nat)
    requires Run(run, file) && i <= j < |run| && Doomed(run[i])
    ensures Doomed(run[j])
    decreases j
  {
    hide LogLink.Step, Inv, Doomed, Init;
    if i < j {
      RunDoomed(run, file, i, j - 1);
      RunKeeps(run, file, j - 1);
      assert LogLink.Step(run[j - 1], run[j], file);
      StepDoomed(run[j - 1], run[j], file);
    }
  }

  // From a state of any run in which both ends are still at it, and the disk takes what is written,
  // they can both finish well if and only if the sender has a retry left, or its block is on its way,
  // or an acknowledgement of it.
  lemma {:induction false} EndsIff(run: seq<Link>, file: Bytes)
    requires run != [] && Run(run, file)
    requires var l := run[|run| - 1]; l.s.status == Running && l.r.status == Running && l.r.disk.faults == []
    ensures Ends(run, file) <==> CanFinish(run[|run| - 1])
  {
    hide Run, Hope, Finished, NoEnd, Inv, Doomed;
    var l := run[|run| - 1];
    RunKeeps(run, file, |run| - 1);
    RunNoEnd(run, file, |run| - 1);
    if Hope(l) {
      Hopeful(run, file);
    } else if l.s.retrys < XRETRYS {
      Retried(run, file);
    } else if Ends(run, file) {
      var all :| run <= all && Run(all, file) && Finished(all[|all| - 1]);
      DoomedNow(l, file);
      NoWay(run, all, file);
    }
  }

  lemma {:induction false} DoomedNow(l: Link, file: Bytes)
    requires Inv(l, file) && NoEnd(l) && l.s.status == Running && l.r.status == Running && !CanFinish(l)
    ensures Doomed(l)
  {
    hide Hope, InOrder, Replies, Has, NoEnd;
  }

  lemma {:induction false} NoWay(run: seq<Link>, all: seq<Link>, file: Bytes)
    requires run != [] && run <= all && Run(all, file) && Doomed(run[|run| - 1])
    ensures !Finished(all[|all| - 1])
  {
    hide Run, Doomed, Finished;
    assert all[|run| - 1] == run[|run| - 1];
    RunDoomed(all, file, |run| - 1, |all| - 1);
    NotFinished(all[|all| - 1]);
  }

  lemma {:induction false} NotFinished(l: Link)
    requires Doomed(l)
    ensures !Finished(l)
  {
  }

  // For every file there is a run in which both ends finish, and then the receiver has the file.
  lemma {:induction false} Completes(file: Bytes) returns (run: seq<Link>)
    ensures run != [] && Run(run, file)
    ensures Finished(run[|run| - 1]) && run[|run| - 1].r.disk.file == file
  {
    var l := Link(Sender(0, 0, Running), Receiver(NewBlock, 0, 0, 0, 0, 255, 0, Disk([], 0, []), 0, [], Running),
                  0, [0], []);
    assert Init([l][0], []);
    hide LogLink.Step, Finished;
    EndsIff([l], file);
    run :| [l] <= run && Run(run, file) && Finished(run[|run| - 1]);
    Transferred(run, file, |run| - 1);
  }
}
