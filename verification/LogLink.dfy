/** xproto and rproto at the two ends of a line that loses and damages blocks and replies: at each
    moment the receiver has the first blocks of the file, as many as were acknowledged or one more. */
module LogLink {
  import opened Channel
  import opened Log
  import opened LogReceive

  // A reply on its way; `of` is the block it answers, which nobody looks at.
  datatype Back = Back(reply: Bytes, of: nat)

  datatype Link = Link(
    s: Sender,
    r: Receiver,
    taken: nat,          // new blocks the receiver has taken, as an observer counts them
    fwd: seq<nat>,       // blocks on their way, oldest first
    rev: seq<Back>)      // replies on their way, oldest first

  predicate Init(l: Link, faults: seq<int>)
  {
    && l.s == Sender(0, 0, Running) && l.taken == 0 && l.fwd == [0] && l.rev == []
    && l.r == Receiver(NewBlock, 0, 0, 0, 0, 255, 0, Disk([], 0, faults), 0, [], Running)
  }

  // The sender acts on a reply, and unless it is done writes a block.
  function Goes(l: Link, file: Bytes, a: Answer): Link
  {
    var t := Answered(l.s, file, a);
    l.(s := t, fwd := if t.status == Running then l.fwd + [t.k] else l.fwd)
  }

  predicate SenderHears(l: Link, m: Link, file: Bytes)
  {
    && l.s.status == Running && l.rev != [] && |l.rev[0].reply| >= 2
    && m == Goes(l.(rev := l.rev[1..]), file, Answer(l.rev[0].reply[0], l.rev[0].reply[1], false, 0))
  }

  // No reply in time, or noise: which is not taken for an ACK of this block or for ETX ETX.  A flush
  // may lose replies.
  predicate SenderMisses(l: Link, m: Link, file: Bytes, a: Answer, lost: nat)
  {
    && l.s.status == Running && lost <= |l.rev|
    && Bad(a, l.s.k) && !(a.typ == ETX && a.seqno == ETX)
    && m == Goes(l.(rev := l.rev[lost..]), file, a)
  }

  function Answers(l: Link, r: Receiver, of: nat): seq<Back>
  {
    if |r.out| > |l.r.out| then [Back(r.out[|r.out| - 1], of)] else []
  }

  predicate ReceiverTakes(l: Link, m: Link, file: Bytes)
  {
    && l.r.status == Running && l.fwd != [] && Sound(l.r)
    && var n := l.fwd[0];
       var r := TakeBlock(l.r, SeqOf(n), Block(file, n));
       m == l.(r := r, fwd := l.fwd[1..], rev := l.rev + Answers(l, r, n),
               taken := if r.status == Running && r.lastseq != l.r.lastseq then l.taken + 1 else l.taken)
  }

  // A time-out, or blocks damaged, which shows: blocks are dropped, and the answer if any is a NAK
  // or ENQ; or the receiver gives up.
  predicate ReceiverMisses(l: Link, m: Link, r: Receiver, lost: nat)
  {
    && l.r.status == Running && lost <= |l.fwd|
    && (|| r == l.r.(retrys := r.retrys, garbage := r.garbage, size := r.size, seqno := r.seqno)
        || (exists typ, x ::
              (typ == NAK || typ == ENQ)
              && r == l.r.(retrys := r.retrys, garbage := r.garbage, size := r.size, seqno := r.seqno,
                 out := l.r.out + [[typ, x]]))
        || r == Fails(l.r.(retrys := r.retrys)))
    && m == l.(r := r, fwd := l.fwd[lost..], rev := l.rev + Answers(l, r, 0))
  }

  predicate Lose(l: Link, m: Link)
  {
    || (l.fwd != [] && m == l.(fwd := l.fwd[1..]))
    || (l.rev != [] && m == l.(rev := l.rev[1..]))
  }

  ghost predicate Step(l: Link, m: Link, file: Bytes)
  {
    || SenderHears(l, m, file)
    || (exists a, lost :: SenderMisses(l, m, file, a, lost))
    || ReceiverTakes(l, m, file)
    || (exists r, lost :: ReceiverMisses(l, m, r, lost))
    || Lose(l, m)
  }

  ghost predicate Run(run: seq<Link>, file: Bytes)
  {
    && run != [] && (exists faults :: Init(run[0], faults))
    && forall i :: 0 <= i < |run| - 1 ==> Step(run[i], run[i + 1], file)
  }

  // ----- The invariant

  // Blocks from `low` to `high`, in order.
  predicate InOrder(fwd: seq<nat>, low: nat, high: nat)
  {
    fwd == [] || (low <= fwd[0] <= high && InOrder(fwd[1..], fwd[0], high))
  }

  // Acknowledgements of blocks from `low` up to but not including `high`, in order, among other replies.
  predicate Replies(rev: seq<Back>, low: nat, high: nat)
    decreases rev
  {
    rev == [] ||
    var b := rev[0].reply;
    |b| >= 2 &&
    if b[0] == ACK then
      low <= rev[0].of < high && b[1] == SeqOf(rev[0].of) && Replies(rev[1..], rev[0].of, high)
    else Replies(rev[1..], low, high)
  }

  function Before(k: nat): nat
  {
    if k == 0 then 0 else k - 1
  }

  // The receiver has the first `j` blocks, and can go back over the last of them.
  predicate Has(r: Receiver, file: Bytes, j: nat)
  {
    && r.disk.file == file[..At(file, j)] && r.disk.pos == |r.disk.file|
    && (if j == 0 then r.lastseq == 255 && r.lastsize == 0
        else r.lastseq == SeqOf(j - 1) && r.lastsize == |Block(file, j - 1)|)
  }

  predicate Inv(l: Link, file: Bytes)
  {
    var k, j := l.s.k, l.taken;
    && k <= j <= k + 1 && (j > 0 ==> Block(file, j - 1) != [])
    && (l.s.status == Running ==> l.s.retrys <= XRETRYS)
    && InOrder(l.fwd, Before(j), k) && Replies(l.rev, Before(k), j)
    && (l.r.status != Protocol ==> l.r.mode == NewBlock && Has(l.r, file, j))
    && (l.r.status == Protocol && Block(file, j) == [] ==> l.r.disk.file == file)
    && (l.r.status == Ok ==> Block(file, j) == [])
    && l.s.status != Ok && (l.s.status == Remterm ==> Block(file, j) == [])
  }

  // ----- The sender's steps

  lemma {:induction false} TailInOrder(fwd: seq<nat>, low: nat, high: nat, n: nat)
    requires InOrder(fwd, low, high) && n <= |fwd|
    ensures InOrder(fwd[n..], low, high)
    decreases n
  {
    if n > 0 {
      TailInOrder(fwd[1..], fwd[0], high, n - 1);
      assert fwd[1..][n - 1..] == fwd[n..];
      Wider(fwd[n..], low, fwd[0], high, high);
    }
  }

  lemma {:induction false} Wider(fwd: seq<nat>, bottom: nat, low: nat, high: nat, top: nat)
    requires InOrder(fwd, low, high) && bottom <= low && high <= top
    ensures InOrder(fwd, bottom, top)
    decreases fwd
  {
    if fwd != [] {
      Wider(fwd[1..], fwd[0], fwd[0], high, top);
    }
  }

  lemma {:induction false} EnterInOrder(fwd: seq<nat>, low: nat, k: nat)
    requires InOrder(fwd, low, k) && low <= k
    ensures InOrder(fwd + [k], low, k)
    decreases fwd
  {
    if fwd == [] {
      assert fwd + [k] == [k];
    } else {
      EnterInOrder(fwd[1..], fwd[0], k);
      assert (fwd + [k])[1..] == fwd[1..] + [k];
    }
  }

  lemma {:induction false} MoreReplies(rev: seq<Back>, bottom: nat, low: nat, high: nat, top: nat)
    requires Replies(rev, low, high) && bottom <= low && high <= top
    ensures Replies(rev, bottom, top)
    decreases rev
  {
    if rev != [] {
      if rev[0].reply[0] == ACK {
        MoreReplies(rev[1..], rev[0].of, rev[0].of, high, top);
      } else {
        MoreReplies(rev[1..], bottom, low, high, top);
      }
    }
  }

  lemma {:induction false} TailReplies(rev: seq<Back>, low: nat, high: nat, n: nat)
    requires Replies(rev, low, high) && n <= |rev|
    ensures Replies(rev[n..], low, high)
    decreases n
  {
    if n > 0 {
      var next := if rev[0].reply[0] == ACK then rev[0].of else low;
      TailReplies(rev[1..], next, high, n - 1);
      assert rev[1..][n - 1..] == rev[n..];
      MoreReplies(rev[n..], low, next, high, high);
    }
  }

  lemma {:induction false} EnterReplies(rev: seq<Back>, b: Back, low: nat, high: nat)
    requires Replies(rev, low, high) && |b.reply| >= 2
    requires b.reply[0] == ACK ==> low <= b.of == high - 1 && b.reply[1] == SeqOf(b.of)
    ensures Replies(rev + [b], low, high)
    decreases rev
  {
    if rev == [] {
      assert rev + [b] == [b];
    } else {
      EnterReplies(rev[1..], b, if rev[0].reply[0] == ACK then rev[0].of else low, high);
      assert (rev + [b])[1..] == rev[1..] + [b];
    }
  }

  // The parity of a sequence number tells a block from its neighbours.
  lemma {:induction false} Parity(k: nat)
    ensures SeqOf(k) != SeqOf(k + 1) && SeqOf(k) <= 1
  {
  }

  lemma {:induction false} MissKeeps(l: Link, m: Link, file: Bytes, a: Answer, lost: nat)
    requires Inv(l, file) && SenderMisses(l, m, file, a, lost)
    ensures Inv(m, file)
  {
    hide Block, At, Has, SeqOf;
    TailReplies(l.rev, Before(l.s.k), l.taken, lost);
    EnterInOrder(l.fwd, Before(l.taken), l.s.k);
  }

  lemma {:induction false} HearKeeps(l: Link, m: Link, file: Bytes)
    requires Inv(l, file) && SenderHears(l, m, file)
    ensures Inv(m, file)
  {
    hide Block, At, Has, SeqOf;
    var k := l.s.k;
    var b := l.rev[0].reply;
    TailReplies(l.rev, Before(k), l.taken, 1);
    Parity(k);
    if k > 0 {
      Parity(k - 1);
    }
    var a := Answer(b[0], b[1], false, 0);
    if !Bad(a, k) && !(a.typ == ETX && a.seqno == ETX) {
      assert l.taken == k + 1;
      Wider(l.fwd, Before(l.taken), Before(l.taken), k, k + 1);
      EnterInOrder(l.fwd, Before(l.taken), k + 1);
    } else {
      EnterInOrder(l.fwd, Before(l.taken), k);
      BlocksEnd(file, k, l.taken);
    }
  }

  // Once a block is empty, so are those after it.
  lemma {:induction false} BlocksEnd(file: Bytes, k: nat, j: nat)
    requires k <= j
    ensures Block(file, k) == [] ==> Block(file, j) == []
  {
  }

  // ----- The receiver's steps

  // Writing again what is there changes nothing, however the writes fall short.
  lemma {:induction false} SaveAgain(d: Disk, data: Bytes, wretrys: nat)
    requires wretrys <= XRETRYS && d.pos + |data| <= |d.file| && d.file[d.pos..d.pos + |data|] == data
    ensures SaveBlock(d, data, wretrys).disk.file == d.file
    decreases XRETRYS - wretrys
  {
    hide Taken, Written, Overwrite;
    var n := Taken(d, data);
    var e := Written(d, data);
    WrittenIs(d, data);
    if n > 0 {
      SubSlice(d.file, d.pos, n, |data|);
      SameOverwrite(d.file, d.pos, data[..n]);
    }
    if n != |data| && wretrys < XRETRYS {
      SaveAgain(if n > 0 then e.(pos := e.pos - n) else e, data, wretrys + 1);
    }
  }

  lemma {:induction false} SubSlice(f: Bytes, pos: nat, n: nat, m: nat)
    requires n <= m && pos + m <= |f|
    ensures f[pos..pos + n] == f[pos..pos + m][..n]
  {
  }

  lemma {:induction false} SameOverwrite(f: Bytes, pos: nat, data: Bytes)
    requires pos + |data| <= |f| && f[pos..pos + |data|] == data
    ensures Overwrite(f, pos, data) == f
  {
  }

  // The last block again: the file stays as it is.
  lemma {:induction false} AcceptAgain(r: Receiver, file: Bytes, j: nat)
    requires Has(r, file, j) && j > 0 && Block(file, j - 1) != [] && r.status == Running && r.seqno == SeqOf(j - 1)
    ensures var t := Accept(r, Block(file, j - 1));
            && t.disk.file == r.disk.file && t.mode == NewBlock
            && (t.status == Running ==> Has(t, file, j) && t.out == r.out + [[ACK, SeqOf(j - 1)]])
            && (t.status != Running ==> t.status == Protocol && t.out == r.out + [[ETX, ETX, ETX, ETX]])
  {
    hide SaveBlock, Block, SeqOf;
    var data := Block(file, j - 1);
    BlockPlace(file, j - 1);
    var d := r.disk.(pos := r.disk.pos - r.lastsize);
    assert d.file[d.pos..d.pos + |data|] == data;
    SaveAgain(d, data, 0);
    SaveBlockIs(d, data, 0);
  }

  lemma {:induction false} BlockPlace(file: Bytes, k: nat)
    ensures At(file, k + 1) == At(file, k) + |Block(file, k)| <= |file|
    ensures file[At(file, k)..At(file, k + 1)] == Block(file, k)
  {
    BlockAt(file, k);
  }

  // The next block: the file grows by it.
  lemma {:induction false} AcceptNew(r: Receiver, file: Bytes, j: nat)
    requires Has(r, file, j) && Block(file, j) != [] && r.status == Running && r.seqno == SeqOf(j)
    ensures var t := Accept(r, Block(file, j));
            && t.mode == NewBlock
            && (t.status == Running ==>
                  Has(t, file, j + 1) && t.lastseq != r.lastseq && t.out == r.out + [[ACK, SeqOf(j)]])
            && (t.status != Running ==> t.status == Protocol && t.out == r.out + [[ETX, ETX, ETX, ETX]])
  {
    hide SaveBlock, Block;
    var data := Block(file, j);
    BlockPlace(file, j);
    SaveBlockIs(r.disk, data, 0);
    assert Overwrite(file[..At(file, j)], At(file, j), data) == file[..At(file, j + 1)];
  }

  lemma {:induction false} Whole(file: Bytes, j: nat)
    requires Block(file, j) == []
    ensures At(file, j) == |file|
  {
  }

  // Parts of the receiver's state that decide nothing between blocks.
  lemma {:induction false} HasStill(r: Receiver, t: Receiver, file: Bytes, j: nat)
    requires Has(r, file, j) && t.disk == r.disk && t.lastseq == r.lastseq && t.lastsize == r.lastsize
    ensures Has(t, file, j)
  {
  }

  lemma {:induction false} DropKeeps(l: Link, m: Link, r: Receiver, file: Bytes, lost: nat)
    requires Inv(l, file) && ReceiverMisses(l, m, r, lost)
    ensures Inv(m, file)
  {
    hide Block, At, Has, SeqOf, InOrder, Replies;
    TailInOrder(l.fwd, Before(l.taken), l.s.k, lost);
    HasStill(l.r, r, file, l.taken);
    HasAll(l.r, file, l.taken);
    if |r.out| > |l.r.out| {
      assert |r.out[|r.out| - 1]| >= 2 && r.out[|r.out| - 1][0] != ACK;
      EnterReplies(l.rev, Back(r.out[|r.out| - 1], 0), Before(l.s.k), l.taken);
    } else {
      assert l.rev + [] == l.rev;
    }
  }

  lemma {:induction false} HasAll(r: Receiver, file: Bytes, j: nat)
    requires Has(r, file, j)
    ensures Block(file, j) == [] ==> r.disk.file == file
  {
    if Block(file, j) == [] {
      Whole(file, j);
    }
  }

  // The block that ends the file.
  lemma {:induction false} TakeEnd(l: Link, m: Link, file: Bytes)
    requires Inv(l, file) && ReceiverTakes(l, m, file) && Block(file, l.fwd[0]) == []
    ensures Inv(m, file)
  {
    hide Block, At, Has, SeqOf, Accept;
    var n := l.fwd[0];
    var r := TakeBlock(l.r, SeqOf(n), Block(file, n));
    TailInOrder(l.fwd, Before(l.taken), l.s.k, 1);
    BlocksEnd(file, n, l.taken);
    HasStill(l.r, r, file, l.taken);
    assert r.out[|r.out| - 1] == [ETX, ETX, ETX, ETX];
    EnterReplies(l.rev, Back([ETX, ETX, ETX, ETX], n), Before(l.s.k), l.taken);
  }

  lemma {:induction false} TakeAgain(l: Link, m: Link, file: Bytes)
    requires Inv(l, file) && ReceiverTakes(l, m, file) && l.taken > 0 && l.fwd[0] == l.taken - 1
    ensures Inv(m, file)
  {
    hide Block, At, Has, SeqOf, Accept;
    var n := l.fwd[0];
    var data := Block(file, n);
    var r0 := l.r.(retrys := 0, garbage := 0, seqno := SeqOf(n), size := |data|, mode := NewBlock);
    var r := Accept(r0, data);
    TailInOrder(l.fwd, Before(l.taken), l.s.k, 1);
    HasStill(l.r, r0, file, l.taken);
    HasAll(l.r, file, l.taken);
    AcceptAgain(r0, file, l.taken);
    SameSeq(l.r, r, file, l.taken);
    EnterReplies(l.rev, Back(r.out[|r.out| - 1], n), Before(l.s.k), l.taken);
  }

  lemma {:induction false} SameSeq(r: Receiver, t: Receiver, file: Bytes, j: nat)
    requires Has(r, file, j)
    ensures Has(t, file, j) ==> t.lastseq == r.lastseq
  {
  }

  lemma {:induction false} TakeNew(l: Link, m: Link, file: Bytes)
    requires Inv(l, file) && ReceiverTakes(l, m, file) && l.fwd[0] == l.taken && Block(file, l.taken) != []
    ensures Inv(m, file)
  {
    hide Block, At, Has, SeqOf, Accept;
    var n := l.fwd[0];
    var data := Block(file, n);
    var r0 := l.r.(retrys := 0, garbage := 0, seqno := SeqOf(n), size := |data|, mode := NewBlock);
    var r := Accept(r0, data);
    TailFrom(l.fwd, Before(l.taken), l.s.k);
    HasStill(l.r, r0, file, l.taken);
    AcceptNew(r0, file, l.taken);
    var j := m.taken;
    MoreReplies(l.rev, Before(l.s.k), Before(l.s.k), l.taken, j);
    EnterReplies(l.rev, Back(r.out[|r.out| - 1], n), Before(l.s.k), j);
  }

  lemma {:induction false} TailFrom(fwd: seq<nat>, low: nat, high: nat)
    requires fwd != [] && InOrder(fwd, low, high)
    ensures low <= fwd[0] <= high && InOrder(fwd[1..], fwd[0], high) && InOrder(fwd[1..], low, high)
  {
    Wider(fwd[1..], low, fwd[0], high, high);
  }

  lemma {:induction false} LoseKeeps(l: Link, m: Link, file: Bytes)
    requires Inv(l, file) && Lose(l, m)
    ensures Inv(m, file)
  {
    hide Block, At, Has, SeqOf;
    if l.fwd != [] {
      TailInOrder(l.fwd, Before(l.taken), l.s.k, 1);
    }
    if l.rev != [] {
      TailReplies(l.rev, Before(l.s.k), l.taken, 1);
    }
  }

  lemma {:induction false} StepKeeps(l: Link, m: Link, file: Bytes)
    requires Inv(l, file) && Step(l, m, file)
    ensures Inv(m, file)
  {
    hide Inv, SenderHears, SenderMisses, ReceiverTakes, ReceiverMisses, Lose, Block;
    if SenderHears(l, m, file) {
      HearKeeps(l, m, file);
    } else if a, lost :| SenderMisses(l, m, file, a, lost) {
      MissKeeps(l, m, file, a, lost);
    } else if ReceiverTakes(l, m, file) {
      TakeCases(l, m, file);
      if Block(file, l.fwd[0]) == [] {
        TakeEnd(l, m, file);
      } else if l.fwd[0] == l.taken {
        TakeNew(l, m, file);
      } else {
        TakeAgain(l, m, file);
      }
    } else if Lose(l, m) {
      LoseKeeps(l, m, file);
    } else {
      var r, lost :| ReceiverMisses(l, m, r, lost);
      DropKeeps(l, m, r, file, lost);
    }
  }

  lemma {:induction false} TakeCases(l: Link, m: Link, file: Bytes)
    requires Inv(l, file) && ReceiverTakes(l, m, file)
    ensures l.fwd != [] && (l.fwd[0] == l.taken || (l.taken > 0 && l.fwd[0] == l.taken - 1))
  {
  }

  // ----- Every run

  lemma {:induction false} InitHolds(l: Link, faults: seq<int>, file: Bytes)
    requires Init(l, faults)
    ensures Inv(l, file)
  {
    assert l.fwd[1..] == [];
    assert file[..At(file, 0)] == [];
  }

  lemma {:induction false} RunKeeps(run: seq<Link>, file: Bytes, i: nat)
    requires Run(run, file) && i < |run|
    ensures Inv(run[i], file)
  {
    if i == 0 {
      var faults :| Init(run[0], faults);
      InitHolds(run[0], faults, file);
    } else {
      hide Inv, Step;
      RunKeeps(run, file, i - 1);
      assert Step(run[i - 1], run[i], file);
      StepKeeps(run[i - 1], run[i], file);
    }
  }

  // The receiver's file is the first blocks of the file, as many as the sender has had acknowledged
  // or one more; when rproto ends well, or xproto by the receiver's word, it is the file.  There is no
  // other good end for xproto: the block that ends the file is never acknowledged.
  lemma {:induction false} Transferred(run: seq<Link>, file: Bytes, i: nat)
    requires Run(run, file) && i < |run|
    ensures var l := run[i];
            && l.s.k <= l.taken <= l.s.k + 1
            && (l.r.status != Protocol ==> l.r.disk.file == file[..At(file, l.taken)])
            && (l.r.status == Ok ==> l.r.disk.file == file)
            && l.s.status != Ok && (l.s.status == Remterm ==> l.r.disk.file == file)
  {
    hide Block, At;
    RunKeeps(run, file, i);
    if run[i].r.status != Protocol {
      HasAll(run[i].r, file, run[i].taken);
    }
  }
}
