/** What the two ends of the file transfer do about noise between blocks, about silence, and about
    writes to the local file that fall short (Admin/log.c). */
module LogNoise {
  import opened Channel
  import opened Log
  import opened LogReceive

  predicate Listening(r: Receiver)
  {
    Fit(r) && r.status == Running && r.mode == NewBlock
  }

  // ----- Noise between blocks

  lemma {:induction false} OneNoise(r: Receiver, x: Byte)
    requires Listening(r) && x != STX
    ensures Receive(r, Got(x)) == if r.garbage < GARBAGE then r.(garbage := r.garbage + 1)
                                  else r.(mode := Skipping(false), garbage := 0)
  {
  }

  // A little noise is passed over ...
  lemma {:induction false} LittleNoise(r: Receiver, noise: Bytes)
    requires Listening(r) && STX !in noise && r.garbage + |noise| <= GARBAGE
    ensures ReceiveAll(r, AsInput(noise)) == r.(garbage := r.garbage + |noise|)
    decreases noise
  {
    hide Receive;
    if noise == [] {
      assert AsInput(noise) == [];
    } else {
      OneNoise(r, noise[0]);
      assert AsInput(noise)[1..] == AsInput(noise[1..]);
      LittleNoise(r.(garbage := r.garbage + 1), noise[1..]);
    }
  }

  // ... and after more of it, whatever comes is, until the line is silent.
  lemma {:induction false} MuchNoise(r: Receiver, noise: Bytes, more: Bytes)
    requires Listening(r) && STX !in noise && r.garbage <= GARBAGE && r.garbage + |noise| == GARBAGE + 1
    ensures ReceiveAll(r, AsInput(noise + more)) == r.(mode := Skipping(false), garbage := 0)
    ensures ReceiveAll(r, AsInput(noise + more) + [Quiet]) == r.(garbage := 0)
  {
    hide Receive, ReceiveAll;
    var n := |noise| - 1;
    LittleNoise(r, noise[..n]);
    var s := r.(garbage := GARBAGE);
    OneNoise(s, noise[n]);
    var input := AsInput(noise + more);
    var rest := AsInput([noise[n]] + more);
    assert input == AsInput(noise[..n]) + rest;
    ReceiveConcat(r, AsInput(noise[..n]), rest);
    ReceiveStep(s, rest);
    assert rest[1..] == AsInput(more) && rest[0] == Got(noise[n]);
    var t := r.(mode := Skipping(false), garbage := 0);
    SkipTo(t, AsInput(more));
    assert ReceiveAll(r, input) == t;
    ReceiveConcat(r, input, [Quiet]);
    ReceiveStep(t, [Quiet]);
    Ends(t);
  }

  lemma {:induction false} Ends(t: Receiver)
    requires Fit(t) && t.status == Running && t.mode == Skipping(false)
    ensures Receive(t, Quiet) == t.(mode := NewBlock) && Fit(Receive(t, Quiet))
    ensures [Quiet][1..] == [] && ReceiveAll(t.(mode := NewBlock), []) == t.(mode := NewBlock)
  {
  }

  // A block that is written after noise is taken if and only if there was little of it; and else the
  // receiver is as it was, once the line has been silent.
  lemma {:induction false} BlockAfterNoise(r: Receiver, noise: Bytes, seqno: Byte, data: Bytes)
    requires Listening(r) && r.garbage == 0 && STX !in noise && seqno <= 1 && 0 < |data| <= DATAZ
    ensures var input := AsInput(noise + Encode(seqno, data));
            if |noise| <= GARBAGE then ReceiveAll(r, input) == TakeBlock(r, seqno, data)
            else ReceiveAll(r, input) == r.(mode := Skipping(false)) && ReceiveAll(r, input + [Quiet]) == r
  {
    hide Receive, ReceiveAll, Accept, Encode;
    if |noise| <= GARBAGE {
      LittleNoise(r, noise);
      assert AsInput(noise + Encode(seqno, data)) == AsInput(noise) + AsInput(Encode(seqno, data));
      ReceiveConcat(r, AsInput(noise), AsInput(Encode(seqno, data)));
      FrameTaken(r.(garbage := |noise|), seqno, data);
    } else {
      var n := GARBAGE + 1;
      var more := noise[n..] + Encode(seqno, data);
      assert noise + Encode(seqno, data) == noise[..n] + more;
      MuchNoise(r, noise[..n], more);
    }
  }

  // ----- Silence

  function Times(n: nat, b: Bytes): seq<Bytes>
  {
    if n == 0 then [] else [b] + Times(n - 1, b)
  }

  function Silence(n: nat): seq<In>
  {
    if n == 0 then [] else [Quiet] + Silence(n - 1)
  }

  predicate Expecting(r: Receiver)
  {
    Fit(r) && r.status == Running && !r.mode.Skipping? && !r.mode.Body?
  }

  lemma {:induction false} OneSilence(r: Receiver)
    requires Expecting(r)
    ensures Fit(Receive(r, Quiet))
    ensures Receive(r, Quiet)
            == if r.retrys < RRETRYS then r.(retrys := r.retrys + 1, out := r.out + [[ENQ, ENQ]])
               else r.(retrys := r.retrys + 1, out := r.out + [[ETX, ETX, ETX, ETX]], status := Protocol)
  {
  }

  lemma {:induction false} OneTime(out: seq<Bytes>, n: nat, b: Bytes)
    ensures out + [b] + Times(n, b) == out + Times(n + 1, b) && out + Times(0, b) == out
  {
  }

  // A receiver that waits for a block, or is in the header of one, asks for it at each time-out, and
  // stays where it is; RRETRYS times since the block's first byte, and then it gives up.
  lemma {:induction false} SilenceAsked(r: Receiver, n: nat)
    requires Expecting(r) && r.retrys <= RRETRYS
    ensures var t := ReceiveAll(r, Silence(n)); var left := RRETRYS - r.retrys;
            if n <= left then t == r.(retrys := r.retrys + n, out := r.out + Times(n, [ENQ, ENQ]))
            else t == r.(retrys := RRETRYS + 1, status := Protocol,
                         out := r.out + Times(left, [ENQ, ENQ]) + [[ETX, ETX, ETX, ETX]])
    decreases n
  {
    hide Receive, Times;
    OneTime(r.out, 0, [ENQ, ENQ]);
    if n > 0 {
      OneSilence(r);
      var s := Receive(r, Quiet);
      assert Silence(n)[1..] == Silence(n - 1);
      if r.retrys < RRETRYS {
        SilenceAsked(s, n - 1);
        OneTime(r.out, n - 1, [ENQ, ENQ]);
        OneTime(r.out, RRETRYS - r.retrys - 1, [ENQ, ENQ]);
      } else {
        ReceiveEnded(s, Silence(n - 1));
      }
    }
  }

  // ----- Writes that fall short

  // The `k`-th write from now takes `n` bytes whole.
  predicate TakesAll(faults: seq<int>, k: nat, n: nat)
  {
    k < |faults| ==> n <= faults[k]
  }

  // A block is saved if and only if one of its first XRETRYS + 1 writes takes it whole.
  lemma {:induction false} SavedIff(d: Disk, data: Bytes)
    requires d.pos <= |d.file|
    ensures SaveBlock(d, data, 0).ok <==> exists k :: 0 <= k <= XRETRYS && TakesAll(d.faults, k, |data|)
  {
    RetriesIff(d, data, 0);
  }

  lemma {:induction false} RetriesIff(d: Disk, data: Bytes, wretrys: nat)
    requires d.pos <= |d.file| && wretrys <= XRETRYS
    ensures SaveBlock(d, data, wretrys).ok
            <==> exists k :: 0 <= k <= XRETRYS - wretrys && TakesAll(d.faults, k, |data|)
    decreases XRETRYS - wretrys
  {
    hide Overwrite;
    WrittenIs(d, data);
    var n, e := Taken(d, data), Written(d, data);
    assert n == |data| <==> TakesAll(d.faults, 0, |data|);
    if n != |data| && wretrys < XRETRYS {
      var next := if n > 0 then e.(pos := e.pos - n) else e;
      RetriesIff(next, data, wretrys + 1);
      assert next.faults == d.faults[1..];
      forall k: nat
        ensures TakesAll(d.faults, k + 1, |data|) <==> TakesAll(next.faults, k, |data|)
      {
      }
      if k: nat :| k <= XRETRYS - wretrys && TakesAll(d.faults, k, |data|) {
        assert TakesAll(next.faults, k - 1, |data|);
      }
    }
  }

  // What the receiver counts is what it has written, unless it has given up.
  lemma {:induction false} SizeCounted(r: Receiver, input: seq<In>)
    requires Fit(r)
    ensures var t := ReceiveAll(r, input);
            t.status != Protocol ==> t.disk.pos - t.filesize == r.disk.pos - r.filesize
    decreases input
  {
    hide Receive;
    if input != [] {
      ReceiveFit(r, input[0]);
      OneCounted(r, input[0]);
      SizeCounted(Receive(r, input[0]), input[1..]);
      if Receive(r, input[0]).status == Protocol {
        ReceiveEnded(Receive(r, input[0]), input[1..]);
      }
    }
  }

  lemma {:induction false} OneCounted(r: Receiver, x: In)
    requires Fit(r)
    ensures var t := Receive(r, x); t.status != Protocol ==> t.disk.pos - t.filesize == r.disk.pos - r.filesize
  {
    hide SaveBlock, CrcOf;
    if r.status == Running && x.Got? && r.mode.Body? && |r.mode.got| + 1 == r.size + TRAILER {
      AcceptCounted(r, (r.mode.got + [x.b])[..r.size]);
    }
  }

  lemma {:induction false} AcceptCounted(r: Receiver, data: Bytes)
    requires Sound(r) && r.status == Running
    ensures var t := Accept(r, data); t.status != Protocol ==> t.disk.pos - t.filesize == r.disk.pos - r.filesize
  {
    hide SaveBlock;
    var again := r.seqno == r.lastseq && r.lastsize > 0;
    SaveBlockIs(if again then r.disk.(pos := r.disk.pos - r.lastsize) else r.disk, data, 0);
  }

  // ----- Noise for the sender

  predicate NoReply(noise: Bytes)
  {
    forall i :: 0 <= i < |noise| ==> !ReplyType(noise[i])
  }

  lemma {:induction false} NoiseHeard(a: Answer, noise: Bytes, more: seq<In>)
    requires NoReply(noise) && noise != [] && a.synce + |noise| == GARBAGE + 1
    ensures Listen(a, AsInput(noise) + more) == Heard(a.(typ := noise[|noise| - 1], synce := GARBAGE + 1), more)
    decreases noise
  {
    var input := AsInput(noise) + more;
    assert input[0] == Got(noise[0]) && input[1..] == AsInput(noise[1..]) + more;
    if |noise| > 1 {
      NoiseHeard(a.(typ := noise[0], synce := a.synce + 1), noise[1..], more);
    } else {
      assert AsInput(noise[1..]) + more == more;
    }
  }

  lemma {:induction false} FlushedTo(junk: Bytes, rest: seq<In>)
    ensures Flushed(AsInput(junk) + ([Quiet] + rest)) == rest && Quiet in AsInput(junk) + ([Quiet] + rest)
    decreases junk
  {
    var input := AsInput(junk) + ([Quiet] + rest);
    if junk == [] {
      assert input == [Quiet] + rest && input[1..] == rest;
    } else {
      assert input[1..] == AsInput(junk[1..]) + ([Quiet] + rest);
      FlushedTo(junk[1..], rest);
    }
  }

  // After more noise than GARBAGE, a sender hears nothing until the line is silent, not even an
  // acknowledgement; and then sends its block again, or gives up.
  lemma {:induction false} NoiseDeafens(s: Sender, file: Bytes, a: Answer, noise: Bytes, junk: Bytes, rest: seq<In>)
    requires NoReply(noise) && |noise| == GARBAGE + 1
    ensures var input := AsInput(noise) + (AsInput(junk) + ([Quiet] + rest));
            var h := Settled(Listen(a.(timedout := false, synce := 0), input));
            && h.Heard? && h.rest == rest
            && Answered(s, file, h.answer) == s.(retrys := s.retrys + 1,
                                                 status := if s.retrys < XRETRYS then s.status else Protocol)
  {
    var more := AsInput(junk) + ([Quiet] + rest);
    NoiseHeard(a.(timedout := false, synce := 0), noise, more);
    FlushedTo(junk, rest);
  }
}
