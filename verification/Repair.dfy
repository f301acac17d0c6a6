/** How a receiver comes by what it has missed: an EOM makes it ask, and an answer leaves less to ask for. */
module Repair {
  import opened Channel
  import opened GapList
  import opened Receiver
  import opened Coverage

  // The byte at `a` has come.
  predicate Has(s: Snap, a: nat)
  {
    a < s.msgaddr && !In(s.gaps, a)
  }

  // The bytes still to come of a message of `size`.
  function Missing(s: Snap, size: nat): set<nat>
  {
    set a: nat | a < size && !Has(s, a)
  }

  // A request for bytes of the message, of which the first is missing.
  predicate AsksFor(p: Packet, s: Snap)
  {
    p.Nak? && 0 < p.len && p.addr + p.len <= s.msgsize && p.addr <= s.msgaddr && !Has(s, p.addr)
  }

  // The reader has room to ask.
  predicate Room(env: Env)
  {
    env.outDataSize > 0 && env.naksize % ULONG > 0
  }

  // ----- EOM

  lemma {:induction false} NaksFirst(addr: nat, length: nat, env: Env, msgsize: nat)
    requires length > 0 && Room(env)
    ensures var naks := Naks(addr, length, env.outDataSize, env, msgsize);
            naks != [] && naks[0].Nak? && naks[0].addr == addr && 0 < naks[0].len <= length
  {
  }

  lemma {:induction false} NakAllFirst(gl: seq<Gap>, maxlength: nat, eomcount: nat, env: Env, msgsize: nat)
    requires Well(gl, msgsize) && gl != [] && maxlength > 0 && Due(gl[0], eomcount, env) && Room(env)
    ensures var naks := NakAll(gl, maxlength, eomcount, env, msgsize).naks;
            && naks != [] && naks[0].Nak? && naks[0].addr == gl[0].start
            && 0 < naks[0].len && naks[0].addr + naks[0].len <= msgsize
  {
    hide Naks;
    NaksFirst(gl[0].start, gl[0].end - gl[0].start, env, msgsize);
  }

  // An EOM is counted, and what is missing at the end noted.
  function Counted(s: Snap, env: Env): Snap
  {
    var t := MissedTail(s, env);
    t.(eomcount := t.eomcount + 1)
  }

  // Bytes never seen were missing before.
  lemma {:induction false} TailHas(s: Snap, m: seq<Byte>, env: Env, a: nat)
    requires Receiving(s, m) && a < |m|
    ensures Has(Counted(s, env), a) == Has(s, a)
  {
    hide Queued, Naks;
    if s.msgaddr < |m| {
      QueuedIn(s.gaps, s.msgaddr, |m|, env.time, |m|, a);
    }
  }

  lemma {:induction false} AskHas(s: Snap, maxlength: nat, env: Env, a: nat)
    requires Well(s.gaps, s.msgsize)
    ensures Has(AskAgain(s, maxlength, env), a) == Has(s, a)
  {
    hide NakAll;
    NakAllRanges(s.gaps, maxlength, s.eomcount, env, s.msgsize);
    SameRangesIn(NakAll(s.gaps, maxlength, s.eomcount, env, s.msgsize).gaps, s.gaps, s.msgsize);
  }

  // The first gap was asked for long ago, if there is one, or not since the last EOM.
  predicate Overdue(s: Snap, env: Env)
  {
    s.gaps != [] ==> s.gaps[0].time <= env.time - NAK_TIMEOUT || s.gaps[0].send <= s.eomcount
  }

  // What the missed tail of a message leads to: it is asked for, unless it was known to be missing.
  lemma {:induction false} TailAsks(s: Snap, m: seq<Byte>, env: Env)
    requires Receiving(s, m) && s.pout == [] && Room(env) && Counted(s, env).gaps != []
    ensures var t := Counted(s, env);
            || (t.pout != [] && AsksFor(t.pout[0], t))
            || (t.gaps == s.gaps && t.pout == [] && t.gaps[0].start <= t.msgaddr)
  {
    hide Queued, Naks;
    var t := Counted(s, env);
    if s.msgaddr < |m| {
      var q := Queued(s.gaps, s.msgaddr, |m|, env.time);
      QueuedNak(s.gaps, s.msgaddr, |m|, env.time, |m|);
      if q.nak {
        NaksFirst(s.msgaddr, q.end - s.msgaddr, env, |m|);
        TailHas(s, m, env, s.msgaddr);
      } else {
        var g :| g in s.gaps && g.start <= s.msgaddr && |m| <= g.end;
        LaterStart(s.gaps, |m|, g);
      }
    }
  }

  lemma {:induction false} NotFinished(s: Snap, env: Env)
    requires (s.state == Active || s.state == Ending) && Well(s.gaps, s.msgsize) && Room(env)
    requires RecvEomOf(s, s.msgid, s.msgsize, env).handed == s.handed
    ensures Counted(s, env).gaps != [] && Well(Counted(s, env).gaps, Counted(s, env).msgsize)
    ensures RecvEomOf(s, s.msgid, s.msgsize, env) == AskAgain(Counted(s, env), env.naksize % ULONG, env)
  {
    hide NakAll, MissedTail;
    MissedTailWell(s, env);
    MissedTailHanded(s, env);
    MissedTailNone(s, env);
    EomHandsOver(s, env);
  }

  lemma {:induction false} AskAsks(s: Snap, maxlength: nat, env: Env)
    requires Well(s.gaps, s.msgsize) && s.gaps != [] && Room(env) && maxlength > 0
    requires || (s.pout != [] && AsksFor(s.pout[0], s))
             || (Due(s.gaps[0], s.eomcount, env) && s.pout == [] && s.gaps[0].start <= s.msgaddr)
    ensures var t := AskAgain(s, maxlength, env); t.pout != [] && AsksFor(t.pout[0], t)
  {
    hide NakAll;
    var t := AskAgain(s, maxlength, env);
    if s.pout == [] {
      NakAllFirst(s.gaps, maxlength, s.eomcount, env, s.msgsize);
    }
    AskHas(s, maxlength, env, t.pout[0].addr);
  }

  lemma {:induction false} SameMissing(s: Snap, m: seq<Byte>, env: Env)
    requires Receiving(s, m) && Well(Counted(s, env).gaps, Counted(s, env).msgsize)
    ensures Missing(AskAgain(Counted(s, env), env.naksize % ULONG, env), |m|) == Missing(s, |m|)
  {
    hide Has, AskAgain, Counted, Receiving;
    forall a: nat | a < |m|
      ensures Has(AskAgain(Counted(s, env), env.naksize % ULONG, env), a) == Has(s, a)
    {
      TailHas(s, m, env, a);
      AskHas(Counted(s, env), env.naksize % ULONG, env, a);
    }
  }

  // An EOM that does not hand the message over is answered first with a NAK for missing bytes, once
  // what has been asked for already is overdue.
  lemma {:induction false} EomAsks(s: Snap, t: Snap, m: seq<Byte>, env: Env)
    requires Receiving(s, m) && s.pout == [] && Room(env) && Overdue(s, env)
    requires UpToDisk(RecvEomOf(s, s.msgid, s.msgsize, env), t)
    ensures || HandedOver(s, t, m)
            || (&& Receiving(t, m) && t.msgid == s.msgid && t.handed == s.handed
                && t.pout != [] && AsksFor(t.pout[0], t) && Missing(t, |m|) == Missing(s, |m|))
  {
    hide MissedTail, RecvEomOf, AskAgain, HandedOver, Receiving;
    EomKeeps(s, t, m, s.msgid, s.msgsize, env);
    ReceivingFile(s, m);
    if Receiving(t, m) && t.msgid == s.msgid && t.handed == s.handed {
      NotFinished(s, env);
      TailAsks(s, m, env);
      MissedTailHanded(s, env);
      AskAsks(Counted(s, env), env.naksize % ULONG, env);
      SameMissing(s, m, env);
    }
  }

  // ----- DATA

  lemma {:induction false} OldFills(s: Snap, m: seq<Byte>, addr: nat, data: seq<Byte>)
    requires Receiving(s, m) && data != [] && addr < s.msgaddr && In(s.gaps, addr) && addr + |data| <= |m|
    ensures Missing(RecvOldOf(s, addr, data), |m|) < Missing(s, |m|)
  {
    hide Filled, BeginsIn, WriteAt;
    var t := RecvOldOf(s, addr, data);
    HitsMeets(s.gaps, addr, addr + |data|, |m|);
    forall a: nat
      ensures In(t.gaps, a) <==> In(s.gaps, a) && !(addr <= a < addr + |data|)
    {
      FilledIn(s.gaps, addr, addr + |data|, |m|, a);
    }
    assert addr in Missing(s, |m|) && addr !in Missing(t, |m|);
  }

  lemma {:induction false} NewGaps(s: Snap, m: seq<Byte>, data: seq<Byte>, env: Env, a: nat)
    requires Receiving(s, m) && data != [] && s.msgaddr + |data| <= |m|
    ensures var t := RecvNewOf(s, s.msgaddr, data, env);
            && t.msgaddr == s.msgaddr + |data|
            && (In(t.gaps, a) <==> In(s.gaps, a) && !(s.msgaddr <= a < s.msgaddr + |data|))
  {
    hide Filled, BeginsIn, WriteAt, NakAll, AskAgain;
    var p := Placed(s, s.msgaddr, |data|, env);
    PlacedWell(s, s.msgaddr, |data|, env);
    AskHas(p.(msgaddr := a + 1), env.window % ULONG, env, a);
    AskId(p, env.window % ULONG, env, p.view, a + 1);
    FilledIn(s.gaps, s.msgaddr, s.msgaddr + |data|, |m|, a);
  }

  lemma {:induction false} NewFills(s: Snap, m: seq<Byte>, data: seq<Byte>, env: Env)
    requires Receiving(s, m) && data != [] && s.msgaddr + |data| <= |m|
    ensures Missing(RecvNewOf(s, s.msgaddr, data, env), |m|) < Missing(s, |m|)
  {
    hide RecvNewOf;
    var t := RecvNewOf(s, s.msgaddr, data, env);
    NewGaps(s, m, data, env, s.msgaddr);
    forall a: nat
      ensures In(t.gaps, a) <==> In(s.gaps, a) && !(s.msgaddr <= a < s.msgaddr + |data|)
    {
      NewGaps(s, m, data, env, a);
    }
    assert s.msgaddr in Missing(s, |m|) && s.msgaddr !in Missing(t, |m|);
  }

  // DATA from a missing address on leaves less to ask for.
  lemma {:induction false} DataFills(s: Snap, t: Snap, m: seq<Byte>, addr: nat, data: seq<Byte>, env: Env)
    requires Receiving(s, m) && data != [] && addr + |data| <= |m| && addr <= s.msgaddr && !Has(s, addr)
    requires UpToDisk(RecvDataOf(s, addr, data, env), t)
    ensures Missing(t, |m|) < Missing(s, |m|)
  {
    hide RecvOldOf, RecvNewOf, In;
    if addr < s.msgaddr {
      OldFills(s, m, addr, data);
    } else {
      NewFills(s, m, data, env);
    }
  }

  // Nothing is missing below the position.
  ghost predicate Solid(s: Snap)
  {
    forall a :: 0 <= a < s.msgaddr ==> !In(s.gaps, a)
  }

  // The next DATA leaves it so.
  lemma {:induction false} NextSolid(s: Snap, t: Snap, m: seq<Byte>, data: seq<Byte>, env: Env)
    requires Receiving(s, m) && Solid(s) && data != [] && s.msgaddr + |data| <= |m|
    requires data == m[s.msgaddr..s.msgaddr + |data|]
    requires UpToDisk(RecvDataOf(s, s.msgaddr, data, env), t)
    ensures Receiving(t, m) && Solid(t) && t.state == Active && t.msgaddr == s.msgaddr + |data|
    ensures t.handed == s.handed
  {
    hide RecvNewOf, Receiving;
    ReceivingFile(s, m);
    NewKeeps(s, m, s.msgaddr, data, env);
    NewActive(s, m, data, env);
    DataKeeps(s, t, m, s.msgaddr, data, env);
    forall a | 0 <= a < t.msgaddr
      ensures !In(t.gaps, a)
    {
      NewGaps(s, m, data, env, a);
    }
    NewGaps(s, m, data, env, 0);
  }

  lemma {:induction false} NewActive(s: Snap, m: seq<Byte>, data: seq<Byte>, env: Env)
    requires Receiving(s, m) && data != [] && s.msgaddr + |data| <= |m|
    ensures RecvNewOf(s, s.msgaddr, data, env).state == Active
  {
    hide Filled, BeginsIn, WriteAt, NakAll;
    PlacedWell(s, s.msgaddr, |data|, env);
  }

  // When all has come in order, nothing is missing.
  lemma {:induction false} SolidAll(s: Snap, m: seq<Byte>)
    requires Receiving(s, m) && Solid(s) && s.msgaddr == |m|
    ensures s.gaps == []
  {
    if s.gaps != [] {
      assert In(s.gaps, s.gaps[0].start);
    }
  }

  // An EOM of which the receiver has nothing and knows nothing brings a NAK for the whole message.
  lemma {:induction false} WholeAsked(s: Snap, t: Snap, m: seq<Byte>, env: Env)
    requires Receiving(s, m) && s.pout == [] && s.msgaddr == 0 < |m| && s.gaps == [] && Room(env)
    requires UpToDisk(RecvEomOf(s, s.msgid, s.msgsize, env), t)
    ensures t.pout != [] && t.pout[0] == Nak(0, |m|) && t.msgaddr == 0 && t.handed == s.handed
    ensures t.state == s.state
  {
    hide NakAll;
    var q := Queued(s.gaps, 0, |m|, env.time);
    NaksWhole(|m|, env);
    MissedTailWell(s, env);
    assert q.nak && q.end == |m|;
  }

  lemma {:induction false} NaksWhole(size: nat, env: Env)
    requires size > 0 && Room(env)
    ensures var naks := Naks(0, size, env.outDataSize, env, size); naks != [] && naks[0] == Nak(0, size)
  {
  }
}
