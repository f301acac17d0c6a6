/** What a receiver asks for again, and when, while DATA goes on coming (RecvData and SendNAK,
    HTdaemon/receiver.c; NAKGaps, HTdaemon/gap.c). */
module Asking {
  import opened Channel
  import opened GapList
  import opened Receiver
  import opened Coverage
  import opened Repair

  // The gap was last asked for long ago, or less often than EOMs have come.
  predicate Old(g: Gap, eomcount: nat, time: int)
  {
    g.time + NAK_TIMEOUT <= time || g.send < eomcount
  }

  // Where the first such gap begins.
  datatype Place = None | At(start: nat)

  function Oldest(gl: seq<Gap>, eomcount: nat, time: int): Place
  {
    if gl == [] then None
    else if Old(gl[0], eomcount, time) then At(gl[0].start)
    else Oldest(gl[1..], eomcount, time)
  }

  // The bytes that are missing.
  function Span(gl: seq<Gap>): int
  {
    if gl == [] then 0 else gl[0].end - gl[0].start + Span(gl[1..])
  }

  // Those of the gaps that are old.
  function OldOnes(gl: seq<Gap>, eomcount: nat, time: int): seq<Gap>
  {
    if gl == [] then []
    else (if Old(gl[0], eomcount, time) then [gl[0]] else []) + OldOnes(gl[1..], eomcount, time)
  }

  // ----- Asking again

  // The first NAK is for the first of them.
  lemma {:induction false} FirstAsked(gl: seq<Gap>, maxlength: nat, eomcount: nat, env: Env, msgsize: nat)
    requires Well(gl, msgsize) && maxlength > 0 && Room(env) && Oldest(gl, eomcount, env.time).At?
    ensures var naks := NakAll(gl, maxlength, eomcount, env, msgsize).naks;
            && naks != [] && naks[0].Nak? && 0 < naks[0].len
            && naks[0].addr == Oldest(gl, eomcount, env.time).start
  {
    hide Naks;
    if Due(gl[0], eomcount, env) {
      NakAllFirst(gl, maxlength, eomcount, env, msgsize);
    } else {
      FirstAsked(gl[1..], maxlength, eomcount, env, msgsize);
      assert NakAll(gl, maxlength, eomcount, env, msgsize).naks
             == [] + NakAll(gl[1..], maxlength, eomcount, env, msgsize).naks;
    }
  }

  // The gap has been asked for now.
  predicate AskedNow(g: Gap, h: Gap, eomcount: nat, time: int)
  {
    h == g.(time := time, send := if g.send < eomcount then g.send + 1 else g.send)
  }

  ghost predicate AskedAt(naks: seq<Packet>, start: nat)
  {
    exists p :: p in naks && p.Nak? && p.addr == start && 0 < p.len
  }

  lemma {:induction false} FirstNow(gl: seq<Gap>, maxlength: nat, eomcount: nat, env: Env, msgsize: nat)
    requires Well(gl, msgsize) && Room(env) && gl != [] && Old(gl[0], eomcount, env.time) && 0 < maxlength
    ensures var r := NakAll(gl, maxlength, eomcount, env, msgsize);
            && |r.gaps| == |gl| && AskedNow(gl[0], r.gaps[0], eomcount, env.time) && AskedAt(r.naks, gl[0].start)
  {
    hide Naks;
    NakAllFirst(gl, maxlength, eomcount, env, msgsize);
    NakAllRanges(gl, maxlength, eomcount, env, msgsize);
    var r := NakAll(gl, maxlength, eomcount, env, msgsize);
    assert r.naks[0] in r.naks;
  }

  // Every one of them is asked for, if there is room for those before it; and noted as asked now.
  lemma {:induction false} EachAsked(gl: seq<Gap>, maxlength: nat, eomcount: nat, env: Env, msgsize: nat, k: nat)
    requires Well(gl, msgsize) && Room(env) && k < |gl| && Old(gl[k], eomcount, env.time)
    requires Span(gl[..k]) < maxlength < ULONG
    ensures var r := NakAll(gl, maxlength, eomcount, env, msgsize);
            && |r.gaps| == |gl| && AskedNow(gl[k], r.gaps[k], eomcount, env.time) && AskedAt(r.naks, gl[k].start)
    decreases k
  {
    hide NakAll, Naks, Old, AskedNow, NakBytes;
    WellPrefix(gl, msgsize, k);
    SpanUp(gl[..k], msgsize);
    if k == 0 {
      FirstNow(gl, maxlength, eomcount, env, msgsize);
    } else {
      var g, rest := gl[0], gl[1..];
      assert gl[..k][0] == g && gl[..k][1..] == rest[..k - 1] && rest[k - 1] == gl[k];
      WellPrefix(rest, msgsize, k - 1);
      SpanUp(rest[..k - 1], msgsize);
      var naks := NaksFor(g, eomcount, env, msgsize);
      NaksTile(g.start, g.end - g.start, env.outDataSize, env, msgsize);
      RoomLeft(maxlength, if Due(g, eomcount, env) then NakBytes(naks) else 0);
      var max := if Due(g, eomcount, env) then (maxlength - NakBytes(naks)) % ULONG else maxlength;
      EachAsked(rest, max, eomcount, env, msgsize, k - 1);
      Behind(gl, maxlength, eomcount, env, msgsize, max, k);
    }
  }

  lemma {:induction false} RoomLeft(maxlength: nat, sent: nat)
    requires sent <= maxlength < ULONG
    ensures (maxlength - sent) % ULONG == maxlength - sent
  {
  }

  // What is asked for of the gaps behind the first.
  lemma {:induction false} Behind(gl: seq<Gap>, maxlength: nat, eomcount: nat, env: Env, msgsize: nat, max: nat, k: nat)
    requires Well(gl, msgsize) && gl != [] && maxlength != 0 && 0 < k
    requires max == if Due(gl[0], eomcount, env)
                    then (maxlength - NakBytes(NaksFor(gl[0], eomcount, env, msgsize))) % ULONG else maxlength
    ensures var r := NakAll(gl, maxlength, eomcount, env, msgsize);
            var s := NakAll(gl[1..], max, eomcount, env, msgsize);
            && |r.gaps| == |s.gaps| + 1 && (k <= |s.gaps| ==> r.gaps[k] == s.gaps[k - 1])
            && forall p :: p in s.naks ==> p in r.naks
  {
    hide Naks, NakBytes;
  }

  lemma {:induction false} WellPrefix(gl: seq<Gap>, limit: nat, k: nat)
    requires Well(gl, limit) && k <= |gl|
    ensures Well(gl[..k], limit)
  {
    if k > 0 {
      WellPrefix(gl[1..], limit, k - 1);
      assert gl[..k][1..] == gl[1..][..k - 1];
    }
  }

  lemma {:induction false} SpanUp(gl: seq<Gap>, limit: nat)
    ensures Well(gl, limit) ==> Span(gl) >= 0
  {
    if gl != [] {
      SpanUp(gl[1..], limit);
    }
  }

  // And nothing else is.
  lemma {:induction false} OldAsked(gl: seq<Gap>, maxlength: nat, eomcount: nat, env: Env, msgsize: nat)
    requires Well(gl, msgsize)
    ensures Within(NakAll(gl, maxlength, eomcount, env, msgsize).naks, OldOnes(gl, eomcount, env.time))
  {
    hide Naks;
    if gl != [] && maxlength != 0 {
      var g := gl[0];
      var naks := NaksFor(g, eomcount, env, msgsize);
      var max := if Due(g, eomcount, env) then (maxlength - NakBytes(naks)) % ULONG else maxlength;
      OldAsked(gl[1..], max, eomcount, env, msgsize);
      NaksTile(g.start, g.end - g.start, env.outDataSize, env, msgsize);
      var olds := OldOnes(gl, eomcount, env.time);
      if Due(g, eomcount, env) {
        assert olds == [g] + OldOnes(gl[1..], eomcount, env.time) && olds[1..] == OldOnes(gl[1..], eomcount, env.time);
        TilesWithin(naks, g.start, g.start + NakBytes(naks), olds);
      } else {
        assert olds == OldOnes(gl[1..], eomcount, env.time);
      }
    }
  }

  // ----- DATA

  // A gap that begins below what is filled, or noted, is where it was.
  lemma {:induction false} OldestFilled(gl: seq<Gap>, start: nat, end: nat, limit: nat, eomcount: nat, time: int)
    requires Well(gl, limit) && start < end
    requires Oldest(gl, eomcount, time).At? && Oldest(gl, eomcount, time).start < start
    ensures Oldest(Filled(gl, start, end), eomcount, time) == Oldest(gl, eomcount, time)
  {
    var f := Filled(gl, start, end);
    if !Old(gl[0], eomcount, time) {
      OldestBehind(gl, limit, eomcount, time);
      OldestFilled(gl[1..], start, end, limit, eomcount, time);
      assert f == gl[..1] + Filled(gl[1..], start, end) && f[1..] == Filled(gl[1..], start, end);
    }
  }

  lemma {:induction false} OldestBehind(gl: seq<Gap>, limit: nat, eomcount: nat, time: int)
    requires Well(gl, limit) && gl != [] && Oldest(gl[1..], eomcount, time).At?
    ensures gl[0].end < Oldest(gl[1..], eomcount, time).start
  {
    if !Old(gl[1], eomcount, time) {
      OldestBehind(gl[1..], limit, eomcount, time);
    }
  }

  lemma {:induction false} OldestQueued(gl: seq<Gap>, start: nat, end: nat, limit: nat, eomcount: nat, time: int)
    requires Well(gl, limit) && start < end
    requires Oldest(gl, eomcount, time).At? && Oldest(gl, eomcount, time).start < start
    ensures Oldest(Queued(gl, start, end, time).gaps, eomcount, time) == Oldest(gl, eomcount, time)
  {
    if !Old(gl[0], eomcount, time) {
      OldestBehind(gl, limit, eomcount, time);
      OldestQueued(gl[1..], start, end, limit, eomcount, time);
      var q := Queued(gl, start, end, time).gaps;
      assert q == [gl[0]] + Queued(gl[1..], start, end, time).gaps && q[1..] == Queued(gl[1..], start, end, time).gaps;
    }
  }

  // The NAKs for bytes that have been passed over, if they were not known to be missing: they follow
  // each other from the first of those bytes, and ask for all of them unless the packet is full.
  ghost predicate New(naks: seq<Packet>, s: Snap, addr: nat, env: Env)
  {
    if s.msgaddr == addr || (exists g :: g in s.gaps && g.start <= s.msgaddr && addr <= g.end) then naks == []
    else
      && Tiles(naks, s.msgaddr, s.msgaddr + NakBytes(naks)) && s.msgaddr + NakBytes(naks) <= s.msgsize
      && (NakBytes(naks) < addr - s.msgaddr ==> |naks| * env.nakBytes >= env.outDataSize)
  }

  lemma {:induction false} PlacedAsks(s: Snap, addr: nat, size: nat, env: Env) returns (naks: seq<Packet>)
    requires Well(s.gaps, s.msgsize) && size > 0 && s.msgaddr <= addr && addr + size <= s.msgsize
    ensures var t := Placed(s, addr, size, env);
            && New(naks, s, addr, env) && t.pout == s.pout + naks
            && t.eomcount == s.eomcount && t.chkpttime == s.chkpttime && t.msgsize == s.msgsize
            && (Oldest(s.gaps, s.eomcount, env.time).At? && Oldest(s.gaps, s.eomcount, env.time).start < s.msgaddr ==>
                  Oldest(t.gaps, s.eomcount, env.time) == Oldest(s.gaps, s.eomcount, env.time))
  {
    hide Queued, Naks, Filled, BeginsIn, Oldest;
    naks := [];
    if s.msgaddr < addr {
      var q := Queued(s.gaps, s.msgaddr, addr, env.time);
      QueuedNak(s.gaps, s.msgaddr, addr, env.time, s.msgsize);
      if q.nak {
        naks := Naks(s.msgaddr, q.end - s.msgaddr, env.outDataSize, env, s.msgsize);
        NaksTile(s.msgaddr, q.end - s.msgaddr, env.outDataSize, env, s.msgsize);
        NaksBudget(s.msgaddr, q.end - s.msgaddr, env.outDataSize, env, s.msgsize);
      }
      if Oldest(s.gaps, s.eomcount, env.time).At? && Oldest(s.gaps, s.eomcount, env.time).start < s.msgaddr {
        OldestQueued(s.gaps, s.msgaddr, addr, s.msgsize, s.eomcount, env.time);
      }
    } else {
      assert s.pout + [] == s.pout;
      if Oldest(s.gaps, s.eomcount, env.time).At? && Oldest(s.gaps, s.eomcount, env.time).start < s.msgaddr {
        OldestFilled(s.gaps, addr, addr + size, s.msgsize, s.eomcount, env.time);
      }
    }
  }

  // What DATA at or above the position makes the receiver ask for: what it passes over; and when the
  // last checkpoint is long ago, what has not come that was asked for before.
  lemma {:induction false} DataAsks(s: Snap, addr: nat, data: seq<Byte>, env: Env)
      returns (naks: seq<Packet>, again: seq<Packet>)
    requires (s.state == Active || s.state == Ending) && s.msgfile && Well(s.gaps, s.msgsize)
    requires data != [] && s.msgaddr <= addr && addr + |data| <= s.msgsize
    ensures var t := RecvDataOf(s, addr, data, env); var due := Oldest(s.gaps, s.eomcount, env.time);
            && New(naks, s, addr, env) && t.pout == s.pout + naks + again
            && (env.time <= s.chkpttime + NAK_TIMEOUT ==> again == [] && t.chkpttime == s.chkpttime)
            && (s.chkpttime + NAK_TIMEOUT < env.time ==> t.chkpttime == env.time)
            && (s.chkpttime + NAK_TIMEOUT < env.time && due.At? && due.start < s.msgaddr
                && Room(env) && env.window % ULONG > 0 ==>
                  again != [] && again[0].Nak? && again[0].addr == due.start && 0 < again[0].len)
  {
    hide Placed, NakAll, WriteAt, New, Oldest;
    naks := PlacedAsks(s, addr, |data|, env);
    PlacedWell(s, addr, |data|, env);
    var p := Placed(s, addr, |data|, env);
    var max := env.window % ULONG;
    again := [];
    if s.chkpttime < env.time - NAK_TIMEOUT && p.gaps != [] {
      again := NakAll(p.gaps, max, p.eomcount, env, p.msgsize).naks;
      if Oldest(p.gaps, p.eomcount, env.time).At? && Room(env) && max > 0 {
        FirstAsked(p.gaps, max, p.eomcount, env, p.msgsize);
      }
    } else {
      assert p.pout + [] == p.pout;
      NoGapNoOldest(p.gaps, p.eomcount, env.time);
    }
  }

  lemma {:induction false} NoGapNoOldest(gl: seq<Gap>, eomcount: nat, time: int)
    ensures gl == [] ==> Oldest(gl, eomcount, time) == None
  {
  }

  // ----- EOM

  // An EOM is counted, and asks for every gap that has been asked for no more often than EOMs had
  // come before it, however lately, if there is room for those before it.
  lemma {:induction false} EomAsksEach(s: Snap, env: Env, k: nat)
    requires (s.state == Active || s.state == Ending) && Well(s.gaps, s.msgsize) && Room(env)
    requires s.msgsize <= s.msgaddr && k < |s.gaps| && s.gaps[k].send <= s.eomcount
    requires Span(s.gaps[..k]) < env.naksize % ULONG
    ensures var t := RecvEomOf(s, s.msgid, s.msgsize, env);
            && t.eomcount == s.eomcount + 1 && t.handed == s.handed && t.state == Ending
            && |t.gaps| == |s.gaps| && AskedNow(s.gaps[k], t.gaps[k], s.eomcount + 1, env.time)
            && AskedAt(t.pout, s.gaps[k].start)
  {
    hide NakAll;
    var max := env.naksize % ULONG;
    EachAsked(s.gaps, max, s.eomcount + 1, env, s.msgsize, k);
    NakAllCount(s.gaps, max, s.eomcount + 1, env, s.msgsize);
    var r := NakAll(s.gaps, max, s.eomcount + 1, env, s.msgsize);
    var p :| p in r.naks && p.Nak? && p.addr == s.gaps[k].start && 0 < p.len;
    assert p in s.pout + r.naks;
  }

  // A SOM that is repeated starts their count anew: the first EOM after it asks again only for gaps
  // that were last asked for long ago, or never.
  lemma {:induction false} SomAsksAnew(s: Snap, fileThere: bool, env: Env, later: Env) returns (naks: seq<Packet>)
    requires (s.state == Active || s.state == Ending) && s.msgfile && Well(s.gaps, s.msgsize)
    requires s.msgsize <= s.msgaddr && s.gaps != [] && later.naksize % ULONG > 0
    ensures var t := RecvSomOf(s, s.msgid, s.msgsize, fileThere, env);
            && t.pout == s.pout + [Soma(s.msgid, s.msgaddr)] && t.gaps == s.gaps
            && RecvEomOf(t, s.msgid, s.msgsize, later).pout == t.pout + naks
            && Within(naks, OldOnes(s.gaps, 1, later.time))
  {
    hide NakAll;
    var max := later.naksize % ULONG;
    naks := NakAll(s.gaps, max, 1, later, s.msgsize).naks;
    OldAsked(s.gaps, max, 1, later, s.msgsize);
    NakAllCount(s.gaps, max, 1, later, s.msgsize);
  }

  // ----- What is not asked for twice

  lemma {:induction false} UnabsorbedFresh(gl: seq<Gap>, end: nat, eomcount: nat, time: int)
    requires OldOnes(gl, eomcount, time) == []
    ensures OldOnes(Unabsorbed(gl, end), eomcount, time) == []
  {
    if gl != [] && gl[0].start <= end {
      UnabsorbedFresh(gl[1..], if end < gl[0].end then gl[0].end else end, eomcount, time);
    }
  }

  // A gap that is noted has been asked for.
  lemma {:induction false} QueuedFresh(gl: seq<Gap>, start: nat, end: nat, time: int, later: int)
    requires OldOnes(gl, 1, later) == [] && later < time + NAK_TIMEOUT
    ensures OldOnes(Queued(gl, start, end, time).gaps, 1, later) == []
  {
    var q := Queued(gl, start, end, time).gaps;
    if gl == [] || (start <= gl[0].end && end < gl[0].start) {
      assert q[1..] == gl;
    } else if gl[0].end < start {
      QueuedFresh(gl[1..], start, end, time, later);
      assert q[1..] == Queued(gl[1..], start, end, time).gaps;
    } else if gl[0].end < end {
      UnabsorbedFresh(gl[1..], end, 1, later);
      assert q[1..] == Unabsorbed(gl[1..], end);
    } else {
      assert q[1..] == gl[1..];
    }
  }

  lemma {:induction false} FreshSilent(gl: seq<Gap>, maxlength: nat, eomcount: nat, env: Env, msgsize: nat)
    requires Well(gl, msgsize) && OldOnes(gl, eomcount, env.time) == []
    ensures var r := NakAll(gl, maxlength, eomcount, env, msgsize); r.naks == [] && r.gaps == gl
  {
    if gl != [] && maxlength != 0 {
      FreshSilent(gl[1..], maxlength, eomcount, env, msgsize);
      assert gl == [gl[0]] + gl[1..];
    }
  }

  // What the last DATA of a message passes over is asked for then, and not again at an EOM that comes
  // within NAK_TIMEOUT; nor is what was asked for before, if that is no longer ago.
  lemma {:induction false} NotAskedTwice(s: Snap, addr: nat, data: seq<Byte>, env: Env, later: Env)
    requires s.state == Active && s.msgfile && Well(s.gaps, s.msgsize) && s.eomcount == 0
    requires data != [] && s.msgaddr < addr && addr + |data| == s.msgsize && env.time <= s.chkpttime + NAK_TIMEOUT
    requires later.time < env.time + NAK_TIMEOUT && OldOnes(s.gaps, 1, later.time) == [] && later.naksize % ULONG > 0
    ensures var t := RecvDataOf(s, addr, data, env);
            && t.gaps != [] && Well(t.gaps, s.msgsize)
            && RecvEomOf(t, s.msgid, s.msgsize, later) == t.(state := Ending, eomcount := 1)
  {
    hide Queued, NakAll, QueueNaks, WriteAt;
    QueuedWell(s.gaps, s.msgaddr, addr, env.time, s.msgsize);
    QueuedFresh(s.gaps, s.msgaddr, addr, env.time, later.time);
    var t := RecvDataOf(s, addr, data, env);
    FreshSilent(t.gaps, later.naksize % ULONG, 1, later, s.msgsize);
    NakAllCount(t.gaps, later.naksize % ULONG, 1, later, s.msgsize);
    assert t.pout + [] == t.pout;
  }
}
