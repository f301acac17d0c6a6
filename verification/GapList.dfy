/** Missing-range bookkeeping of a receiving channel (HTdaemon/gap.c) and the NAKs
    it provokes (SendNAK, HTdaemon/receiver.c). */
module GapList {
  import opened Channel
  import opened Sequences

  // Sorted, non-empty, strictly separated ranges within [0, limit].
  predicate Well(gl: seq<Gap>, limit: nat)
  {
    gl != [] ==>
      && gl[0].start < gl[0].end <= limit
      && (|gl| > 1 ==> gl[0].end < gl[1].start)
      && Well(gl[1..], limit)
  }

  predicate In(gl: seq<Gap>, a: nat)
  {
    gl != [] && (gl[0].start <= a < gl[0].end || In(gl[1..], a))
  }

  // The first missing address, or the message size when nothing is missing.
  function First(gl: seq<Gap>, limit: nat): nat
  {
    if gl == [] then limit else gl[0].start
  }

  ghost predicate Meets(gl: seq<Gap>, start: nat, end: nat)
  {
    exists a: nat :: start <= a < end && In(gl, a)
  }

  lemma {:induction false} BelowFirst(gl: seq<Gap>, limit: nat, a: nat)
    requires Well(gl, limit) && In(gl, a)
    ensures First(gl, limit) <= a < limit
  {
    if !(gl[0].start <= a < gl[0].end) {
      BelowFirst(gl[1..], limit, a);
    }
  }

  lemma {:induction false} InConcat(x: seq<Gap>, y: seq<Gap>, a: nat)
    ensures In(x + y, a) <==> In(x, a) || In(y, a)
  {
    if x == [] {
      assert x + y == y;
    } else {
      assert (x + y)[1..] == x[1..] + y;
      InConcat(x[1..], y, a);
    }
  }

  // ----- FillGap

  // What is left of a range after filling [start, end).
  function Remains(g: Gap, start: nat, end: nat): seq<Gap>
  {
    if g.start < start then
      if end < g.end then [g.(end := start), g.(start := end)] else [g.(end := start)]
    else
      if end < g.end then [g.(start := end)] else []
  }

  // The list FillGap leaves behind.
  function Filled(gl: seq<Gap>, start: nat, end: nat): seq<Gap>
  {
    if gl == [] || end <= gl[0].start then gl
    else if gl[0].end <= start then gl[..1] + Filled(gl[1..], start, end)
    else Remains(gl[0], start, end) + Filled(gl[1..], start, end)
  }

  // Some range has bytes in [start, end).
  predicate Hits(gl: seq<Gap>, start: nat, end: nat)
  {
    gl != [] && ((start < gl[0].end && gl[0].start < end) || Hits(gl[1..], start, end))
  }

  // Some range begins inside [start, end): only then does filling move goodaddr.
  predicate BeginsIn(gl: seq<Gap>, start: nat, end: nat)
  {
    gl != [] && (start <= gl[0].start < end || BeginsIn(gl[1..], start, end))
  }

  lemma {:induction false} HitsMeets(gl: seq<Gap>, start: nat, end: nat, limit: nat)
    requires Well(gl, limit) && start < end
    ensures Hits(gl, start, end) <==> Meets(gl, start, end)
  {
    if gl != [] {
      HitsMeets(gl[1..], start, end, limit);
      if start < gl[0].end && gl[0].start < end {
        assert In(gl, if gl[0].start < start then start else gl[0].start);
      } else if Meets(gl, start, end) {
        var a: nat :| start <= a < end && In(gl, a);
        assert In(gl[1..], a);
      } else if Meets(gl[1..], start, end) {
        var a: nat :| start <= a < end && In(gl[1..], a);
        assert In(gl, a);
      }
    }
  }

  lemma {:induction false} NothingEarly(gl: seq<Gap>, start: nat, end: nat, limit: nat)
    requires Well(gl, limit) && (gl == [] || end <= gl[0].start)
    ensures !Hits(gl, start, end) && !BeginsIn(gl, start, end) && Filled(gl, start, end) == gl
  {
    if gl != [] {
      NothingEarly(gl[1..], start, end, limit);
    }
  }

  // FillGap removes exactly [start, end) from the missing bytes ...
  lemma {:induction false} FilledIn(gl: seq<Gap>, start: nat, end: nat, limit: nat, a: nat)
    requires Well(gl, limit) && start < end
    ensures In(Filled(gl, start, end), a) <==> In(gl, a) && !(start <= a < end)
  {
    if gl == [] {
    } else if end <= gl[0].start {
      if In(gl, a) {
        BelowFirst(gl, limit, a);
      }
    } else {
      FilledIn(gl[1..], start, end, limit, a);
      var head := if gl[0].end <= start then gl[..1] else Remains(gl[0], start, end);
      InConcat(head, Filled(gl[1..], start, end), a);
    }
  }

  // ... and keeps the list sorted, separated and free of empty ranges.
  lemma {:induction false} FilledWell(gl: seq<Gap>, start: nat, end: nat, limit: nat)
    requires Well(gl, limit) && start < end
    ensures Well(Filled(gl, start, end), limit)
    ensures First(gl, limit) <= First(Filled(gl, start, end), limit)
  {
    if gl != [] && gl[0].start < end {
      FilledWell(gl[1..], start, end, limit);
      var rest := Filled(gl[1..], start, end);
      var head := if gl[0].end <= start then gl[..1] else Remains(gl[0], start, end);
      var r := head + rest;
      if |head| == 1 {
        assert r[1..] == rest;
      } else if |head| == 2 {
        assert r[1..][1..] == rest;
      } else {
        assert r == rest;
      }
    }
  }

  // The channel after FillGap.
  function Fill(s: Snap, start: nat, size: nat): Snap
  {
    var gaps := Filled(s.gaps, start, start + size);
    s.(gaps := gaps, goodaddr := if BeginsIn(s.gaps, start, start + size) then First(gaps, s.msgsize) else s.goodaddr)
  }

  // What is left of a range, met or not.
  function Kept(g: Gap, start: nat, end: nat): seq<Gap>
  {
    if g.end <= start then [g] else Remains(g, start, end)
  }

  lemma {:induction false} FilledStep(done: seq<Gap>, rest: seq<Gap>, start: nat, end: nat)
    requires rest != [] && rest[0].start < end
    ensures done + Filled(rest, start, end) == done + Kept(rest[0], start, end) + Filled(rest[1..], start, end)
    ensures Hits(rest, start, end) == (start < rest[0].end || Hits(rest[1..], start, end))
    ensures BeginsIn(rest, start, end) == (start <= rest[0].start || BeginsIn(rest[1..], start, end))
  {
    var kept, more := Kept(rest[0], start, end), Filled(rest[1..], start, end);
    assert Filled(rest, start, end) == kept + more by {
      assert [rest[0]] == rest[..1];
    }
    assert done + (kept + more) == done + kept + more;
  }

  // Editing a list at one link.
  lemma {:induction false} Around(done: seq<Gap>, g: Gap, rest: seq<Gap>)
    ensures var l := done + [g] + rest;
            && l[|done|] == g
            && l[..|done|+1] == done + [g] && l[|done|+1..] == rest
            && l[..|done|] + l[|done|+1..] == done + [] + rest
            && (forall g' :: l[|done| := g'] == done + [g'] + rest)
            && (forall g', g'' :: l[..|done|] + [g', g''] + l[|done|+1..] == done + [g', g''] + rest)
  {
    var l := done + [g] + rest;
    assert l[..|done|] == done && l[|done|+1..] == rest;
  }

  method FillGap(chnp: RChan, gapstart: nat, gapsize: nat) returns (retval: bool)
    requires gapsize > 0
    requires chnp.Valid() && Well(chnp.gaplist, chnp.msgsize)
    modifies chnp`gaplist, chnp`goodaddr
    ensures retval == Hits(old(chnp.gaplist), gapstart, gapstart + gapsize)
    ensures chnp.Now() == Fill(old(chnp.Now()), gapstart, gapsize)
  {
    retval := FillList(chnp, gapstart, gapstart + gapsize);
  }

  // The loop of FillGap over the list, which sets goodaddr as it goes.
  method FillList(chnp: RChan, gapstart: nat, gapend: nat) returns (retval: bool)
    requires gapstart < gapend && Well(chnp.gaplist, chnp.msgsize)
    modifies chnp`gaplist, chnp`goodaddr
    ensures chnp.gaplist == Filled(old(chnp.gaplist), gapstart, gapend)
    ensures retval == Hits(old(chnp.gaplist), gapstart, gapend)
    ensures chnp.goodaddr == if BeginsIn(old(chnp.gaplist), gapstart, gapend)
                             then First(chnp.gaplist, chnp.msgsize) else old(chnp.goodaddr)
  {
    hide Filled, Hits, BeginsIn;
    ghost var began := false;
    ghost var done, rest := [], chnp.gaplist;  // the list, at the link being examined
    retval := false;
    var k := 0;
    while k < |chnp.gaplist|
      invariant k == |done| && chnp.gaplist == done + rest && Well(rest, chnp.msgsize)
      invariant Filled(old(chnp.gaplist), gapstart, gapend) == done + Filled(rest, gapstart, gapend)
      invariant Hits(old(chnp.gaplist), gapstart, gapend) == (retval || Hits(rest, gapstart, gapend))
      invariant BeginsIn(old(chnp.gaplist), gapstart, gapend) == (began || BeginsIn(rest, gapstart, gapend))
      invariant chnp.goodaddr == if began then First(chnp.gaplist, chnp.msgsize) else old(chnp.goodaddr)
      decreases |rest|
    {
      var gp := chnp.gaplist[k];
      assert chnp.gaplist == done + [gp] + rest[1..];
      Around(done, gp, rest[1..]);
      if gp.start < gapend {
        FilledStep(done, rest, gapstart, gapend);
        done, rest := done + Kept(gp, gapstart, gapend), rest[1..];
        if gapend <= gp.end {
          NothingEarly(rest, gapstart, gapend, chnp.msgsize);
          assert Filled(old(chnp.gaplist), gapstart, gapend) == done + rest;
        }
      }
      if gapstart >= gp.end {
        k := k + 1;
        continue;
      }
      if gapend <= gp.start {
        break;
      }
      if gapstart <= gp.start {
        began := true;
        if gapend >= gp.end {
          chnp.gaplist := chnp.gaplist[..k] + chnp.gaplist[k+1..];
        } else {
          chnp.gaplist := chnp.gaplist[k := gp.(start := gapend)];
          k := k + 1;
        }
        assert chnp.gaplist == done + rest;
        chnp.goodaddr := First(chnp.gaplist, chnp.msgsize);
        if gapend <= gp.end {
          return true;
        }
        retval := true;
        continue;
      }
      if gapend >= gp.end {
        chnp.gaplist := chnp.gaplist[k := gp.(end := gapstart)];
        assert chnp.gaplist == done + rest;
        if gapend == gp.end {
          return true;
        }
        retval := true;
        k := k + 1;
        continue;
      }
      chnp.gaplist := chnp.gaplist[..k] + [gp.(end := gapstart), gp.(start := gapend)] + chnp.gaplist[k+1..];
      assert chnp.gaplist == done + rest;
      return true;
    }
    NothingEarly(rest, gapstart, gapend, chnp.msgsize);
  }

  // ----- SendNAK

  // At most 4*outDataSize bytes in one NAK, except that one NAK may ask for a whole message.
  function NakLen(addr: nat, length: nat, maxlen: nat, msgsize: nat): nat
  {
    if length > maxlen && (addr != 0 || length < msgsize) then maxlen else length
  }

  // The NAKs sent for [addr, addr+length) while `bytes` of the packet budget are left.
  function Naks(addr: nat, length: nat, bytes: int, env: Env, msgsize: nat): seq<Packet>
    decreases bytes
  {
    if length == 0 || bytes <= 0 then []
    else
      var len := NakLen(addr, length, 4 * env.outDataSize, msgsize);
      [Nak(addr, len)] + Naks(addr + len, length - len, bytes - env.nakBytes, env, msgsize)
  }

  function NakBytes(naks: seq<Packet>): nat
  {
    if naks == [] || !naks[0].Nak? then 0 else naks[0].len + NakBytes(naks[1..])
  }

  // Non-empty NAKs that follow each other from `from` to `to`.
  predicate Tiles(naks: seq<Packet>, from: nat, to: nat)
  {
    if naks == [] then from == to
    else naks[0].Nak? && naks[0].addr == from && naks[0].len > 0 && Tiles(naks[1..], from + naks[0].len, to)
  }

  // SendNAK asks for consecutive ranges that cover exactly the first `sent` bytes ...
  lemma {:induction false} NaksTile(addr: nat, length: nat, bytes: int, env: Env, msgsize: nat)
    requires bytes <= env.outDataSize
    ensures var naks := Naks(addr, length, bytes, env, msgsize); var sent := NakBytes(naks);
            Tiles(naks, addr, addr + sent) && sent <= length
    decreases bytes
  {
    if length > 0 && bytes > 0 {
      var len := NakLen(addr, length, 4 * env.outDataSize, msgsize);
      NaksTile(addr + len, length - len, bytes - env.nakBytes, env, msgsize);
    }
  }

  // ... and for everything unless the packet budget runs out, which is spent to at most one packet over.
  lemma {:induction false} NaksBudget(addr: nat, length: nat, bytes: int, env: Env, msgsize: nat)
    requires bytes <= env.outDataSize
    ensures var naks := Naks(addr, length, bytes, env, msgsize);
            && (NakBytes(naks) < length ==> |naks| * env.nakBytes >= bytes)
            && (bytes > 0 ==> |naks| * env.nakBytes < bytes + env.nakBytes)
    decreases bytes
  {
    if length > 0 && bytes > 0 {
      var len := NakLen(addr, length, 4 * env.outDataSize, msgsize);
      NaksBudget(addr + len, length - len, bytes - env.nakBytes, env, msgsize);
      var rest := Naks(addr + len, length - len, bytes - env.nakBytes, env, msgsize);
      assert (|rest| + 1) * env.nakBytes == |rest| * env.nakBytes + env.nakBytes;
    }
  }

  // One NAK is longer than four packets' data only when it asks for the whole message.
  lemma {:induction false} NaksBounded(addr: nat, length: nat, bytes: int, env: Env, msgsize: nat)
    requires addr + length <= msgsize
    ensures forall p :: p in Naks(addr, length, bytes, env, msgsize) ==>
              p.Nak? && (p.len <= 4 * env.outDataSize || (p.addr == 0 && p.len == msgsize))
    decreases bytes
  {
    if length > 0 && bytes > 0 {
      var len := NakLen(addr, length, 4 * env.outDataSize, msgsize);
      NaksBounded(addr + len, length - len, bytes - env.nakBytes, env, msgsize);
    }
  }

  method SendNAK(chnp: RChan, length: nat, addr: nat, env: Env) returns (sent: nat)
    modifies chnp`pout
    ensures chnp.pout == old(chnp.pout) + Naks(addr, length, env.outDataSize, env, chnp.msgsize)
    ensures sent == NakBytes(Naks(addr, length, env.outDataSize, env, chnp.msgsize))
  {
    var maxlen := 4 * env.outDataSize;
    var bytes: int := env.outDataSize;
    var left: nat, at: nat := length, addr;
    sent := 0;
    ghost var all := Naks(addr, length, bytes, env, chnp.msgsize);
    ghost var done: seq<Packet>, rest := [], all;
    while left != 0 && bytes > 0
      invariant all == done + rest && chnp.pout == old(chnp.pout) + done
      invariant rest == Naks(at, left, bytes, env, chnp.msgsize)
      invariant NakBytes(all) == sent + NakBytes(rest)
      decreases bytes
    {
      var len := left;
      if len > maxlen && (at != 0 || len < chnp.msgsize) {
        len := maxlen;
      }
      assert rest == [Nak(at, len)] + rest[1..];
      chnp.pout := chnp.pout + [Nak(at, len)];
      bytes := bytes - env.nakBytes;
      at, sent, left := at + len, sent + len, left - len;
      done, rest := done + [rest[0]], rest[1..];
    }
  }

  // ----- NAKGaps

  datatype Naked = Naked(gaps: seq<Gap>, naks: seq<Packet>, count: nat)

  // A gap is asked for again when EOMs outnumber its NAKs, or when its last NAK is old.
  predicate Due(g: Gap, eomcount: nat, env: Env)
  {
    g.send < eomcount || g.time <= env.time - NAK_TIMEOUT
  }

  // The NAKs one visit to a gap sends, and the gap afterwards.
  function NaksFor(g: Gap, eomcount: nat, env: Env, msgsize: nat): seq<Packet>
    requires g.start <= g.end
  {
    if Due(g, eomcount, env) then Naks(g.start, g.end - g.start, env.outDataSize, env, msgsize) else []
  }

  function Visited(g: Gap, eomcount: nat, env: Env): Gap
  {
    if Due(g, eomcount, env) then g.(time := env.time, send := if g.send < eomcount then g.send + 1 else g.send)
    else g
  }

  // The room left is an unsigned number: it wraps when a gap takes more than there is.
  function NakAll(gl: seq<Gap>, maxlength: nat, eomcount: nat, env: Env, msgsize: nat): Naked
    requires Well(gl, msgsize)
  {
    if gl == [] || maxlength == 0 then Naked(gl, [], 0)
    else
      var naks := NaksFor(gl[0], eomcount, env, msgsize);
      var max := if Due(gl[0], eomcount, env) then (maxlength - NakBytes(naks)) % ULONG else maxlength;
      Prepend([Visited(gl[0], eomcount, env)], naks, NakAll(gl[1..], max, eomcount, env, msgsize))
  }

  function Prepend(gaps: seq<Gap>, naks: seq<Packet>, r: Naked): Naked
  {
    Naked(gaps + r.gaps, naks + r.naks, |gaps| + r.count)
  }

  lemma {:induction false} NakDone(gaps: seq<Gap>, naks: seq<Packet>, gl: seq<Gap>, maxlength: nat, eomcount: nat,
                                   env: Env, msgsize: nat)
    requires Well(gl, msgsize) && (gl == [] || maxlength == 0)
    ensures Prepend(gaps, naks, NakAll(gl, maxlength, eomcount, env, msgsize)) == Naked(gaps + gl, naks, |gaps|)
  {
  }

  lemma {:induction false} NakSkip(gaps: seq<Gap>, naks: seq<Packet>, gl: seq<Gap>, maxlength: nat, eomcount: nat,
                                   env: Env, msgsize: nat)
    requires Well(gl, msgsize) && gl != [] && maxlength != 0 && !Due(gl[0], eomcount, env)
    ensures Prepend(gaps, naks, NakAll(gl, maxlength, eomcount, env, msgsize)) ==
            Prepend(gaps + [gl[0]], naks, NakAll(gl[1..], maxlength, eomcount, env, msgsize))
  {
    var l := Prepend(gaps, naks, NakAll(gl, maxlength, eomcount, env, msgsize));
    var r := NakAll(gl[1..], maxlength, eomcount, env, msgsize);
    assert l.gaps == gaps + [gl[0]] + r.gaps && l.naks == naks + r.naks;
  }

  lemma {:induction false} NakSend(gaps: seq<Gap>, naks: seq<Packet>, gl: seq<Gap>, maxlength: nat, eomcount: nat,
                                   env: Env, msgsize: nat)
    requires Well(gl, msgsize) && gl != [] && maxlength != 0 && Due(gl[0], eomcount, env)
    ensures var more := Naks(gl[0].start, gl[0].end - gl[0].start, env.outDataSize, env, msgsize);
            Prepend(gaps, naks, NakAll(gl, maxlength, eomcount, env, msgsize)) ==
            Prepend(gaps + [Visited(gl[0], eomcount, env)], naks + more,
                    NakAll(gl[1..], (maxlength - NakBytes(more)) % ULONG, eomcount, env, msgsize))
  {
    var l := Prepend(gaps, naks, NakAll(gl, maxlength, eomcount, env, msgsize));
    var more := NaksFor(gl[0], eomcount, env, msgsize);
    var r := NakAll(gl[1..], (maxlength - NakBytes(more)) % ULONG, eomcount, env, msgsize);
    assert l.gaps == gaps + [Visited(gl[0], eomcount, env)] + r.gaps;
    assert l.naks == naks + more + r.naks;
  }

  predicate SameRanges(x: seq<Gap>, y: seq<Gap>)
  {
    |x| == |y| && forall i :: 0 <= i < |x| ==> x[i].start == y[i].start && x[i].end == y[i].end
  }

  lemma {:induction false} SameRangesIn(x: seq<Gap>, y: seq<Gap>, limit: nat)
    requires SameRanges(x, y)
    ensures Well(x, limit) == Well(y, limit) && First(x, limit) == First(y, limit)
    ensures forall a: nat :: In(x, a) == In(y, a)
  {
    if x != [] {
      SameRangesIn(x[1..], y[1..], limit);
    }
  }

  predicate Asks(p: Packet, gl: seq<Gap>)
  {
    p.Nak? && gl != [] && ((gl[0].start <= p.addr && p.addr + p.len <= gl[0].end) || Asks(p, gl[1..]))
  }

  // NAKs for missing bytes only.
  ghost predicate Within(naks: seq<Packet>, gl: seq<Gap>)
  {
    forall p :: p in naks ==> Asks(p, gl)
  }

  lemma {:induction false} TilesWithin(naks: seq<Packet>, from: nat, to: nat, gl: seq<Gap>)
    requires Tiles(naks, from, to) && gl != [] && gl[0].start <= from && to <= gl[0].end
    ensures Within(naks, gl) && from <= to
  {
    if naks != [] {
      TilesWithin(naks[1..], from + naks[0].len, to, gl);
    }
  }

  // NAKGaps returns 0 exactly when nothing is missing or it was given no room ...
  lemma {:induction false} NakAllCount(gl: seq<Gap>, maxlength: nat, eomcount: nat, env: Env, msgsize: nat)
    requires Well(gl, msgsize)
    ensures NakAll(gl, maxlength, eomcount, env, msgsize).count == 0 <==> gl == [] || maxlength == 0
  {
  }

  // ... it leaves the ranges alone ...
  lemma {:induction false} NakAllRanges(gl: seq<Gap>, maxlength: nat, eomcount: nat, env: Env, msgsize: nat)
    requires Well(gl, msgsize)
    ensures SameRanges(NakAll(gl, maxlength, eomcount, env, msgsize).gaps, gl)
  {
    if gl != [] && maxlength != 0 {
      var naks := NaksFor(gl[0], eomcount, env, msgsize);
      var max := if Due(gl[0], eomcount, env) then (maxlength - NakBytes(naks)) % ULONG else maxlength;
      NakAllRanges(gl[1..], max, eomcount, env, msgsize);
    }
  }

  // ... and every NAK lies in one of them.
  lemma {:induction false} NakAllWithin(gl: seq<Gap>, maxlength: nat, eomcount: nat, env: Env, msgsize: nat)
    requires Well(gl, msgsize)
    ensures Within(NakAll(gl, maxlength, eomcount, env, msgsize).naks, gl)
  {
    if gl != [] && maxlength != 0 {
      var g := gl[0];
      var naks := NaksFor(g, eomcount, env, msgsize);
      var max := if Due(g, eomcount, env) then (maxlength - NakBytes(naks)) % ULONG else maxlength;
      NakAllWithin(gl[1..], max, eomcount, env, msgsize);
      NaksTile(g.start, g.end - g.start, env.outDataSize, env, msgsize);
      if Due(g, eomcount, env) {
        TilesWithin(naks, g.start, g.start + NakBytes(naks), gl);
      }
    }
  }

  // The channel after NAKGaps.
  function AskAgain(s: Snap, maxlength: nat, env: Env): Snap
    requires Well(s.gaps, s.msgsize)
  {
    var r := NakAll(s.gaps, maxlength, s.eomcount, env, s.msgsize);
    s.(gaps := r.gaps, pout := s.pout + r.naks)
  }

  method NAKGaps(chnp: RChan, maxlength: nat, env: Env) returns (count: nat)
    requires chnp.Valid() && Well(chnp.gaplist, chnp.msgsize) && maxlength < ULONG
    modifies chnp`gaplist, chnp`pout
    ensures count == NakAll(old(chnp.gaplist), maxlength, chnp.eomcount, env, chnp.msgsize).count
    ensures chnp.Now() == AskAgain(old(chnp.Now()), maxlength, env)
  {
    count := NakList(chnp, maxlength, env);
  }

  // The loop of NAKGaps.
  method NakList(chnp: RChan, maxlength: nat, env: Env) returns (count: nat)
    requires Well(chnp.gaplist, chnp.msgsize) && maxlength < ULONG
    modifies chnp`gaplist, chnp`pout
    ensures var r := NakAll(old(chnp.gaplist), maxlength, chnp.eomcount, env, chnp.msgsize);
            chnp.gaplist == r.gaps && chnp.pout == old(chnp.pout) + r.naks && count == r.count
  {
    hide Naks, NakAll, NakBytes;
    var max: nat := maxlength;
    count := 0;
    ghost var all := NakAll(chnp.gaplist, maxlength, chnp.eomcount, env, chnp.msgsize);
    ghost var done: seq<Gap>, naks: seq<Packet>, rest := [], [], chnp.gaplist;
    while count < |chnp.gaplist| && max > 0
      invariant count == |done| && max < ULONG
      invariant chnp.gaplist == done + rest && Well(rest, chnp.msgsize)
      invariant chnp.pout == old(chnp.pout) + naks
      invariant all == Prepend(done, naks, NakAll(rest, max, chnp.eomcount, env, chnp.msgsize))
      decreases |rest|
    {
      var gp := chnp.gaplist[count];
      assert gp == rest[0] && chnp.gaplist == done + [gp] + rest[1..];
      Around(done, gp, rest[1..]);
      if gp.send < chnp.eomcount {
        gp := gp.(send := gp.send + 1);
      } else if gp.time > env.time - NAK_TIMEOUT {
        NakSkip(done, naks, rest, max, chnp.eomcount, env, chnp.msgsize);
        done, rest := done + [gp], rest[1..];
        count := count + 1;
        continue;
      }
      NakSend(done, naks, rest, max, chnp.eomcount, env, chnp.msgsize);
      ghost var more := Naks(gp.start, gp.end - gp.start, env.outDataSize, env, chnp.msgsize);
      Assoc(old(chnp.pout), naks, more);
      var sent := SendNAK(chnp, gp.end - gp.start, gp.start, env);
      max := (max - sent) % ULONG;
      gp := gp.(time := env.time);
      chnp.gaplist := chnp.gaplist[count := gp];
      done, rest, naks := done + [gp], rest[1..], naks + more;
      count := count + 1;
    }
    NakDone(done, naks, rest, max, chnp.eomcount, env, chnp.msgsize);
  }

  // ----- QueueGap

  // What QueueGap does: the new list, and how far it asks for missing data
  // (nothing is asked for when the range was already missing).
  datatype Queue = Queue(gaps: seq<Gap>, nak: bool, end: nat)

  function After(gaps: seq<Gap>, q: Queue): Queue
  {
    q.(gaps := gaps + q.gaps)
  }

  // The end of a range that grows to `end`, once it has absorbed what it reaches.
  function AbsorbEnd(gl: seq<Gap>, end: nat): nat
  {
    if gl == [] || end < gl[0].start then end
    else AbsorbEnd(gl[1..], if end < gl[0].end then gl[0].end else end)
  }

  function Unabsorbed(gl: seq<Gap>, end: nat): seq<Gap>
  {
    if gl == [] || end < gl[0].start then gl
    else Unabsorbed(gl[1..], if end < gl[0].end then gl[0].end else end)
  }

  // The new range meets or touches the first one.
  function Merged(gl: seq<Gap>, start: nat, end: nat): Queue
    requires gl != []
  {
    var g := if start < gl[0].start then gl[0].(start := start) else gl[0];
    if gl[0].end < end then
      var to := AbsorbEnd(gl[1..], end);
      Queue([g.(end := to)] + Unabsorbed(gl[1..], end), true, to)
    else
      Queue([g] + gl[1..], start < gl[0].start, end)
  }

  function Queued(gl: seq<Gap>, start: nat, end: nat, time: int): Queue
  {
    if gl == [] || (start <= gl[0].end && end < gl[0].start) then Queue([Gap(start, end, time, 1)] + gl, true, end)
    else if gl[0].end < start then After([gl[0]], Queued(gl[1..], start, end, time))
    else Merged(gl, start, end)
  }

  lemma {:induction false} AbsorbIn(gl: seq<Gap>, from: nat, end: nat, limit: nat, a: nat)
    requires Well(gl, limit) && from <= end && (gl == [] || from < gl[0].start)
    ensures AbsorbEnd(gl, end) >= end
    ensures from <= a < AbsorbEnd(gl, end) || In(Unabsorbed(gl, end), a) <==> from <= a < end || In(gl, a)
  {
    if gl != [] && gl[0].start <= end {
      AbsorbIn(gl[1..], gl[0].end, if end < gl[0].end then gl[0].end else end, limit, a);
    }
  }

  lemma {:induction false} AbsorbWell(gl: seq<Gap>, end: nat, limit: nat)
    requires Well(gl, limit) && end <= limit
    ensures Well(Unabsorbed(gl, end), limit) && end <= AbsorbEnd(gl, end) <= limit
    ensures Unabsorbed(gl, end) != [] ==> AbsorbEnd(gl, end) < Unabsorbed(gl, end)[0].start
  {
    if gl != [] && gl[0].start <= end {
      AbsorbWell(gl[1..], if end < gl[0].end then gl[0].end else end, limit);
    }
  }

  // QueueGap adds exactly [start, end) to the missing bytes ...
  lemma {:induction false} QueuedIn(gl: seq<Gap>, start: nat, end: nat, time: int, limit: nat, a: nat)
    requires Well(gl, limit) && start < end
    ensures In(Queued(gl, start, end, time).gaps, a) <==> In(gl, a) || start <= a < end
  {
    var q := Queued(gl, start, end, time).gaps;
    assert q[1..] == if gl == [] || (start <= gl[0].end && end < gl[0].start) then gl
                     else if gl[0].end < start then Queued(gl[1..], start, end, time).gaps
                     else if gl[0].end < end then Unabsorbed(gl[1..], end) else gl[1..];
    if gl == [] || (start <= gl[0].end && end < gl[0].start) {
    } else if gl[0].end < start {
      QueuedIn(gl[1..], start, end, time, limit, a);
    } else if gl[0].end < end {
      AbsorbIn(gl[1..], gl[0].end, end, limit, a);
    }
  }

  // ... keeps the list sorted and separated, by coalescing ranges that touch ...
  lemma {:induction false} QueuedWell(gl: seq<Gap>, start: nat, end: nat, time: int, limit: nat)
    requires Well(gl, limit) && start < end <= limit
    ensures var q := Queued(gl, start, end, time);
            && Well(q.gaps, limit) && q.gaps != []
            && q.gaps[0].start == if gl != [] && gl[0].start < start then gl[0].start else start
  {
    var q := Queued(gl, start, end, time).gaps;
    if gl == [] || (start <= gl[0].end && end < gl[0].start) {
      assert q[1..] == gl;
    } else if gl[0].end < start {
      QueuedWell(gl[1..], start, end, time, limit);
      assert q[1..] == Queued(gl[1..], start, end, time).gaps;
    } else if gl[0].end < end {
      AbsorbWell(gl[1..], end, limit);
      assert q[1..] == Unabsorbed(gl[1..], end);
    } else {
      assert q[1..] == gl[1..];
    }
  }

  // ... and asks for all of it, and for nothing else, unless it was missing already.
  lemma {:induction false} QueuedNak(gl: seq<Gap>, start: nat, end: nat, time: int, limit: nat)
    requires Well(gl, limit) && start < end <= limit
    ensures var q := Queued(gl, start, end, time);
            && (q.nak ==> end <= q.end <= limit && forall a: nat :: start <= a < q.end ==> In(q.gaps, a))
            && (!q.nak <==> exists g :: g in gl && g.start <= start && end <= g.end)
            && (!q.nak ==> q.gaps == gl)
  {
    var q := Queued(gl, start, end, time);
    if gl == [] || (start <= gl[0].end && end < gl[0].start) {
      forall g | g in gl
        ensures start < g.start
      {
        LaterStart(gl, limit, g);
      }
    } else if gl[0].end < start {
      QueuedNak(gl[1..], start, end, time, limit);
      assert q.gaps[1..] == Queued(gl[1..], start, end, time).gaps;
    } else {
      forall g | g in gl[1..]
        ensures start < g.start
      {
        LaterStart(gl[1..], limit, g);
      }
      AbsorbWell(gl[1..], end, limit);
      if gl[0].end < end {
        AbsorbIn(gl[1..], gl[0].end, end, limit, gl[0].end);
      }
    }
  }

  lemma {:induction false} LaterStart(gl: seq<Gap>, limit: nat, g: Gap)
    requires Well(gl, limit) && g in gl
    ensures gl[0].start <= g.start
  {
    if g != gl[0] {
      LaterStart(gl[1..], limit, g);
    }
  }

  lemma {:induction false} AfterAfter(done: seq<Gap>, g: Gap, q: Queue)
    ensures After(done, After([g], q)) == After(done + [g], q)
  {
    assert done + ([g] + q.gaps) == done + [g] + q.gaps;
  }

  lemma {:induction false} QueuedStep(gl: seq<Gap>, start: nat, end: nat, time: int)
    ensures Queued(gl, start, end, time) ==
            if gl == [] || (start <= gl[0].end && end < gl[0].start)
                then Queue([Gap(start, end, time, 1)] + gl, true, end)
            else if gl[0].end < start then After([gl[0]], Queued(gl[1..], start, end, time))
            else Merged(gl, start, end)
  {
  }

  lemma {:induction false} AbsorbStep(gl: seq<Gap>, end: nat)
    ensures AbsorbEnd(gl, end) == if gl == [] || end < gl[0].start then end
                                  else AbsorbEnd(gl[1..], if end < gl[0].end then gl[0].end else end)
    ensures Unabsorbed(gl, end) == if gl == [] || end < gl[0].start then gl
                                   else Unabsorbed(gl[1..], if end < gl[0].end then gl[0].end else end)
  {
  }

  // The range at link k grows to `end`: absorb the ranges after it that it reaches.
  method Absorb(chnp: RChan, k: nat, end: nat) returns (gapend: nat)
    requires k < |chnp.gaplist|
    modifies chnp`gaplist
    ensures chnp.gaplist == old(chnp.gaplist[..k+1]) + Unabsorbed(old(chnp.gaplist[k+1..]), end)
    ensures gapend == AbsorbEnd(old(chnp.gaplist[k+1..]), end)
  {
    hide AbsorbEnd, Unabsorbed;
    gapend := end;
    ghost var head, rest := chnp.gaplist[..k+1], chnp.gaplist[k+1..];
    AbsorbStep(rest, gapend);
    while k + 1 < |chnp.gaplist|
      invariant |head| == k + 1 && chnp.gaplist == head + rest
      invariant Unabsorbed(rest, gapend) == Unabsorbed(old(chnp.gaplist[k+1..]), end)
      invariant AbsorbEnd(rest, gapend) == AbsorbEnd(old(chnp.gaplist[k+1..]), end)
      invariant rest == [] ==> Unabsorbed(rest, gapend) == [] && AbsorbEnd(rest, gapend) == gapend
      decreases |rest|
    {
      var ngp := chnp.gaplist[k+1];
      assert ngp == rest[0];
      AbsorbStep(rest, gapend);
      if gapend < ngp.start {
        break;
      }
      if gapend < ngp.end {
        gapend := ngp.end;
      }
      chnp.gaplist := chnp.gaplist[..k+1] + chnp.gaplist[k+2..];
      rest := rest[1..];
      AbsorbStep(rest, gapend);
    }
  }

  // The NAKs QueueGap sends for a range beginning at `start`.
  function QueueNaks(q: Queue, start: nat, env: Env, msgsize: nat): seq<Packet>
  {
    if q.nak && start <= q.end then Naks(start, q.end - start, env.outDataSize, env, msgsize) else []
  }

  // Editing the list at the link whose range the new one meets.
  lemma {:induction false} MergedAt(done: seq<Gap>, gl: seq<Gap>, start: nat, end: nat)
    requires gl != [] && start <= gl[0].end && gl[0].start <= end
    ensures var g := if start < gl[0].start then gl[0].(start := start) else gl[0];
            var to := AbsorbEnd(gl[1..], end);
            After(done, Merged(gl, start, end)) ==
            if gl[0].end < end then Queue(done + [g.(end := to)] + Unabsorbed(gl[1..], end), true, to)
            else Queue(done + [g] + gl[1..], start < gl[0].start, end)
  {
    var g := if start < gl[0].start then gl[0].(start := start) else gl[0];
    var to := AbsorbEnd(gl[1..], end);
    assert done + ([g.(end := to)] + Unabsorbed(gl[1..], end)) == done + [g.(end := to)] + Unabsorbed(gl[1..], end);
    assert done + ([g] + gl[1..]) == done + [g] + gl[1..];
  }

  // The list half of QueueGap: note [msgaddr, end), and say whether and how far to ask for it.
  method NoteGap(chnp: RChan, end: nat, env: Env) returns (nak: bool, gapend: nat)
    requires Well(chnp.gaplist, chnp.msgsize) && chnp.msgaddr < end <= chnp.msgsize
    modifies chnp`gaplist
    ensures Queue(chnp.gaplist, nak, gapend) == Queued(old(chnp.gaplist), chnp.msgaddr, end, env.time)
  {
    hide Queued, AbsorbEnd, Unabsorbed, Well, Merged;
    var gapstart: nat := chnp.msgaddr;
    gapend := end;
    ghost var q := Queued(chnp.gaplist, gapstart, end, env.time);
    ghost var done: seq<Gap>, rest := [], chnp.gaplist;
    var k := 0;
    while k < |chnp.gaplist| && gapstart > chnp.gaplist[k].end
      invariant unchanged(chnp)
      invariant k == |done| && chnp.gaplist == done + rest
      invariant q == After(done, Queued(rest, gapstart, end, env.time))
      decreases |rest|
    {
      QueuedStep(rest, gapstart, end, env.time);
      AfterAfter(done, rest[0], Queued(rest[1..], gapstart, end, env.time));
      assert chnp.gaplist == done + [rest[0]] + rest[1..];
      done, rest := done + [rest[0]], rest[1..];
      k := k + 1;
    }
    QueuedStep(rest, gapstart, end, env.time);
    if k == |chnp.gaplist| || gapend < chnp.gaplist[k].start {
      chnp.gaplist := chnp.gaplist[..k] + [Gap(gapstart, gapend, env.time, 1)] + chnp.gaplist[k..];
      assert chnp.gaplist == done + ([Gap(gapstart, gapend, env.time, 1)] + rest);
      return true, gapend;
    }
    MergedAt(done, rest, gapstart, end);
    var gp, isNew := chnp.gaplist[k], false;
    Around(done, gp, rest[1..]);
    if gapstart < gp.start {
      gp := gp.(start := gapstart);
      chnp.gaplist := chnp.gaplist[k := gp];
      isNew := true;
    }
    assert chnp.gaplist == done + [gp] + rest[1..];
    if gapend > gp.end {
      Around(done, gp, rest[1..]);
      gapend := Absorb(chnp, k, gapend);
      Around(done, gp, Unabsorbed(rest[1..], end));
      chnp.gaplist := chnp.gaplist[k := gp.(end := gapend)];
      isNew := true;
    }
    return isNew, gapend;
  }

  function SavedOf(s: Snap): Status
  {
    Status(s.state, s.msgid, s.msgsize, s.goodaddr, s.rdup)
  }

  // A goodaddr above `to` is lowered to it, and saved at once.
  function LoweredTo(s: Snap, to: nat): Snap
  {
    if to < s.goodaddr then s.(goodaddr := to, status := SavedOf(s.(goodaddr := to))) else s
  }

  method LowerGood(chnp: RChan, to: nat)
    requires chnp.Valid()
    modifies chnp`goodaddr, chnp`status
    ensures chnp.Now() == LoweredTo(old(chnp.Now()), to)
  {
    hide RChan.View, RChan.Buf, Holds, Agrees;
    if to < chnp.goodaddr {
      chnp.goodaddr := to;
      chnp.status := chnp.Saved();
    }
  }

  // The channel after QueueGap.
  function Note(s: Snap, end: nat, env: Env): Snap
  {
    var q := Queued(s.gaps, s.msgaddr, end, env.time);
    var t := if q.nak then LoweredTo(s, s.msgaddr) else s;
    t.(gaps := q.gaps, pout := s.pout + QueueNaks(q, s.msgaddr, env, s.msgsize))
  }

  method QueueGap(chnp: RChan, end: nat, env: Env)
    requires chnp.Valid() && Well(chnp.gaplist, chnp.msgsize) && chnp.msgaddr < end <= chnp.msgsize
    modifies chnp`gaplist, chnp`goodaddr, chnp`status, chnp`pout
    ensures chnp.Now() == Note(old(chnp.Now()), end, env)
  {
    hide Queued, Naks, Well, RChan.Valid, RChan.View, RChan.Buf, Holds, Agrees;
    QueuedNak(chnp.gaplist, chnp.msgaddr, end, env.time, chnp.msgsize);
    var gapstart := chnp.msgaddr;
    var nak, gapend := NoteGap(chnp, end, env);
    if !nak {
      return;
    }
    LowerGood(chnp, gapstart);
    var _ := SendNAK(chnp, gapend - gapstart, gapstart, env);
  }
}
