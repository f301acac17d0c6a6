/** Exactly when a message that the reader has taken up again may be interrupted a second time. */
module Resumption {
  import opened Channel
  import opened GapList
  import opened WriteBuffer
  import opened Receiver
  import opened Coverage

  // The receiving channel with its write buffer.
  datatype Reader = Reader(s: Snap, w: WBuf)

  // What happens to it: packets of its message, a saving of the status, and the flush at a wind-up.
  datatype Event =
    | GotData(addr: nat, data: seq<Byte>, env: Env)
    | GotEom(env: Env)
    | GotSom(env: Env)
    | Saves
    | Flushes

  // The packet carries the message's bytes; an EOM has room for NAKs.
  predicate Genuine(e: Event, m: seq<Byte>)
  {
    match e
    case GotData(addr, data, _) => data != [] && addr + |data| <= |m| && data == m[addr..addr + |data|]
    case GotEom(env) => env.naksize % ULONG > 0
    case _ => true
  }

  predicate AllGenuine(es: seq<Event>, m: seq<Byte>)
  {
    forall i :: 0 <= i < |es| ==> Genuine(es[i], m)
  }

  // The channel is one that the handlers may be called on.
  predicate Proper(x: Reader)
  {
    Well(x.s.gaps, x.s.msgsize) && InBlock(x.w)
  }

  // The handlers, to the last byte of the buffer (RecvData, RecvEOM, RecvSOM, ReadCleanup).
  function Handled(x: Reader, e: Event): Reader
  {
    if !Proper(x) then x
    else
      match e
      case GotData(addr, data, env) =>
        if data == [] then x
        else
          var w := DataBuf(x.s, x.w, addr, data);
          Reader(OnDisk(RecvDataOf(x.s, addr, data, env), w), w)
      case GotEom(env) =>
        var w := EomBuf(x.s, x.w, x.s.msgid, x.s.msgsize, env);
        Reader(OnDisk(RecvEomOf(x.s, x.s.msgid, x.s.msgsize, env), w), w)
      case GotSom(env) => Reader(RecvSomOf(x.s, x.s.msgid, x.s.msgsize, true, env), x.w)
      case Saves => Reader(Save(x.s), x.w)
      case Flushes => var w := ClosedBuf(x.s, x.w); Reader(OnDisk(x.s, w), w)
  }

  function After(x: Reader, es: seq<Event>): Reader
  {
    if es == [] then x else Handled(After(x, es[..|es| - 1]), es[|es| - 1])
  }

  // An interrupted message taken up again, at its SOM.
  function Resumed(s: Snap, env: Env): Reader
  {
    Reader(SomaOf(ResumeOf(s), env), WBuf(s.disk, ResumedAt(s), []))
  }

  // Stopped now, with what is in the buffer lost, the message has been handed over whole, or can be
  // taken up again from bytes that are right.
  ghost predicate StopsWell(x: Reader, s: Snap, m: seq<Byte>)
  {
    if x.s.handed == s.handed then Interruptible(InitStatusOf(x.s), m)
    else x.s.handed == s.handed + [Handed(s.msgid, |m|, m, s.rdup)]
  }

  // ----- Safe messages stay so

  // Still coming in, or handed over.
  ghost predicate Going(x: Reader, s: Snap, m: seq<Byte>)
  {
    && Holds(x.s, x.w) && x.s.msgid == s.msgid && x.s.msgsize == |m|
    && (|| (Receiving(x.s, m) && Stoppable(x.s, m) && x.s.handed == s.handed && x.s.rdup == s.rdup)
        || (x.s.state == Ended && !x.s.msgfile && x.s.gaps == []
            && x.s.handed == s.handed + [Handed(s.msgid, |m|, m, s.rdup)]))
  }

  lemma {:induction false} ResumedGoing(s: Snap, m: seq<Byte>, env: Env)
    requires Interruptible(s, m) && ResumeSafe(s, m)
    ensures Going(Resumed(s, env), s, m)
  {
    ResumeKeeps(s, m, env);
    WriteNothing(s.disk, ResumedAt(s));
  }

  lemma {:induction false} DataGoing(x: Reader, s: Snap, m: seq<Byte>, addr: nat, data: seq<Byte>, env: Env)
    requires Going(x, s, m) && Proper(x) && Genuine(GotData(addr, data, env), m)
    ensures Going(Handled(x, GotData(addr, data, env)), s, m)
  {
    hide RecvDataOf, DataBuf, Receiving, Stoppable, ViewOf;
    var t, w := RecvDataOf(x.s, addr, data, env), DataBuf(x.s, x.w, addr, data);
    DataBecame(x.s, x.w, addr, data, env);
    if x.s.state == Ended {
      EndedData(x.s, x.w, addr, data, env);
    } else {
      ReceivingFile(x.s, m);
      DataKeeps(x.s, OnDisk(t, w), m, addr, data, env);
      ContinuesGoing(x, s, m, OnDisk(t, w), w);
      if OnDisk(t, w).msgfile {
        DataStops(x.s, OnDisk(t, w), m, addr, data, env);
      }
    }
  }

  lemma {:induction false} EndedData(s: Snap, w: WBuf, addr: nat, data: seq<Byte>, env: Env)
    requires s.state == Ended && Holds(s, w) && data != [] && Well(s.gaps, s.msgsize)
    ensures DataBuf(s, w, addr, data) == w && OnDisk(RecvDataOf(s, addr, data, env), w) == s
  {
  }

  // After a handler that lets the message continue.
  lemma {:induction false} ContinuesGoing(x: Reader, s: Snap, m: seq<Byte>, t: Snap, w: WBuf)
    requires Going(x, s, m) && Receiving(x.s, m) && x.s.state != Ended && Continues(x.s, t, m) && Holds(t, w)
    ensures (t.msgfile ==> Stoppable(t, m)) ==> Going(Reader(t, w), s, m)
  {
  }

  lemma {:induction false} EomGoing(x: Reader, s: Snap, m: seq<Byte>, env: Env)
    requires Going(x, s, m) && Proper(x) && env.naksize % ULONG > 0
    ensures Going(Handled(x, GotEom(env)), s, m)
  {
    hide RecvEomOf, EomBuf, Receiving, Stoppable, ViewOf;
    var id, size := x.s.msgid, x.s.msgsize;
    var t, w := RecvEomOf(x.s, id, size, env), EomBuf(x.s, x.w, id, size, env);
    if x.s.state == Ended {
      EndedEom(x.s, x.w, env);
      if Receiving(x.s, m) {
        ReceivingFile(x.s, m);
      }
    } else {
      ReceivingFile(x.s, m);
      EomBecame(x.s, x.w, id, size, env);
      EomKeeps(x.s, OnDisk(t, w), m, id, size, env);
      ContinuesGoing(x, s, m, OnDisk(t, w), w);
      if OnDisk(t, w).msgfile {
        EomStops(x.s, OnDisk(t, w), m, id, size, env);
      }
    }
  }

  lemma {:induction false} EndedEom(s: Snap, w: WBuf, env: Env)
    requires s.state == Ended && Holds(s, w) && Well(s.gaps, s.msgsize)
    ensures EomBuf(s, w, s.msgid, s.msgsize, env) == w
    ensures OnDisk(RecvEomOf(s, s.msgid, s.msgsize, env), w) == s.(pout := s.pout + [Eoma(s.msgid, s.msgsize)])
  {
  }

  lemma {:induction false} SaveGoing(x: Reader, s: Snap, m: seq<Byte>)
    requires Going(x, s, m)
    ensures Going(Handled(x, Saves), s, m)
  {
    hide Receiving, ViewOf;
    if Receiving(x.s, m) {
      SaveKeeps(x.s, m);
    }
  }

  lemma {:induction false} SomGoing(x: Reader, s: Snap, m: seq<Byte>, env: Env)
    requires Going(x, s, m)
    ensures Going(Handled(x, GotSom(env)), s, m)
  {
    hide Receiving, ViewOf;
    if Receiving(x.s, m) {
      ReceivingFile(x.s, m);
      RepeatKeeps(x.s, m, env);
    }
  }

  lemma {:induction false} FlushGoing(x: Reader, s: Snap, m: seq<Byte>)
    requires Going(x, s, m) && Proper(x)
    ensures Going(Handled(x, Flushes), s, m)
  {
    hide ViewOf, Upwards, Flushed;
    FlushedUp(x.w);
    var w := ClosedBuf(x.s, x.w);
    if w != x.w {
      DiskUp(x.s, x.w, x.s, w);
      if Stoppable(x.s, m) {
        SameViewStops(x.s, OnDisk(x.s, w), m);
      }
    }
  }

  lemma {:induction false} EventGoing(x: Reader, e: Event, s: Snap, m: seq<Byte>)
    requires Going(x, s, m) && Proper(x) && Genuine(e, m)
    ensures Going(Handled(x, e), s, m)
  {
    hide Going, Handled, Proper;
    match e {
      case GotData(addr, data, env) => DataGoing(x, s, m, addr, data, env);
      case GotEom(env) => EomGoing(x, s, m, env);
      case GotSom(env) => SomGoing(x, s, m, env);
      case Saves => SaveGoing(x, s, m);
      case Flushes => FlushGoing(x, s, m);
    }
  }

  // Handlers are only called where they may be.
  lemma {:induction false} GoingProper(x: Reader, s: Snap, m: seq<Byte>)
    requires Going(x, s, m)
    ensures Proper(x)
  {
  }

  lemma {:induction false} RunGoing(x: Reader, es: seq<Event>, s: Snap, m: seq<Byte>)
    requires Going(x, s, m) && AllGenuine(es, m)
    ensures Going(After(x, es), s, m)
    decreases |es|
  {
    hide Going, Handled;
    if es != [] {
      var n := |es| - 1;
      RunGoing(x, es[..n], s, m);
      GoingProper(After(x, es[..n]), s, m);
      EventGoing(After(x, es[..n]), es[n], s, m);
    }
  }

  lemma {:induction false} GoingStops(x: Reader, s: Snap, m: seq<Byte>)
    requires Going(x, s, m)
    ensures StopsWell(x, s, m)
  {
    hide Receiving, Stoppable, Interruptible;
    if Receiving(x.s, m) && x.s.handed == s.handed {
      RestartKeeps(x.s, m);
    } else {
      assert |x.s.handed| == |s.handed| + 1;
    }
  }

  // ----- Others can be stopped badly

  lemma {:induction false} AfterMore(x: Reader, es: seq<Event>, e: Event)
    ensures After(x, es + [e]) == Handled(After(x, es), e)
  {
    assert (es + [e])[..|es|] == es;
  }

  // A channel whose reader may believe in a byte that is wrong on disk.
  predicate Deceived(x: Reader, s: Snap, m: seq<Byte>, a: nat)
  {
    && x.s.handed == s.handed && x.s.state == Active && x.s.msgsize == |m|
    && a < |x.s.disk| && a < |m| && a < x.s.goodaddr && x.s.disk[a] != m[a]
  }

  lemma {:induction false} DeceivedStops(x: Reader, s: Snap, m: seq<Byte>, a: nat)
    requires Deceived(x, s, m, a) && Proper(x)
    ensures !StopsWell(Handled(x, Saves), s, m)
  {
    var r := InitStatusOf(Save(x.s));
    assert a < ResumedAt(r) && r.disk[a] != m[a];
  }

  // An environment that leaves time for nothing, and has room for NAKs.
  function Quick(env: Env): Env
  {
    env.(naksize := 1)
  }

  // The wrong byte is the one the reader went back for.  An EOM makes a gap of all from there, a SOM
  // makes the channel active, and the byte received then moves goodaddr up while it is in the buffer.
  lemma {:induction false} FirstWrong(s: Snap, m: seq<Byte>, env: Env) returns (es: seq<Event>)
    requires Interruptible(s, m) && s.goodaddr < |s.disk| && s.disk[s.goodaddr] != m[s.goodaddr]
    ensures AllGenuine(es, m) && !StopsWell(After(Resumed(s, env), es), s, m)
  {
    hide AllMissing, Handled, Deceived, StopsWell, Resumed, After, Interruptible, Proper;
    DiskFits(s, m);
    var g := s.goodaddr;
    var x := Resumed(s, env);
    var e1, e2, e3 := GotEom(Quick(env)), GotSom(Quick(env)), GotData(g, [m[g]], Quick(env));
    assert m[g..g + 1] == [m[g]];
    var x1, x2, x3 := Handled(x, e1), Handled(Handled(x, e1), e2), Handled(Handled(Handled(x, e1), e2), e3);
    EomHolds(s, m, env);
    SomHolds(x1, s, m, Quick(env));
    DataHolds(x2, s, m, Quick(env));
    DeceivedStops(x3, s, m, g);
    es := [e1, e2, e3, Saves];
    FourEvents(x, e1, e2, e3, Saves);
  }

  // All from the resumed address is one gap, and nothing is in the buffer.
  predicate AllMissing(x: Reader, s: Snap, m: seq<Byte>)
  {
    var g := s.goodaddr;
    && Holds(x.s, x.w) && x.w == WBuf(s.disk, g, []) && x.s.handed == s.handed && x.s.msgfile
    && x.s.msgid == s.msgid && x.s.msgsize == |m| && x.s.view == s.disk
    && |x.s.gaps| == 1 && x.s.gaps[0].start == g && x.s.gaps[0].end == |m|
    && x.s.msgaddr == (if g == 0 then 0 else |m|) && x.s.state != Ended
  }

  lemma {:induction false} EomHolds(s: Snap, m: seq<Byte>, env: Env)
    requires Interruptible(s, m) && s.goodaddr < |s.disk|
    ensures AllMissing(Handled(Resumed(s, env), GotEom(Quick(env))), s, m)
  {
    hide NakAll, Naks, WriteAt;
    var x := Resumed(s, env);
    var t := MissedTail(x.s, Quick(env));
    WriteNothing(s.disk, s.goodaddr);
    assert |t.gaps| == 1 && t.gaps[0].start == s.goodaddr && t.gaps[0].end == |m|;
    OneGap(t.gaps, |m|);
    NakAllRanges(t.gaps, 1, t.eomcount + 1, Quick(env), |m|);
    NakAllCount(t.gaps, 1, t.eomcount + 1, Quick(env), |m|);
    SomeHandled(x.s, x.w, Quick(env));
  }

  // An EOM that finds something missing leaves the buffer alone.
  lemma {:induction false} SomeHandled(s: Snap, w: WBuf, env: Env)
    requires Well(s.gaps, s.msgsize) && s.state != Ended && s.state != Starting
    requires var t := MissedTail(s, env); t.gaps != [] && t.msgsize == s.msgsize
    requires env.naksize % ULONG != 0
    ensures EomBuf(s, w, s.msgid, s.msgsize, env) == w
    ensures Well(MissedTail(s, env).gaps, s.msgsize)
    ensures RecvEomOf(s, s.msgid, s.msgsize, env)
            == AskAgain(MissedTail(s, env).(eomcount := MissedTail(s, env).eomcount + 1), env.naksize % ULONG, env)
  {
    hide NakAll, MissedTail;
    MissedTailWell(s, env);
    var t := MissedTail(s, env);
    NakAllCount(t.gaps, env.naksize % ULONG, t.eomcount + 1, env, s.msgsize);
  }

  lemma {:induction false} OneGap(gaps: seq<Gap>, size: nat)
    requires |gaps| == 1 && gaps[0].start < gaps[0].end <= size
    ensures Well(gaps, size)
  {
    assert gaps[1..] == [];
  }

  // The first byte of the one gap arrives.
  lemma {:induction false} OneFilled(gaps: seq<Gap>, k: nat, end: nat)
    requires |gaps| == 1 && gaps[0].start == k < end == gaps[0].end
    ensures Hits(gaps, k, k + 1) && BeginsIn(gaps, k, k + 1)
    ensures var f := Filled(gaps, k, k + 1);
            if k + 1 < end then |f| == 1 && f[0].start == k + 1 && f[0].end == end else f == []
  {
    assert gaps[1..] == [] && Filled([], k, k + 1) == [];
  }

  // A byte written where the empty buffer stands, above it, and below it.
  lemma {:induction false} ByteAt(f: seq<Byte>, start: nat, b: Byte)
    ensures WriteDataOf(WBuf(f, start, []), [b], start) == WBuf(f, start, [b])
  {
    assert Patched([], 0, [b]) == [b];
  }

  lemma {:induction false} ByteAbove(f: seq<Byte>, start: nat, b: Byte, a: nat)
    requires start < a
    ensures WriteDataOf(WBuf(f, start, []), [b], a) == WBuf(f, a, [b])
  {
    ByteAt(f, a, b);
  }

  lemma {:induction false} ByteBelow(w: WBuf, b: Byte, k: nat)
    requires InBlock(w) && k < w.start
    ensures WriteDataOf(w, [b], k) == w.(file := WriteAt(w.file, k, [b]))
    ensures forall a :: k < a < |w.file| ==> a < |WriteAt(w.file, k, [b])| && WriteAt(w.file, k, [b])[a] == w.file[a]
  {
    WriteAtIs(w.file, k, [b]);
  }

  lemma {:induction false} SomHolds(x: Reader, s: Snap, m: seq<Byte>, env: Env)
    requires AllMissing(x, s, m) && s.goodaddr < |m|
    ensures var y := Handled(x, GotSom(env)); AllMissing(y, s, m) && y.s.state == Active && y.s.chkpttime == env.time
  {
    OneGap(x.s.gaps, |m|);
  }

  lemma {:induction false} DataHolds(x: Reader, s: Snap, m: seq<Byte>, env: Env)
    requires AllMissing(x, s, m) && x.s.state == Active && x.s.chkpttime == env.time
    requires s.goodaddr < |s.disk| <= |m| && s.disk[s.goodaddr] != m[s.goodaddr]
    ensures var y := Handled(x, GotData(s.goodaddr, [m[s.goodaddr]], env));
            && Deceived(y, s, m, s.goodaddr) && Proper(y)
            && y.s.disk == s.disk && y.s.goodaddr == s.goodaddr + 1 && y.s.msgid == s.msgid
  {
    hide WriteAt, WriteDataOf, NakAll, Naks, Filled, Hits, BeginsIn, ViewOf, AskAgain;
    var g := s.goodaddr;
    OneGap(x.s.gaps, |m|);
    OneFilled(x.s.gaps, g, |m|);
    ByteAt(s.disk, g, m[g]);
    var y := Handled(x, GotData(g, [m[g]], env));
    assert y.s.gaps == Filled(x.s.gaps, g, g + 1);
    if g + 1 < |m| {
      OneGap(y.s.gaps, |m|);
    }
  }

  // The wrong byte is above it: received first, it stays in the buffer while the gap in front of it
  // is filled, byte by byte, and goodaddr goes to the end of the message.
  predicate Filling(x: Reader, s: Snap, m: seq<Byte>, a: nat, k: nat)
    requires a < |s.disk| && a < |m|
  {
    && Holds(x.s, x.w) && x.w.start == a && x.w.held == [m[a]] && x.s.handed == s.handed
    && x.s.state == Active && x.s.msgfile && x.s.msgsize == |m| && x.s.msgaddr == a + 1
    && |x.w.file| > a && x.w.file[a] == s.disk[a]
    && (if k < a then |x.s.gaps| == 1 && x.s.gaps[0].start == k && x.s.gaps[0].end == a
        else x.s.gaps == [] && x.s.goodaddr == |m|)
  }

  lemma {:induction false} FillingStarts(s: Snap, m: seq<Byte>, env: Env, a: nat)
    requires Interruptible(s, m) && s.goodaddr < a < |s.disk| <= |m|
    ensures Filling(Handled(Resumed(s, env), GotData(a, [m[a]], env)), s, m, a, s.goodaddr)
  {
    hide WriteAt, WriteDataOf, NakAll, Naks;
    var x := Resumed(s, env);
    WriteNothing(s.disk, s.goodaddr);
    PlacedWell(x.s, a, 1, env);
    ByteAbove(s.disk, s.goodaddr, m[a], a);
  }

  lemma {:induction false} FillingGoes(x: Reader, s: Snap, m: seq<Byte>, env: Env, a: nat, k: nat)
    requires k < a < |s.disk| <= |m| && Filling(x, s, m, a, k)
    ensures Filling(Handled(x, GotData(k, [m[k]], env)), s, m, a, k + 1)
  {
    hide WriteAt, WriteDataOf, ViewOf;
    OneGap(x.s.gaps, |m|);
    OneFilled(x.s.gaps, k, a);
    ByteBelow(x.w, m[k], k);
    UnderUp(x.w, [m[k]], k);
  }

  function ByteByByte(m: seq<Byte>, env: Env, from: nat, k: nat): seq<Event>
    requires from <= k <= |m|
    decreases k
  {
    if from == k then [] else ByteByByte(m, env, from, k - 1) + [GotData(k - 1, [m[k - 1]], env)]
  }

  lemma {:induction false} OneMore(m: seq<Byte>, env: Env, from: nat, k: nat, es: seq<Event>)
    requires from <= k <= |m|
    ensures if k == from then es + ByteByByte(m, env, from, k) == es
            else es + ByteByByte(m, env, from, k)
                 == es + ByteByByte(m, env, from, k - 1) + [GotData(k - 1, [m[k - 1]], env)]
  {
  }

  lemma {:induction false} GenuineMore(es: seq<Event>, e: Event, m: seq<Byte>)
    requires AllGenuine(es, m) && Genuine(e, m)
    ensures AllGenuine(es + [e], m)
  {
  }

  lemma {:induction false} FillingRuns(x: Reader, es: seq<Event>, s: Snap, m: seq<Byte>, env: Env, a: nat, k: nat)
    requires s.goodaddr <= k <= a < |s.disk| <= |m| && AllGenuine(es, m)
    requires Filling(After(x, es), s, m, a, s.goodaddr)
    ensures AllGenuine(es + ByteByByte(m, env, s.goodaddr, k), m)
    ensures Filling(After(x, es + ByteByByte(m, env, s.goodaddr, k)), s, m, a, k)
    decreases k
  {
    hide Filling, After, ByteByByte, AllGenuine, Handled;
    OneMore(m, env, s.goodaddr, k, es);
    if k > s.goodaddr {
      FillingRuns(x, es, s, m, env, a, k - 1);
      var e := GotData(k - 1, [m[k - 1]], env);
      var done := es + ByteByByte(m, env, s.goodaddr, k - 1);
      assert m[k - 1..k] == [m[k - 1]];
      GenuineMore(done, e, m);
      AfterMore(x, done, e);
      FillingGoes(After(x, done), s, m, env, a, k - 1);
    }
  }

  lemma {:induction false} LaterWrong(s: Snap, m: seq<Byte>, env: Env, a: nat) returns (es: seq<Event>)
    requires Interruptible(s, m) && s.goodaddr < a < |s.disk| && s.disk[a] != m[a]
    ensures AllGenuine(es, m) && !StopsWell(After(Resumed(s, env), es), s, m)
  {
    hide Filling, Interruptible, StopsWell, After, Resumed;
    DiskFits(s, m);
    var x, e := Resumed(s, env), GotData(a, [m[a]], env);
    FillingStarts(s, m, env, a);
    AfterMore(x, [], e);
    AfterNone(x);
    assert [] + [e] == [e];
    assert m[a..a + 1] == [m[a]];
    FillingRuns(x, [e], s, m, env, a, a);
    var done := [e] + ByteByByte(m, env, s.goodaddr, a);
    FilledDeceived(After(x, done), s, m, a);
    DeceivedStops(After(x, done), s, m, a);
    AfterMore(x, done, Saves);
    es := done + [Saves];
  }

  lemma {:induction false} AfterNone(x: Reader)
    ensures After(x, []) == x
  {
  }

  lemma {:induction false} DiskFits(s: Snap, m: seq<Byte>)
    requires Interruptible(s, m)
    ensures |s.disk| <= |m|
  {
  }

  lemma {:induction false} FilledDeceived(x: Reader, s: Snap, m: seq<Byte>, a: nat)
    requires a < |s.disk| <= |m| && Filling(x, s, m, a, a) && s.disk[a] != m[a]
    ensures Deceived(x, s, m, a) && Proper(x)
  {
  }

  // A message taken up again may be stopped at any moment, whatever handlers have run, with whatever
  // in the buffer: if and only if the bytes that its file has from goodaddr on are right.
  lemma {:induction false} StopsWellIff(s: Snap, m: seq<Byte>, env: Env)
    requires Interruptible(s, m)
    ensures (forall es :: AllGenuine(es, m) ==> StopsWell(After(Resumed(s, env), es), s, m)) <==> ResumeSafe(s, m)
  {
    hide Interruptible, StopsWell, Going, After, Resumed, AllGenuine;
    DiskFits(s, m);
    if ResumeSafe(s, m) {
      forall es | AllGenuine(es, m)
        ensures StopsWell(After(Resumed(s, env), es), s, m)
      {
        ResumedGoing(s, m, env);
        RunGoing(Resumed(s, env), es, s, m);
        GoingStops(After(Resumed(s, env), es), s, m);
      }
    } else {
      var a :| s.goodaddr <= a < |s.disk| && s.disk[a] != m[a];
      if a == s.goodaddr {
        var es := FirstWrong(s, m, env);
        assert AllGenuine(es, m);
      } else {
        var es := LaterWrong(s, m, env, a);
        assert AllGenuine(es, m);
      }
    }
  }

  // Without knowing the message: whatever it is, it may be stopped, if and only if its file goes no
  // further than goodaddr.
  lemma {:induction false} AnyMessageIff(s: Snap, m: seq<Byte>, env: Env)
    requires Interruptible(s, m)
    ensures (forall n, es :: Interruptible(s, n) && AllGenuine(es, n) ==> StopsWell(After(Resumed(s, env), es), s, n))
            <==> |s.disk| <= s.goodaddr
  {
    hide StopsWell, After, Resumed, AllGenuine;
    if |s.disk| <= s.goodaddr {
      forall n, es | Interruptible(s, n) && AllGenuine(es, n)
        ensures StopsWell(After(Resumed(s, env), es), s, n)
      {
        StopsWellIff(s, n, env);
      }
    } else {
      var g := s.goodaddr;
      var n := m[g := if s.disk[g] == 0 then 1 else 0];
      assert Interruptible(s, n);
      assert n[g] != s.disk[g];
      assert !ResumeSafe(s, n);
      StopsWellIff(s, n, env);
    }
  }

  // A message begun by its SOM.
  function Begun(id: MsgId, size: nat, env: Env): Reader
  {
    Reader(SomaOf(NewMesgOf(NothingYet(), id, size), env), WBuf([], 0, []))
  }

  // The message 1 2, stopped when only its second byte has come and is on disk, behind a hole.
  function Misled(env: Env): Snap
  {
    InitStatusOf(After(Begun("m", 2, env), [GotData(1, [2], env), Flushes]).s)
  }

  // The second byte comes first: the first is a gap, and goodaddr goes down to it.
  lemma {:induction false} SecondFirst(env: Env)
    ensures var y := Handled(Begun("m", 2, env), GotData(1, [2], env));
            && y.w == WBuf([], 1, [2]) && y.s.msgfile && y.s.handed == [] && Well(y.s.gaps, y.s.msgsize)
            && y.s.disk == [] && y.s.status == Status(Active, "m", 2, 0, false)
  {
    hide NakAll, Naks, WriteAt, WriteDataOf;
    var x := Begun("m", 2, env);
    ByteAbove([], 0, 2, 1);
    PlacedWell(x.s, 1, 1, env);
    DataView(x.s, 1, [2], env);
  }

  // Flushed and stopped.
  lemma {:induction false} HoleOnDisk(y: Reader)
    requires y.w == WBuf([], 1, [2]) && y.s.msgfile && y.s.handed == [] && Well(y.s.gaps, y.s.msgsize)
    requires y.s.disk == [] && y.s.status == Status(Active, "m", 2, 0, false)
    ensures var s := InitStatusOf(Handled(y, Flushes).s);
            && s.state == Starting && !s.msgfile && s.gaps == [] && s.status == Status(Starting, "m", 2, 0, false)
            && s.msgid == "m" && s.msgsize == 2 && s.goodaddr == 0 && s.disk == [0, 2] && s.handed == []
  {
    assert Handled(y, Flushes).s.disk == WriteAt([], 1, [2]) == [0, 2];
  }

  lemma {:induction false} MisledIs(env: Env)
    ensures AllGenuine([GotData(1, [2], env), Flushes], [1, 2])
    ensures var s := Misled(env);
            && Interruptible(s, [1, 2]) && !ResumeSafe(s, [1, 2])
            && s.msgid == "m" && s.goodaddr == 0 && s.disk == [0, 2] && s.handed == []
  {
    hide Handled, After, InitStatusOf, Begun;
    assert [1, 2][1..2] == [2];
    SecondFirst(env);
    HoleOnDisk(Handled(Begun("m", 2, env), GotData(1, [2], env)));
    TwoEvents(Begun("m", 2, env), GotData(1, [2], env), Flushes);
    assert Misled(env).disk[0] != [1, 2][0];
  }

  // What the handlers can then be given: an EOM, a SOM, the right first byte, and a saving of the
  // status; a stop; and the second byte, which is all the reader still asks for, and an EOM.
  function Misleading(env: Env): (es: seq<Event>)
  {
    [GotEom(Quick(env)), GotSom(Quick(env)), GotData(0, [1], Quick(env)), Saves]
  }

  lemma {:induction false} MisleadingGenuine(env: Env)
    ensures AllGenuine(Misleading(env), [1, 2]) && AllGenuine([GotData(1, [2], env), GotEom(Quick(env))], [1, 2])
  {
    assert [1, 2][0..1] == [1] && [1, 2][1..2] == [2];
  }

  // A reader so misled believes the hole.
  lemma {:induction false} HoleBelieved(s: Snap, env: Env)
    requires Interruptible(s, [1, 2]) && s.goodaddr == 0 && s.disk == [0, 2] && s.handed == []
    ensures var r := InitStatusOf(After(Resumed(s, env), Misleading(env)).s);
            && r.handed == [] && r.disk == [0, 2] && r.goodaddr == 1
            && r.gaps == [] && r.msgid == s.msgid && r.msgsize == 2
  {
    hide AllMissing, Handled, Resumed, After, Proper, Interruptible, InitStatusOf;
    var x := Resumed(s, env);
    var e1, e2, e3 := GotEom(Quick(env)), GotSom(Quick(env)), GotData(0, [1], Quick(env));
    EomHolds(s, [1, 2], env);
    SomHolds(Handled(x, e1), s, [1, 2], Quick(env));
    DataHolds(Handled(Handled(x, e1), e2), s, [1, 2], Quick(env));
    FourEvents(x, e1, e2, e3, Saves);
    SavedStop(Handled(Handled(Handled(x, e1), e2), e3));
  }

  // The reader resumes above the hole, and hands over 0 2.
  lemma {:induction false} SeekBackLoses(env: Env)
    ensures AllGenuine(Misleading(env), [1, 2]) && AllGenuine([GotData(1, [2], env), GotEom(Quick(env))], [1, 2])
    ensures var r := InitStatusOf(After(Resumed(Misled(env), env), Misleading(env)).s);
            var t := After(Resumed(r, env), [GotData(1, [2], env), GotEom(Quick(env))]).s;
            && r.handed == [] && r.disk == [0, 2] && ResumedAt(r) == 1
            && |t.handed| == 1 && t.handed[0].id == "m" && t.handed[0].contents == [0, 2]
  {
    hide After, Resumed, Misled, Misleading, InitStatusOf, Interruptible, ResumeSafe, AllGenuine;
    MisledIs(env);
    MisleadingGenuine(env);
    HoleBelieved(Misled(env), env);
    LastByte(InitStatusOf(After(Resumed(Misled(env), env), Misleading(env)).s), env);
  }

  // Resumed at the second byte of two, with two on disk: it is written again, and both are handed over.
  lemma {:induction false} LastByte(s: Snap, env: Env)
    requires s.disk == [0, 2] && s.goodaddr == 1 && s.gaps == [] && s.msgsize == 2 && s.handed == []
    ensures var t := After(Resumed(s, env), [GotData(1, [2], env), GotEom(Quick(env))]).s;
            |t.handed| == 1 && t.handed[0].id == s.msgid && t.handed[0].contents == [0, 2]
  {
    hide NakAll, Naks, WriteDataOf, Filled, BeginsIn;
    var x := Resumed(s, env);
    ByteAt([0, 2], 1, 2);
    var y := Handled(x, GotData(1, [2], env));
    assert y.s.view == WriteAt([0, 2], 1, [2]) == [0, 2];
    EomHandsOver(y.s, Quick(env));
    TwoEvents(x, GotData(1, [2], env), GotEom(Quick(env)));
  }

  lemma {:induction false} TwoEvents(x: Reader, e1: Event, e2: Event)
    ensures After(x, [e1, e2]) == Handled(Handled(x, e1), e2)
  {
    hide Handled;
    assert [e1] == [] + [e1] && [e1, e2] == [e1] + [e2];
    AfterNone(x);
    AfterMore(x, [], e1);
    AfterMore(x, [e1], e2);
  }

  lemma {:induction false} FourEvents(x: Reader, e1: Event, e2: Event, e3: Event, e4: Event)
    ensures After(x, [e1, e2, e3, e4]) == Handled(Handled(Handled(Handled(x, e1), e2), e3), e4)
  {
    hide Handled;
    assert [e1] == [] + [e1] && [e1, e2] == [e1] + [e2] && [e1, e2, e3] == [e1, e2] + [e3];
    assert [e1, e2, e3, e4] == [e1, e2, e3] + [e4];
    AfterNone(x);
    AfterMore(x, [], e1);
    AfterMore(x, [e1], e2);
    AfterMore(x, [e1, e2], e3);
    AfterMore(x, [e1, e2, e3], e4);
  }

  lemma {:induction false} SavedStop(x: Reader)
    requires Proper(x) && x.s.state == Active
    ensures var r := InitStatusOf(Handled(x, Saves).s);
            && r.handed == x.s.handed && r.disk == x.s.disk && r.goodaddr == x.s.goodaddr
            && r.gaps == [] && r.msgid == x.s.msgid && r.msgsize == x.s.msgsize
  {
  }
}
