/** What the receiving handlers keep: every byte passed is written or missing, a message is handed
    over only when it is whole, and an interrupted message is resumed from bytes that are on disk. */
module Coverage {
  import opened Channel
  import opened GapList
  import opened WriteBuffer
  import opened Receiver

  // Every byte below the receiving position is in the file, or in a gap.
  ghost predicate Right(s: Snap, m: seq<Byte>)
    requires s.msgaddr <= |m|
  {
    forall a :: 0 <= a < s.msgaddr && !In(s.gaps, a) ==> a < |s.view| && s.view[a] == m[a]
  }

  // The saved status is of this message, and claims no more than is known now.
  predicate StatusKept(s: Snap)
  {
    && (s.status.state == Active || s.status.state == Ending)
    && s.status.msgid == s.msgid && s.status.msgsize == s.msgsize
    && s.status.goodaddr <= s.goodaddr
  }

  // The channel is receiving the message with contents `m`.
  ghost predicate Receiving(s: Snap, m: seq<Byte>)
  {
    && (s.state == Active || s.state == Ending) && s.msgfile
    && s.msgsize == |m| && s.msgaddr <= |m| && |s.view| <= |m|
    && (s.state == Ending ==> s.msgaddr == |m|)
    && Well(s.gaps, |m|) && s.goodaddr <= First(s.gaps, |m|)
    && Right(s, m)
    && StatusKept(s)
  }

  // The message has been handed over, whole, once more than before.
  predicate HandedOver(s: Snap, t: Snap, m: seq<Byte>)
  {
    && t.handed == s.handed + [Handed(s.msgid, |m|, m, s.rdup)]
    && t.state == Ended && t.status.state == Ended && !t.msgfile && t.gaps == []
    && t.msgid == s.msgid && t.msgsize == s.msgsize
    && t.status.msgid == s.msgid && t.status.msgsize == s.msgsize
  }

  ghost predicate Continues(s: Snap, t: Snap, m: seq<Byte>)
  {
    || (Receiving(t, m) && t.msgid == s.msgid && t.rdup == s.rdup && t.handed == s.handed)
    || HandedOver(s, t, m)
  }

  // ----- DATA

  lemma {:induction false} WriteKeeps(s: Snap, m: seq<Byte>, addr: nat, data: seq<Byte>, a: nat)
    requires s.msgaddr <= |m| && Right(s, m) && data != []
    requires addr + |data| <= |m| && data == m[addr..addr + |data|]
    requires (a < s.msgaddr && !In(s.gaps, a)) || addr <= a < addr + |data|
    ensures var v := WriteAt(s.view, addr, data); a < |v| && v[a] == m[a]
  {
    WriteAtIs(s.view, addr, data);
  }

  lemma {:induction false} WriteFits(f: seq<Byte>, addr: nat, data: seq<Byte>, limit: nat)
    requires |f| <= limit && addr + |data| <= limit
    ensures |f| <= |WriteAt(f, addr, data)| <= limit
  {
    WriteLength(f, addr, data);
  }

  // With nothing missing, the file is the message.
  lemma {:induction false} WholeFile(s: Snap, m: seq<Byte>)
    requires s.msgaddr == |m| && s.gaps == [] && |s.view| <= |m| && Right(s, m)
    ensures s.view == m
  {
    if m != [] {
      assert !In(s.gaps, |m| - 1);
    }
    forall a | 0 <= a < |m|
      ensures a < |s.view| && s.view[a] == m[a]
    {
      assert !In(s.gaps, a);
    }
  }

  lemma {:induction false} FillKeeps(s: Snap, m: seq<Byte>, addr: nat, data: seq<Byte>)
    requires Receiving(s, m) && data != [] && addr < s.msgaddr
    requires addr + |data| <= |m| && data == m[addr..addr + |data|]
    ensures var end := addr + |data|;
            Receiving(Fill(s, addr, |data|).(view := WriteAt(s.view, addr, data),
                                             msgaddr := if s.msgaddr < end then end else s.msgaddr), m)
  {
    hide Filled, WriteAt, BeginsIn;
    var end := addr + |data|;
    var t := Fill(s, addr, |data|).(view := WriteAt(s.view, addr, data),
                                    msgaddr := if s.msgaddr < end then end else s.msgaddr);
    FilledWell(s.gaps, addr, end, |m|);
    WriteFits(s.view, addr, data, |m|);
    FirstBound(t.gaps, |m|);
    forall a | 0 <= a < t.msgaddr && !In(t.gaps, a)
      ensures a < |t.view| && t.view[a] == m[a]
    {
      FilledIn(s.gaps, addr, end, |m|, a);
      WriteKeeps(s, m, addr, data, a);
    }
  }

  lemma {:induction false} EndKeeps(s: Snap, m: seq<Byte>)
    requires Receiving(s, m) && s.gaps == [] && s.msgaddr == |m|
    ensures HandedOver(s, EndMesgOf(s), m)
  {
    WholeFile(s, m);
  }

  lemma {:induction false} OldKeeps(s: Snap, m: seq<Byte>, addr: nat, data: seq<Byte>)
    requires Receiving(s, m) && data != [] && addr < s.msgaddr
    requires addr + |data| <= |m| && data == m[addr..addr + |data|]
    ensures Continues(s, RecvOldOf(s, addr, data), m)
  {
    hide Filled, WriteAt, BeginsIn, Hits, Receiving;
    var end := addr + |data|;
    if Hits(s.gaps, addr, end) || s.msgaddr < end {
      FillKeeps(s, m, addr, data);
      var t := Fill(s, addr, |data|).(view := WriteAt(s.view, addr, data),
                                      msgaddr := if s.msgaddr < end then end else s.msgaddr);
      if t.state == Ending && t.gaps == [] {
        EndingAll(t, m);
        EndKeeps(t, m);
      }
    }
  }

  lemma {:induction false} EndingAll(s: Snap, m: seq<Byte>)
    requires Receiving(s, m) && s.state == Ending
    ensures s.msgaddr == |m|
  {
  }

  lemma {:induction false} PlacedKeeps(s: Snap, m: seq<Byte>, addr: nat, data: seq<Byte>, env: Env)
    requires Receiving(s, m) && data != [] && s.msgaddr <= addr
    requires addr + |data| <= |m| && data == m[addr..addr + |data|]
    ensures var t := Placed(s, addr, |data|, env).(view := WriteAt(s.view, addr, data), msgaddr := addr + |data|);
            t.state == Active && Receiving(t, m) && t.rdup == s.rdup && t.handed == s.handed
  {
    hide Filled, WriteAt, BeginsIn, Queued;
    var end := addr + |data|;
    var t := Placed(s, addr, |data|, env).(view := WriteAt(s.view, addr, data), msgaddr := end);
    PlacedWell(s, addr, |data|, env);
    WriteFits(s.view, addr, data, |m|);
    FirstBound(t.gaps, |m|);
    FilledWell(s.gaps, addr, end, |m|);
    if s.msgaddr < addr {
      QueuedWell(s.gaps, s.msgaddr, addr, env.time, |m|);
      QueuedNak(s.gaps, s.msgaddr, addr, env.time, |m|);
      assert t.goodaddr <= First(t.gaps, |m|);
    }
    forall a | 0 <= a < end && !In(t.gaps, a)
      ensures a < |t.view| && t.view[a] == m[a]
    {
      if s.msgaddr < addr {
        QueuedIn(s.gaps, s.msgaddr, addr, env.time, |m|, a);
      } else {
        FilledIn(s.gaps, addr, end, |m|, a);
      }
      WriteKeeps(s, m, addr, data, a);
    }
  }

  // Asking again changes no range.
  lemma {:induction false} AskKeeps(s: Snap, m: seq<Byte>, maxlength: nat, env: Env)
    requires Receiving(s, m)
    ensures Receiving(AskAgain(s, maxlength, env), m)
  {
    hide NakAll;
    NakAllRanges(s.gaps, maxlength, s.eomcount, env, s.msgsize);
    SameRangesIn(NakAll(s.gaps, maxlength, s.eomcount, env, s.msgsize).gaps, s.gaps, s.msgsize);
  }

  lemma {:induction false} NewKeeps(s: Snap, m: seq<Byte>, addr: nat, data: seq<Byte>, env: Env)
    requires Receiving(s, m) && data != [] && s.msgaddr <= addr
    requires addr + |data| <= |m| && data == m[addr..addr + |data|]
    ensures var t := RecvNewOf(s, addr, data, env);
            t.msgid == s.msgid && t.rdup == s.rdup && Receiving(t, m) && t.handed == s.handed
  {
    hide WriteAt, Placed, AskAgain;
    PlacedWell(s, addr, |data|, env);
    PlacedKeeps(s, m, addr, data, env);
    var t := Placed(s, addr, |data|, env);
    var u := t.(view := WriteAt(s.view, addr, data), msgaddr := addr + |data|);
    AskKeeps(u, m, env.window % ULONG, env);
    PlacedId(s, addr, |data|, env);
    AskId(t, env.window % ULONG, env, u.view, u.msgaddr);
  }

  lemma {:induction false} PlacedId(s: Snap, addr: nat, size: nat, env: Env)
    requires size > 0 && s.msgaddr <= addr
    ensures Placed(s, addr, size, env).msgid == s.msgid && Placed(s, addr, size, env).msgsize == s.msgsize
  {
  }

  lemma {:induction false} AskId(s: Snap, maxlength: nat, env: Env, view: seq<Byte>, msgaddr: nat)
    requires Well(s.gaps, s.msgsize)
    ensures var t := AskAgain(s, maxlength, env);
            && t.(view := view, msgaddr := msgaddr) == AskAgain(s.(view := view, msgaddr := msgaddr), maxlength, env)
            && t.msgid == s.msgid && t.rdup == s.rdup && t.handed == s.handed && t.eomcount == s.eomcount
            && t.msgaddr == s.msgaddr && t.msgsize == s.msgsize && t.state == s.state
  {
  }

  // The receiver goes on receiving, or hands the message over; the buffer's way to disk does not matter.
  lemma {:induction false} DataKeeps(s: Snap, t: Snap, m: seq<Byte>, addr: nat, data: seq<Byte>, env: Env)
    requires Receiving(s, m) && data != []
    requires addr + |data| <= |m| ==> data == m[addr..addr + |data|]
    requires UpToDisk(RecvDataOf(s, addr, data, env), t)
    ensures Continues(s, t, m)
  {
    hide RecvOldOf, RecvNewOf;
    if addr + |data| <= |m| {
      if addr < s.msgaddr {
        OldKeeps(s, m, addr, data);
      } else {
        NewKeeps(s, m, addr, data, env);
      }
    }
  }

  // ----- End of message

  lemma {:induction false} MissedTailKeeps(s: Snap, m: seq<Byte>, env: Env)
    requires Receiving(s, m)
    ensures var t := MissedTail(s, env);
            && Receiving(t, m) && t.msgid == s.msgid && t.rdup == s.rdup && t.handed == s.handed
            && (s.msgaddr == 0 < s.msgsize || (t.msgaddr == |m| && t.state == Ending))
  {
    hide Queued;
    var t := MissedTail(s, env);
    if s.msgaddr < |m| {
      QueuedWell(s.gaps, s.msgaddr, |m|, env.time, |m|);
      QueuedNak(s.gaps, s.msgaddr, |m|, env.time, |m|);
      forall a | 0 <= a < t.msgaddr && !In(t.gaps, a)
        ensures a < |t.view| && t.view[a] == m[a]
      {
        QueuedIn(s.gaps, s.msgaddr, |m|, env.time, |m|, a);
      }
    }
  }

  // NAKGaps counts no gap when it is given no room, so the test for completeness needs some.
  lemma {:induction false} FinishKeeps(s: Snap, m: seq<Byte>, wholeMissing: bool, env: Env)
    requires Receiving(s, m) && env.naksize % ULONG > 0
    requires !wholeMissing ==> s.msgaddr == |m|
    ensures Continues(s, FinishOf(s, wholeMissing, env), m)
  {
    hide NakAll, AskAgain;
    var max := env.naksize % ULONG;
    var u := s.(eomcount := s.eomcount + 1);
    AskKeeps(u, m, max, env);
    AskId(u, max, env, u.view, u.msgaddr);
    NakAllCount(s.gaps, max, u.eomcount, env, s.msgsize);
    var t := AskAgain(u, max, env);
    if !wholeMissing && NakAll(s.gaps, max, u.eomcount, env, s.msgsize).count == 0 {
      AskNothing(u, max, env);
      EndKeeps(t, m);
    }
  }

  lemma {:induction false} AskNothing(s: Snap, maxlength: nat, env: Env)
    requires s.gaps == []
    ensures AskAgain(s, maxlength, env).gaps == []
  {
  }

  lemma {:induction false} EomKeeps(s: Snap, t: Snap, m: seq<Byte>, id: MsgId, size: nat, env: Env)
    requires Receiving(s, m) && env.naksize % ULONG > 0
    requires UpToDisk(RecvEomOf(s, id, size, env), t)
    ensures Continues(s, t, m)
  {
    hide MissedTail, FinishOf;
    if id == s.msgid && size == s.msgsize {
      MissedTailWell(s, env);
      MissedTailKeeps(s, m, env);
      FinishKeeps(MissedTail(s, env), m, s.msgaddr == 0 && 0 < s.msgsize, env);
    }
  }

  // Exactly when an EOM hands the message over.  Without room for a NAK (`naksize` is 0 when the
  // circuit carries less than a byte a second) the test does not look at what is missing.
  lemma {:induction false} EomHandsOver(s: Snap, env: Env)
    requires (s.state == Active || s.state == Ending) && Well(s.gaps, s.msgsize)
    ensures RecvEomOf(s, s.msgid, s.msgsize, env).handed != s.handed <==>
            || (s.gaps == [] && s.msgsize <= s.msgaddr)
            || (env.naksize % ULONG == 0 && !(s.msgaddr == 0 < s.msgsize))
  {
    hide NakAll, MissedTail;
    MissedTailWell(s, env);
    MissedTailHanded(s, env);
    MissedTailNone(s, env);
    var t := MissedTail(s, env);
    NakAllCount(t.gaps, env.naksize % ULONG, t.eomcount + 1, env, t.msgsize);
  }

  lemma {:induction false} MissedTailNone(s: Snap, env: Env)
    ensures MissedTail(s, env).gaps == [] <==> s.gaps == [] && s.msgsize <= s.msgaddr
  {
    if s.msgaddr < s.msgsize {
      QueuedSome(s.gaps, s.msgaddr, s.msgsize, env.time);
    }
  }

  lemma {:induction false} QueuedSome(gl: seq<Gap>, start: nat, end: nat, time: int)
    ensures Queued(gl, start, end, time).gaps != []
  {
  }

  // So a message is handed over as it stands, with zeros or nothing where bytes are missing.
  lemma {:induction false} HandsOverAsIs(s: Snap, m: seq<Byte>, env: Env)
    requires Receiving(s, m) && 0 < s.msgaddr && env.naksize % ULONG == 0
    ensures RecvEomOf(s, s.msgid, s.msgsize, env).handed == s.handed + [Handed(s.msgid, |m|, s.view, s.rdup)]
  {
    hide NakAll, Queued;
    MissedTailWell(s, env);
    MissedTailFile(s, env);
    var t := MissedTail(s, env);
    MissedTailHanded(s, env);
    NakAllCount(t.gaps, 0, t.eomcount + 1, env, t.msgsize);
  }

  // The message 1 2, of which only the second byte came: 0 2 is handed over.
  lemma {:induction false} MissingHandedOver(env: Env)
    requires env.naksize == 0
    ensures var s := SomaOf(NewMesgOf(NothingYet(), "m", 2), env); var t := RecvDataOf(s, 1, [2], env);
            && Receiving(s, [1, 2]) && Receiving(t, [1, 2])
            && RecvEomOf(t, "m", 2, env).handed == [Handed("m", 2, [0, 2], false)]
  {
    hide NakAll, Naks;
    var s := SomaOf(NewMesgOf(NothingYet(), "m", 2), env);
    var t := RecvDataOf(s, 1, [2], env);
    NewMesgKeeps(NothingYet(), [1, 2], "m", env);
    NewKeeps(s, [1, 2], 1, [2], env);
    HandsOverAsIs(t, [1, 2], env);
    assert t.view == WriteAt([], 1, [2]) == [0, 2];
  }

  // A channel that has received nothing yet.
  function NothingYet(): Snap
  {
    Snap(Idle, false, false, "", 0, 0, 0, [], 0, 0, 0, [], [], Status(Idle, "", 0, 0, false), [], [])
  }

  lemma {:induction false} MissedTailHanded(s: Snap, env: Env)
    ensures var t := MissedTail(s, env);
            && t.handed == s.handed && t.msgsize == s.msgsize && t.msgid == s.msgid && t.rdup == s.rdup
            && t.eomcount == s.eomcount
  {
  }

  // ----- Start of message

  // The saved prefix of an interrupted message: what a restarted reader goes by.
  ghost predicate Interruptible(s: Snap, m: seq<Byte>)
  {
    && s.state == Starting && !s.msgfile && s.msgsize == |m|
    && |s.disk| <= |m| && s.goodaddr <= |m|
    && s.status.state == Starting && s.status.msgid == s.msgid && s.status.msgsize == s.msgsize
    && s.status.goodaddr == s.goodaddr && s.gaps == []
    && forall a :: 0 <= a < ResumedAt(s) ==> s.disk[a] == m[a]
  }

  lemma {:induction false} NewMesgKeeps(s: Snap, m: seq<Byte>, id: MsgId, env: Env)
    ensures var t := SomaOf(NewMesgOf(s, id, |m|), env);
            Receiving(t, m) && Stoppable(t, m) && t.msgid == id && t.handed == s.handed
  {
  }

  lemma {:induction false} ResumeKeeps(s: Snap, m: seq<Byte>, env: Env)
    requires Interruptible(s, m)
    ensures var t := SomaOf(ResumeOf(s), env);
            && Receiving(t, m) && t.msgid == s.msgid && t.handed == s.handed
            && (ResumeSafe(s, m) ==> Stoppable(t, m))
  {
  }

  // A repeated SOM changes nothing that matters.
  lemma {:induction false} RepeatKeeps(s: Snap, m: seq<Byte>, env: Env)
    requires Receiving(s, m)
    ensures Receiving(SomaOf(s, env), m)
  {
  }

  // Nor does saving the status.
  lemma {:induction false} SaveKeeps(s: Snap, m: seq<Byte>)
    requires Receiving(s, m)
    ensures Receiving(Save(s), m)
  {
  }

  // ----- Restart

  // From `from` on, the file is the message.
  predicate TrueAbove(f: seq<Byte>, m: seq<Byte>, from: nat)
  {
    forall a :: from <= a < |f| && a < |m| ==> f[a] == m[a]
  }

  // The reader may stop at any moment: what the disk has above the buffer is right, and what the view
  // has above the receiving position.  In a message that began in this session there is nothing there.
  predicate Stoppable(s: Snap, m: seq<Byte>)
  {
    Agrees(s) && TrueAbove(s.disk, m, s.bufstart) && TrueAbove(s.view, m, s.msgaddr)
  }

  // What the file of an interrupted message has from goodaddr on is right; so it is if the file goes
  // no further.
  predicate ResumeSafe(s: Snap, m: seq<Byte>)
  {
    TrueAbove(s.disk, m, s.goodaddr)
  }

  // A new view with right bytes on top keeps the rest.
  lemma {:induction false} NewViewStops(s: Snap, t: Snap, m: seq<Byte>, addr: nat, data: seq<Byte>)
    requires Stoppable(s, m) && UpToDisk(t.(disk := s.disk, bufstart := s.bufstart), t)
    requires t.view == WriteAt(s.view, addr, data) && s.msgaddr <= t.msgaddr && addr + |data| <= t.msgaddr
    ensures Stoppable(t, m)
  {
    WriteAtIs(s.view, addr, data);
  }

  lemma {:induction false} SameViewStops(s: Snap, t: Snap, m: seq<Byte>)
    requires Stoppable(s, m) && UpToDisk(t.(disk := s.disk, bufstart := s.bufstart), t)
    requires t.view == s.view && s.msgaddr <= t.msgaddr
    ensures Stoppable(t, m)
  {
  }

  // What becomes of the file and the position.
  lemma {:induction false} DataView(s: Snap, addr: nat, data: seq<Byte>, env: Env)
    requires Well(s.gaps, s.msgsize) && data != [] && s.msgfile
    ensures var t := RecvDataOf(s, addr, data, env);
            && t.disk == s.disk && t.bufstart == s.bufstart && s.msgaddr <= t.msgaddr
            && (t.view == s.view || (t.view == WriteAt(s.view, addr, data) && addr + |data| <= t.msgaddr))
  {
    hide Filled, WriteAt, BeginsIn, Hits, NakAll, Queued;
    if addr + |data| <= s.msgsize && s.msgaddr <= addr {
      PlacedWell(s, addr, |data|, env);
    }
  }

  lemma {:induction false} EomView(s: Snap, id: MsgId, size: nat, env: Env)
    requires Well(s.gaps, s.msgsize) && (s.state == Active || s.state == Ending)
    ensures var t := RecvEomOf(s, id, size, env);
            t.disk == s.disk && t.bufstart == s.bufstart && t.view == s.view && s.msgaddr <= t.msgaddr
  {
    hide Queued, NakAll, Finishes, FinishOf, MissedTail;
    MissedTailWell(s, env);
    MissedTailFile(s, env);
    MissedTailUp(s, env);
    FinishView(MissedTail(s, env), s.msgaddr == 0 && 0 < s.msgsize, env);
  }

  lemma {:induction false} FinishView(s: Snap, wholeMissing: bool, env: Env)
    requires Well(s.gaps, s.msgsize)
    ensures var t := FinishOf(s, wholeMissing, env);
            t.disk == s.disk && t.bufstart == s.bufstart && t.view == s.view && t.msgaddr == s.msgaddr
  {
    hide NakAll;
  }

  lemma {:induction false} MissedTailUp(s: Snap, env: Env)
    ensures s.msgaddr <= MissedTail(s, env).msgaddr && MissedTail(s, env).msgsize == s.msgsize
  {
    hide Queued;
  }

  // While the reader may stop, it may stop after DATA too.
  lemma {:induction false} DataStops(s: Snap, t: Snap, m: seq<Byte>, addr: nat, data: seq<Byte>, env: Env)
    requires Receiving(s, m) && Stoppable(s, m) && data != []
    requires Became(s, RecvDataOf(s, addr, data, env), t) && t.msgfile
    ensures Stoppable(t, m)
  {
    hide RecvDataOf, WriteAt, Stoppable, Agrees;
    ReceivingFile(s, m);
    DataView(s, addr, data, env);
    if RecvDataOf(s, addr, data, env).view == s.view {
      SameViewStops(s, t, m);
    } else {
      NewViewStops(s, t, m, addr, data);
    }
  }

  lemma {:induction false} ReceivingFile(s: Snap, m: seq<Byte>)
    requires Receiving(s, m)
    ensures s.msgfile && s.msgsize == |m| && Well(s.gaps, |m|) && (s.state == Active || s.state == Ending)
  {
  }

  lemma {:induction false} EomStops(s: Snap, t: Snap, m: seq<Byte>, id: MsgId, size: nat, env: Env)
    requires Receiving(s, m) && Stoppable(s, m)
    requires Became(s, RecvEomOf(s, id, size, env), t) && t.msgfile
    ensures Stoppable(t, m)
  {
    hide RecvEomOf, WriteAt, Stoppable, Agrees;
    ReceivingFile(s, m);
    EomView(s, id, size, env);
    SameViewStops(s, t, m);
  }

  // Stop while the reader may, whatever is still in the buffer: the bytes below the file's length and
  // the saved goodaddr are on disk and right.
  lemma {:induction false} RestartKeeps(s: Snap, m: seq<Byte>)
    requires Receiving(s, m) && Stoppable(s, m)
    ensures Interruptible(InitStatusOf(s), m)
    ensures InitStatusOf(s).handed == s.handed && InitStatusOf(s).msgid == s.msgid
  {
    hide Well;
    FirstBound(s.gaps, |m|);
    var r := InitStatusOf(s);
    forall a | 0 <= a < ResumedAt(r)
      ensures s.disk[a] == m[a]
    {
      GoodBelow(s, m, a);
      if a < s.bufstart {
        OnDiskBelow(s, a);
      }
    }
  }

  lemma {:induction false} OnDiskBelow(s: Snap, a: nat)
    requires Agrees(s) && a < |s.disk| && a < s.bufstart
    ensures a < |s.view| && s.view[a] == s.disk[a]
  {
    var n := if |s.disk| < s.bufstart then |s.disk| else s.bufstart;
    assert s.view[..n][a] == s.disk[..n][a];
  }

  // Below goodaddr nothing is missing.
  lemma {:induction false} GoodBelow(s: Snap, m: seq<Byte>, a: nat)
    requires Receiving(s, m) && a < s.goodaddr
    ensures a < |m| && !In(s.gaps, a) && (a < s.msgaddr ==> a < |s.view| && s.view[a] == m[a])
  {
    FirstBound(s.gaps, |m|);
    if In(s.gaps, a) {
      BelowFirst(s.gaps, |m|, a);
    }
  }

  lemma {:induction false} RestartAgain(s: Snap, m: seq<Byte>)
    requires Interruptible(s, m)
    ensures Interruptible(InitStatusOf(s), m)
    ensures InitStatusOf(s).handed == s.handed && InitStatusOf(s).msgid == s.msgid
  {
  }

  lemma {:induction false} FirstBound(gl: seq<Gap>, limit: nat)
    requires Well(gl, limit)
    ensures First(gl, limit) <= limit
  {
  }
}
