/** The receiving state machine (HTdaemon/receiver.c) and the reader's restart (HTdaemon/status.c). */
module Receiver {
  import opened Channel
  import opened GapList
  import opened WriteBuffer

  // ----- What the handlers do, as functions of a channel snapshot.  When the buffer goes to
  // disk is left open: the functions leave `disk` and `bufstart` alone.

  function Save(s: Snap): Snap
  {
    s.(status := SavedOf(s))
  }

  function EndMesgOf(s: Snap): Snap
  {
    var t := s.(msgfile := false,
                handed := s.handed + [Handed(s.msgid, s.msgsize, if s.msgfile then s.view else s.disk, s.rdup)],
                pout := s.pout + [Eoma(s.msgid, s.msgsize)],
                rdup := false,
                state := Ended);
    Save(t)
  }

  // `s`, with the disk file and the write point of `w`.
  function OnDisk(s: Snap, w: WBuf): Snap
  {
    s.(disk := w.file, bufstart := w.start)
  }

  // A buffer that has only moved up, and of which the view is that of `t`, changes nothing else.
  lemma {:induction false} DiskUp(s: Snap, w: WBuf, t: Snap, x: WBuf)
    requires Holds(s, w) && Upwards(w, x) && t.view == ViewOf(x) && t.disk == s.disk && t.bufstart == s.bufstart
    ensures UpToDisk(t, OnDisk(t, x)) && Holds(OnDisk(t, x), x)
  {
    WriteAtIs(x.file, x.start, x.held);
  }

  // Flush the buffer and close the message file.
  function ClosedBuf(s: Snap, w: WBuf): WBuf
  {
    if s.msgfile then Flushed(w) else w
  }

  method CloseFile(chnp: RChan)
    requires chnp.Valid()
    modifies chnp`msgfile, chnp`file, chnp`filepos, chnp`bufstart
    ensures chnp.Valid() && chnp.Buf() == ClosedBuf(old(chnp.Now()), old(chnp.Buf()))
    ensures chnp.Now() == OnDisk(old(chnp.Now()).(msgfile := false), chnp.Buf())
    ensures chnp.file == if old(chnp.msgfile) then old(chnp.View()) else old(chnp.file)
  {
    hide WriteAt, RChan.View, RChan.Buf, Upwards;
    FlushedUp(chnp.Buf());
    if chnp.msgfile {
      FlushWData(chnp);
      chnp.msgfile := false;
    }
  }

  method EndMesg(chnp: RChan)
    requires chnp.Valid()
    modifies chnp
    ensures chnp.Valid() && chnp.Buf() == ClosedBuf(old(chnp.Now()), old(chnp.Buf()))
    ensures chnp.Now() == OnDisk(EndMesgOf(old(chnp.Now())), chnp.Buf())
  {
    hide WriteAt, RChan.View, RChan.Buf, RChan.Valid, ClosedBuf;
    CloseFile(chnp);
    chnp.handed := chnp.handed + [Handed(chnp.msgid, chnp.msgsize, chnp.file, chnp.rdup)];
    chnp.pout := chnp.pout + [Eoma(chnp.msgid, chnp.msgsize)];
    chnp.rdup := false;
    chnp.state := Ended;
    chnp.status := chnp.Saved();
  }

  // The repeated request for old gaps when a checkpoint is due.
  function Checkpoint(s: Snap, env: Env): Snap
    requires Well(s.gaps, s.msgsize)
  {
    if s.chkpttime < env.time - NAK_TIMEOUT then
      (if s.gaps != [] then AskAgain(s, env.window % ULONG, env) else s).(chkpttime := env.time)
    else s
  }

  // DATA for addresses already passed: the channel with the bytes written.
  function RefilledOf(s: Snap, addr: nat, data: seq<Byte>): Snap
    requires data != []
  {
    var end := addr + |data|;
    Fill(s, addr, |data|).(view := WriteAt(s.view, addr, data), msgaddr := if s.msgaddr < end then end else s.msgaddr)
  }

  // ... unless they are all there.
  predicate Known(s: Snap, addr: nat, data: seq<Byte>)
  {
    !Hits(s.gaps, addr, addr + |data|) && addr + |data| <= s.msgaddr
  }

  function RecvOldOf(s: Snap, addr: nat, data: seq<Byte>): Snap
    requires data != []
  {
    if Known(s, addr, data) then s
    else
      var t := RefilledOf(s, addr, data);
      if t.state == Ending && t.gaps == [] then EndMesgOf(t) else t
  }

  function OldBuf(s: Snap, w: WBuf, addr: nat, data: seq<Byte>): WBuf
    requires data != [] && InBlock(w)
  {
    if Known(s, addr, data) then w
    else
      var t, x := RefilledOf(s, addr, data), WriteDataOf(w, data, addr);
      if t.state == Ending && t.gaps == [] then ClosedBuf(t, x) else x
  }

  // Write the bytes, and move the position up.
  method Refill(chnp: RChan, addr: nat, data: seq<Byte>, ghost s: Snap)
    requires chnp.Valid() && data != [] && chnp.Now() == Fill(s, addr, |data|)
    modifies chnp`file, chnp`filepos, chnp`bufstart, chnp`bufend, chnp`msgaddr, chnp.databuffer
    ensures chnp.Valid() && chnp.Buf() == WriteDataOf(old(chnp.Buf()), data, addr)
    ensures chnp.Now() == OnDisk(RefilledOf(s, addr, data), chnp.Buf())
  {
    hide WriteAt, Filled, BeginsIn, WriteDataOf;
    WriteData(chnp, data, addr);
    if chnp.msgaddr < addr + |data| {
      chnp.msgaddr := addr + |data|;
    }
  }

  method RecvOld(chnp: RChan, addr: nat, data: seq<Byte>)
    requires chnp.Valid() && Well(chnp.gaplist, chnp.msgsize) && data != [] && chnp.msgfile
    modifies chnp, chnp.databuffer
    ensures chnp.Valid() && chnp.Buf() == OldBuf(old(chnp.Now()), old(chnp.Buf()), addr, data)
    ensures chnp.Now() == OnDisk(RecvOldOf(old(chnp.Now()), addr, data), chnp.Buf())
  {
    hide WriteAt, Filled, Hits, BeginsIn, First, Well, RChan.View, RChan.Buf, WriteDataOf, Flushed, RefilledOf;
    ghost var s := chnp.Now();
    var filled := FillGap(chnp, addr, |data|);
    if !filled && chnp.msgaddr >= addr + |data| {
      MissNothing(s.gaps, addr, addr + |data|, s.msgsize);
      return;
    }
    Refill(chnp, addr, data, s);
    RefilledGaps(s, addr, data, chnp.Buf());
    if chnp.state == Ending && chnp.gaplist == [] {
      EndMesg(chnp);
    }
  }

  // What ending a message does to the disk does not depend on where it was.
  lemma {:induction false} RefilledGaps(s: Snap, addr: nat, data: seq<Byte>, w: WBuf)
    requires data != []
    ensures var t := RefilledOf(s, addr, data);
            && OnDisk(t, w).state == t.state && OnDisk(t, w).gaps == t.gaps && OnDisk(t, w).msgfile == t.msgfile
            && (s.msgfile ==> forall x: WBuf :: OnDisk(EndMesgOf(OnDisk(t, w)), x) == OnDisk(EndMesgOf(t), x))
  {
    hide WriteAt, Filled, BeginsIn;
  }

  // DATA at or past the receiving position.
  function RecvNewOf(s: Snap, addr: nat, data: seq<Byte>, env: Env): Snap
    requires data != [] && Well(s.gaps, s.msgsize) && s.msgaddr <= addr && addr + |data| <= s.msgsize
  {
    var t := Placed(s, addr, |data|, env);
    PlacedWell(s, addr, |data|, env);
    Checkpoint(t, env).(view := WriteAt(s.view, addr, data), msgaddr := addr + |data|)
  }

  // The gaps, once the place of new data is known.
  function Placed(s: Snap, addr: nat, size: nat, env: Env): Snap
    requires size > 0 && s.msgaddr <= addr
  {
    if s.msgaddr < addr then Note(s, addr, env)
    else if s.gaps == [] then s.(goodaddr := if s.goodaddr < addr then addr else s.goodaddr)
    else Fill(s, addr, size)
  }

  lemma {:induction false} PlacedWell(s: Snap, addr: nat, size: nat, env: Env)
    requires size > 0 && s.msgaddr <= addr && addr + size <= s.msgsize && Well(s.gaps, s.msgsize)
    ensures Well(Placed(s, addr, size, env).gaps, s.msgsize)
  {
    if s.msgaddr < addr {
      QueuedWell(s.gaps, s.msgaddr, addr, env.time, s.msgsize);
    } else {
      FilledWell(s.gaps, addr, addr + size, s.msgsize);
    }
  }

  method Place(chnp: RChan, addr: nat, size: nat, env: Env)
    requires chnp.Valid() && Well(chnp.gaplist, chnp.msgsize) && size > 0
    requires chnp.msgaddr <= addr <= chnp.msgsize
    modifies chnp`gaplist, chnp`goodaddr, chnp`status, chnp`pout
    ensures chnp.Now() == Placed(old(chnp.Now()), addr, size, env)
  {
    hide Well, RChan.View, RChan.Buf, Holds, Agrees, Note, Fill;
    if chnp.msgaddr != addr {
      QueueGap(chnp, addr, env);
    } else if chnp.gaplist == [] {
      if chnp.goodaddr < addr {
        chnp.goodaddr := addr;
      }
    } else {
      var _ := FillGap(chnp, addr, size);
    }
  }

  method TakeCheckpoint(chnp: RChan, env: Env)
    requires chnp.Valid() && Well(chnp.gaplist, chnp.msgsize)
    modifies chnp`gaplist, chnp`pout, chnp`chkpttime
    ensures chnp.Now() == Checkpoint(old(chnp.Now()), env)
  {
    hide RChan.View, RChan.Buf, Holds, Agrees, AskAgain;
    if chnp.chkpttime < env.time - NAK_TIMEOUT {
      if chnp.gaplist != [] {
        var _ := NAKGaps(chnp, env.window % ULONG, env);
      }
      chnp.chkpttime := env.time;
    }
  }

  method RecvNew(chnp: RChan, addr: nat, data: seq<Byte>, env: Env)
    requires chnp.Valid() && Well(chnp.gaplist, chnp.msgsize) && data != []
    requires chnp.msgaddr <= addr && addr + |data| <= chnp.msgsize
    modifies chnp, chnp.databuffer
    ensures chnp.Valid() && chnp.Buf() == WriteDataOf(old(chnp.Buf()), data, addr)
    ensures chnp.Now() == OnDisk(RecvNewOf(old(chnp.Now()), addr, data, env), chnp.Buf())
  {
    hide WriteAt, WriteDataOf, Well, RChan.View, RChan.Buf, Placed, Checkpoint;
    PlacedWell(chnp.Now(), addr, |data|, env);
    Place(chnp, addr, |data|, env);
    TakeCheckpoint(chnp, env);
    WriteData(chnp, data, addr);
    chnp.msgaddr := addr + |data|;
  }

  // DATA goes to the message in progress, when it lies within it.
  function RecvDataOf(s: Snap, addr: nat, data: seq<Byte>, env: Env): Snap
    requires data != [] && Well(s.gaps, s.msgsize)
  {
    if (s.state != Active && s.state != Ending) || s.msgsize < addr + |data| || !s.msgfile then s
    else if addr < s.msgaddr then RecvOldOf(s, addr, data)
    else RecvNewOf(s, addr, data, env)
  }

  // What becomes of the write buffer.
  function DataBuf(s: Snap, w: WBuf, addr: nat, data: seq<Byte>): WBuf
    requires data != [] && InBlock(w)
  {
    if (s.state != Active && s.state != Ending) || s.msgsize < addr + |data| || !s.msgfile then w
    else if addr < s.msgaddr then OldBuf(s, w, addr, data)
    else WriteDataOf(w, data, addr)
  }

  method RecvData(chnp: RChan, addr: nat, data: seq<Byte>, env: Env)
    requires chnp.Valid() && Well(chnp.gaplist, chnp.msgsize) && data != []
    modifies chnp, chnp.databuffer
    ensures chnp.Valid() && chnp.Buf() == DataBuf(old(chnp.Now()), old(chnp.Buf()), addr, data)
    ensures chnp.Now() == OnDisk(RecvDataOf(old(chnp.Now()), addr, data, env), chnp.Buf())
  {
    hide RecvOldOf, RecvNewOf, OldBuf, WriteDataOf, RChan.View, RChan.Buf;
    if chnp.state != Active && chnp.state != Ending {
      return;
    }
    if chnp.msgsize < addr + |data| {
      return;
    }
    if !chnp.msgfile {
      return;
    }
    if chnp.msgaddr > addr {
      RecvOld(chnp, addr, data);
    } else {
      RecvNew(chnp, addr, data, env);
    }
  }

  lemma {:induction false} OldUp(s: Snap, w: WBuf, addr: nat, data: seq<Byte>)
    requires Holds(s, w) && data != [] && s.msgfile
    ensures var t, x := RecvOldOf(s, addr, data), OldBuf(s, w, addr, data);
            UpToDisk(t, OnDisk(t, x)) && Holds(OnDisk(t, x), x)
  {
    hide WriteAt, WriteDataOf, Filled, BeginsIn, Hits, Upwards, Flushed;
    var t, x := RecvOldOf(s, addr, data), OldBuf(s, w, addr, data);
    if Known(s, addr, data) {
      SameUp(w);
    } else {
      var y := WriteDataOf(w, data, addr);
      WriteDataRight(w, data, addr);
      assert InBlock(y) by {
        UpIn(w, y);
      }
      FlushedUp(y);
      if x == Flushed(y) {
        UpwardsTwice(w, y, x);
      }
    }
    DiskUp(s, w, t, x);
  }

  lemma {:induction false} UpIn(w: WBuf, x: WBuf)
    requires Upwards(w, x)
    ensures InBlock(x)
  {
  }

  lemma {:induction false} SameUp(w: WBuf)
    requires InBlock(w)
    ensures Upwards(w, w)
  {
  }

  // DATA changes the channel as `RecvDataOf` says, whatever becomes of the buffer.
  lemma {:induction false} DataBecame(s: Snap, w: WBuf, addr: nat, data: seq<Byte>, env: Env)
    requires Holds(s, w) && Well(s.gaps, s.msgsize) && data != []
    ensures var t, x := RecvDataOf(s, addr, data, env), DataBuf(s, w, addr, data);
            Became(s, t, OnDisk(t, x)) && Holds(OnDisk(t, x), x)
  {
    hide RecvOldOf, RecvNewOf, OldBuf, WriteDataOf, Upwards, UpToDisk, InBlock, ViewOf;
    var t, x := RecvDataOf(s, addr, data, env), DataBuf(s, w, addr, data);
    if s.msgfile && (s.state == Active || s.state == Ending) && addr + |data| <= s.msgsize {
      if addr < s.msgaddr {
        OldUp(s, w, addr, data);
      } else {
        WriteDataRight(w, data, addr);
        NewView(s, addr, data, env);
        DiskUp(s, w, t, x);
      }
    } else {
      SameUp(w);
      DiskUp(s, w, s, w);
    }
  }

  lemma {:induction false} NewView(s: Snap, addr: nat, data: seq<Byte>, env: Env)
    requires data != [] && Well(s.gaps, s.msgsize) && s.msgaddr <= addr && addr + |data| <= s.msgsize
    ensures var t := RecvNewOf(s, addr, data, env);
            t.view == WriteAt(s.view, addr, data) && t.disk == s.disk && t.bufstart == s.bufstart
  {
    hide WriteAt, Filled, BeginsIn, Queued, NakAll, Naks;
    PlacedWell(s, addr, |data|, env);
  }

  // ----- End of message

  // Close and remove the message file; what was buffered goes with it.
  function Unlinked(s: Snap): Snap
  {
    s.(msgfile := false, disk := [], view := [])
  }

  method UnlinkFile(chnp: RChan)
    requires chnp.Valid()
    modifies chnp`file, chnp`bufend, chnp`msgfile
    ensures chnp.Valid() && chnp.Now() == Unlinked(old(chnp.Now()))
    ensures chnp.Buf() == WBuf([], chnp.bufstart, [])
  {
    chnp.file := [];
    chnp.bufend := chnp.bufstart;
    chnp.msgfile := false;
  }

  // An aborted message counts as ended.
  function EndedOf(s: Snap): Snap
  {
    if s.state != Ended && s.state != Idle then Save(s.(state := Ended, goodaddr := 0)) else s
  }

  method EndState(chnp: RChan)
    requires chnp.Valid()
    modifies chnp`state, chnp`goodaddr, chnp`status
    ensures chnp.Now() == EndedOf(old(chnp.Now()))
  {
    hide RChan.View, RChan.Buf, Holds, Agrees;
    if chnp.state != Ended && chnp.state != Idle {
      chnp.state := Ended;
      chnp.goodaddr := 0;
      chnp.status := chnp.Saved();
    }
  }

  function AbortOf(s: Snap): Snap
  {
    EndedOf(if s.msgfile then Unlinked(s) else s)
  }

  function AbortedBuf(s: Snap, w: WBuf): WBuf
  {
    if s.msgfile then WBuf([], w.start, []) else w
  }

  method AbortInMesg(chnp: RChan)
    requires chnp.Valid()
    modifies chnp
    ensures chnp.Valid() && chnp.Now() == AbortOf(old(chnp.Now()))
    ensures chnp.Buf() == AbortedBuf(old(chnp.Now()), old(chnp.Buf()))
  {
    hide RChan.View, RChan.Buf, RChan.Valid, Agrees, ViewOf, InBlock;
    if chnp.msgfile {
      UnlinkFile(chnp);
    }
    EndState(chnp);
  }

  // The first part of an EOM: bytes never seen become a gap.
  function MissedTail(s: Snap, env: Env): Snap
  {
    if s.msgaddr < s.msgsize then
      var t := Note(s, s.msgsize, env);
      if s.msgaddr == 0 then t else t.(msgaddr := s.msgsize, state := Ending)
    else s.(state := Ending)
  }

  lemma {:induction false} MissedTailWell(s: Snap, env: Env)
    requires Well(s.gaps, s.msgsize)
    ensures Well(MissedTail(s, env).gaps, s.msgsize)
  {
    if s.msgaddr < s.msgsize {
      QueuedWell(s.gaps, s.msgaddr, s.msgsize, env.time, s.msgsize);
    }
  }

  // The rest of an EOM: ask for what is missing, or hand the message over.
  function FinishOf(s: Snap, wholeMissing: bool, env: Env): Snap
    requires Well(s.gaps, s.msgsize)
  {
    var t := AskAgain(s.(eomcount := s.eomcount + 1), env.naksize % ULONG, env);
    if wholeMissing || NakAll(s.gaps, env.naksize % ULONG, s.eomcount + 1, env, s.msgsize).count != 0 then t
    else EndMesgOf(t)
  }

  function RecvEomOf(s: Snap, id: MsgId, size: nat, env: Env): Snap
    requires Well(s.gaps, s.msgsize)
  {
    if id != s.msgid || size != s.msgsize then s
    else if s.state == Ended then s.(pout := s.pout + [Eoma(s.msgid, s.msgsize)])
    else if s.state == Starting then AbortOf(s)
    else
      MissedTailWell(s, env);
      FinishOf(MissedTail(s, env), s.msgaddr == 0 && 0 < s.msgsize, env)
  }

  method MissTail(chnp: RChan, env: Env) returns (wholeMissing: bool)
    requires chnp.Valid() && Well(chnp.gaplist, chnp.msgsize)
    modifies chnp`gaplist, chnp`goodaddr, chnp`status, chnp`pout, chnp`msgaddr, chnp`state
    ensures chnp.Now() == MissedTail(old(chnp.Now()), env)
    ensures wholeMissing <==> old(chnp.msgaddr) == 0 && 0 < chnp.msgsize
  {
    hide Well, RChan.View, RChan.Buf, Holds, Agrees, Note;
    if chnp.msgaddr < chnp.msgsize {
      QueueGap(chnp, chnp.msgsize, env);
      if chnp.msgaddr == 0 {
        return true;
      }
      chnp.msgaddr := chnp.msgsize;
    }
    chnp.state := Ending;
    return false;
  }

  // Does the rest of an EOM hand the message over?
  predicate Finishes(s: Snap, wholeMissing: bool, env: Env)
    requires Well(s.gaps, s.msgsize)
  {
    !wholeMissing && NakAll(s.gaps, env.naksize % ULONG, s.eomcount + 1, env, s.msgsize).count == 0
  }

  method Finish(chnp: RChan, wholeMissing: bool, env: Env)
    requires chnp.Valid() && Well(chnp.gaplist, chnp.msgsize)
    modifies chnp
    ensures chnp.Valid()
    ensures chnp.Buf() == if Finishes(old(chnp.Now()), wholeMissing, env)
            then ClosedBuf(old(chnp.Now()), old(chnp.Buf()))
                          else old(chnp.Buf())
    ensures chnp.Now() == OnDisk(FinishOf(old(chnp.Now()), wholeMissing, env), chnp.Buf())
  {
    hide Well, RChan.View, RChan.Buf, NakAll, Flushed;
    ghost var s := chnp.Now();
    chnp.eomcount := chnp.eomcount + 1;
    var count := NAKGaps(chnp, env.naksize % ULONG, env);
    assert chnp.Now() == AskAgain(s.(eomcount := s.eomcount + 1), env.naksize % ULONG, env);
    if wholeMissing || count != 0 {
      return;
    }
    EndMesg(chnp);
  }

  function EomBuf(s: Snap, w: WBuf, id: MsgId, size: nat, env: Env): WBuf
    requires Well(s.gaps, s.msgsize)
  {
    if id != s.msgid || size != s.msgsize || s.state == Ended then w
    else if s.state == Starting then AbortedBuf(s, w)
    else
      MissedTailWell(s, env);
      if Finishes(MissedTail(s, env), s.msgaddr == 0 && 0 < s.msgsize, env) then ClosedBuf(s, w) else w
  }

  method RecvEOM(chnp: RChan, id: MsgId, size: nat, env: Env)
    requires chnp.Valid() && Well(chnp.gaplist, chnp.msgsize)
    modifies chnp
    ensures chnp.Valid() && chnp.Buf() == EomBuf(old(chnp.Now()), old(chnp.Buf()), id, size, env)
    ensures chnp.Now() == OnDisk(RecvEomOf(old(chnp.Now()), id, size, env), chnp.Buf())
  {
    hide Well, RChan.View, RChan.Buf, AbortOf, MissedTail, FinishOf, Finishes, Flushed, AbortedBuf;
    if id != chnp.msgid || size != chnp.msgsize {
      return;
    }
    if chnp.state == Ended {
      chnp.pout := chnp.pout + [Eoma(chnp.msgid, chnp.msgsize)];
      return;
    }
    if chnp.state == Starting {
      AbortInMesg(chnp);
      return;
    }
    MissedTailWell(chnp.Now(), env);
    MissedTailFile(chnp.Now(), env);
    var wholeMissing := MissTail(chnp, env);
    Finish(chnp, wholeMissing, env);
  }

  // A missed tail leaves the file and the buffer alone.
  lemma {:induction false} MissedTailFile(s: Snap, env: Env)
    ensures var t := MissedTail(s, env);
            && t.msgfile == s.msgfile && t.disk == s.disk && t.bufstart == s.bufstart && t.view == s.view
  {
  }

  // An EOM changes the channel as `RecvEomOf` says, whatever becomes of the buffer.
  lemma {:induction false} EomBecame(s: Snap, w: WBuf, id: MsgId, size: nat, env: Env)
    requires Holds(s, w) && Well(s.gaps, s.msgsize) && (s.msgfile ==> s.state != Starting)
    ensures var t, x := RecvEomOf(s, id, size, env), EomBuf(s, w, id, size, env);
            Became(s, t, OnDisk(t, x)) && Holds(OnDisk(t, x), x)
  {
    hide MissedTail, Flushed, Upwards, UpToDisk, NakAll, InBlock, ViewOf;
    MissedTailFile(s, env);
    MissedTailWell(s, env);
    FlushedUp(w);
    SameUp(w);
    DiskUp(s, w, RecvEomOf(s, id, size, env), EomBuf(s, w, id, size, env));
  }

  // ----- Start of message

  // Resume an interrupted message at the end of what is on disk, or at goodaddr if that is lower.
  function ResumedAt(s: Snap): nat
  {
    if |s.disk| > s.goodaddr then s.goodaddr else |s.disk|
  }

  function ResumeOf(s: Snap): Snap
  {
    s.(msgfile := true, msgaddr := ResumedAt(s), bufstart := ResumedAt(s), view := s.disk, gaps := [])
  }

  function NewMesgOf(s: Snap, id: MsgId, size: nat): Snap
  {
    s.(msgid := id, bufstart := 0, msgaddr := 0, msgsize := size, goodaddr := size,
       disk := [], view := [], msgfile := true, gaps := [])
  }

  function SomaOf(s: Snap, env: Env): Snap
  {
    Save(s.(pout := s.pout + [Soma(s.msgid, s.msgaddr)], state := Active, chkpttime := env.time, eomcount := 0))
  }

  // `fileThere` says whether the file of an interrupted message can be opened.
  function RecvSomOf(s: Snap, id: MsgId, size: nat, fileThere: bool, env: Env): Snap
  {
    if id == s.msgid && size == s.msgsize then
      if s.state == Ended then s.(pout := s.pout + [Eoma(s.msgid, s.msgsize)])
      else if s.msgfile then SomaOf(s, env)
      else if fileThere then SomaOf(ResumeOf(s), env)
      else SomaOf(NewMesgOf(s.(rdup := true), id, size), env)
    else SomaOf(NewMesgOf(s, id, size), env)
  }

  // Seek to `at`, with nothing buffered.
  method EmptyBuffer(chnp: RChan, at: nat)
    requires chnp.Valid()
    modifies chnp`filepos, chnp`bufstart, chnp`bufend
    ensures chnp.Valid() && chnp.Now() == old(chnp.Now()).(bufstart := at, view := chnp.file)
  {
    chnp.filepos, chnp.bufstart, chnp.bufend := at, at, at;
  }

  // Open the file again, at its end or at goodaddr.
  method SeekBack(chnp: RChan)
    requires chnp.Valid()
    modifies chnp`msgfile, chnp`msgaddr
    ensures chnp.Now() == old(chnp.Now()).(msgfile := true, msgaddr := ResumedAt(old(chnp.Now())))
  {
    hide RChan.View, RChan.Buf, ViewOf, InBlock, Agrees;
    chnp.msgfile := true;
    chnp.msgaddr := |chnp.file|;
    if chnp.msgaddr > chnp.goodaddr {
      chnp.msgaddr := chnp.goodaddr;
    }
  }

  method Resume(chnp: RChan)
    requires chnp.Valid() && !chnp.msgfile
    modifies chnp
    ensures chnp.Valid() && chnp.Now() == ResumeOf(old(chnp.Now()))
  {
    hide RChan.View, RChan.Buf, RChan.Valid, ViewOf, InBlock, Agrees;
    SeekBack(chnp);
    EmptyBuffer(chnp, chnp.msgaddr);
    chnp.gaplist := [];
  }

  method NewMesg(chnp: RChan, id: MsgId, size: nat)
    requires chnp.Valid()
    modifies chnp
    ensures chnp.Valid() && chnp.Now() == NewMesgOf(old(chnp.Now()), id, size)
  {
    hide RChan.View, RChan.Buf, Holds, Agrees;
    chnp.msgid := id;
    chnp.msgaddr := 0;
    chnp.msgsize := size;
    chnp.goodaddr := size;
    chnp.file := [];
    EmptyBuffer(chnp, 0);
    chnp.msgfile := true;
    chnp.gaplist := [];
  }

  method SendSOMA(chnp: RChan, env: Env)
    requires chnp.Valid()
    modifies chnp`pout, chnp`state, chnp`chkpttime, chnp`eomcount, chnp`status
    ensures chnp.Now() == SomaOf(old(chnp.Now()), env)
  {
    hide RChan.View, RChan.Buf, Holds, Agrees;
    chnp.pout := chnp.pout + [Soma(chnp.msgid, chnp.msgaddr)];
    chnp.state := Active;
    chnp.chkpttime := env.time;
    chnp.eomcount := 0;
    chnp.status := chnp.Saved();
  }

  method RecvSOM(chnp: RChan, id: MsgId, size: nat, fileThere: bool, env: Env)
    requires chnp.Valid()
    modifies chnp
    ensures chnp.Valid() && chnp.Now() == RecvSomOf(old(chnp.Now()), id, size, fileThere, env)
  {
    hide RChan.View, RChan.Buf, Holds, Agrees, ResumeOf, NewMesgOf, SomaOf;
    if id == chnp.msgid && size == chnp.msgsize {
      if chnp.state == Ended {
        chnp.pout := chnp.pout + [Eoma(chnp.msgid, chnp.msgsize)];
        return;
      }
      if !chnp.msgfile {
        if fileThere {
          Resume(chnp);
        } else {
          chnp.rdup := true;
          NewMesg(chnp, id, size);
        }
      }
    } else {
      NewMesg(chnp, id, size);
    }
    SendSOMA(chnp, env);
  }

  // ----- The reader stops and starts again

  // The reader winds up: buffers go to disk.
  method ReadCleanup(chnp: RChan)
    requires chnp.Valid()
    modifies chnp`file, chnp`filepos, chnp`bufstart
    ensures chnp.Valid() && chnp.Buf() == ClosedBuf(old(chnp.Now()), old(chnp.Buf()))
    ensures chnp.Now() == OnDisk(old(chnp.Now()), chnp.Buf())
  {
    FlushedUp(chnp.Buf());
    if chnp.msgfile {
      FlushWData(chnp);
    }
  }

  function ReadStatusOf(s: Snap): Snap
  {
    s.(state := s.status.state, rdup := s.status.rdup, msgid := s.status.msgid,
       msgsize := s.status.msgsize, goodaddr := s.status.goodaddr)
  }

  method ReadStatus(chnp: RChan)
    requires chnp.Valid()
    modifies chnp`state, chnp`rdup, chnp`msgid, chnp`msgsize, chnp`goodaddr
    ensures chnp.Now() == ReadStatusOf(old(chnp.Now()))
  {
    hide RChan.View, RChan.Buf, Holds, Agrees;
    chnp.state := chnp.status.state;
    chnp.rdup := chnp.status.rdup;
    chnp.msgid := chnp.status.msgid;
    chnp.msgsize := chnp.status.msgsize;
    chnp.goodaddr := chnp.status.goodaddr;
  }

  // A message that was in progress is to be started again.
  function InterruptedOf(s: Snap): Snap
  {
    if s.state == Active || s.state == Ending then s.(state := Starting, msgfile := false)
    else s.(rdup := false, msgfile := false)
  }

  method Interrupted(chnp: RChan)
    requires chnp.Valid()
    modifies chnp`state, chnp`rdup, chnp`msgfile
    ensures chnp.Now() == InterruptedOf(old(chnp.Now()))
  {
    hide RChan.View, RChan.Buf, Holds, Agrees;
    chnp.msgfile := false;
    if chnp.state == Active || chnp.state == Ending {
      chnp.state := Starting;
    } else {
      chnp.rdup := false;
    }
  }

  function ResetOf(s: Snap): Snap
  {
    s.(gaps := [], eomcount := 0, msgaddr := s.goodaddr)
  }

  method Reset(chnp: RChan)
    requires chnp.Valid()
    modifies chnp`gaplist, chnp`eomcount, chnp`msgaddr
    ensures chnp.Now() == ResetOf(old(chnp.Now()))
  {
    hide RChan.View, RChan.Buf, Holds, Agrees;
    chnp.gaplist := [];
    chnp.eomcount := 0;
    chnp.msgaddr := chnp.goodaddr;
  }

  // A new reader process starts from the saved status and what is on disk.
  function InitStatusOf(s: Snap): Snap
  {
    Save(ResetOf(InterruptedOf(ReadStatusOf(s))).(bufstart := 0, view := s.disk))
  }

  method InitStatus(chnp: RChan)
    requires chnp.Valid()
    modifies chnp
    ensures chnp.Valid() && chnp.Now() == InitStatusOf(old(chnp.Now()))
  {
    hide ReadStatusOf, InterruptedOf, ResetOf, RChan.View, RChan.Buf, Holds, Agrees;
    ghost var s := chnp.Now();
    ReadStatus(chnp);
    Interrupted(chnp);
    Reset(chnp);
    EmptyBuffer(chnp, 0);
    SavedNow(chnp);
    assert chnp.file == s.disk;
    chnp.status := chnp.Saved();
  }

  lemma {:induction false} SavedNow(chnp: RChan)
    requires chnp.Valid()
    ensures chnp.Saved() == SavedOf(chnp.Now())
  {
  }

  lemma {:induction false} MissNothing(gl: seq<Gap>, start: nat, end: nat, limit: nat)
    requires start < end && Well(gl, limit) && !Hits(gl, start, end)
    ensures Filled(gl, start, end) == gl && !BeginsIn(gl, start, end)
  {
    if gl != [] {
      MissNothing(gl[1..], start, end, limit);
    }
  }
}
