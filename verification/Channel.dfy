/** The values and the receiving channel that the daemon's source files share
    (HTdaemon/channel.h, HTdaemon/packet.h, HTdaemon/driver.h). */
module Channel {
  type Byte = x: int | 0 <= x < 256

  // Message identifiers are unique file names.
  type MsgId = string

  type Pos = x: nat | x > 0 witness 1

  // What the reader process knows beside its channels: the time, the data size of a packet,
  // the bytes a NAK packet takes, the data of one send-ahead window, and the data
  // the circuit can carry in one EOM timeout.
  datatype Env = Env(time: int, outDataSize: nat, nakBytes: Pos, window: nat, naksize: nat)

  const FILEBUFFERSIZE: nat := 1024
  const NAK_TIMEOUT: int := 60
  // Unsigned long arithmetic wraps at the width of a packet address.
  const ULONG := 0x1_0000_0000

  // Control and data packets, with the fields the handlers look at.
  datatype Packet =
    | Data(addr: nat, data: seq<Byte>)
    | Nak(addr: nat, len: nat)
    | Som(id: MsgId, size: nat)
    | Soma(id: MsgId, addr: nat)
    | Eom(id: MsgId, size: nat)
    | Eoma(id: MsgId, size: nat)

  datatype ChState = Idle | Starting | Active | Ending | Ended

  // A missing range [start, end) of the message being received.
  datatype Gap = Gap(start: nat, end: nat, time: int, send: nat)

  // What Write_Status saves of a receiving channel.
  datatype Status = Status(state: ChState, msgid: MsgId, msgsize: nat, goodaddr: nat, rdup: bool)

  // What RecvMessage passes to the router: the whole file, addresses 0 to size.
  datatype Handed = Handed(id: MsgId, size: nat, contents: seq<Byte>, dup: bool)

  // The file after writing `data` at `pos`: a hole left by the write reads as zeros.
  function WriteAt(f: seq<Byte>, pos: nat, data: seq<Byte>): seq<Byte>
  {
    if data == [] then f
    else
      var padded := if |f| < pos then f + seq(pos - |f|, _ => 0) else f;
      padded[..pos] + data + if pos + |data| < |f| then f[pos + |data|..] else []
  }

  // A write changes the bytes it covers and no others.
  lemma {:induction false} WriteAtIs(f: seq<Byte>, pos: nat, data: seq<Byte>)
    ensures var r := WriteAt(f, pos, data);
            && |r| == (if data != [] && |f| < pos + |data| then pos + |data| else |f|)
            && forall a :: 0 <= a < |r| ==>
                 r[a] == if pos <= a < pos + |data| then data[a - pos] else if a < |f| then f[a] else 0
  {
  }

  // A snapshot of a receiving channel: what the handlers promise is said about these values.
  datatype Snap = Snap(
    state: ChState,
    msgfile: bool,
    rdup: bool,
    msgid: MsgId,
    msgsize: nat,
    msgaddr: nat,
    goodaddr: nat,
    gaps: seq<Gap>,
    eomcount: nat,
    chkpttime: int,
    bufstart: nat,
    disk: seq<Byte>,      // what a crash leaves of the file
    view: seq<Byte>,      // the file as it will be once the buffer is flushed
    status: Status,       // as last saved
    handed: seq<Handed>,  // messages passed to the router, oldest first
    pout: seq<Packet>)    // packets passed to the writer process for the circuit

  // Below the write buffer, the disk file is what the view says; and the view goes as far.
  predicate Agrees(s: Snap)
  {
    var n := if |s.disk| < s.bufstart then |s.disk| else s.bufstart;
    |s.disk| <= |s.view| && s.view[..n] == s.disk[..n]
  }

  // A file that has become `g` is as it was from `from` on.
  predicate SameAbove(f: seq<Byte>, g: seq<Byte>, from: nat)
  {
    (|g| <= |f| || |g| <= from) && forall a :: from <= a < |g| && a < |f| ==> g[a] == f[a]
  }

  // `t` is `s` but for how much of the view is on disk: the buffer has only moved up, and the disk
  // file above it is as it was.
  predicate UpToDisk(s: Snap, t: Snap)
  {
    && t == s.(disk := t.disk, bufstart := t.bufstart)
    && s.bufstart <= t.bufstart
    && SameAbove(s.disk, t.disk, t.bufstart)
    && Agrees(t)
  }

  // The write buffer: the file it is for, where it is to be written, and its bytes.
  datatype WBuf = WBuf(file: seq<Byte>, start: nat, held: seq<Byte>)

  // End of the file block that holds a write point.
  function BlockEnd(start: nat): nat
  {
    start / FILEBUFFERSIZE * FILEBUFFERSIZE + FILEBUFFERSIZE
  }

  // The buffer stays inside one block.
  predicate InBlock(w: WBuf)
  {
    w.start + |w.held| <= BlockEnd(w.start)
  }

  // The file once the buffer is flushed.
  function ViewOf(w: WBuf): seq<Byte>
  {
    WriteAt(w.file, w.start, w.held)
  }

  // The channel is `s`, and its write buffer `w`.
  predicate Holds(s: Snap, w: WBuf)
  {
    s.disk == w.file && s.bufstart == w.start && s.view == ViewOf(w) && InBlock(w)
  }

  // A handler took `was` to `t`, which is `s` up to the disk: the disk changes only through an open file.
  predicate Became(was: Snap, s: Snap, t: Snap)
  {
    if was.msgfile then UpToDisk(s, t) else t == s
  }

  // The receiving half of a channel.  `msgfile` and `rdup` are the flags CH_MSGFILE and CH_RDUP.
  class RChan {
    var state: ChState
    var msgfile: bool
    var rdup: bool
    var msgid: MsgId
    var msgsize: nat
    var msgaddr: nat
    var goodaddr: nat
    var gaplist: seq<Gap>
    var eomcount: nat
    var chkpttime: int

    const databuffer: array<Byte>
    var bufstart: nat
    var bufend: nat

    var file: seq<Byte>
    var filepos: nat

    var status: Status
    var handed: seq<Handed>
    var pout: seq<Packet>

    // The write point of the file is bufstart, and the buffer stays inside one block.
    ghost predicate Valid()
      reads `bufstart, `bufend, `filepos
    {
      && databuffer.Length == FILEBUFFERSIZE
      && filepos == bufstart <= bufend <= BlockEnd(bufstart)
    }

    ghost function Buf(): (w: WBuf)
      requires Valid()
      reads `bufstart, `bufend, `filepos, `file, databuffer
      ensures InBlock(w)
    {
      WBuf(file, bufstart, databuffer[..bufend - bufstart])
    }

    ghost function View(): seq<Byte>
      requires Valid()
      reads `bufstart, `bufend, `filepos, `file, databuffer
    {
      ViewOf(Buf())
    }

    ghost function Now(): (s: Snap)
      requires Valid()
      reads this, databuffer
      ensures Agrees(s) && Holds(s, Buf())
    {
      WriteAtIs(file, bufstart, databuffer[..bufend - bufstart]);
      Snap(state, msgfile, rdup, msgid, msgsize, msgaddr, goodaddr, gaplist, eomcount, chkpttime,
           bufstart, file, View(), status, handed, pout)
    }

    // What Write_Status saves of this channel.
    function Saved(): Status
      reads this
    {
      Status(state, msgid, msgsize, goodaddr, rdup)
    }

    constructor ()
      ensures Valid() && fresh(databuffer)
      ensures Now() == Snap(Idle, false, false, "", 0, 0, 0, [], 0, 0, 0, [], [],
                            Status(Idle, "", 0, 0, false), [], [])
    {
      state, msgfile, rdup, msgid, msgsize := Idle, false, false, "", 0;
      msgaddr, goodaddr, gaplist, eomcount, chkpttime := 0, 0, [], 0, 0;
      databuffer := new Byte[FILEBUFFERSIZE];
      bufstart, bufend, file, filepos := 0, 0, [], 0;
      status := Status(Idle, "", 0, 0, false);
      handed, pout := [], [];
    }
  }
}
