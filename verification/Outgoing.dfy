/** From a commands file to packets: a message is set up on a channel (setactive, HTdaemon/message.c,
    and SetupParts, HTdaemon/commands.c). */
module Outgoing {
  import opened Channel
  import opened Parts
  import opened ReadBuffer
  import C = Commands
  import T = Transmitter

  predicate AllFit(cmds: seq<C.Command>)
  {
    forall c :: c in cmds ==> C.Fits(c)
  }

  // What a commands file comes to.
  function Read(cmds: seq<C.Command>): C.Outcome
    requires AllFit(cmds)
  {
    C.AllAdded(C.Built([], 0), cmds)
  }

  // The message that it describes.
  function Described(cmds: seq<C.Command>, files: Files): Letter
    requires AllFit(cmds)
  {
    Letter(Read(cmds).built.parts, files, Read(cmds).built.length)
  }

  method SetActive(chnp: WChan, id: MsgId, cmds: seq<C.Command>, files: Files) returns (ok: bool)
    requires AllFit(cmds) && chnp.databuffer.Length == FILEBUFFERSIZE
    requires Read(cmds).ok ==> Whole(Described(cmds, files))
    modifies chnp
    ensures ok == Read(cmds).ok
    ensures ok ==> chnp.Valid() && chnp.Sound() && chnp.Mail() == Described(cmds, files)
    ensures chnp.Now() == T.SetupOf(old(chnp.Now()), id, if ok then Read(cmds).built.length else old(chnp.msgsize), 0)
    ensures !ok ==> chnp.partlist == []
  {
    hide C.AllAdded, WChan.Valid, WChan.Sound, Whole;
    var b := new C.Builder();
    ok := C.ReadCmds(b, cmds);
    if ok {
      LetterWhole(Described(cmds, files));
      T.Setup(chnp, id, b.parts, files, b.mesgLength, 0);
    } else {
      T.Clear(chnp, id);
    }
  }

  lemma {:induction false} LetterWhole(x: Letter)
    requires Whole(x)
    ensures AllInFiles(x.parts, x.files) && Tiled(x.parts, 0, x.size) && x.size + FILEBUFFERSIZE <= ULONG
  {
  }

  // A well-formed commands file is accepted, and describes its pieces in order.
  lemma {:induction false} ItemsDescribed(items: seq<C.Item>, files: Files)
    requires C.Available(items, files) && C.Length(items) + FILEBUFFERSIZE <= ULONG
    ensures var cmds := C.Expand(items);
            && AllFit(cmds) && Read(cmds).ok && Whole(Described(cmds, files))
            && Bytes(Described(cmds, files)) == C.Bytes(items, files)
            && Described(cmds, files).size == C.Length(items)
  {
    C.PartsDescribe(items, files);
  }

  // Set up on a channel, such a message is sent as its pieces in order: at every packet what has been
  // sent is the first of their bytes, and in the end it is all of them.
  lemma {:induction false} SentAsDescribed(items: seq<C.Item>, files: Files, id: MsgId, s: SendSnap, sendsom: bool,
                                           w: T.Writer, k: nat)
    requires C.Available(items, files) && 0 < C.Length(items) && C.Length(items) + FILEBUFFERSIZE <= ULONG
    requires s.outDataSize > 0 && s.out == []
    ensures C.Length(items) == |C.Bytes(items, files)|
    ensures var u := T.StartMessageOf(T.SetupOf(s, id, C.Length(items), 0), sendsom, w).(out := []);
            var m := C.Bytes(items, files);
            var t := T.SendSome(u, m, k);
            t.msgaddr <= |m| && T.Payload(t.out) == m[..t.msgaddr] && T.Payload(T.SendAll(u, m).out) == m
  {
    C.LengthUp(items, files);
    var u := T.StartMessageOf(T.SetupOf(s, id, C.Length(items), 0), sendsom, w).(out := []);
    T.Packetised(u, C.Bytes(items, files), k);
  }
}
