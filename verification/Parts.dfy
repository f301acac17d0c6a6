/** The files that make up an outbound message (HTdaemon/commands.c, HTdaemon/channel.h). */
module Parts {
  import opened Channel

  // One file of a message: its bytes from `filestart` are the message bytes [msgstart, msgend).
  datatype Part = Part(filename: string, filestart: nat, msgstart: nat, msgend: nat, unlink: bool)

  type Files = map<string, seq<Byte>>

  // A part that only names a file to remove.
  predicate Blank(p: Part)
  {
    p.msgstart == p.msgend == 0
  }

  // The parts cover [from, to), one after the other.
  predicate Tiled(parts: seq<Part>, from: nat, to: nat)
  {
    if parts == [] then from == to
    else if Blank(parts[0]) then Tiled(parts[1..], from, to)
    else parts[0].msgstart == from && from <= parts[0].msgend && Tiled(parts[1..], parts[0].msgend, to)
  }

  // Where the parts after `p` begin.
  function After(p: Part, from: nat): nat
  {
    if Blank(p) then from else p.msgend
  }

  // The part's bytes are in its file.
  predicate InFile(p: Part, files: Files)
  {
    p.msgend <= p.msgstart || (p.filename in files && p.filestart + (p.msgend - p.msgstart) <= |files[p.filename]|)
  }

  predicate AllInFiles(parts: seq<Part>, files: Files)
  {
    forall i :: 0 <= i < |parts| ==> InFile(parts[i], files)
  }

  function Slice(p: Part, files: Files): seq<Byte>
    requires InFile(p, files)
  {
    if p.msgend <= p.msgstart then []
    else files[p.filename][p.filestart..p.filestart + (p.msgend - p.msgstart)]
  }

  // The message: the slices of its files, in order.
  function Contents(parts: seq<Part>, files: Files): seq<Byte>
    requires AllInFiles(parts, files)
  {
    if parts == [] then [] else Slice(parts[0], files) + Contents(parts[1..], files)
  }

  lemma {:induction false} ContentsLength(parts: seq<Part>, files: Files, from: nat, to: nat)
    requires AllInFiles(parts, files) && Tiled(parts, from, to)
    ensures from <= to && |Contents(parts, files)| == to - from
  {
    if parts != [] {
      ContentsLength(parts[1..], files, After(parts[0], from), to);
    }
  }

  lemma {:induction false} PartAfter(parts: seq<Part>, from: nat, to: nat, k: nat, a: nat)
    requires Tiled(parts, from, to) && 0 < k < |parts| && parts[k].msgstart <= a < parts[k].msgend
    ensures (After(parts[0], from)) <= a
  {
    StartsAfter(parts[1..], After(parts[0], from), to, k - 1);
  }

  lemma {:induction false} ContentsUnfold(parts: seq<Part>, files: Files)
    requires AllInFiles(parts, files) && parts != []
    ensures Contents(parts, files) == Slice(parts[0], files) + Contents(parts[1..], files)
  {
  }

  lemma {:induction false} SliceIs(p: Part, files: Files)
    requires InFile(p, files) && p.msgstart <= p.msgend
    ensures |Slice(p, files)| == p.msgend - p.msgstart
    ensures forall i :: 0 <= i < p.msgend - p.msgstart ==>
              p.filename in files && p.filestart + i < |files[p.filename]|
              && Slice(p, files)[i] == files[p.filename][p.filestart + i]
  {
  }

  // A message byte is the byte of its part's file at the same distance.
  lemma {:induction false} PartByte(parts: seq<Part>, files: Files, from: nat, to: nat, k: nat, a: nat)
    requires AllInFiles(parts, files) && Tiled(parts, from, to) && k < |parts|
    requires parts[k].msgstart <= a < parts[k].msgend
    ensures from <= a < to && |Contents(parts, files)| == to - from
    ensures Contents(parts, files)[a - from] == files[parts[k].filename][parts[k].filestart + (a - parts[k].msgstart)]
  {
    hide Contents, Slice;
    ContentsLength(parts, files, from, to);
    StartsAfter(parts, from, to, k);
    EndsWithin(parts, from, to, k);
    ContentsUnfold(parts, files);
    SliceIs(parts[0], files);
    if k > 0 {
      PartAfter(parts, from, to, k, a);
      PartByte(parts[1..], files, After(parts[0], from), to, k - 1, a);
    }
  }

  // Parts that follow each other do not overlap.
  lemma {:induction false} EndsBefore(parts: seq<Part>, from: nat, to: nat, i: nat, j: nat)
    requires Tiled(parts, from, to) && i < j < |parts| && !Blank(parts[i]) && !Blank(parts[j])
    ensures from <= parts[i].msgstart && parts[i].msgend <= parts[j].msgstart
  {
    if i > 0 {
      EndsBefore(parts[1..], After(parts[0], from), to, i - 1, j - 1);
    } else {
      StartsAfter(parts[1..], parts[0].msgend, to, j - 1);
    }
  }

  lemma {:induction false} StartsAfter(parts: seq<Part>, from: nat, to: nat, k: nat)
    requires Tiled(parts, from, to) && k < |parts| && !Blank(parts[k])
    ensures from <= parts[k].msgstart
  {
    if k > 0 {
      StartsAfter(parts[1..], After(parts[0], from), to, k - 1);
    }
  }

  lemma {:induction false} EndsWithin(parts: seq<Part>, from: nat, to: nat, k: nat)
    requires Tiled(parts, from, to) && k < |parts|
    ensures from <= to && parts[k].msgend <= to
  {
    var next := After(parts[0], from);
    if k > 0 {
      EndsWithin(parts[1..], next, to, k - 1);
    } else {
      TiledUp(parts[1..], next, to);
    }
  }

  lemma {:induction false} TiledUp(parts: seq<Part>, from: nat, to: nat)
    requires Tiled(parts, from, to)
    ensures from <= to
  {
    if parts != [] {
      TiledUp(parts[1..], After(parts[0], from), to);
    }
  }

  // A stretch of the message inside one part is a stretch of the part's file.
  lemma {:induction false} PartSlice(parts: seq<Part>, files: Files, to: nat, k: nat, a: nat, n: nat)
    requires AllInFiles(parts, files) && Tiled(parts, 0, to) && k < |parts|
    requires parts[k].msgstart <= a && a + n <= parts[k].msgend && 0 < n
    ensures |Contents(parts, files)| == to && a + n <= to && parts[k].filename in files
    ensures var at := parts[k].filestart + (a - parts[k].msgstart);
            at + n <= |files[parts[k].filename]|
            && files[parts[k].filename][at..at + n] == Contents(parts, files)[a..a + n]
  {
    hide Contents, Tiled;
    PartByte(parts, files, 0, to, k, a + n - 1);
    assert InFile(parts[k], files);
    var at := parts[k].filestart + (a - parts[k].msgstart);
    var l, r := files[parts[k].filename][at..at + n], Contents(parts, files)[a..a + n];
    forall i | 0 <= i < n
      ensures l[i] == r[i]
    {
      PartByte(parts, files, 0, to, k, a + i);
    }
  }
}
