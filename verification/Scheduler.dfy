/** Which message a channel sends next (HTdaemon/message.c). */
module Scheduler {
  const NCHANNELS := 4
  const MSGIDLENGTH := 14
  const STATE_QUALITY := '0'
  const LOWEST_QUALITY := '9'

  datatype Use = Wait | Active | Sent

  datatype Entry = Entry(name: string, use: Use, order: bool)

  // The sorted list of each channel, the message each channel has (or ""), and the list entry that a
  // channel is active on, by name (or "").
  datatype Queue = Queue(lists: seq<seq<Entry>>, msgid: seq<string>, active: seq<string>)

  predicate Shaped(q: Queue)
  {
    |q.lists| == NCHANNELS && |q.msgid| == NCHANNELS && |q.active| == NCHANNELS
  }

  // The channel for a quality.
  function Policy(c: char): nat
  {
    if c <= '0' then 0 else if c <= '3' then 1 else if c <= '6' then 2 else 3
  }

  // The state messages have the first; the other qualities are shared out, three to each.
  lemma {:induction false} PolicyIs(c: char)
    requires STATE_QUALITY <= c <= LOWEST_QUALITY
    ensures 3 * Policy(c) - 2 <= c as int - STATE_QUALITY as int <= 3 * Policy(c)
  {
    assert c as int - STATE_QUALITY as int <= 3 <==> c <= '3';
  }

  // ----- The order of names (strcmp)

  predicate LessEq(a: string, b: string)
  {
    a == [] || (b != [] && (a[0] < b[0] || (a[0] == b[0] && LessEq(a[1..], b[1..]))))
  }

  lemma {:induction false} LessEqTrans(a: string, b: string, c: string)
    requires LessEq(a, b) && LessEq(b, c)
    ensures LessEq(a, c)
  {
    if a != [] && a[0] == b[0] == c[0] {
      LessEqTrans(a[1..], b[1..], c[1..]);
    }
  }

  lemma {:induction false} LessEqSelf(a: string)
    ensures LessEq(a, a)
  {
    if a != [] {
      LessEqSelf(a[1..]);
    }
  }

  lemma {:induction false} LessEqTotal(a: string, b: string)
    ensures LessEq(a, b) || LessEq(b, a)
  {
    if a != [] && b != [] && a[0] == b[0] {
      LessEqTotal(a[1..], b[1..]);
    }
  }

  // ----- Lists

  predicate Below(name: string, list: seq<Entry>)
  {
    forall e :: e in list ==> LessEq(name, e.name)
  }

  // The first name is no greater than any other's, and so on.
  predicate Sorted(list: seq<Entry>)
  {
    list == [] || (Below(list[0].name, list) && Sorted(list[1..]))
  }

  // A name of the right form.
  predicate Proper(name: string)
  {
    |name| == MSGIDLENGTH && STATE_QUALITY <= name[0] <= LOWEST_QUALITY
  }

  // Names of the right form, in the list of their quality.
  predicate Placed(list: seq<Entry>, chan: nat)
  {
    forall i :: 0 <= i < |list| ==> Proper(list[i].name) && Policy(list[i].name[0]) == chan
  }

  predicate AllPlaced(lists: seq<seq<Entry>>)
  {
    forall c :: 0 <= c < |lists| ==> Placed(lists[c], c) && Sorted(lists[c])
  }

  // The channel may take this entry from list `chan`.
  predicate Eligible(e: Entry, own: bool, quality: char)
  {
    e.use == Wait && (own || !e.order) && e.name != [] && e.name[0] <= quality
  }

  // The place of the first entry that may be taken, or the length.
  function FirstIn(list: seq<Entry>, own: bool, quality: char): (i: nat)
    ensures i <= |list| && (i < |list| ==> Eligible(list[i], own, quality))
    ensures forall j :: 0 <= j < i ==> !Eligible(list[j], own, quality)
  {
    if list == [] || Eligible(list[0], own, quality) then 0 else 1 + FirstIn(list[1..], own, quality)
  }

  // The first list at or after `c` in which the channel finds an entry to take, or `ch` + 1.
  function FirstList(lists: seq<seq<Entry>>, c: nat, ch: nat, quality: char): (k: nat)
    requires c <= ch + 1 <= |lists|
    ensures c <= k <= ch + 1 && (k <= ch ==> FirstIn(lists[k], k == ch, quality) < |lists[k]|)
    ensures forall j :: c <= j < k ==> FirstIn(lists[j], j == ch, quality) == |lists[j]|
    decreases ch + 1 - c
  {
    if c > ch || FirstIn(lists[c], c == ch, quality) < |lists[c]| then c else FirstList(lists, c + 1, ch, quality)
  }

  function SetUse(lists: seq<seq<Entry>>, c: nat, i: nat, use: Use): seq<seq<Entry>>
    requires c < |lists| && i < |lists[c]|
  {
    lists[c := lists[c][i := lists[c][i].(use := use)]]
  }

  // ----- Taking a message

  // Mark the entry of a name.
  function MarkIn(list: seq<Entry>, name: string, use: Use): seq<Entry>
  {
    if list == [] then []
    else if list[0].name == name then [list[0].(use := use)] + list[1..]
    else [list[0]] + MarkIn(list[1..], name, use)
  }

  function MarkAll(lists: seq<seq<Entry>>, name: string, use: Use): seq<seq<Entry>>
  {
    seq(|lists|, c requires 0 <= c < |lists| => MarkIn(lists[c], name, use))
  }

  // The channel is done with its message.
  function Cleaned(q: Queue, ch: nat): Queue
    requires Shaped(q) && ch < NCHANNELS
  {
    if q.msgid[ch] == "" then q
    else q.(lists := if q.active[ch] != "" then MarkAll(q.lists, q.active[ch], Sent) else q.lists,
        msgid := q.msgid[ch := ""])
  }

  // How many entries wait.
  function WaitingIn(list: seq<Entry>): nat
  {
    if list == [] then 0 else (if list[0].use == Wait then 1 else 0) + WaitingIn(list[1..])
  }

  function Waiting(lists: seq<seq<Entry>>): nat
  {
    if lists == [] then 0 else WaitingIn(lists[0]) + Waiting(lists[1..])
  }

  lemma {:induction false} WaitingInLess(list: seq<Entry>, i: nat, use: Use)
    requires i < |list| && list[i].use == Wait && use != Wait
    ensures WaitingIn(list[i := list[i].(use := use)]) == WaitingIn(list) - 1
  {
    var l := list[i := list[i].(use := use)];
    if i > 0 {
      WaitingInLess(list[1..], i - 1, use);
      assert l[1..] == list[1..][i - 1 := list[i].(use := use)];
    } else {
      assert l[1..] == list[1..];
    }
  }

  lemma {:induction false} WaitingLess(lists: seq<seq<Entry>>, c: nat, i: nat, use: Use)
    requires c < |lists| && i < |lists[c]| && lists[c][i].use == Wait && use != Wait
    ensures Waiting(SetUse(lists, c, i, use)) == Waiting(lists) - 1
  {
    var l := SetUse(lists, c, i, use);
    if c > 0 {
      WaitingLess(lists[1..], c - 1, i, use);
      assert l[1..] == SetUse(lists[1..], c - 1, i, use);
    } else {
      WaitingInLess(lists[0], i, use);
      assert l[1..] == lists[1..];
    }
  }

  datatype Choice = Choice(q: Queue, found: bool)

  // Try the first entry that may be taken, and if its set-up fails the next, and so on.  `setup` says
  // which messages can be set up.
  function Choose(q: Queue, ch: nat, quality: char, setup: string -> bool): (r: Choice)
    requires Shaped(q) && ch < NCHANNELS
    ensures Shaped(r.q)
    decreases Waiting(q.lists)
  {
    var c := FirstList(q.lists, 0, ch, quality);
    if c > ch then Choice(q, false)
    else
      var i := FirstIn(q.lists[c], c == ch, quality);
      var name := q.lists[c][i].name;
      if setup(name) then
        Choice(Queue(SetUse(q.lists, c, i, Active), q.msgid[ch := name], q.active[ch := name]), true)
      else
        WaitingLess(q.lists, c, i, Sent);
        var sent := q.(lists := SetUse(q.lists, c, i, Sent), msgid := q.msgid[ch := name]);
        CleanedWaiting(sent, ch);
        Choose(Cleaned(sent, ch), ch, quality, setup)
  }

  lemma {:induction false} MarkWaiting(list: seq<Entry>, name: string)
    ensures WaitingIn(MarkIn(list, name, Sent)) <= WaitingIn(list)
  {
    if list != [] {
      MarkWaiting(list[1..], name);
    }
  }

  lemma {:induction false} MarkAllWaiting(lists: seq<seq<Entry>>, name: string)
    ensures Waiting(MarkAll(lists, name, Sent)) <= Waiting(lists)
  {
    if lists != [] {
      MarkWaiting(lists[0], name);
      MarkAllWaiting(lists[1..], name);
      assert MarkAll(lists, name, Sent)[1..] == MarkAll(lists[1..], name, Sent);
    }
  }

  lemma {:induction false} CleanedWaiting(q: Queue, ch: nat)
    requires Shaped(q) && ch < NCHANNELS
    ensures Shaped(Cleaned(q, ch)) && Waiting(Cleaned(q, ch).lists) <= Waiting(q.lists)
  {
    MarkAllWaiting(q.lists, q.active[ch]);
  }

  // ----- What holds between calls

  // No two entries have the same name.
  predicate Unique(list: seq<Entry>)
  {
    forall i, j :: 0 <= i < j < |list| ==> list[i].name != list[j].name
  }

  // No entry of this name waits.
  predicate Free(lists: seq<seq<Entry>>, name: string)
  {
    forall c, i :: 0 <= c < |lists| && 0 <= i < |lists[c]| && lists[c][i].name == name ==> lists[c][i].use != Wait
  }

  predicate Inv(q: Queue)
  {
    && Shaped(q) && AllPlaced(q.lists)
    && (forall c :: 0 <= c < NCHANNELS ==> Unique(q.lists[c]))
    && (forall c :: 0 <= c < NCHANNELS ==> (q.msgid[c] != "" ==> Free(q.lists, q.msgid[c])))
    && (forall c :: 0 <= c < NCHANNELS ==> (q.active[c] != "" ==> Free(q.lists, q.active[c])))
    && NoTwo(q.msgid) && (forall c :: 0 <= c < NCHANNELS ==> (q.msgid[c] != "" ==> Proper(q.msgid[c])))
  }

  // No message is on two channels.
  predicate NoTwo(msgid: seq<string>)
  {
    forall c, d :: 0 <= c < d < |msgid| && msgid[c] != "" ==> msgid[c] != msgid[d]
  }

  // The same entries, but for their use; none waits that did not.
  predicate Used(before: seq<seq<Entry>>, after: seq<seq<Entry>>)
  {
    && |before| == |after|
    && forall c :: 0 <= c < |before| ==> UsedIn(before[c], after[c])
  }

  predicate UsedIn(before: seq<Entry>, after: seq<Entry>)
  {
    && |before| == |after|
    && forall i :: 0 <= i < |before| ==>
                     after[i] == before[i].(use := after[i].use) && (after[i].use == Wait ==> before[i].use == Wait)
  }

  lemma {:induction false} UsedSorted(x: seq<Entry>, y: seq<Entry>)
    requires UsedIn(x, y) && Sorted(x)
    ensures Sorted(y)
  {
    if x != [] {
      UsedSorted(x[1..], y[1..]);
      forall e | e in y
        ensures LessEq(y[0].name, e.name)
      {
        var i :| 0 <= i < |y| && y[i] == e;
        assert x[i] in x;
      }
    }
  }

  lemma {:induction false} UsedKeeps(q: Queue, lists: seq<seq<Entry>>)
    requires Inv(q) && Used(q.lists, lists)
    ensures Inv(q.(lists := lists))
  {
    hide Sorted;
    forall c | 0 <= c < |lists|
      ensures Placed(lists[c], c) && Sorted(lists[c]) && Unique(lists[c])
    {
      assert UsedIn(q.lists[c], lists[c]);
      UsedSorted(q.lists[c], lists[c]);
    }
    forall name: string | Free(q.lists, name)
      ensures Free(lists, name)
    {
      UsedFree(q.lists, lists, name);
    }
  }

  lemma {:induction false} UsedFree(before: seq<seq<Entry>>, after: seq<seq<Entry>>, name: string)
    requires Used(before, after) && Free(before, name)
    ensures Free(after, name)
  {
    forall c, i | 0 <= c < |after| && 0 <= i < |after[c]| && after[c][i].name == name
      ensures after[c][i].use != Wait
    {
      assert UsedIn(before[c], after[c]);
    }
  }

  lemma {:induction false} MarkInIs(list: seq<Entry>, name: string, use: Use)
    requires use != Wait
    ensures var m := MarkIn(list, name, use);
            UsedIn(list, m) && forall i :: 0 <= i < |list| && list[i].name != name ==> m[i] == list[i]
  {
    if list != [] {
      MarkInIs(list[1..], name, use);
      var m := MarkIn(list, name, use);
      forall i | 0 <= i < |list|
        ensures m[i] == list[i].(use := m[i].use) && (m[i].use == Wait ==> list[i].use == Wait)
        ensures list[i].name != name ==> m[i] == list[i]
      {
        if i > 0 && list[0].name != name {
          assert m[i] == MarkIn(list[1..], name, use)[i - 1] && list[i] == list[1..][i - 1];
        }
      }
    }
  }

  lemma {:induction false} CleanedKeeps(q: Queue, ch: nat)
    requires Inv(q) && ch < NCHANNELS
    ensures Inv(Cleaned(q, ch)) && Cleaned(q, ch).msgid[ch] == ""
    ensures var r := Cleaned(q, ch);
            Used(q.lists, r.lists) && r.active == q.active
                && (forall c :: 0 <= c < NCHANNELS && c != ch ==> r.msgid[c] == q.msgid[c])
    ensures forall c, i :: 0 <= c < NCHANNELS && 0 <= i < |q.lists[c]| && q.lists[c][i].use == Wait ==>
                             Cleaned(q, ch).lists[c][i] == q.lists[c][i]
  {
    hide Sorted, Placed;
    var r := Cleaned(q, ch);
    forall c | 0 <= c < NCHANNELS
      ensures UsedIn(q.lists[c], r.lists[c])
      ensures forall i :: 0 <= i < |q.lists[c]| && q.lists[c][i].use == Wait ==> r.lists[c][i] == q.lists[c][i]
    {
      MarkInIs(q.lists[c], q.active[ch], Sent);
    }
    UsedKeeps(q, r.lists);
    Dropped(q.(lists := r.lists), ch);
  }

  lemma {:induction false} Dropped(q: Queue, ch: nat)
    requires Inv(q) && ch < NCHANNELS
    ensures Inv(q.(msgid := q.msgid[ch := ""]))
  {
  }

  lemma {:induction false} SetUseUsed(lists: seq<seq<Entry>>, c: nat, i: nat, use: Use)
    requires c < |lists| && i < |lists[c]| && use != Wait
    ensures Used(lists, SetUse(lists, c, i, use))
  {
    var l := SetUse(lists, c, i, use);
    forall d | 0 <= d < |lists|
      ensures UsedIn(lists[d], l[d])
    {
    }
  }

  // A name is in one place only.
  lemma {:induction false} OnePlace(q: Queue, c: nat, i: nat, d: nat, j: nat)
    requires Inv(q) && c < NCHANNELS && d < NCHANNELS && i < |q.lists[c]| && j < |q.lists[d]|
    requires q.lists[c][i].name == q.lists[d][j].name
    ensures c == d && i == j
  {
    assert Placed(q.lists[c], c) && Placed(q.lists[d], d);
    assert Unique(q.lists[c]);
  }

  // An entry that waits is taken for a channel that has no message.
  lemma {:induction false} TakenKeeps(q: Queue, c: nat, i: nat, ch: nat, use: Use, active: seq<string>)
    requires Inv(q) && ch < NCHANNELS && q.msgid[ch] == "" && use != Wait
    requires c < NCHANNELS && i < |q.lists[c]| && q.lists[c][i].use == Wait
    requires active == q.active || active == q.active[ch := q.lists[c][i].name]
    ensures Inv(Queue(SetUse(q.lists, c, i, use), q.msgid[ch := q.lists[c][i].name], active))
  {
    hide Placed, Sorted, Unique;
    var name := q.lists[c][i].name;
    var lists := SetUse(q.lists, c, i, use);
    SetUseUsed(q.lists, c, i, use);
    UsedKeeps(q, lists);
    NowFree(q, c, i, use);
    WaitsNowhere(q, c, i);
    IsProper(q, c, i);
  }

  lemma {:induction false} IsProper(q: Queue, c: nat, i: nat)
    requires Inv(q) && c < NCHANNELS && i < |q.lists[c]|
    ensures Proper(q.lists[c][i].name)
  {
    assert Placed(q.lists[c], c);
  }

  lemma {:induction false} NowFree(q: Queue, c: nat, i: nat, use: Use)
    requires Inv(q) && use != Wait && c < NCHANNELS && i < |q.lists[c]|
    ensures Free(SetUse(q.lists, c, i, use), q.lists[c][i].name)
  {
    hide Sorted, Placed, Unique;
    var lists: seq<seq<Entry>> := SetUse(q.lists, c, i, use);
    forall d: nat, j: nat | d < |lists| && j < |lists[d]| && lists[d][j].name == q.lists[c][i].name
      ensures lists[d][j].use != Wait
    {
      assert q.lists[d][j].name == q.lists[c][i].name;
      OnePlace(q, c, i, d, j);
    }
  }

  lemma {:induction false} WaitsNowhere(q: Queue, c: nat, i: nat)
    requires Inv(q) && c < NCHANNELS && i < |q.lists[c]| && q.lists[c][i].use == Wait
    ensures forall d :: 0 <= d < NCHANNELS && q.msgid[d] != "" ==> q.msgid[d] != q.lists[c][i].name
    ensures forall d :: 0 <= d < NCHANNELS && q.active[d] != "" ==> q.active[d] != q.lists[c][i].name
  {
  }

  // Choosing keeps the invariant.
  lemma {:induction false} ChooseKeeps(q: Queue, ch: nat, quality: char, setup: string -> bool)
    requires Inv(q) && ch < NCHANNELS && q.msgid[ch] == ""
    ensures Inv(Choose(q, ch, quality, setup).q)
    ensures forall d :: 0 <= d < NCHANNELS && d != ch ==> Choose(q, ch, quality, setup).q.msgid[d] == q.msgid[d]
    decreases Waiting(q.lists)
  {
    hide Inv, Waiting;
    InvShaped(q);
    var c := FirstList(q.lists, 0, ch, quality);
    if c <= ch {
      var i := FirstIn(q.lists[c], c == ch, quality);
      var name := q.lists[c][i].name;
      if setup(name) {
        TakenKeeps(q, c, i, ch, Active, q.active[ch := name]);
      } else {
        WaitingLess(q.lists, c, i, Sent);
        TakenKeeps(q, c, i, ch, Sent, q.active);
        var sent := q.(lists := SetUse(q.lists, c, i, Sent), msgid := q.msgid[ch := name]);
        CleanedWaiting(sent, ch);
        CleanedKeeps(sent, ch);
        ChooseKeeps(Cleaned(sent, ch), ch, quality, setup);
      }
    }
  }

  lemma {:induction false} InvShaped(q: Queue)
    requires Inv(q)
    ensures Shaped(q)
  {
  }

  // ----- The message chosen

  // An entry that the channel may take, and that can be set up.
  predicate Usable(q: Queue, ch: nat, quality: char, setup: string -> bool, c: nat, i: nat)
    requires Shaped(q) && ch < NCHANNELS
  {
    c <= ch && i < |q.lists[c]| && Eligible(q.lists[c][i], c == ch, quality) && setup(q.lists[c][i].name)
  }

  // The first entry that may be taken comes before the others in the order of names.
  lemma {:induction false} FirstLeast(q: Queue, ch: nat, quality: char, d: nat, j: nat)
    requires Inv(q) && ch < NCHANNELS && d <= ch && j < |q.lists[d]| && Eligible(q.lists[d][j], d == ch, quality)
    ensures var c := FirstList(q.lists, 0, ch, quality);
            c <= ch && LessEq(q.lists[c][FirstIn(q.lists[c], c == ch, quality)].name, q.lists[d][j].name)
  {
    hide Eligible;
    var c := FirstList(q.lists, 0, ch, quality);
    assert FirstIn(q.lists[d], d == ch, quality) <= j;
    var i := FirstIn(q.lists[c], c == ch, quality);
    if c == d {
      SortedAt(q.lists[c], i, j);
    } else {
      Lower(q.lists[c], q.lists[d], c, d, i, j);
    }
  }

  lemma {:induction false} SortedAt(list: seq<Entry>, i: nat, j: nat)
    requires Sorted(list) && i <= j < |list|
    ensures LessEq(list[i].name, list[j].name)
  {
    if i > 0 {
      SortedAt(list[1..], i - 1, j - 1);
    }
  }

  lemma {:induction false} Lower(x: seq<Entry>, y: seq<Entry>, c: nat, d: nat, i: nat, j: nat)
    requires Placed(x, c) && Placed(y, d) && c < d && i < |x| && j < |y|
    ensures LessEq(x[i].name, y[j].name)
  {
  }

  // FindMessage takes the least name, in the order of the alphabet, of the messages it can: those
  // that wait in its own list or one of higher priority, of a quality allowed, not ordered unless in
  // its own list, and that can be set up.  It finds none only if there is none.
  lemma {:induction false} ChoosesLeast(q: Queue, ch: nat, quality: char, setup: string -> bool, d: nat, j: nat)
    requires Inv(q) && ch < NCHANNELS && q.msgid[ch] == "" && Usable(q, ch, quality, setup, d, j)
    ensures var r := Choose(q, ch, quality, setup);
            r.found && LessEq(r.q.msgid[ch], q.lists[d][j].name)
    decreases Waiting(q.lists)
  {
    hide Inv, Waiting, LessEq;
    InvShaped(q);
    FirstLeast(q, ch, quality, d, j);
    var c := FirstList(q.lists, 0, ch, quality);
    var i := FirstIn(q.lists[c], c == ch, quality);
    var name := q.lists[c][i].name;
    if !setup(name) {
      WaitingLess(q.lists, c, i, Sent);
      TakenKeeps(q, c, i, ch, Sent, q.active);
      var sent := q.(lists := SetUse(q.lists, c, i, Sent), msgid := q.msgid[ch := name]);
      CleanedWaiting(sent, ch);
      CleanedKeeps(sent, ch);
      assert sent.lists[d][j] == q.lists[d][j];
      ChoosesLeast(Cleaned(sent, ch), ch, quality, setup, d, j);
    }
  }

  // What it takes was one of those.
  lemma {:induction false} ChoosesUsable(q: Queue, ch: nat, quality: char, setup: string -> bool)
      returns (d: nat, j: nat)
    requires Inv(q) && ch < NCHANNELS && q.msgid[ch] == ""
    ensures var r := Choose(q, ch, quality, setup);
            r.found ==> Usable(q, ch, quality, setup, d, j) && r.q.msgid[ch] == r.q.active[ch] == q.lists[d][j].name
    decreases Waiting(q.lists)
  {
    hide Inv, Waiting;
    InvShaped(q);
    d, j := 0, 0;
    var c := FirstList(q.lists, 0, ch, quality);
    if Choose(q, ch, quality, setup).found {
      var i := FirstIn(q.lists[c], c == ch, quality);
      var name := q.lists[c][i].name;
      if setup(name) {
        d, j := c, i;
      } else {
        WaitingLess(q.lists, c, i, Sent);
        TakenKeeps(q, c, i, ch, Sent, q.active);
        var sent := q.(lists := SetUse(q.lists, c, i, Sent), msgid := q.msgid[ch := name]);
        CleanedWaiting(sent, ch);
        CleanedKeeps(sent, ch);
        d, j := ChoosesUsable(Cleaned(sent, ch), ch, quality, setup);
        SentBefore(q, sent, ch, c, i, d, j);
      }
    }
  }

  // What waits after an entry has been sent waited before.
  lemma {:induction false} SentBefore(q: Queue, sent: Queue, ch: nat, c: nat, i: nat, d: nat, j: nat)
    requires Shaped(q) && ch < NCHANNELS && c < NCHANNELS && i < |q.lists[c]| && d < NCHANNELS
    requires sent.lists == SetUse(q.lists, c, i, Sent) && Shaped(sent) && Used(sent.lists, Cleaned(sent, ch).lists)
    requires j < |Cleaned(sent, ch).lists[d]| && Cleaned(sent, ch).lists[d][j].use == Wait
    ensures j < |q.lists[d]| && Cleaned(sent, ch).lists[d][j] == q.lists[d][j]
  {
    assert UsedIn(sent.lists[d], Cleaned(sent, ch).lists[d]);
  }

  // ----- New lists from the directory

  function Add(lists: seq<seq<Entry>>, name: string, ordered: string -> bool): seq<seq<Entry>>
    requires |lists| == NCHANNELS
  {
    if !Proper(name) then lists
    else lists[Policy(name[0]) := lists[Policy(name[0])] + [Entry(name, Wait, ordered(name))]]
  }

  function Built(listing: seq<string>, ordered: string -> bool): (lists: seq<seq<Entry>>)
    ensures |lists| == NCHANNELS
  {
    if listing == [] then [[], [], [], []]
    else Add(Built(listing[..|listing| - 1], ordered), listing[|listing| - 1], ordered)
  }

  predicate Fresh(lists: seq<seq<Entry>>)
    requires |lists| == NCHANNELS
  {
    forall c :: 0 <= c < NCHANNELS ==> Placed(lists[c], c) && Unique(lists[c])
  }

  predicate Distinct(listing: seq<string>)
  {
    forall i, j :: 0 <= i < j < |listing| ==> listing[i] != listing[j]
  }

  // The lists hold the names of the directory that are of the right form, once each.
  lemma {:induction false} BuiltIs(listing: seq<string>, ordered: string -> bool)
    requires Distinct(listing)
    ensures Fresh(Built(listing, ordered))
    ensures forall c, e :: 0 <= c < NCHANNELS ==>
                             (e in Built(listing, ordered)[c] <==>
                              e.name in listing && Proper(e.name) && Policy(e.name[0]) == c
                                  && e == Entry(e.name, Wait, ordered(e.name)))
  {
    if listing != [] {
      var front, name := listing[..|listing| - 1], listing[|listing| - 1];
      BuiltIs(front, ordered);
      assert listing == front + [name];
      var lists: seq<seq<Entry>> := Built(front, ordered);
      if Proper(name) {
        var c := Policy(name[0]);
        forall i | 0 <= i < |lists[c]|
          ensures lists[c][i].name != name
        {
          assert lists[c][i] in lists[c];
        }
      }
    }
  }

  // sortlists, for one list.
  function Insert(e: Entry, list: seq<Entry>): seq<Entry>
  {
    if list == [] || LessEq(e.name, list[0].name) then [e] + list else [list[0]] + Insert(e, list[1..])
  }

  function Sort(list: seq<Entry>): seq<Entry>
  {
    if list == [] then [] else Insert(list[0], Sort(list[1..]))
  }

  lemma {:induction false} InsertMembers(e: Entry, list: seq<Entry>)
    ensures multiset(Insert(e, list)) == multiset(list) + multiset{e}
    ensures forall x :: x in Insert(e, list) <==> x == e || x in list
  {
    if list != [] && !LessEq(e.name, list[0].name) {
      InsertMembers(e, list[1..]);
      assert list == [list[0]] + list[1..];
    }
  }

  lemma {:induction false} InsertSorted(e: Entry, list: seq<Entry>)
    requires Sorted(list)
    ensures Sorted(Insert(e, list))
  {
    var r := Insert(e, list);
    InsertMembers(e, list);
    if list == [] || LessEq(e.name, list[0].name) {
      assert r[1..] == list;
      forall x | x in r
        ensures LessEq(e.name, x.name)
      {
        if x in list {
          LessEqTrans(e.name, list[0].name, x.name);
        } else {
          LessEqSelf(e.name);
        }
      }
    } else {
      InsertSorted(e, list[1..]);
      LessEqTotal(e.name, list[0].name);
      assert r[1..] == Insert(e, list[1..]);
      assert Below(r[0].name, r);
    }
  }

  lemma {:induction false} SortIs(list: seq<Entry>)
    ensures Sorted(Sort(list)) && multiset(Sort(list)) == multiset(list)
  {
    hide Sorted, Insert;
    if list == [] {
      NoneSorted();
    } else {
      SortIs(list[1..]);
      InsertSorted(list[0], Sort(list[1..]));
      InsertMembers(list[0], Sort(list[1..]));
      assert list == [list[0]] + list[1..];
    }
  }

  lemma {:induction false} NoneSorted()
    ensures Sorted([])
  {
  }

  lemma {:induction false} InsertUnique(e: Entry, list: seq<Entry>)
    requires Unique(list) && forall x :: x in list ==> x.name != e.name
    ensures Unique(Insert(e, list))
  {
    var r := Insert(e, list);
    if list == [] || LessEq(e.name, list[0].name) {
      assert forall i :: 0 <= i < |list| ==> list[i] in list;
    } else {
      InsertUnique(e, list[1..]);
      InsertMembers(e, list[1..]);
      var tail := Insert(e, list[1..]);
      forall i, j | 0 <= i < j < |r|
        ensures r[i].name != r[j].name
      {
        assert r[j] == tail[j - 1] && tail[j - 1] in tail;
        if i > 0 {
          assert r[i] == tail[i - 1];
        } else if tail[j - 1] in list[1..] {
          var k :| 0 <= k < |list[1..]| && list[1..][k] == tail[j - 1];
          assert list[k + 1].name != list[0].name;
        } else {
          assert list[0] in list;
        }
      }
    }
  }

  lemma {:induction false} SortKeeps(list: seq<Entry>, c: nat)
    requires Placed(list, c) && Unique(list)
    ensures Placed(Sort(list), c) && Unique(Sort(list)) && Sorted(Sort(list))
  {
    SortIs(list);
    forall i | 0 <= i < |Sort(list)|
      ensures Proper(Sort(list)[i].name) && Policy(Sort(list)[i].name[0]) == c
    {
      assert Sort(list)[i] in multiset(Sort(list));
      assert Sort(list)[i] in list;
    }
    SortUnique(list);
  }

  lemma {:induction false} SortUnique(list: seq<Entry>)
    requires Unique(list)
    ensures Unique(Sort(list))
  {
    if list != [] {
      SortUnique(list[1..]);
      SortIs(list[1..]);
      forall x | x in Sort(list[1..])
        ensures x.name != list[0].name
      {
        assert x in multiset(Sort(list[1..]));
        var k :| 0 <= k < |list[1..]| && list[1..][k] == x;
        assert list[k + 1] == x;
      }
      InsertUnique(list[0], Sort(list[1..]));
    }
  }

  function SortAll(lists: seq<seq<Entry>>): seq<seq<Entry>>
  {
    seq(|lists|, c requires 0 <= c < |lists| => Sort(lists[c]))
  }

  predicate Has(list: seq<Entry>, name: string)
  {
    exists i :: 0 <= i < |list| && list[i].name == name
  }

  // checkactive, for one channel.
  function CheckOne(q: Queue, ch: nat): Queue
    requires Shaped(q) && ch < NCHANNELS
  {
    var name := q.msgid[ch];
    if !Proper(name) || !Has(q.lists[Policy(name[0])], name) then q.(active := q.active[ch := ""])
    else
      var p := Policy(name[0]);
      q.(lists := q.lists[p := MarkIn(q.lists[p], name, Active)], active := q.active[ch := name])
  }

  predicate ProperIds(msgid: seq<string>)
  {
    |msgid| == NCHANNELS && forall c :: 0 <= c < NCHANNELS && msgid[c] != "" ==> Proper(msgid[c])
  }

  function Checked(q: Queue, n: nat): (r: Queue)
    requires Shaped(q) && n <= NCHANNELS
    ensures Shaped(r) && r.msgid == q.msgid
  {
    if n == 0 then q else CheckOne(Checked(q, n - 1), n - 1)
  }

  // The lists are made anew, and the messages that the channels have are noted in them.
  function Rebuilt(q: Queue, listing: seq<string>, ordered: string -> bool): (r: Queue)
    requires Shaped(q)
    ensures Shaped(r) && r.msgid == q.msgid
  {
    Checked(q.(lists := SortAll(Built(listing, ordered))), NCHANNELS)
  }

  predicate GoodLists(lists: seq<seq<Entry>>)
  {
    |lists| == NCHANNELS && AllPlaced(lists) && forall c :: 0 <= c < NCHANNELS ==> Unique(lists[c])
  }

  // Marking the one entry of a name leaves none that waits.
  lemma {:induction false} MarkedFree(lists: seq<seq<Entry>>, name: string)
    requires GoodLists(lists) && Proper(name)
    ensures var p := Policy(name[0]);
            var m := lists[p := MarkIn(lists[p], name, Active)];
            Used(lists, m) && Free(m, name) && GoodLists(m)
    ensures !Has(lists[Policy(name[0])], name) ==> Free(lists, name)
  {
    hide Sorted;
    var p := Policy(name[0]);
    var m: seq<seq<Entry>> := lists[p := MarkIn(lists[p], name, Active)];
    MarkInIs(lists[p], name, Active);
    MarkedIn(lists[p], name);
    forall c | 0 <= c < |lists|
      ensures UsedIn(lists[c], m[c]) && Placed(m[c], c) && Sorted(m[c]) && Unique(m[c])
    {
      assert UsedIn(lists[c], m[c]);
      UsedSorted(lists[c], m[c]);
    }
    forall c: nat, i: nat | c < |lists| && i < |lists[c]| && lists[c][i].name == name
      ensures c == p && m[c][i].use != Wait
    {
      assert Placed(lists[c], c);
    }
  }

  lemma {:induction false} MarkedIn(list: seq<Entry>, name: string)
    requires Unique(list)
    ensures |MarkIn(list, name, Active)| == |list|
    ensures forall i :: 0 <= i < |list| && list[i].name == name ==> MarkIn(list, name, Active)[i].use == Active
  {
    if list != [] {
      MarkedIn(list[1..], name);
      forall i | 0 <= i < |list| && list[i].name == name
        ensures MarkIn(list, name, Active)[i].use == Active
      {
        if i > 0 {
          assert list[0].name != list[i].name && list[1..][i - 1] == list[i];
        }
      }
    }
  }

  lemma {:induction false} CheckedIs(q: Queue, n: nat)
    requires Shaped(q) && n <= NCHANNELS && ProperIds(q.msgid) && GoodLists(q.lists)
    ensures var r := Checked(q, n);
            && GoodLists(r.lists)
            && forall c :: 0 <= c < n ==>
                 (q.msgid[c] != "" ==> Free(r.lists, q.msgid[c])) && (r.active[c] == "" || r.active[c] == q.msgid[c])
  {
    hide GoodLists, Free, Has;
    if n > 0 {
      CheckedIs(q, n - 1);
      var s := Checked(q, n - 1);
      var r := Checked(q, n);
      var name := q.msgid[n - 1];
      if name != "" {
        MarkedFree(s.lists, name);
        if Has(s.lists[Policy(name[0])], name) {
          forall c | 0 <= c < n - 1 && q.msgid[c] != ""
            ensures Free(r.lists, q.msgid[c])
          {
            UsedFree(s.lists, r.lists, q.msgid[c]);
          }
        }
      }
    }
  }

  // However the directory has changed, the invariant holds of the new lists.
  lemma {:induction false} RebuiltKeeps(q: Queue, listing: seq<string>, ordered: string -> bool)
    requires Shaped(q) && ProperIds(q.msgid) && NoTwo(q.msgid) && Distinct(listing)
    ensures Inv(Rebuilt(q, listing, ordered))
  {
    hide Proper, Sorted, Placed, Unique, Free;
    BuiltIs(listing, ordered);
    var lists := Built(listing, ordered);
    forall c | 0 <= c < NCHANNELS
      ensures Placed(SortAll(lists)[c], c) && Unique(SortAll(lists)[c]) && Sorted(SortAll(lists)[c])
    {
      SortKeeps(lists[c], c);
    }
    CheckedIs(q.(lists := SortAll(lists)), NCHANNELS);
  }

  // ----- FindMessage

  // Look for a message; if there is none, and the directory has changed, look again in new lists, and so
  // on.  `listings` are what the directory held each time that it was found changed: more than once if
  // a commands file was removed meanwhile, for its message timed out.
  function FoundFrom(q: Queue, ch: nat, quality: char, setup: string -> bool, ordered: string -> bool,
                     listings: seq<seq<string>>): (r: Choice)
    requires Shaped(q) && ch < NCHANNELS
    ensures Shaped(r.q)
    decreases |listings|
  {
    var first := Choose(q, ch, quality, setup);
    var idle := first.q.(active := first.q.active[ch := ""]);
    if first.found then first
    else if listings == [] then Choice(idle, false)
    else FoundFrom(Rebuilt(idle, listings[0], ordered), ch, quality, setup, ordered, listings[1..])
  }

  function FoundOf(q: Queue, ch: nat, quality: char, setup: string -> bool, ordered: string -> bool,
                   listings: seq<seq<string>>): (r: Choice)
    requires Shaped(q) && ch < NCHANNELS
    ensures Shaped(r.q)
  {
    CleanedWaiting(q, ch);
    FoundFrom(Cleaned(q, ch), ch, quality, setup, ordered, listings)
  }

  predicate AllDistinct(listings: seq<seq<string>>)
  {
    forall i :: 0 <= i < |listings| ==> Distinct(listings[i])
  }

  lemma {:induction false} FromKeeps(q: Queue, ch: nat, quality: char, setup: string -> bool, ordered: string -> bool,
                                     listings: seq<seq<string>>)
    requires Inv(q) && ch < NCHANNELS && AllDistinct(listings) && q.msgid[ch] == ""
    ensures var r := FoundFrom(q, ch, quality, setup, ordered, listings).q;
            Inv(r) && forall d :: 0 <= d < NCHANNELS && d != ch ==> r.msgid[d] == q.msgid[d]
    decreases |listings|
  {
    hide Choose, Rebuilt, Waiting;
    ChooseKeeps(q, ch, quality, setup);
    NoneLeft(q, ch, quality, setup);
    var first := Choose(q, ch, quality, setup);
    if !first.found && listings != [] {
      var idle := first.q.(active := first.q.active[ch := ""]);
      RebuiltKeeps(idle, listings[0], ordered);
      FromKeeps(Rebuilt(idle, listings[0], ordered), ch, quality, setup, ordered, listings[1..]);
    }
  }

  // No message is ever active on two channels: whatever directory is read, and whichever channel asks.
  lemma {:induction false} FoundKeeps(q: Queue, ch: nat, quality: char, setup: string -> bool, ordered: string -> bool,
                                      listings: seq<seq<string>>)
    requires Inv(q) && ch < NCHANNELS && AllDistinct(listings)
    ensures var r := FoundOf(q, ch, quality, setup, ordered, listings);
            Inv(r.q) && NoTwo(r.q.msgid) && forall d :: 0 <= d < NCHANNELS && d != ch ==> r.q.msgid[d] == q.msgid[d]
  {
    hide FoundFrom, Cleaned;
    CleanedKeeps(q, ch);
    FromKeeps(Cleaned(q, ch), ch, quality, setup, ordered, listings);
  }

  // When nothing is found the channel has no message.
  lemma {:induction false} NoneLeft(q: Queue, ch: nat, quality: char, setup: string -> bool)
    requires Inv(q) && ch < NCHANNELS && q.msgid[ch] == ""
    ensures !Choose(q, ch, quality, setup).found ==> Choose(q, ch, quality, setup).q.msgid[ch] == ""
    decreases Waiting(q.lists)
  {
    hide Inv, Waiting;
    InvShaped(q);
    var c := FirstList(q.lists, 0, ch, quality);
    if c <= ch {
      var i := FirstIn(q.lists[c], c == ch, quality);
      var name := q.lists[c][i].name;
      if !setup(name) {
        WaitingLess(q.lists, c, i, Sent);
        TakenKeeps(q, c, i, ch, Sent, q.active);
        var sent := q.(lists := SetUse(q.lists, c, i, Sent), msgid := q.msgid[ch := name]);
        CleanedWaiting(sent, ch);
        CleanedKeeps(sent, ch);
        NoneLeft(Cleaned(sent, ch), ch, quality, setup);
      }
    }
  }

  // What channels ask, in what order, and what they find in the directory.
  datatype Ask = Ask(ch: nat, quality: char, setup: string -> bool, listings: seq<seq<string>>)

  predicate Asked(asks: seq<Ask>)
  {
    forall i :: 0 <= i < |asks| ==> asks[i].ch < NCHANNELS && AllDistinct(asks[i].listings)
  }

  function AfterAll(q: Queue, asks: seq<Ask>, ordered: string -> bool): Queue
    requires Shaped(q) && Asked(asks)
    decreases asks
  {
    if asks == [] then q
    else
      var a := asks[0];
      AfterAll(FoundOf(q, a.ch, a.quality, a.setup, ordered, a.listings).q, asks[1..], ordered)
  }

  // Whichever channels ask, in whatever order, and whatever they find in the directory: no message is
  // ever on two channels, and none that is on a channel waits to be chosen again.
  lemma {:induction false} NeverOnTwo(q: Queue, asks: seq<Ask>, ordered: string -> bool)
    requires Inv(q) && Asked(asks)
    ensures var r := AfterAll(q, asks, ordered);
            Inv(r) && NoTwo(r.msgid) && forall c :: 0 <= c < NCHANNELS && r.msgid[c] != "" ==> Free(r.lists, r.msgid[c])
    decreases asks
  {
    hide Inv, FoundOf, Free;
    InvShaped(q);
    InvTwo(q);
    if asks != [] {
      var a := asks[0];
      FoundKeeps(q, a.ch, a.quality, a.setup, ordered, a.listings);
      NeverOnTwo(FoundOf(q, a.ch, a.quality, a.setup, ordered, a.listings).q, asks[1..], ordered);
    }
  }

  lemma {:induction false} InvTwo(q: Queue)
    requires Inv(q)
    ensures NoTwo(q.msgid) && ProperIds(q.msgid)
    ensures forall c :: 0 <= c < NCHANNELS && q.msgid[c] != "" ==> Free(q.lists, q.msgid[c])
  {
  }

  // ----- The program

  class Queues {
    var lists: seq<seq<Entry>>
    var msgid: seq<string>
    var active: seq<string>

    function Now(): Queue
      reads this
    {
      Queue(lists, msgid, active)
    }

    constructor ()
      ensures Shaped(Now()) && Inv(Now())
    {
      lists := [[], [], [], []];
      msgid := ["", "", "", ""];
      active := ["", "", "", ""];
    }
  }

  // Take the channel's last message out of its list.
  method Clean(s: Queues, ch: nat)
    requires Shaped(s.Now()) && ch < NCHANNELS
    modifies s
    ensures s.Now() == Cleaned(old(s.Now()), ch)
  {
    if s.msgid[ch] != "" {
      if s.active[ch] != "" {
        s.lists := MarkAll(s.lists, s.active[ch], Sent);
      }
      s.msgid := s.msgid[ch := ""];
    }
  }

  // Search the lists of the channel and of higher priority.
  method Search(s: Queues, ch: nat, quality: char) returns (chan: nat, i: nat)
    requires Shaped(s.Now()) && ch < NCHANNELS
    ensures chan == FirstList(s.lists, 0, ch, quality)
    ensures chan <= ch ==> i == FirstIn(s.lists[chan], chan == ch, quality)
  {
    chan, i := 0, 0;
    while chan <= ch
      invariant 0 <= chan <= ch + 1 && FirstList(s.lists, 0, ch, quality) == FirstList(s.lists, chan, ch, quality)
    {
      i := 0;
      while i < |s.lists[chan]|
        invariant 0 <= i <= |s.lists[chan]|
        invariant FirstIn(s.lists[chan], chan == ch, quality) == i + FirstIn(s.lists[chan][i..], chan == ch, quality)
      {
        var e := s.lists[chan][i];
        assert s.lists[chan][i..][0] == e && s.lists[chan][i..][1..] == s.lists[chan][i + 1..];
        i := i + 1;
        if e.use != Wait {
          continue;
        }
        if chan < ch && e.order {
          continue;
        }
        if e.name == [] || e.name[0] > quality {
          continue;
        }
        i := i - 1;
        return;
      }
      chan := chan + 1;
    }
  }

  // Start a message on its way.
  method SetActive(s: Queues, ch: nat, c: nat, i: nat, setup: string -> bool) returns (ok: bool)
    requires Shaped(s.Now()) && ch < NCHANNELS && c < NCHANNELS && i < |s.lists[c]|
    modifies s
    ensures ok == setup(old(s.lists[c][i].name))
    ensures var q := old(s.Now()); var name := q.lists[c][i].name;
            s.Now() == if ok then Queue(SetUse(q.lists, c, i, Active), q.msgid[ch := name], q.active[ch := name])
                       else q.(lists := SetUse(q.lists, c, i, Sent), msgid := q.msgid[ch := name])
  {
    var name := s.lists[c][i].name;
    s.msgid := s.msgid[ch := name];
    if !setup(name) {
      s.lists := SetUse(s.lists, c, i, Sent);
      return false;
    }
    s.lists := SetUse(s.lists, c, i, Active);
    s.active := s.active[ch := name];
    return true;
  }

  method BuildLists(s: Queues, listing: seq<string>, ordered: string -> bool)
    modifies s`lists
    ensures s.lists == Built(listing, ordered)
  {
    s.lists := [[], [], [], []];
    for i := 0 to |listing|
      invariant s.lists == Built(listing[..i], ordered)
    {
      var name := listing[i];
      assert listing[..i + 1][..i] == listing[..i];
      if name == [] || name[0] < STATE_QUALITY || name[0] > LOWEST_QUALITY {
        continue;
      }
      if |name| != MSGIDLENGTH {
        continue;
      }
      var c := Policy(name[0]);
      s.lists := s.lists[c := s.lists[c] + [Entry(name, Wait, ordered(name))]];
    }
    assert listing[..|listing|] == listing;
  }

  method SortLists(s: Queues)
    requires |s.lists| == NCHANNELS
    modifies s`lists
    ensures s.lists == SortAll(old(s.lists))
  {
    hide Sort;
    for c := 0 to NCHANNELS
      invariant |s.lists| == NCHANNELS
      invariant forall d :: 0 <= d < NCHANNELS ==>
                s.lists[d] == if d < c then Sort(old(s.lists)[d]) else old(s.lists)[d]
    {
      s.lists := s.lists[c := Sort(s.lists[c])];
    }
  }

  method CheckActive(s: Queues)
    requires Shaped(s.Now())
    modifies s`lists, s`active
    ensures s.Now() == Checked(old(s.Now()), NCHANNELS)
  {
    for i := 0 to NCHANNELS
      invariant s.Now() == Checked(old(s.Now()), i)
    {
      var name := s.msgid[i];
      s.active := s.active[i := ""];
      if !Proper(name) {
        continue;
      }
      var p := Policy(name[0]);
      if Has(s.lists[p], name) {
        s.lists := s.lists[p := MarkIn(s.lists[p], name, Active)];
        s.active := s.active[i := name];
      }
    }
  }

  // Take the first message that can be set up.
  method Take(s: Queues, ch: nat, quality: char, setup: string -> bool) returns (found: bool)
    requires Shaped(s.Now()) && ch < NCHANNELS
    modifies s
    ensures Choice(s.Now(), found) == Choose(old(s.Now()), ch, quality, setup)
  {
    hide FirstIn, FirstList, Cleaned, SetUse, Waiting;
    while true
      invariant Shaped(s.Now()) && Choose(s.Now(), ch, quality, setup) == Choose(old(s.Now()), ch, quality, setup)
      decreases Waiting(s.lists)
    {
      var c, i := Search(s, ch, quality);
      if c > ch {
        return false;
      }
      ghost var q := s.Now();
      WaitingLess(s.lists, c, i, Sent);
      SetUseShape(s.lists, c, i);
      var ok := SetActive(s, ch, c, i, setup);
      if ok {
        return true;
      }
      CleanedWaiting(s.Now(), ch);
      Clean(s, ch);
    }
  }

  lemma {:induction false} SetUseShape(lists: seq<seq<Entry>>, c: nat, i: nat)
    requires c < |lists| && i < |lists[c]|
    ensures forall use :: |SetUse(lists, c, i, use)| == |lists|
  {
  }

  // Find the next message for a channel.
  method FindMessage(s: Queues, ch: nat, quality: char, setup: string -> bool, ordered: string -> bool,
                     listings: seq<seq<string>>) returns (found: bool)
    requires Shaped(s.Now()) && ch < NCHANNELS
    modifies s
    ensures Choice(s.Now(), found) == FoundOf(old(s.Now()), ch, quality, setup, ordered, listings)
  {
    hide Choose, Checked, Built;
    Clean(s, ch);
    var looked := 0;
    while true
      invariant Shaped(s.Now()) && looked <= |listings|
      invariant FoundFrom(s.Now(), ch, quality, setup, ordered, listings[looked..])
                == FoundOf(old(s.Now()), ch, quality, setup, ordered, listings)
      decreases |listings| - looked
    {
      found := Take(s, ch, quality, setup);
      if found {
        return;
      }
      s.active := s.active[ch := ""];
      if looked == |listings| {
        return;
      }
      assert listings[looked..][1..] == listings[looked + 1..];
      BuildLists(s, listings[looked], ordered);
      SortLists(s);
      CheckActive(s);
      looked := looked + 1;
    }
  }
}
