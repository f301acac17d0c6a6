/** Which message FindMessage finds, told from the lists and the directory alone (HTdaemon/message.c). */
module Finding {
  import opened Scheduler

  // A channel asks: its number, the lowest quality it sends, and what can be set up and is ordered.
  datatype Call = Call(ch: nat, quality: char, setup: string -> bool, ordered: string -> bool)

  // The channel may send messages of this name that wait: of an allowed list and quality, not ordered
  // unless in its own list, and that can be set up.
  predicate Suits(a: Call, name: string)
  {
    && Proper(name) && Policy(name[0]) <= a.ch && name[0] <= a.quality
    && (Policy(name[0]) == a.ch || !a.ordered(name)) && a.setup(name)
  }

  // One of them is in the directory, and on no other channel.
  predicate Offers(listing: seq<string>, msgid: seq<string>, a: Call, name: string)
  {
    name in listing && Suits(a, name) && forall d :: 0 <= d < |msgid| && d != a.ch ==> msgid[d] != name
  }

  ghost predicate SomeOffer(listing: seq<string>, msgid: seq<string>, a: Call)
  {
    exists name :: Offers(listing, msgid, a, name)
  }

  // One of them waits in the lists.
  predicate Holds(q: Queue, a: Call, name: string)
    requires Shaped(q)
  {
    Suits(a, name) && WaitsIn(q.lists, name)
  }

  predicate WaitsIn(lists: seq<seq<Entry>>, name: string)
  {
    exists c, i :: 0 <= c < |lists| && 0 <= i < |lists[c]| && lists[c][i].name == name && lists[c][i].use == Wait
  }

  // The entries say of messages whether they are ordered.
  predicate Told(q: Queue, ordered: string -> bool)
  {
    forall c, i :: 0 <= c < |q.lists| && 0 <= i < |q.lists[c]| ==> q.lists[c][i].order == ordered(q.lists[c][i].name)
  }

  // ----- New lists

  // Noting the channels' messages in the lists changes no more than the use of their entries.
  lemma {:induction false} CheckedWaits(q: Queue, n: nat, c: nat, i: nat)
    requires Shaped(q) && n <= NCHANNELS && ProperIds(q.msgid) && GoodLists(q.lists)
    requires c < NCHANNELS && i < |q.lists[c]|
    ensures var r := Checked(q, n);
            && |r.lists[c]| == |q.lists[c]| && r.lists[c][i] == q.lists[c][i].(use := r.lists[c][i].use)
            && (r.lists[c][i].use == Wait <==>
                q.lists[c][i].use == Wait && forall d :: 0 <= d < n ==> q.msgid[d] != q.lists[c][i].name)
  {
    hide Sorted, Placed, Unique;
    CheckedIs(q, n);
    if n > 0 {
      CheckedWaits(q, n - 1, c, i);
      CheckedIs(q, n - 1);
      var s := Checked(q, n - 1);
      CheckOneWaits(s, n - 1, c, i);
    } else {
      assert Checked(q, 0) == q;
    }
  }

  lemma {:induction false} CheckOneWaits(q: Queue, ch: nat, c: nat, i: nat)
    requires Shaped(q) && ch < NCHANNELS && ProperIds(q.msgid) && GoodLists(q.lists)
    requires c < NCHANNELS && i < |q.lists[c]|
    ensures var r := CheckOne(q, ch);
            && |r.lists[c]| == |q.lists[c]| && r.lists[c][i] == q.lists[c][i].(use := r.lists[c][i].use)
            && (r.lists[c][i].use == Wait <==> q.lists[c][i].use == Wait && q.msgid[ch] != q.lists[c][i].name)
  {
    hide Sorted;
    var name := q.msgid[ch];
    assert Placed(q.lists[c], c);
    if Proper(name) {
      var p := Policy(name[0]);
      MarkInIs(q.lists[p], name, Active);
      MarkedIn(q.lists[p], name);
      if q.lists[c][i].name == name {
        assert c == p;
      }
    }
  }

  // What waits in new lists.
  lemma {:induction false} RebuiltWaits(q: Queue, listing: seq<string>, ordered: string -> bool, name: string)
    requires Shaped(q) && ProperIds(q.msgid) && Distinct(listing)
    ensures WaitsIn(Rebuilt(q, listing, ordered).lists, name)
            <==> name in listing && Proper(name) && forall d :: 0 <= d < NCHANNELS ==> q.msgid[d] != name
  {
    hide Sorted, Placed, Unique, Sort, Built, Checked;
    var r := Rebuilt(q, listing, ordered);
    var s := q.(lists := SortAll(Built(listing, ordered)));
    NewLists(listing, ordered);
    if WaitsIn(r.lists, name) {
      var c, i :| 0 <= c < |r.lists| && 0 <= i < |r.lists[c]| && r.lists[c][i].name == name
                  && r.lists[c][i].use == Wait;
      SameLength(s, c);
      CheckedWaits(s, NCHANNELS, c, i);
      assert s.lists[c][i] in s.lists[c];
    }
    if name in listing && Proper(name) && forall d :: 0 <= d < NCHANNELS ==> q.msgid[d] != name {
      var c := Policy(name[0]);
      assert Entry(name, Wait, ordered(name)) in s.lists[c];
      var i :| 0 <= i < |s.lists[c]| && s.lists[c][i] == Entry(name, Wait, ordered(name));
      CheckedWaits(s, NCHANNELS, c, i);
      assert r.lists[c][i].name == name;
    }
  }

  lemma {:induction false} SameLength(q: Queue, c: nat)
    requires Shaped(q) && c < NCHANNELS && ProperIds(q.msgid) && GoodLists(q.lists)
    ensures |Checked(q, NCHANNELS).lists[c]| == |q.lists[c]|
  {
    LengthsStay(q, NCHANNELS, c);
  }

  lemma {:induction false} LengthsStay(q: Queue, n: nat, c: nat)
    requires Shaped(q) && c < NCHANNELS && n <= NCHANNELS
    ensures |Checked(q, n).lists[c]| == |q.lists[c]|
  {
    if n > 0 {
      LengthsStay(q, n - 1, c);
      var s := Checked(q, n - 1);
      var name := s.msgid[n - 1];
      if Proper(name) {
        MarkInIs(s.lists[Policy(name[0])], name, Active);
      }
    }
  }

  // The sorted lists hold the proper names of the directory, waiting.
  lemma {:induction false} NewLists(listing: seq<string>, ordered: string -> bool)
    requires Distinct(listing)
    ensures var lists := SortAll(Built(listing, ordered));
            && GoodLists(lists)
            && forall c, e :: 0 <= c < NCHANNELS ==>
                 (e in lists[c] <==> e.name in listing && Proper(e.name) && Policy(e.name[0]) == c
                                         && e == Entry(e.name, Wait, ordered(e.name)))
  {
    hide Sorted, Placed, Unique, Sort, Built;
    BuiltIs(listing, ordered);
    var built := Built(listing, ordered);
    forall c | 0 <= c < NCHANNELS
      ensures Placed(SortAll(built)[c], c) && Unique(SortAll(built)[c]) && Sorted(SortAll(built)[c])
      ensures forall e :: e in SortAll(built)[c] <==> e in built[c]
    {
      SortKeeps(built[c], c);
      SortIs(built[c]);
      SameMembers(Sort(built[c]), built[c]);
    }
  }

  lemma {:induction false} SameMembers(x: seq<Entry>, y: seq<Entry>)
    requires multiset(x) == multiset(y)
    ensures forall e :: e in x <==> e in y
  {
    forall e
      ensures e in x <==> e in y
    {
      assert e in x <==> e in multiset(x);
      assert e in y <==> e in multiset(y);
    }
  }

  lemma {:induction false} RebuiltTold(q: Queue, listing: seq<string>, ordered: string -> bool)
    requires Shaped(q) && ProperIds(q.msgid) && Distinct(listing)
    ensures Told(Rebuilt(q, listing, ordered), ordered)
  {
    hide Sorted, Placed, Unique, Sort, Built, Checked;
    var r := Rebuilt(q, listing, ordered);
    var s := q.(lists := SortAll(Built(listing, ordered)));
    NewLists(listing, ordered);
    forall c: nat, i: nat | c < |r.lists| && i < |r.lists[c]|
      ensures r.lists[c][i].order == ordered(r.lists[c][i].name)
    {
      SameLength(s, c);
      CheckedWaits(s, NCHANNELS, c, i);
      assert s.lists[c][i] in s.lists[c];
    }
  }

  // ----- One look through the lists

  lemma {:induction false} HoldsIff(q: Queue, a: Call, name: string)
    requires Inv(q) && Told(q, a.ordered) && a.ch < NCHANNELS
    ensures Holds(q, a, name)
            <==> exists c, i :: 0 <= c < NCHANNELS && 0 <= i < |q.lists[c]| && q.lists[c][i].name == name
                                && Usable(q, a.ch, a.quality, a.setup, c, i)
  {
    hide Sorted, Unique, Free, NoTwo;
    if Holds(q, a, name) {
      var c, i :| 0 <= c < |q.lists| && 0 <= i < |q.lists[c]| && q.lists[c][i].name == name
                  && q.lists[c][i].use == Wait;
      assert Placed(q.lists[c], c);
      assert Usable(q, a.ch, a.quality, a.setup, c, i);
    }
    if c, i :| 0 <= c < NCHANNELS && 0 <= i < |q.lists[c]| && q.lists[c][i].name == name
               && Usable(q, a.ch, a.quality, a.setup, c, i) {
      assert Placed(q.lists[c], c);
    }
  }

  // It finds a message if and only if one that suits waits, and then the least of these.
  lemma {:induction false} ChooseIff(q: Queue, a: Call)
    requires Inv(q) && Told(q, a.ordered) && a.ch < NCHANNELS && q.msgid[a.ch] == ""
    ensures var r := Choose(q, a.ch, a.quality, a.setup);
            && (r.found <==> exists name :: Holds(q, a, name))
            && (r.found ==> Holds(q, a, r.q.msgid[a.ch]))
            && forall name :: Holds(q, a, name) ==> LessEq(r.q.msgid[a.ch], name)
  {
    hide Inv, Told, Holds, Usable, Choose, LessEq;
    InvShaped(q);
    var r := Choose(q, a.ch, a.quality, a.setup);
    if r.found {
      var d, j := ChoosesUsable(q, a.ch, a.quality, a.setup);
      UsableIn(q, a, d, j);
      HoldsIff(q, a, q.lists[d][j].name);
    }
    forall name | Holds(q, a, name)
      ensures r.found && LessEq(r.q.msgid[a.ch], name)
    {
      HoldsIff(q, a, name);
      var c, i :| 0 <= c < NCHANNELS && 0 <= i < |q.lists[c]| && q.lists[c][i].name == name
                  && Usable(q, a.ch, a.quality, a.setup, c, i);
      ChoosesLeast(q, a.ch, a.quality, a.setup, c, i);
    }
  }

  lemma {:induction false} UsableIn(q: Queue, a: Call, d: nat, j: nat)
    requires Shaped(q) && a.ch < NCHANNELS && Usable(q, a.ch, a.quality, a.setup, d, j)
    ensures d < NCHANNELS && j < |q.lists[d]|
  {
  }

  // ----- And through new lists, until something is found

  lemma {:induction false} RebuiltHolds(q: Queue, listing: seq<string>, a: Call, name: string)
    requires Shaped(q) && ProperIds(q.msgid) && Distinct(listing) && a.ch < NCHANNELS && q.msgid[a.ch] == ""
    ensures Holds(Rebuilt(q, listing, a.ordered), a, name) <==> Offers(listing, q.msgid, a, name)
  {
    hide Rebuilt, WaitsIn;
    RebuiltWaits(q, listing, a.ordered, name);
  }

  // What a look through the lists that finds nothing leaves.
  function Idle(q: Queue, a: Call): Queue
    requires Shaped(q) && a.ch < NCHANNELS
  {
    var r := Choose(q, a.ch, a.quality, a.setup).q;
    r.(active := r.active[a.ch := ""])
  }

  function From(q: Queue, a: Call, listings: seq<seq<string>>): Choice
    requires Shaped(q) && a.ch < NCHANNELS
  {
    FoundFrom(q, a.ch, a.quality, a.setup, a.ordered, listings)
  }

  lemma {:induction false} IdleIs(q: Queue, a: Call)
    requires Inv(q) && a.ch < NCHANNELS && q.msgid[a.ch] == "" && !Choose(q, a.ch, a.quality, a.setup).found
    ensures Shaped(Idle(q, a)) && Idle(q, a).msgid == q.msgid && ProperIds(q.msgid) && NoTwo(q.msgid)
  {
    hide Choose;
    ChooseKeeps(q, a.ch, a.quality, a.setup);
    NoneLeft(q, a.ch, a.quality, a.setup);
    InvTwo(q);
    assert Idle(q, a).msgid == q.msgid;
  }

  // The first listing that offers something, or the number of listings.
  ghost function FirstOffer(listings: seq<seq<string>>, msgid: seq<string>, a: Call): (k: nat)
    ensures k <= |listings| && (k < |listings| ==> SomeOffer(listings[k], msgid, a))
    ensures forall j :: 0 <= j < k ==> !SomeOffer(listings[j], msgid, a)
  {
    if listings == [] || SomeOffer(listings[0], msgid, a) then 0 else 1 + FirstOffer(listings[1..], msgid, a)
  }

  // The message found: the least that suits of those that wait in the lists; and if none does, the
  // least that the directory offers, the first time that it offers one.
  ghost predicate Least(q: Queue, a: Call, listings: seq<seq<string>>, name: string)
    requires Shaped(q)
  {
    if exists n :: Holds(q, a, n) then
      Holds(q, a, name) && forall n :: Holds(q, a, n) ==> LessEq(name, n)
    else
      var k := FirstOffer(listings, q.msgid, a);
      && k < |listings| && Offers(listings[k], q.msgid, a, name)
      && forall n :: Offers(listings[k], q.msgid, a, n) ==> LessEq(name, n)
  }

  ghost predicate Some(q: Queue, a: Call, listings: seq<seq<string>>)
    requires Shaped(q)
  {
    (exists n :: Holds(q, a, n)) || (exists k :: 0 <= k < |listings| && SomeOffer(listings[k], q.msgid, a))
  }

  lemma {:induction false} FromIff(q: Queue, a: Call, listings: seq<seq<string>>)
    requires Inv(q) && Told(q, a.ordered) && a.ch < NCHANNELS && q.msgid[a.ch] == "" && AllDistinct(listings)
    ensures Shaped(q) && (From(q, a, listings).found <==> Some(q, a, listings))
    ensures From(q, a, listings).found ==> Least(q, a, listings, From(q, a, listings).q.msgid[a.ch])
    decreases |listings|
  {
    hide Inv, Told, Holds, Choose, Rebuilt, Offers, LessEq, AllDistinct, ProperIds, NoTwo;
    InvShaped(q);
    ChooseIff(q, a);
    if !Choose(q, a.ch, a.quality, a.setup).found && listings != [] {
      IdleIs(q, a);
      DistinctNext(listings);
      var next := Rebuilt(Idle(q, a), listings[0], a.ordered);
      RebuiltKeeps(Idle(q, a), listings[0], a.ordered);
      RebuiltTold(Idle(q, a), listings[0], a.ordered);
      forall name
        ensures Holds(next, a, name) <==> Offers(listings[0], q.msgid, a, name)
      {
        RebuiltHolds(Idle(q, a), listings[0], a, name);
      }
      FromIff(next, a, listings[1..]);
      SomeBehind(q, a, listings);
    }
  }

  lemma {:induction false} SomeBehind(q: Queue, a: Call, listings: seq<seq<string>>)
    requires Shaped(q) && listings != []
    ensures (exists k :: 0 <= k < |listings| && SomeOffer(listings[k], q.msgid, a)) <==>
            SomeOffer(listings[0], q.msgid, a)
            || (exists k :: 0 <= k < |listings[1..]| && SomeOffer(listings[1..][k], q.msgid, a))
  {
    hide SomeOffer;
    if k :| 0 <= k < |listings| && SomeOffer(listings[k], q.msgid, a) {
      if k > 0 {
        assert listings[1..][k - 1] == listings[k];
      }
    }
    if k :| 0 <= k < |listings[1..]| && SomeOffer(listings[1..][k], q.msgid, a) {
      assert listings[k + 1] == listings[1..][k];
    }
  }

  lemma {:induction false} DistinctNext(listings: seq<seq<string>>)
    requires AllDistinct(listings) && listings != []
    ensures Distinct(listings[0]) && AllDistinct(listings[1..])
  {
  }

  // ----- FindMessage

  lemma {:induction false} UsedTold(q: Queue, lists: seq<seq<Entry>>, ordered: string -> bool)
    requires Told(q, ordered) && Used(q.lists, lists)
    ensures Told(q.(lists := lists), ordered)
  {
    forall c: nat, i: nat | c < |lists| && i < |lists[c]|
      ensures lists[c][i].order == ordered(lists[c][i].name)
    {
      assert UsedIn(q.lists[c], lists[c]);
    }
  }

  // Done with its last message, the channel finds the same messages waiting.
  lemma {:induction false} CleanedHolds(q: Queue, a: Call, name: string)
    requires Inv(q) && a.ch < NCHANNELS
    ensures Shaped(Cleaned(q, a.ch)) && (Holds(Cleaned(q, a.ch), a, name) <==> Holds(q, a, name))
  {
    hide Inv, Cleaned;
    InvShaped(q);
    CleanedKeeps(q, a.ch);
    InvShaped(Cleaned(q, a.ch));
    var r := Cleaned(q, a.ch);
    if Holds(q, a, name) {
      var c, i :| 0 <= c < |q.lists| && 0 <= i < |q.lists[c]| && q.lists[c][i].name == name
                  && q.lists[c][i].use == Wait;
      assert UsedIn(q.lists[c], r.lists[c]);
      assert r.lists[c][i] == q.lists[c][i];
    }
    if Holds(r, a, name) {
      var c, i :| 0 <= c < |r.lists| && 0 <= i < |r.lists[c]| && r.lists[c][i].name == name
                  && r.lists[c][i].use == Wait;
      assert UsedIn(q.lists[c], r.lists[c]);
      assert q.lists[c][i].name == name;
    }
  }

  lemma {:induction false} SameOffers(listing: seq<string>, x: seq<string>, y: seq<string>, a: Call)
    requires |x| == |y| && forall d :: 0 <= d < |x| && d != a.ch ==> x[d] == y[d]
    ensures forall name :: Offers(listing, x, a, name) <==> Offers(listing, y, a, name)
    ensures SomeOffer(listing, x, a) <==> SomeOffer(listing, y, a)
  {
  }

  lemma {:induction false} SameFirst(listings: seq<seq<string>>, x: seq<string>, y: seq<string>, a: Call)
    requires |x| == |y| && forall d :: 0 <= d < |x| && d != a.ch ==> x[d] == y[d]
    ensures FirstOffer(listings, x, a) == FirstOffer(listings, y, a)
  {
    hide SomeOffer;
    if listings != [] {
      SameOffers(listings[0], x, y, a);
      SameFirst(listings[1..], x, y, a);
    }
  }

  // A message is found if and only if one that suits waits in the lists, or is in the directory, some
  // time that it is read, and on no other channel; and it is the least of those.
  lemma {:induction false} FoundIff(q: Queue, a: Call, listings: seq<seq<string>>)
    requires Inv(q) && Told(q, a.ordered) && a.ch < NCHANNELS && AllDistinct(listings)
    ensures Shaped(q)
    ensures var r := FoundOf(q, a.ch, a.quality, a.setup, a.ordered, listings);
            && (r.found <==> Some(q, a, listings))
            && (r.found ==> Least(q, a, listings, r.q.msgid[a.ch]))
  {
    hide Inv, Told, Holds, FoundFrom, Cleaned, AllDistinct, LessEq;
    InvShaped(q);
    CleanedKeeps(q, a.ch);
    var s := Cleaned(q, a.ch);
    InvShaped(s);
    UsedTold(q, s.lists, a.ordered);
    assert Told(s, a.ordered) by {
      SameTold(q.(lists := s.lists), s, a.ordered);
    }
    FromIff(s, a, listings);
    forall name
      ensures Holds(s, a, name) <==> Holds(q, a, name)
    {
      CleanedHolds(q, a, name);
    }
    SameFirst(listings, s.msgid, q.msgid, a);
    forall k | 0 <= k < |listings|
      ensures SomeOffer(listings[k], s.msgid, a) <==> SomeOffer(listings[k], q.msgid, a)
      ensures forall name :: Offers(listings[k], s.msgid, a, name) <==> Offers(listings[k], q.msgid, a, name)
    {
      SameOffers(listings[k], s.msgid, q.msgid, a);
    }
  }

  lemma {:induction false} SameTold(q: Queue, r: Queue, ordered: string -> bool)
    requires Told(q, ordered) && q.lists == r.lists
    ensures Told(r, ordered)
  {
  }

  // The lists go on saying of messages whether they are ordered.
  lemma {:induction false} ChooseTold(q: Queue, a: Call)
    requires Inv(q) && Told(q, a.ordered) && a.ch < NCHANNELS && q.msgid[a.ch] == ""
    ensures Told(Choose(q, a.ch, a.quality, a.setup).q, a.ordered)
    decreases Waiting(q.lists)
  {
    hide Inv, Told, Waiting;
    InvShaped(q);
    var c := FirstList(q.lists, 0, a.ch, a.quality);
    if c <= a.ch {
      var i := FirstIn(q.lists[c], c == a.ch, a.quality);
      var name := q.lists[c][i].name;
      if a.setup(name) {
        SetUseUsed(q.lists, c, i, Active);
        UsedTold(q, SetUse(q.lists, c, i, Active), a.ordered);
        SameTold(q.(lists := SetUse(q.lists, c, i, Active)), Choose(q, a.ch, a.quality, a.setup).q, a.ordered);
      } else {
        WaitingLess(q.lists, c, i, Sent);
        TakenKeeps(q, c, i, a.ch, Sent, q.active);
        var sent := q.(lists := SetUse(q.lists, c, i, Sent), msgid := q.msgid[a.ch := name]);
        CleanedWaiting(sent, a.ch);
        CleanedKeeps(sent, a.ch);
        SetUseUsed(q.lists, c, i, Sent);
        UsedTold(q, sent.lists, a.ordered);
        SameTold(q.(lists := sent.lists), sent, a.ordered);
        UsedTold(sent, Cleaned(sent, a.ch).lists, a.ordered);
        SameTold(sent.(lists := Cleaned(sent, a.ch).lists), Cleaned(sent, a.ch), a.ordered);
        ChooseTold(Cleaned(sent, a.ch), a);
      }
    }
  }

  lemma {:induction false} FromTold(q: Queue, a: Call, listings: seq<seq<string>>)
    requires Inv(q) && Told(q, a.ordered) && a.ch < NCHANNELS && q.msgid[a.ch] == "" && AllDistinct(listings)
    ensures Told(From(q, a, listings).q, a.ordered)
    decreases |listings|
  {
    hide Inv, Told, Choose, Rebuilt, AllDistinct, ProperIds, NoTwo;
    InvShaped(q);
    ChooseTold(q, a);
    if !Choose(q, a.ch, a.quality, a.setup).found {
      IdleIs(q, a);
      if listings == [] {
        SameTold(Choose(q, a.ch, a.quality, a.setup).q, Idle(q, a), a.ordered);
      } else {
        DistinctNext(listings);
        RebuiltKeeps(Idle(q, a), listings[0], a.ordered);
        RebuiltTold(Idle(q, a), listings[0], a.ordered);
        FromTold(Rebuilt(Idle(q, a), listings[0], a.ordered), a, listings[1..]);
      }
    }
  }

  lemma {:induction false} FoundTold(q: Queue, a: Call, listings: seq<seq<string>>)
    requires Inv(q) && Told(q, a.ordered) && a.ch < NCHANNELS && AllDistinct(listings)
    ensures Told(FoundOf(q, a.ch, a.quality, a.setup, a.ordered, listings).q, a.ordered)
  {
    hide Inv, Told, FoundFrom, Cleaned, AllDistinct;
    InvShaped(q);
    CleanedKeeps(q, a.ch);
    var s := Cleaned(q, a.ch);
    UsedTold(q, s.lists, a.ordered);
    SameTold(q.(lists := s.lists), s, a.ordered);
    FromTold(s, a, listings);
  }
}
