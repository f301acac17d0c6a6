/** The route that a message carries, walked forwards and backwards in place (Header/ExRoute.c,
    Header/ExRevRoute.c). */
module Routes {
  import opened Sequences

  const RS := '\U{1e}'    // before each node
  const US := '\U{1f}'    // between a node and the travel time to it
  const NUL := '\0'

  // What the callback is given: from, travel time, to.
  datatype Call = Call(from: string, time: nat, to: string)

  datatype Walk = Walk(calls: seq<Call>, done: bool)

  // The place of the first `c`, or the length.
  function Find(s: string, c: char): (i: nat)
    ensures i <= |s| && (i < |s| ==> s[i] == c) && c !in s[..i]
  {
    if s == [] || s[0] == c then 0 else 1 + Find(s[1..], c)
  }

  // The place of the last `c`, or -1.
  function FindLast(s: string, c: char): (i: int)
    ensures -1 <= i < |s| && (i >= 0 ==> s[i] == c) && forall j :: i < j < |s| ==> s[j] != c
  {
    if s == [] then -1 else if s[|s| - 1] == c then |s| - 1 else FindLast(s[..|s| - 1], c)
  }

  // atol, of the digits a time begins with.
  function Number(s: string, sofar: nat): nat
  {
    if s == [] || !('0' <= s[0] <= '9') then sofar
    else Number(s[1..], 10 * sofar + (s[0] as int - '0' as int))
  }

  function Travel(s: string): nat
  {
    Number(s, 0)
  }

  // ----- Forwards

  // The walk of what follows an RS, from `source`, while the callback says yes.
  function Forward(source: string, s: string, yes: Call -> bool): Walk
    decreases |s|
  {
    var r := Find(s, RS);
    var u := Find(s[..r], US);
    if u == r then Walk([], false)
    else
      var call := Call(source, Travel(s[u + 1..r]), s[..u]);
      if !yes(call) then Walk([call], false)
      else if r == |s| then Walk([call], true)
      else
        var w := Forward(s[..u], s[r + 1..], yes);
        w.(calls := [call] + w.calls)
  }

  function ExRouteOf(source: string, route: string, yes: Call -> bool): Walk
  {
    if route == [] || route[0] != RS then Walk([], false) else Forward(source, route[1..], yes)
  }

  // ----- Backwards

  // The walk of route[..end] from its last node to its first, towards `dest`, at `time`.
  function Backward(source: string, route: string, end: nat, dest: string, time: nat, yes: Call -> bool): Walk
    requires end <= |route|
    decreases end
  {
    var r := FindLast(route[..end], RS);
    if r < 0 then Walk([], false)
    else
      var u := r + Find(route[r..], US);
      if u == |route| then Walk([], false)
      else
        var node := route[r + 1..u];
        var call := Call(node, time, dest);
        if !yes(call) then Walk([call], false)
        else
          var t := Travel(route[u + 1..]);
          if r == 0 then
            var last := Call(source, t, node);
            Walk([call, last], yes(last))
          else
            var w := Backward(source, route, r, node, t, yes);
            w.(calls := [call] + w.calls)
  }

  function ExRevRouteOf(source: string, route: string, dest: string, yes: Call -> bool): Walk
  {
    if route == [] || route[0] != RS then Walk([], false) else Backward(source, route, |route|, dest, 0, yes)
  }

  // ----- Routes that are as they should be

  datatype Hop = Hop(node: string, time: string)

  predicate Plain(s: string)
  {
    RS !in s && US !in s && NUL !in s
  }

  // A time may have anything in it but the next hop.
  predicate Timely(s: string)
  {
    RS !in s && NUL !in s
  }

  predicate WellFormed(hops: seq<Hop>)
  {
    forall i :: 0 <= i < |hops| ==> Plain(hops[i].node) && Timely(hops[i].time)
  }

  function Render(hops: seq<Hop>): string
  {
    if hops == [] then [] else [RS] + hops[0].node + [US] + hops[0].time + Render(hops[1..])
  }

  // The hops of the journey, first to last.
  function Tuples(source: string, hops: seq<Hop>): seq<Call>
    decreases |hops|
  {
    if hops == [] then [] else [Call(source, Travel(hops[0].time), hops[0].node)] + Tuples(hops[0].node, hops[1..])
  }

  // The calls up to and with the first that is refused.
  function Until(calls: seq<Call>, yes: Call -> bool): Walk
  {
    if calls == [] then Walk([], true)
    else if !yes(calls[0]) then Walk([calls[0]], false)
    else
      var w := Until(calls[1..], yes);
      w.(calls := [calls[0]] + w.calls)
  }

  lemma {:induction false} FindIn(x: string, c: char, y: string)
    requires c !in x
    ensures Find(x + [c] + y, c) == |x| && Find(x, c) == |x|
  {
    if x != [] {
      assert (x + [c] + y)[1..] == x[1..] + [c] + y;
      FindIn(x[1..], c, y);
    }
  }

  // A hop in front of `more`, as the walk finds it.
  lemma {:induction false} FirstHop(node: string, time: string, more: string)
    requires Plain(node) && Timely(time) && (more == [] || more[0] == RS)
    ensures var s := node + [US] + time + more; var u := |node|; var r := u + 1 + |time|;
            && |s| == r + |more| && Find(s, RS) == r && Find(s[..r], US) == u
            && s[..u] == node && s[u + 1..r] == time && s[r..] == more && s[u] == US
  {
    hide Find;
    var seg := node + [US] + time;
    var s := seg + more;
    assert s[..|seg|] == seg && s[|seg|..] == more;
    assert s[..|node|] == node && s[|node| + 1..|seg|] == time;
    FindIn(node, US, time);
    assert RS !in seg;
    if more != [] {
      FindIn(seg, RS, more[1..]);
      assert s == seg + [RS] + more[1..];
    } else {
      FindIn(seg, RS, []);
      assert s == seg;
    }
  }

  lemma {:induction false} RenderStep(hops: seq<Hop>)
    requires hops != []
    ensures var more := Render(hops[1..]);
            Render(hops) == [RS] + (hops[0].node + [US] + hops[0].time + more)
            && (if |hops| == 1 then more == [] else more != [] && more[0] == RS)
  {
    var h, more := hops[0], Render(hops[1..]);
    assert [RS] + h.node + [US] + h.time + more == [RS] + (h.node + [US] + h.time + more);
  }

  // One turn of the forward walk.
  lemma {:induction false} ForwardStep(source: string, node: string, time: string, more: string, yes: Call -> bool)
    requires Plain(node) && Timely(time) && (more == [] || more[0] == RS)
    ensures var call := Call(source, Travel(time), node);
            Forward(source, node + [US] + time + more, yes) ==
            if !yes(call) then Walk([call], false)
            else if more == [] then Walk([call], true)
            else Forward(node, more[1..], yes).(calls := [call] + Forward(node, more[1..], yes).calls)
  {
    hide Find, Travel, Forward;
    FirstHop(node, time, more);
    var s := node + [US] + time + more;
    var r := |node| + 1 + |time|;
    ForwardUnfold(source, s, r, |node|, yes);
    assert more != [] ==> s[r + 1..] == s[r..][1..];
  }

  // On a well-formed route ExRoute calls back with the journey's hops in order.
  lemma {:induction false} ForwardTuples(source: string, hops: seq<Hop>, yes: Call -> bool)
    requires WellFormed(hops) && hops != []
    ensures ExRouteOf(source, Render(hops), yes) == Until(Tuples(source, hops), yes)
    decreases |hops|
  {
    hide Forward, Travel, Render;
    var h := hops[0];
    var more := Render(hops[1..]);
    RenderStep(hops);
    ForwardStep(source, h.node, h.time, more, yes);
    assert Render(hops)[1..] == h.node + [US] + h.time + more;
    if |hops| > 1 {
      ForwardTuples(h.node, hops[1..], yes);
    }
  }

  // ----- Backwards is forwards reversed

  function Reverse(calls: seq<Call>): seq<Call>
  {
    if calls == [] then [] else Reverse(calls[1..]) + [calls[0]]
  }

  lemma {:induction false} ReverseLast(calls: seq<Call>, c: Call)
    ensures Reverse(calls + [c]) == [c] + Reverse(calls)
  {
    if calls == [] {
      assert [] + [c] == [c] && [c][1..] == [];
    } else {
      ReverseLast(calls[1..], c);
      assert (calls + [c])[1..] == calls[1..] + [c];
      assert [c] + (Reverse(calls[1..]) + [calls[0]]) == [c] + Reverse(calls[1..]) + [calls[0]];
    }
  }

  function Last(source: string, hops: seq<Hop>): string
  {
    if hops == [] then source else hops[|hops| - 1].node
  }

  lemma {:induction false} TuplesLast(source: string, hops: seq<Hop>, h: Hop)
    ensures Tuples(source, hops + [h]) == Tuples(source, hops) + [Call(Last(source, hops), Travel(h.time), h.node)]
    decreases |hops|
  {
    hide Travel;
    if hops == [] {
      assert [] + [h] == [h] && [h][1..] == [];
    } else {
      TuplesLast(hops[0].node, hops[1..], h);
      assert (hops + [h])[1..] == hops[1..] + [h];
    }
  }

  lemma {:induction false} RenderLast(hops: seq<Hop>, h: Hop)
    ensures Render(hops + [h]) == Render(hops) + ([RS] + h.node + [US] + h.time)
  {
    if hops == [] {
      assert [] + [h] == [h] && [h][1..] == [];
      assert Render([h]) == [RS] + h.node + [US] + h.time + [];
    } else {
      RenderLast(hops[1..], h);
      assert (hops + [h])[1..] == hops[1..] + [h];
      var a, b, c := [RS] + hops[0].node + [US] + hops[0].time, Render(hops[1..]), [RS] + h.node + [US] + h.time;
      assert a + (b + c) == a + b + c;
    }
  }

  // A number in decimal digits.
  function Decimal(n: nat): string
  {
    (if n < 10 then [] else Decimal(n / 10)) + [('0' as int + n % 10) as char]
  }

  lemma {:induction false} DecimalRead(n: nat, more: string)
    ensures Number(Decimal(n) + more, 0) == Number(more, n)
    decreases n
  {
    var d := [('0' as int + n % 10) as char];
    assert (d + more)[1..] == more;
    if n < 10 {
      assert Decimal(n) + more == d + more;
    } else {
      DecimalRead(n / 10, d + more);
      assert Decimal(n) + more == Decimal(n / 10) + (d + more);
    }
  }

  // A travel time that is written in decimal is read back, whatever follows its digits.
  lemma {:induction false} TravelBack(n: nat, more: string)
    requires more == [] || !('0' <= more[0] <= '9')
    ensures Travel(Decimal(n) + more) == n
  {
    DecimalRead(n, more);
  }

  // Digits end where a time does.
  lemma {:induction false} NumberStops(s: string, more: string, sofar: nat)
    requires more == [] || more[0] == RS
    ensures Number(s + more, sofar) == Number(s, sofar)
    decreases |s|
  {
    if s == [] {
      assert s + more == more;
    } else if '0' <= s[0] <= '9' {
      NumberStops(s[1..], more, 10 * sofar + (s[0] as int - '0' as int));
      assert (s + more)[1..] == s[1..] + more;
    }
  }

  lemma {:induction false} LastIn(x: string, y: string)
    requires RS !in y
    ensures FindLast(x + [RS] + y, RS) == |x|
  {
    var s := x + [RS] + y;
    assert s[|x|] == RS;
  }

  // The last hop of a route that has `front` before it and `more` behind it.
  lemma {:induction false} LastHop(front: string, h: Hop, more: string)
    requires Plain(h.node) && Timely(h.time) && (more == [] || more[0] == RS)
    ensures var s := front + ([RS] + h.node + [US] + h.time); var route := s + more; var r := |front|;
            var u := r + 1 + |h.node|;
            && route[..|s|] == s && FindLast(s, RS) == r && r + Find(route[r..], US) == u < |route|
            && route[r + 1..u] == h.node && Travel(route[u + 1..]) == Travel(h.time)
            && route == front + ([RS] + h.node + [US] + h.time + more)
  {
    hide Find, FindLast, Number;
    var seg := h.node + [US] + h.time;
    var s := front + ([RS] + h.node + [US] + h.time);
    var route := s + more;
    assert s == front + [RS] + seg;
    LastIn(front, seg);
    var r := |front|;
    assert route[r..] == ([RS] + h.node) + [US] + (h.time + more);
    FindIn([RS] + h.node, US, h.time + more);
    assert route[r + 1 + |h.node| + 1..] == h.time + more;
    NumberStops(h.time, more, 0);
  }

  // One turn of the backward walk.
  lemma {:induction false} BackwardStep(source: string, front: string, h: Hop, more: string, dest: string, time: nat,
                                        yes: Call -> bool)
    requires Plain(h.node) && Timely(h.time) && (more == [] || more[0] == RS)
    ensures var s := front + ([RS] + h.node + [US] + h.time); var route := s + more;
            var call := Call(h.node, time, dest); var last := Call(source, Travel(h.time), h.node);
            && |front| <= |s| <= |route|
            && Backward(source, route, |s|, dest, time, yes) ==
               if !yes(call) then Walk([call], false)
               else if front == [] then Walk([call, last], yes(last))
               else
                 var w := Backward(source, route, |front|, h.node, Travel(h.time), yes);
                 w.(calls := [call] + w.calls)
  {
    hide Find, FindLast, Travel, Backward;
    LastHop(front, h, more);
    var s := front + ([RS] + h.node + [US] + h.time);
    BackwardAt(source, s + more, |s|, dest, time, yes);
  }

  lemma {:induction false} BackwardTuples(source: string, hops: seq<Hop>, more: string, dest: string, time: nat,
                                          yes: Call -> bool)
    requires WellFormed(hops) && hops != [] && (more == [] || more[0] == RS)
    ensures Backward(source, Render(hops) + more, |Render(hops)|, dest, time, yes)
            == Until([Call(Last(source, hops), time, dest)] + Reverse(Tuples(source, hops)), yes)
    decreases |hops|
  {
    hide Backward, Travel, Render, Tuples, Reverse;
    var n := |hops| - 1;
    var h, front := hops[n], Render(hops[..n]);
    assert hops == hops[..n] + [h];
    RenderLast(hops[..n], h);
    TuplesLast(source, hops[..n], h);
    ReverseLast(Tuples(source, hops[..n]), Call(Last(source, hops[..n]), Travel(h.time), h.node));
    BackwardStep(source, front, h, more, dest, time, yes);
    NoHops(source);
    var rest := [Call(Last(source, hops[..n]), Travel(h.time), h.node)] + Reverse(Tuples(source, hops[..n]));
    UntilStep(Call(h.node, time, dest), rest, yes);
    if n == 0 {
      assert hops[..n] == [];
      UntilOne(Call(source, Travel(h.time), h.node), yes);
      assert rest == [Call(source, Travel(h.time), h.node)];
    } else {
      FrontStarts(hops[..n]);
      var tail := [RS] + h.node + [US] + h.time + more;
      LastHop(front, h, more);
      BackwardTuples(source, hops[..n], tail, h.node, Travel(h.time), yes);
    }
  }

  lemma {:induction false} FrontStarts(hops: seq<Hop>)
    requires hops != []
    ensures Render(hops) != [] && Render(hops)[0] == RS
  {
  }

  lemma {:induction false} NoHops(source: string)
    ensures Render([]) == [] && Tuples(source, []) == [] && Reverse([]) == []
  {
  }

  lemma {:induction false} UntilStep(c: Call, rest: seq<Call>, yes: Call -> bool)
    ensures Until([c] + rest, yes) ==
            if !yes(c) then Walk([c], false) else Until(rest, yes).(calls := [c] + Until(rest, yes).calls)
  {
    assert ([c] + rest)[1..] == rest;
  }

  lemma {:induction false} UntilOne(c: Call, yes: Call -> bool)
    ensures Until([c], yes) == Walk([c], yes(c))
  {
    assert [c][1..] == [];
  }

  // On a well-formed route ExRevRoute calls back with the way from the last node to the destination,
  // and then with what ExRoute calls back with, the other way round.
  lemma {:induction false} Mirrored(source: string, hops: seq<Hop>, dest: string, yes: Call -> bool)
    requires WellFormed(hops) && hops != []
    ensures ExRevRouteOf(source, Render(hops), dest, yes)
            == Until([Call(Last(source, hops), 0, dest)] + Reverse(Tuples(source, hops)), yes)
    ensures ExRouteOf(source, Render(hops), yes) == Until(Tuples(source, hops), yes)
  {
    hide Backward, Forward, Reverse, Tuples, Render;
    FrontStarts(hops);
    ForwardTuples(source, hops, yes);
    BackwardTuples(source, hops, [], dest, 0, yes);
    assert Render(hops) + [] == Render(hops);
  }

  // ----- Routes that are not

  // What follows the RS at `i`, up to the next.
  function SegmentAt(route: string, i: nat): string
    requires i < |route|
  {
    var t := route[i + 1..];
    t[..Find(t, RS)]
  }

  // Every node before `end` has its time.
  predicate TimedTo(route: string, end: nat)
    requires end <= |route|
  {
    forall i :: 0 <= i < end && route[i] == RS ==> US in SegmentAt(route, i)
  }

  predicate Timed(route: string)
  {
    route != [] && route[0] == RS && TimedTo(route, |route|)
  }

  // The last node has.
  predicate LastTimed(route: string)
  {
    route != [] && route[0] == RS && US in route[FindLast(route, RS)..]
  }

  lemma {:induction false} FindNone(s: string, c: char)
    ensures Find(s, c) == |s| <==> c !in s
  {
    var i := Find(s, c);
    if i == |s| {
      assert s[..i] == s;
    }
  }

  // The segments behind the next RS are those of the rest of the route.
  lemma {:induction false} SegmentsBehind(s: string, r: nat, i: nat)
    requires r < |s| && s[r] == RS && r + 1 <= i <= |s|
    ensures var route, more := [RS] + s, [RS] + s[r + 1..];
            && i - r - 1 < |more| && route[i] == more[i - r - 1]
            && SegmentAt(route, i) == SegmentAt(more, i - r - 1)
  {
    hide Find;
    var route, more := [RS] + s, [RS] + s[r + 1..];
    assert s[r..] == more;
    assert route[i + 1..] == more[i - r..];
  }

  lemma {:induction false} TimedBehind(s: string, r: nat)
    requires r < |s| && s[r] == RS && RS !in s[..r]
    ensures Timed([RS] + s) <==> US in SegmentAt([RS] + s, 0) && Timed([RS] + s[r + 1..])
  {
    hide SegmentAt;
    var route, more := [RS] + s, [RS] + s[r + 1..];
    forall i | 0 < i < r + 1
      ensures route[i] != RS
    {
      assert s[..r][i - 1] == route[i];
    }
    if Timed(more) && US in SegmentAt(route, 0) {
      forall i | 0 <= i < |route| && route[i] == RS
        ensures US in SegmentAt(route, i)
      {
        if i > 0 {
          SegmentsBehind(s, r, i);
        }
      }
    }
    if Timed(route) {
      forall j | 0 <= j < |more| && more[j] == RS
        ensures US in SegmentAt(more, j)
      {
        SegmentsBehind(s, r, j + r + 1);
      }
    }
  }

  // The hop behind the first RS, and those behind it.
  lemma {:induction false} TimedStep(s: string)
    ensures var r := Find(s, RS);
            Timed([RS] + s) <==> US in s[..r] && (r == |s| || Timed([RS] + s[r + 1..]))
  {
    hide Find;
    var r := Find(s, RS);
    var route := [RS] + s;
    assert SegmentAt(route, 0) == s[..r] by {
      assert route[1..] == s;
    }
    if r < |s| {
      hide SegmentAt, Timed;
      TimedBehind(s, r);
    } else {
      assert forall i :: 0 < i < |route| ==> route[i] == s[..r][i - 1];
    }
  }

  ghost predicate Always(yes: Call -> bool)
  {
    forall c :: yes(c)
  }

  lemma {:induction false} ForwardDone(source: string, s: string, yes: Call -> bool)
    requires Always(yes)
    ensures Forward(source, s, yes).done <==> Timed([RS] + s)
    decreases |s|
  {
    hide Find, Travel, Timed;
    var r := Find(s, RS);
    var u := Find(s[..r], US);
    TimedStep(s);
    FindNone(s[..r], US);
    ForwardUnfold(source, s, r, u, yes);
    if u < r && r < |s| {
      ForwardDone(s[..u], s[r + 1..], yes);
    }
  }

  // The walk backwards takes any later US for the end of a node.
  lemma {:induction false} BackwardDone(source: string, route: string, end: nat, dest: string, time: nat,
                                        yes: Call -> bool)
    requires Always(yes) && 0 < end <= |route| && route[0] == RS
    ensures FindLast(route[..end], RS) >= 0
    ensures Backward(source, route, end, dest, time, yes).done <==> US in route[FindLast(route[..end], RS)..]
    decreases end
  {
    hide Find, Travel, FindLast, Backward;
    var r := FindLast(route[..end], RS);
    LastThere(route, end);
    FindNone(route[r..], US);
    BackwardAt(source, route, end, dest, time, yes);
    if US in route[r..] && r > 0 {
      var u := r + Find(route[r..], US);
      var node := route[r + 1..u];
      BackwardDone(source, route, r, node, Travel(route[u + 1..]), yes);
      LastThere(route, r);
      FoundBefore(route, FindLast(route[..r], RS), r);
    }
  }

  lemma {:induction false} FoundBefore(route: string, i: nat, r: nat)
    requires i <= r <= |route| && US in route[r..]
    ensures US in route[i..]
  {
    var k :| 0 <= k < |route[r..]| && route[r..][k] == US;
    assert route[i..][r + k - i] == US;
  }

  lemma {:induction false} LastThere(route: string, end: nat)
    requires 0 < end <= |route| && route[0] == RS
    ensures var r := FindLast(route[..end], RS);
            0 <= r < end && route[r] == RS && forall j :: r < j < end ==> route[j] != RS
  {
    var t := route[..end];
    assert t[0] == RS;
    var r := FindLast(t, RS);
    forall j | r < j < end
      ensures route[j] != RS
    {
      assert t[j] != RS;
    }
  }

  lemma {:induction false} TimedLast(route: string)
    requires Timed(route)
    ensures LastTimed(route)
  {
    hide Find, FindLast;
    assert route[..|route|] == route;
    LastThere(route, |route|);
    var r := FindLast(route, RS);
    var t := SegmentAt(route, r);
    var j :| 0 <= j < |t| && t[j] == US;
    assert route[r..][j + 1] == US;
  }

  // With a callback that says yes, ExRoute goes to the end of a route if and only if every node has a
  // time; ExRevRoute if and only if the last has.  So the two disagree on just those routes of which
  // the last node has a time and some other has not.
  lemma {:induction false} DoneIff(source: string, route: string, dest: string, yes: Call -> bool)
    requires Always(yes)
    ensures ExRouteOf(source, route, yes).done <==> Timed(route)
    ensures ExRevRouteOf(source, route, dest, yes).done <==> LastTimed(route)
    ensures Timed(route) ==> LastTimed(route)
  {
    hide Forward, Backward, FindLast, Find, TimedTo;
    if route != [] && route[0] == RS {
      assert route == [RS] + route[1..];
      assert route[..|route|] == route;
      ForwardDone(source, route[1..], yes);
      BackwardDone(source, route, |route|, dest, 0, yes);
    }
    if Timed(route) {
      TimedLast(route);
    }
  }

  // Some call is to a node with the start of another hop in it.
  predicate RunTogether(calls: seq<Call>)
  {
    exists i :: 0 < i < |calls| && RS in calls[i].to
  }

  lemma {:induction false} TogetherStep(call: Call, calls: seq<Call>)
    requires calls != []
    ensures RunTogether([call] + calls) <==> RS in calls[0].to || RunTogether(calls)
  {
    var all := [call] + calls;
    if RunTogether(calls) {
      var i :| 0 < i < |calls| && RS in calls[i].to;
      assert all[i + 1] == calls[i];
    }
    if RunTogether(all) {
      var i :| 0 < i < |all| && RS in all[i].to;
      assert all[i] == calls[i - 1];
    }
    assert all[1] == calls[0];
  }

  // A node runs on into the next hop if and only if it has no time.
  lemma {:induction false} NodeTogether(route: string, r: nat, end: nat)
    requires r < end <= |route| && route[r] == RS && (forall j :: r < j < end ==> route[j] != RS)
    requires end < |route| ==> route[end] == RS
    requires US in route[r..]
    ensures var u := r + Find(route[r..], US);
            r < u < |route| && (RS in route[r + 1..u] <==> US !in SegmentAt(route, r))
  {
    hide Find;
    FindNone(route[r..], US);
    var k := Find(route[r..], US);
    var u := r + k;
    assert route[u] == US && US !in route[r..][..k];
    var t := route[r + 1..];
    var e := end - r - 1;
    FirstRS(t, e);
    var seg := t[..e];
    if u < end {
      assert seg[u - r - 1] == US;
      assert forall j :: r < j < u ==> route[j] != RS;
    } else {
      assert route[r + 1..u][e] == RS;
      forall j | 0 <= j < |seg|
        ensures seg[j] != US
      {
        assert route[r..][..k][j + 1] == seg[j];
      }
    }
  }

  lemma {:induction false} FirstRS(t: string, e: nat)
    requires e <= |t| && (forall j :: 0 <= j < e ==> t[j] != RS) && (e < |t| ==> t[e] == RS)
    ensures Find(t, RS) == e
  {
    if e > 0 {
      FirstRS(t[1..], e - 1);
    }
  }

  lemma {:induction false} TimedSplit(route: string, r: nat, end: nat)
    requires r < end <= |route| && route[r] == RS && (forall j :: r < j < end ==> route[j] != RS)
    ensures TimedTo(route, end) <==> TimedTo(route, r) && US in SegmentAt(route, r)
  {
  }

  lemma {:induction false} Together(source: string, route: string, end: nat, dest: string, time: nat, yes: Call -> bool)
    requires Always(yes) && 0 < end <= |route| && route[0] == RS && (end < |route| ==> route[end] == RS)
    requires FindLast(route[..end], RS) >= 0 && US in route[FindLast(route[..end], RS)..]
    ensures var calls := Backward(source, route, end, dest, time, yes).calls;
            calls != [] && calls[0].to == dest && (RunTogether(calls) <==> !TimedTo(route, end))
    decreases end
  {
    hide Find, Travel, FindLast, RunTogether, TimedTo, Backward, SegmentAt;
    var r := FindLast(route[..end], RS);
    LastThere(route, end);
    NodeTogether(route, r, end);
    TimedSplit(route, r, end);
    BackwardAt(source, route, end, dest, time, yes);
    var u := r + Find(route[r..], US);
    var node, t := route[r + 1..u], Travel(route[u + 1..]);
    if r == 0 {
      TogetherStep(Call(node, time, dest), [Call(source, t, node)]);
      OneAlone(Call(source, t, node));
      assert [Call(node, time, dest)] + [Call(source, t, node)] == [Call(node, time, dest), Call(source, t, node)];
      assert TimedTo(route, 0) by {
        NoneTimed(route);
      }
    } else {
      LastThere(route, r);
      FoundBefore(route, FindLast(route[..r], RS), r);
      Together(source, route, r, node, t, yes);
      TogetherStep(Call(node, time, dest), Backward(source, route, r, node, t, yes).calls);
    }
  }

  lemma {:induction false} OneAlone(c: Call)
    ensures !RunTogether([c])
  {
  }

  lemma {:induction false} NoneTimed(route: string)
    ensures TimedTo(route, 0)
  {
  }

  // Where ExRevRoute goes to the end, it has run a node together with the next hop if and only if
  // ExRoute does not.
  lemma {:induction false} RunTogetherIff(source: string, route: string, dest: string, yes: Call -> bool)
    requires Always(yes) && LastTimed(route)
    ensures RunTogether(ExRevRouteOf(source, route, dest, yes).calls) <==> !ExRouteOf(source, route, yes).done
  {
    hide Forward, Backward, FindLast, Find, RunTogether;
    DoneIff(source, route, dest, yes);
    assert route[..|route|] == route;
    LastThere(route, |route|);
    Together(source, route, |route|, dest, 0, yes);
  }

  // The routes on which every node has its time are the well-formed ones, of which `Mirrored` speaks.
  lemma {:induction false} Parsed(s: string) returns (hops: seq<Hop>)
    requires Timed([RS] + s) && NUL !in s
    ensures hops != [] && WellFormed(hops) && Render(hops) == [RS] + s
    decreases |s|
  {
    hide Find, Timed;
    TimedStep(s);
    var r := Find(s, RS);
    var u := Find(s[..r], US);
    FindNone(s[..r], US);
    var h := Hop(s[..u], s[u + 1..r]);
    CutHop(s, r, u);
    if r == |s| {
      hops := [h];
      assert Render([h]) == [RS] + h.node + [US] + h.time + [];
      assert [RS] + h.node + [US] + h.time + [] == [RS] + (h.node + [US] + h.time);
    } else {
      var more := Parsed(s[r + 1..]);
      hops := [h] + more;
      assert hops[1..] == more;
      RenderStep(hops);
      assert h.node + [US] + h.time + ([RS] + s[r + 1..]) == s;
    }
  }

  lemma {:induction false} CutHop(s: string, r: nat, u: nat)
    requires r == Find(s, RS) && u == Find(s[..r], US) < r && NUL !in s
    ensures Plain(s[..u]) && Timely(s[u + 1..r]) && s[..r] == s[..u] + [US] + s[u + 1..r]
    ensures r < |s| ==> s == s[..r] + ([RS] + s[r + 1..])
  {
    var t := s[..r];
    assert t[..u] == s[..u] && t[u] == US;
    forall i | u + 1 <= i < r
      ensures s[i] != RS
    {
      assert t[i] != RS;
    }
  }

  lemma {:induction false} RenderTimed(hops: seq<Hop>)
    requires WellFormed(hops) && hops != []
    ensures Timed(Render(hops))
    decreases |hops|
  {
    hide Find, Timed, Render;
    var h, more := hops[0], Render(hops[1..]);
    RenderStep(hops);
    var s := h.node + [US] + h.time + more;
    FirstHop(h.node, h.time, more);
    TimedStep(s);
    var r := Find(s, RS);
    assert s[..r][|h.node|] == US;
    if |hops| > 1 {
      RenderTimed(hops[1..]);
      assert [RS] + s[r + 1..] == s[r..];
    }
  }

  // One of those on which the two part: ExRevRoute looks for the first node's time past the second.
  lemma {:induction false} MalformedOverlooked(source: string, a: char, b: char, dest: string, yes: Call -> bool)
    requires Plain([a]) && Plain([b]) && forall c :: yes(c)
    ensures var route := [RS, a, RS, b, US];
            && ExRouteOf(source, route, yes) == Walk([], false)
            && ExRevRouteOf(source, route, dest, yes)
               == Walk([Call([b], 0, dest), Call([a, RS, b], 0, [b]), Call(source, 0, [a, RS, b])], true)
  {
    var route := [RS, a, RS, b, US];
    assert route[1..] == [a] + [RS] + [b, US];
    FindIn([a], RS, [b, US]);
    assert route[1..][..1] == [a];
    FindIn([a], US, []);
    LastIn([RS, a], [b, US]);
    assert route[..5] == [RS, a] + [RS] + [b, US];
    assert route[2..] == [RS, b] + [US] + [];
    FindIn([RS, b], US, []);
    assert route[3..4] == [b] && route[5..] == [];
    LastIn([], [a]);
    assert route[..2] == [] + [RS] + [a];
    assert route[0..] == [RS, a, RS, b] + [US] + [];
    FindIn([RS, a, RS, b], US, []);
    assert route[1..4] == [a, RS, b];
  }

  // ----- The program, on the characters themselves

  // The string that begins at `i`, in an array that ends with a NUL.
  function StringAt(b: seq<char>, i: nat): string
    requires i < |b| && b[|b| - 1] == NUL
    decreases |b| - i
  {
    if b[i] == NUL then [] else [b[i]] + StringAt(b, i + 1)
  }

  lemma {:induction false} StringIs(b: seq<char>, i: nat, j: nat)
    requires i <= j < |b| && b[|b| - 1] == NUL && b[j] == NUL && NUL !in b[i..j]
    ensures StringAt(b, i) == b[i..j]
    decreases j - i
  {
    if i < j {
      assert b[i] == b[i..j][0];
      assert b[i + 1..j] == b[i..j][1..];
      StringIs(b, i + 1, j);
    }
  }

  // `s` in an array, but for NULs put at `cuts`.
  ghost predicate Holds(b: seq<char>, s: string, cuts: set<nat>)
  {
    && |b| == |s| + 1 && NUL !in s
    && forall i :: 0 <= i <= |s| ==> b[i] == if i in cuts || i == |s| then NUL else s[i]
  }

  lemma {:induction false} HeldString(b: seq<char>, s: string, cuts: set<nat>, i: nat, j: nat)
    requires Holds(b, s, cuts) && i <= j <= |s| && (j in cuts || j == |s|) && forall k :: i <= k < j ==> k !in cuts
    ensures StringAt(b, i) == s[i..j]
  {
    assert b[i..j] == s[i..j];
    StringIs(b, i, j);
  }

  // strchr: the place of the first `c` from `i` on, or -1.
  method Strchr(b: array<char>, i: nat, c: char) returns (p: int)
    requires i < b.Length && b[b.Length - 1] == NUL && c != NUL
    ensures var s := StringAt(b[..], i); p == if Find(s, c) < |s| then i + Find(s, c) else -1
  {
    var k := i;
    while b[k] != NUL
      invariant i <= k < b.Length
      invariant var s, t := StringAt(b[..], i), StringAt(b[..], k);
                |s| - |t| == k - i && Find(s, c) == k - i + Find(t, c)
      decreases b.Length - k
    {
      if b[k] == c {
        return k;
      }
      k := k + 1;
    }
    return -1;
  }

  // strrchr: the place of the last `c`, or -1.
  method Strrchr(b: array<char>, c: char, ghost s: string) returns (p: int)
    requires c != NUL && |s| < b.Length && b[..|s|] == s && b[|s|] == NUL && NUL !in s
    ensures p == FindLast(s, c)
  {
    p := -1;
    var k := 0;
    while b[k] != NUL
      invariant 0 <= k <= |s| && p == FindLast(s[..k], c)
      decreases b.Length - k
    {
      assert s[..k + 1][..k] == s[..k];
      if b[k] == c {
        p := k;
      }
      k := k + 1;
    }
    assert s[..k] == s;
  }

  // newstr, or a string handed to the callback.
  method Copy(b: array<char>, i: nat) returns (s: string)
    requires i < b.Length && b[b.Length - 1] == NUL
    ensures s == StringAt(b[..], i)
  {
    s := [];
    var k := i;
    while b[k] != NUL
      invariant i <= k < b.Length && StringAt(b[..], i) == s + StringAt(b[..], k)
      decreases b.Length - k
    {
      s := s + [b[k]];
      k := k + 1;
    }
  }

  // Put a NUL into the route, or the character that was there.
  method Cut(b: array<char>, at: nat, ghost s: string, ghost cuts: set<nat>)
    requires Holds(b[..], s, cuts) && at < |s|
    modifies b
    ensures Holds(b[..], s, cuts + {at})
  {
    b[at] := NUL;
  }

  method Mend(b: array<char>, at: nat, c: char, ghost s: string, ghost cuts: set<nat>)
    requires Holds(b[..], s, cuts) && at < |s| && s[at] == c
    modifies b
    ensures Holds(b[..], s, cuts - {at})
  {
    b[at] := c;
  }

  // Where the hop at `route` ends, and where its time begins.
  ghost function HopEnd(s: string, route: nat): nat
    requires route <= |s|
  {
    route + Find(s[route..], RS)
  }

  ghost function TimeAt(s: string, route: nat): nat
    requires route <= |s|
  {
    route + Find(s[route..HopEnd(s, route)], US)
  }

  lemma {:induction false} HoldsEnd(b: seq<char>, s: string, cuts: set<nat>)
    requires Holds(b, s, cuts)
    ensures |b| == |s| + 1 && b[|s|] == NUL
  {
  }

  // The cuts that part the hop at `route` from what follows, and its node from its time.
  ghost function EndCut(s: string, route: nat): set<nat>
    requires route <= |s|
  {
    if HopEnd(s, route) < |s| then {HopEnd(s, route)} else {}
  }

  ghost function TimeCut(s: string, route: nat): set<nat>
    requires route <= |s|
  {
    if TimeAt(s, route) < HopEnd(s, route) then {TimeAt(s, route)} else {}
  }

  method CutEnd(b: array<char>, route: nat, ghost s: string, ghost cuts: set<nat>) returns (nr: int)
    requires Holds(b[..], s, cuts) && route <= |s| && forall k :: k in cuts ==> k < route
    modifies b
    ensures nr == (if HopEnd(s, route) < |s| then HopEnd(s, route) else -1)
    ensures Holds(b[..], s, cuts + EndCut(s, route))
  {
    hide Holds, Find;
    HoldsEnd(b[..], s, cuts);
    HeldString(b[..], s, cuts, route, |s|);
    assert s[route..|s|] == s[route..];
    nr := Strchr(b, route, RS);
    if nr >= 0 {
      Cut(b, nr, s, cuts);
    } else {
      assert cuts + {} == cuts;
    }
  }

  method CutTime(b: array<char>, route: nat, ghost s: string, ghost cuts: set<nat>) returns (tp: int)
    requires route <= |s| && Holds(b[..], s, cuts + EndCut(s, route)) && forall k :: k in cuts ==> k < route
    modifies b
    ensures tp == (if TimeAt(s, route) < HopEnd(s, route) then TimeAt(s, route) else -1)
    ensures Holds(b[..], s, cuts + EndCut(s, route) + TimeCut(s, route))
  {
    hide Holds, Find;
    ghost var now := cuts + EndCut(s, route);
    HoldsEnd(b[..], s, now);
    HeldString(b[..], s, now, route, HopEnd(s, route));
    tp := Strchr(b, route, US);
    if tp >= 0 {
      Cut(b, tp, s, now);
    } else {
      assert now + {} == now;
    }
  }

  lemma {:induction false} HopPlaces(s: string, route: nat)
    requires route <= |s|
    ensures route <= TimeAt(s, route) <= HopEnd(s, route) <= |s|
    ensures HopEnd(s, route) < |s| ==> s[HopEnd(s, route)] == RS
    ensures TimeAt(s, route) < HopEnd(s, route) ==> s[TimeAt(s, route)] == US
  {
  }

  lemma {:induction false} ForwardUnfold(source: string, t: string, r: nat, u: nat, yes: Call -> bool)
    requires r == Find(t, RS) && u == Find(t[..r], US)
    ensures var call := if u < r then Call(source, Travel(t[u + 1..r]), t[..u]) else Call([], 0, []);
            Forward(source, t, yes) ==
            if u == r then Walk([], false)
            else if !yes(call) then Walk([call], false)
            else if r == |t| then Walk([call], true)
            else Forward(t[..u], t[r + 1..], yes).(calls := [call] + Forward(t[..u], t[r + 1..], yes).calls)
  {
    hide Find, Travel;
  }

  // A turn of the forward walk, by places in the whole route.
  lemma {:induction false} ForwardAt(source: string, s: string, route: nat, yes: Call -> bool)
    requires route <= |s|
    ensures var end, time := HopEnd(s, route), TimeAt(s, route);
            && route <= time <= end <= |s|
            && Forward(source, s[route..], yes) ==
               if time == end then Walk([], false)
               else
                 var call := Call(source, Travel(s[time + 1..end]), s[route..time]);
                 if !yes(call) then Walk([call], false)
                 else if end == |s| then Walk([call], true)
                 else
                   var w := Forward(s[route..time], s[end + 1..], yes);
                   w.(calls := [call] + w.calls)
  {
    hide Find, Travel, Forward;
    var t := s[route..];
    var end, time := HopEnd(s, route), TimeAt(s, route);
    var r, u := end - route, time - route;
    assert t[..r] == s[route..end];
    ForwardUnfold(source, t, r, u, yes);
    if time < end {
      assert t[u + 1..r] == s[time + 1..end] && t[..u] == s[route..time];
    }
    if end < |s| {
      assert t[r + 1..] == s[end + 1..];
    }
  }

  // The strings that the cuts make for the callback.
  method TupleAt(b: array<char>, source: string, at: int, route: nat, tp: nat, ghost s: string, ghost cuts: set<nat>,
                 ghost se: nat)
    returns (call: Call)
    requires route <= |s| && Holds(b[..], s, cuts) && tp == TimeAt(s, route) < HopEnd(s, route)
    requires cuts == (if at >= 0 then {se} else {}) + EndCut(s, route) + TimeCut(s, route)
    requires at >= 0 ==> at <= se < route
    ensures call == Call(if at >= 0 then s[at..se] else source, Travel(s[tp + 1..HopEnd(s, route)]), s[route..tp])
  {
    hide Holds, Find, Number;
    HopPlaces(s, route);
    HoldsEnd(b[..], s, cuts);
    HeldString(b[..], s, cuts, tp + 1, HopEnd(s, route));
    HeldString(b[..], s, cuts, route, tp);
    var time := Copy(b, tp + 1);
    var to := Copy(b, route);
    var from := source;
    if at >= 0 {
      HeldString(b[..], s, cuts, at, se);
      from := Copy(b, at);
    }
    return Call(from, Travel(time), to);
  }

  // Take the cuts of a hop away.
  method Restore(b: array<char>, se: int, tp: int, nr: int, ghost s: string, ghost cuts: set<nat>)
    requires Holds(b[..], s, cuts)
    requires cuts == (if se >= 0 then {se} else {}) + (if tp >= 0 then {tp} else {}) + (if nr >= 0 then {nr} else {})
    requires (0 <= se ==> se < |s| && s[se] == US) && (0 <= tp ==> tp < |s| && s[tp] == US)
             && (0 <= nr ==> nr < |s| && s[nr] == RS)
    modifies b
    ensures Holds(b[..], s, {})
  {
    hide Holds;
    ghost var now := cuts;
    if se >= 0 {
      Mend(b, se, US, s, now);
      now := now - {se as nat};
    }
    if tp >= 0 {
      Mend(b, tp, US, s, now);
      now := now - {tp as nat};
    }
    if nr >= 0 {
      Mend(b, nr, RS, s, now);
      now := now - {nr as nat};
    }
    assert now == {};
  }

  // How a turn of the walk ends: the route is malformed, the callback says no, the route is done, or
  // there is another hop.
  datatype Turn = Malformed | Refused | Finished | Another(nr: nat, tp: nat)

  // `from` is the source, or the node before the hop at `route`, with its end cut.
  ghost predicate Behind(source: string, at: int, se: int, route: nat, s: string, from: string)
    requires route <= |s|
  {
    if at < 0 then se < 0 && from == source else at <= se < route && s[se] == US && from == s[at..se]
  }

  // One turn of ExRoute's loop.
  method ForwardTurn(b: array<char>, source: string, at: int, se: int, route: nat, yes: Call -> bool,
                     ghost s: string, ghost cuts: set<nat>, ghost from: string) returns (turn: Turn, call: Call)
    requires route <= |s| && cuts == (if se >= 0 then {se as nat} else {}) && Holds(b[..], s, cuts)
    requires Behind(source, at, se, route, s, from)
    modifies b
    ensures turn.Another? ==> route <= turn.tp < turn.nr < |s| && s[turn.tp] == US && Holds(b[..], s, {turn.tp})
    ensures !turn.Another? ==> Holds(b[..], s, {})
    ensures var w := Forward(from, s[route..], yes);
            match turn
            case Malformed => w == Walk([], false)
            case Refused => w == Walk([call], false)
            case Finished => w == Walk([call], true)
            case Another(nr, tp) =>
              var v := Forward(s[route..tp], s[nr + 1..], yes); w == v.(calls := [call] + v.calls)
  {
    hide Holds, Find, Forward, Number;
    ForwardAt(from, s, route, yes);
    HopPlaces(s, route);
    var nr := CutEnd(b, route, s, cuts);
    var tp := CutTime(b, route, s, cuts);
    ghost var all := cuts + EndCut(s, route) + TimeCut(s, route);
    call := Call([], 0, []);
    if tp < 0 {
      Restore(b, se, tp, nr, s, all);
      return Malformed, call;
    }
    call := TupleAt(b, source, at, route, tp, s, all, if at >= 0 then se else 0);
    if !yes(call) {
      Restore(b, se, tp, nr, s, all);
      return Refused, call;
    }
    if nr < 0 {
      Restore(b, se, tp, nr, s, all);
      return Finished, call;
    }
    if se >= 0 {
      Mend(b, se, US, s, all);
      all := all - {se as nat};
    }
    Mend(b, nr, RS, s, all);
    assert all - {nr as nat} == {tp as nat};
    return Another(nr, tp), call;
  }

  // The loop of ExRoute.
  method ForwardLoop(b: array<char>, source: string, yes: Call -> bool, ghost s: string)
      returns (calls: seq<Call>, done: bool)
    requires s != [] && Holds(b[..], s, {})
    modifies b
    ensures Walk(calls, done) == Forward(source, s[1..], yes) && Holds(b[..], s, {})
  {
    hide Holds, Forward;
    calls := [];
    var route: nat := 1;
    var at: int, se: int := -1, -1;
    ghost var from := source;
    ghost var cuts: set<nat> := {};
    ghost var all := Forward(source, s[1..], yes);
    ghost var rest := all;
    More0(all.calls);
    while true
      invariant route <= |s| && Holds(b[..], s, cuts) && cuts == if se >= 0 then {se as nat} else {}
      invariant Behind(source, at, se, route, s, from)
      invariant rest == Forward(from, s[route..], yes) && all == Walk(calls + rest.calls, rest.done)
      decreases |s| - route
    {
      var turn, call := ForwardTurn(b, source, at, se, route, yes, s, cuts, from);
      match turn {
        case Another(nr, tp) =>
          rest := Forward(s[route..tp], s[nr + 1..], yes);
          More(calls, call, rest.calls);
          calls := calls + [call];
          from, cuts := s[route..tp], {tp};
          at, se, route := route, tp, nr + 1;
        case Malformed =>
          More0(calls);
          return calls, false;
        case _ =>
          return calls + [call], turn == Finished;
      }
    }
  }

  // Walk a route in place, cutting it up for the callback; it is left as it was found.
  method ExRoute(source: string, b: array<char>, yes: Call -> bool, ghost s: string)
      returns (calls: seq<Call>, done: bool)
    requires Holds(b[..], s, {})
    modifies b
    ensures Walk(calls, done) == ExRouteOf(source, s, yes)
    ensures b[..] == old(b[..])
  {
    HoldsEnd(b[..], s, {});
    HoldsFirst(b[..], s);
    if b[0] != RS {
      return [], false;
    }
    hide Holds, Forward;
    calls, done := ForwardLoop(b, source, yes, s);
    Same(b[..], old(b[..]), s);
  }

  lemma {:induction false} More0(x: seq<Call>)
    ensures [] + x == x && x + [] == x
  {
  }

  lemma {:induction false} More(x: seq<Call>, c: Call, y: seq<Call>)
    ensures x + ([c] + y) == x + [c] + y
  {
  }

  lemma {:induction false} HoldsFirst(b: seq<char>, s: string)
    requires Holds(b, s, {})
    ensures b[0] == RS <==> s != [] && s[0] == RS
  {
  }

  lemma {:induction false} Same(b: seq<char>, c: seq<char>, s: string)
    requires Holds(b, s, {}) && Holds(c, s, {})
    ensures b == c
  {
  }

  // The last node before `end` (the string is cut there), and the place of the time behind it.
  method LastNode(b: array<char>, end: nat, ghost s: string) returns (nr: int, tp: int)
    requires end <= |s| && Holds(b[..], s, {end}) && (end < |s| ==> s[end] == RS)
    modifies b
    ensures Holds(b[..], s, {}) && nr == FindLast(s[..end], RS)
    ensures nr >= 0 ==> var u := nr + Find(s[nr..], US); tp == if u < |s| then u else -1
  {
    hide Find, FindLast;
    tp := -1;
    assert b[..end] == s[..end];
    assert NUL !in s[..end];
    nr := Strrchr(b, RS, s[..end]);
    if end < b.Length - 1 {
      b[end] := RS;
    }
    if nr >= 0 {
      HeldString(b[..], s, {}, nr, |s|);
      assert s[nr..|s|] == s[nr..];
      tp := Strchr(b, nr, US);
    }
  }

  // A turn of the backward walk.
  lemma {:induction false} BackwardAt(source: string, s: string, end: nat, dest: string, time: nat, yes: Call -> bool)
    requires end <= |s|
    ensures var r := FindLast(s[..end], RS);
            Backward(source, s, end, dest, time, yes) ==
            if r < 0 || r + Find(s[r..], US) == |s| then Walk([], false)
            else
              var u := r + Find(s[r..], US);
              var call := Call(s[r + 1..u], time, dest);
              var t := Travel(s[u + 1..]);
              var last := Call(source, t, s[r + 1..u]);
              if !yes(call) then Walk([call], false)
              else if r == 0 then Walk([call, last], yes(last))
              else
                var w := Backward(source, s, r, s[r + 1..u], t, yes);
                w.(calls := [call] + w.calls)
  {
    hide Travel;
  }

  // How a turn of the backward walk ends; `made` is what it called back with.
  datatype BackTurn = Ended(made: seq<Call>, done: bool) | Earlier(made: seq<Call>, nr: nat, node: string, time: nat)

  method BackwardTurn(b: array<char>, source: string, end: nat, dest: string, time: nat, yes: Call -> bool,
                      ghost s: string)
    returns (turn: BackTurn)
    requires end <= |s| && Holds(b[..], s, {end}) && (end < |s| ==> s[end] == RS)
    modifies b
    ensures turn.Ended? ==> Holds(b[..], s, {})
    ensures turn.Earlier? ==> turn.nr < end && s[turn.nr] == RS && Holds(b[..], s, {turn.nr})
    ensures var all := Backward(source, s, end, dest, time, yes);
            if turn.Ended? then all == Walk(turn.made, turn.done)
            else
              var rest := Backward(source, s, turn.nr, turn.node, turn.time, yes);
              all == Walk(turn.made + rest.calls, rest.done)
  {
    hide Find, FindLast, Backward, Number, Holds;
    BackwardAt(source, s, end, dest, time, yes);
    var nr, tp := LastNode(b, end, s);
    if nr < 0 || tp < 0 {
      return Ended([], false);
    }
    HoldsEnd(b[..], s, {});
    assert b[nr + 1..tp] == s[nr + 1..tp] by {
      Uncut(b[..], s, nr + 1, tp);
    }
    var node := b[nr + 1..tp];
    var call := Call(node, time, dest);
    if !yes(call) {
      return Ended([call], false);
    }
    HeldString(b[..], s, {}, tp + 1, |s|);
    assert s[tp + 1..|s|] == s[tp + 1..];
    var left := Copy(b, tp + 1);
    var last := Call(source, Travel(left), node);
    if nr == 0 {
      return Ended([call, last], yes(last));
    }
    Cut(b, nr, s, {});
    assert {} + {nr as nat} == {nr as nat};
    return Earlier([call], nr, node, Travel(left));
  }

  lemma {:induction false} Uncut(b: seq<char>, s: string, i: nat, j: nat)
    requires Holds(b, s, {}) && i <= j <= |s|
    ensures b[i..j] == s[i..j]
  {
  }

  lemma {:induction false} FromEnd(b: seq<char>, s: string)
    requires Holds(b, s, {})
    ensures Holds(b, s, {|s|})
  {
  }

  // Walk a route in place from its end, cutting it off behind the node; it is left as it was found.
  method ExRevRoute(source: string, b: array<char>, dest: string, yes: Call -> bool, ghost s: string)
    returns (calls: seq<Call>, done: bool)
    requires Holds(b[..], s, {})
    modifies b
    ensures Walk(calls, done) == ExRevRouteOf(source, s, dest, yes)
    ensures b[..] == old(b[..])
  {
    HoldsEnd(b[..], s, {});
    HoldsFirst(b[..], s);
    FromEnd(b[..], s);
    calls := [];
    if b[0] != RS {
      return calls, false;
    }
    hide Holds, Backward;
    ghost var all := Backward(source, s, |s|, dest, 0, yes);
    var end: nat, to, time: nat := b.Length - 1, dest, 0;
    ghost var rest := all;
    More0(all.calls);
    while true
      invariant end <= |s| && Holds(b[..], s, {end}) && (end < |s| ==> s[end] == RS)
      invariant rest == Backward(source, s, end, to, time, yes) && all == Walk(calls + rest.calls, rest.done)
      decreases end
    {
      var turn := BackwardTurn(b, source, end, to, time, yes, s);
      if turn.Ended? {
        Same(b[..], old(b[..]), s);
        return calls + turn.made, turn.done;
      }
      rest := Backward(source, s, turn.nr, turn.node, turn.time, yes);
      Assoc(calls, turn.made, rest.calls);
      calls := calls + turn.made;
      end, to, time := turn.nr, turn.node, turn.time;
    }
  }
}
