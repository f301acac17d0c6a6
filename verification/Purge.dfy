/** The index of files that are referred to, and what is purged for want of a reference
    (Control/purge.c). */
module Purge {
  import opened Powers

  // Characters as C has them, signed or not.
  type Code = x: int | -128 <= x < 256 && x != 0 witness 1
  type Name = seq<Code>

  const WORKNAMELEN := 14
  const HASH_SIZE := 127
  const USHORT := 0x1_0000

  // ----- Comparing names: by length, then from the last character back

  function CompareBack(a: Name, b: Name, n: nat): int
    requires n <= |a| && n <= |b|
  {
    if n == 0 then 0
    else if a[n - 1] != b[n - 1] then a[n - 1] as int - b[n - 1] as int
    else CompareBack(a, b, n - 1)
  }

  function Compare(a: Name, b: Name): int
  {
    if |a| != |b| then |a| - |b| else CompareBack(a, b, |a|)
  }

  lemma {:induction false} BackZero(a: Name, b: Name, n: nat)
    requires n <= |a| && n <= |b|
    ensures CompareBack(a, b, n) == 0 <==> a[..n] == b[..n]
  {
    if n > 0 {
      BackZero(a, b, n - 1);
      assert a[..n] == a[..n - 1] + [a[n - 1]] && b[..n] == b[..n - 1] + [b[n - 1]];
    }
  }

  lemma {:induction false} CompareZero(a: Name, b: Name)
    ensures Compare(a, b) == 0 <==> a == b
  {
    if |a| == |b| {
      BackZero(a, b, |a|);
      assert a[..|a|] == a && b[..|b|] == b;
    }
  }

  method CompareNames(a: Name, b: Name) returns (c: int)
    ensures c == Compare(a, b)
  {
    c := |a| - |b|;
    if c != 0 {
      return;
    }
    var n := |a|;
    while n > 0
      invariant 0 <= n <= |a| == |b| && c == 0 && CompareBack(a, b, |a|) == CompareBack(a, b, n)
    {
      n := n - 1;
      c := a[n] as int - b[n] as int;
      if c != 0 {
        return;
      }
    }
  }

  // ----- Hashing

  // hash = 2 * hash + c for each character, in an int.
  function Sum(name: Name): int
  {
    if name == [] then 0 else 2 * Sum(name[..|name| - 1]) + name[|name| - 1] as int
  }

  lemma {:induction false} SumBound(name: Name)
    ensures -256 * (Power(|name|) - 1) <= Sum(name) <= 256 * (Power(|name|) - 1)
  {
    if name != [] {
      SumBound(name[..|name| - 1]);
    }
  }

  function Hash(name: Name): (h: nat)
    ensures h < HASH_SIZE
  {
    (if Sum(name) < 0 then -Sum(name) else Sum(name)) % HASH_SIZE
  }

  // For a file name nothing overflows, whatever its characters.
  lemma {:induction false} NoOverflow(name: Name)
    requires |name| <= WORKNAMELEN
    ensures -0x8000_0000 < Sum(name) < 0x8000_0000
  {
    SumBound(name);
    PowerUp(|name|, WORKNAMELEN);
    assert Power(4) == 16 && Power(8) == 256 && Power(12) == 4096 && Power(14) == 16384;
  }

  lemma {:induction false} PowerUp(n: nat, m: nat)
    requires n <= m
    ensures Power(n) <= Power(m)
  {
    if n < m {
      PowerUp(n, m - 1);
    }
  }

  // A value as an int of 32 bits holds it.
  function Word(x: int): (w: int)
    ensures -0x8000_0000 <= w < 0x8000_0000 && (w - x) % 0x1_0000_0000 == 0
  {
    (x + 0x8000_0000) % 0x1_0000_0000 - 0x8000_0000
  }

  // Division in C goes towards zero.
  function Remainder(x: int, n: nat): int
    requires n > 0
  {
    if x < 0 then -(-x % n) else x % n
  }

  // What the program computes, for a name of any length.
  function WordHash(name: Name): int
  {
    var h := Word(Sum(name));
    Remainder(if h < 0 then Word(-h) else h, HASH_SIZE)
  }

  lemma {:induction false} SameWord(x: int, y: int)
    requires (x - y) % 0x1_0000_0000 == 0
    ensures Word(x) == Word(y)
  {
  }

  // The one sum that stays negative when its sign is changed hashes to an index below the table.
  lemma {:induction false} InTableIff(name: Name)
    ensures 0 <= WordHash(name) < HASH_SIZE <==> Sum(name) % 0x1_0000_0000 != 0x8000_0000
    ensures Sum(name) % 0x1_0000_0000 == 0x8000_0000 ==> WordHash(name) == -8
  {
  }

  lemma {:induction false} FileHash(name: Name)
    requires |name| <= WORKNAMELEN
    ensures WordHash(name) == Hash(name)
  {
    NoOverflow(name);
  }

  // 127, and `n` times 1.
  function Ones(n: nat): Name
  {
    if n == 0 then [127] else Ones(n - 1) + [1]
  }

  lemma {:induction false} SumMore(name: Name, c: Code)
    ensures Sum(name + [c]) == 2 * Sum(name) + c as int
  {
    assert (name + [c])[..|name|] == name;
  }

  lemma {:induction false} SumOnes(n: nat)
    ensures Sum(Ones(n)) == 128 * Power(n) - 1
  {
    hide Sum;
    if n == 0 {
      SumOne(127);
    } else {
      SumOnes(n - 1);
      SumMore(Ones(n - 1), 1);
    }
  }

  lemma {:induction false} SumOne(c: Code)
    ensures Sum([c]) == c as int
  {
    SumMore([], c);
    assert [] + [c] == [c];
  }

  // A directory's name of 25 characters that has that sum: 127, 23 times 1, and 2.
  lemma {:induction false} BelowTable()
    ensures WordHash(Ones(23) + [2]) == -8
  {
    hide Sum, Ones;
    SumOnes(23);
    SumMore(Ones(23), 2);
    assert Power(4) == 16 && Power(8) == 256 && Power(12) == 4096 && Power(16) == 65536 && Power(20) == 1048576;
    assert Power(23) == 8388608;
    InTableIff(Ones(23) + [2]);
  }

  method HashName(name: Name) returns (h: int)
    ensures h == WordHash(name)
    ensures |name| <= WORKNAMELEN ==> h == Hash(name)
  {
    var hash := 0;
    var i := 0;
    while i < |name|
      invariant 0 <= i <= |name| && hash == Word(Sum(name[..i]))
    {
      SameWord(2 * hash, 2 * Sum(name[..i]));
      SameWord(Word(hash + hash) + name[i] as int, 2 * Sum(name[..i]) + name[i] as int);
      hash := Word(hash + hash);
      hash := Word(hash + name[i] as int);
      assert name[..i + 1][..i] == name[..i];
      i := i + 1;
    }
    assert name[..i] == name;
    if |name| <= WORKNAMELEN {
      FileHash(name);
    }
    if hash < 0 {
      hash := Word(-hash);
    }
    h := Remainder(hash, HASH_SIZE);
  }

  // ----- Trees.  Nodes live in a sequence; a branch is a place in it, or -1.  `refs` is an unsigned
  // short.

  datatype Node = Node(name: Name, refs: nat, great: int, less: int)

  predicate Branch(nodes: seq<Node>, above: int, at: int)
  {
    at == -1 || above < at < |nodes|
  }

  predicate Linked(nodes: seq<Node>)
  {
    forall i :: 0 <= i < |nodes| ==> Branch(nodes, i, nodes[i].great) && Branch(nodes, i, nodes[i].less)
  }

  function Next(node: Node, name: Name): int
  {
    if Compare(name, node.name) > 0 then node.great else node.less
  }

  // The place of a name in the tree at `at`, or -1.
  function Find(nodes: seq<Node>, at: int, name: Name): (i: int)
    requires Linked(nodes) && -1 <= at < |nodes|
    ensures -1 <= i < |nodes| && (i >= 0 ==> nodes[i].name == name)
    decreases if at < 0 then 0 else |nodes| - at
  {
    if at < 0 then -1
    else if nodes[at].name == name then at
    else Find(nodes, Next(nodes[at], name), name)
  }

  // Where a search for a name that is not there ends.
  function End(nodes: seq<Node>, at: int, name: Name): (i: int)
    requires Linked(nodes) && 0 <= at < |nodes| && Find(nodes, at, name) == -1
    ensures at <= i < |nodes| && Next(nodes[i], name) == -1 && nodes[i].name != name
    decreases |nodes| - at
  {
    var next := Next(nodes[at], name);
    if next < 0 then at else End(nodes, next, name)
  }

  // A new leaf below node `k`, on the side of its name.
  function Grown(nodes: seq<Node>, k: nat, name: Name): seq<Node>
    requires k < |nodes|
  {
    var node := if Compare(name, nodes[k].name) > 0 then nodes[k].(great := |nodes|) else nodes[k].(less := |nodes|);
    nodes[k := node] + [Node(name, 1, -1, -1)]
  }

  lemma {:induction false} GrownLinked(nodes: seq<Node>, k: nat, name: Name)
    requires Linked(nodes) && k < |nodes| && Next(nodes[k], name) == -1
    ensures Linked(Grown(nodes, k, name))
  {
    hide Compare;
    var m := Grown(nodes, k, name);
    forall i | 0 <= i < |m|
      ensures Branch(m, i, m[i].great) && Branch(m, i, m[i].less)
    {
      if i < |nodes| {
        assert Branch(nodes, i, nodes[i].great) && Branch(nodes, i, nodes[i].less);
      }
    }
  }

  // Other names are where they were, in whatever tree ...
  lemma {:induction false} GrownOthers(nodes: seq<Node>, k: nat, name: Name, at: int, other: Name)
    requires Linked(nodes) && k < |nodes| && Next(nodes[k], name) == -1 && -1 <= at < |nodes| && other != name
    ensures Linked(Grown(nodes, k, name))
    ensures Find(Grown(nodes, k, name), at, other) == Find(nodes, at, other)
    decreases if at < 0 then 0 else |nodes| - at
  {
    hide Compare;
    GrownLinked(nodes, k, name);
    var m := Grown(nodes, k, name);
    if at >= 0 && nodes[at].name != other {
      var next := Next(nodes[at], other);
      if at == k && Next(m[at], other) != next {
        assert Find(m, |nodes|, other) == -1 by {
          LeafOnly(m, |nodes|, other);
        }
      } else {
        GrownOthers(nodes, k, name, next, other);
      }
    }
  }

  lemma {:induction false} LeafOnly(nodes: seq<Node>, at: nat, name: Name)
    requires Linked(nodes) && at < |nodes| && nodes[at].great == nodes[at].less == -1 && nodes[at].name != name
    ensures Find(nodes, at, name) == -1
  {
  }

  // ... and the new one is found where its search had ended.
  lemma {:induction false} GrownFinds(nodes: seq<Node>, at: nat, name: Name)
    requires Linked(nodes) && at < |nodes| && Find(nodes, at, name) == -1
    ensures var m := Grown(nodes, End(nodes, at, name), name); Linked(m) && Find(m, at, name) == |nodes|
    decreases |nodes| - at
  {
    hide Compare;
    var k := End(nodes, at, name);
    GrownLinked(nodes, k, name);
    if at != k {
      GrownFinds(nodes, Next(nodes[at], name), name);
    }
  }

  // One more reference, in sixteen bits.
  function Bumped(refs: nat): nat
  {
    if refs + 1 < USHORT then refs + 1 else 0
  }

  lemma {:induction false} CountedFinds(nodes: seq<Node>, k: nat, at: int, name: Name)
    requires Linked(nodes) && k < |nodes| && -1 <= at < |nodes|
    ensures var m := nodes[k := nodes[k].(refs := Bumped(nodes[k].refs))];
            Linked(m) && Find(m, at, name) == Find(nodes, at, name)
    decreases if at < 0 then 0 else |nodes| - at
  {
    hide Compare;
    var m := nodes[k := nodes[k].(refs := Bumped(nodes[k].refs))];
    forall i | 0 <= i < |m|
      ensures Branch(m, i, m[i].great) && Branch(m, i, m[i].less)
    {
      assert Branch(nodes, i, nodes[i].great) && Branch(nodes, i, nodes[i].less);
    }
    if at >= 0 && nodes[at].name != name {
      CountedFinds(nodes, k, Next(nodes[at], name), name);
    }
  }

  // ----- A table of references

  datatype Index = Index(nodes: seq<Node>, heads: seq<int>)

  predicate Valid(x: Index)
  {
    Linked(x.nodes) && |x.heads| == HASH_SIZE && forall h :: 0 <= h < HASH_SIZE ==> -1 <= x.heads[h] < |x.nodes|
  }

  // What the table says of a name: its count of references, or -1 for a name it does not have.
  function Refs(x: Index, name: Name): int
    requires Valid(x)
  {
    var i := Find(x.nodes, x.heads[Hash(name)], name);
    if i < 0 then -1 else x.nodes[i].refs
  }

  function Entered(x: Index, name: Name): Index
    requires Valid(x)
  {
    var h := Hash(name);
    var i := Find(x.nodes, x.heads[h], name);
    if i >= 0 then x.(nodes := x.nodes[i := x.nodes[i].(refs := Bumped(x.nodes[i].refs))])
    else if x.heads[h] < 0 then Index(x.nodes + [Node(name, 1, -1, -1)], x.heads[h := |x.nodes|])
    else x.(nodes := Grown(x.nodes, End(x.nodes, x.heads[h], name), name))
  }

  lemma {:induction false} RootedFinds(nodes: seq<Node>, name: Name, at: int, other: Name)
    requires Linked(nodes) && -1 <= at < |nodes|
    ensures var m := nodes + [Node(name, 1, -1, -1)]; Linked(m) && Find(m, at, other) == Find(nodes, at, other)
    decreases if at < 0 then 0 else |nodes| - at
  {
    hide Compare;
    var m := nodes + [Node(name, 1, -1, -1)];
    forall i | 0 <= i < |m|
      ensures Branch(m, i, m[i].great) && Branch(m, i, m[i].less)
    {
      if i < |nodes| {
        assert Branch(nodes, i, nodes[i].great) && Branch(nodes, i, nodes[i].less);
      }
    }
    if at >= 0 && nodes[at].name != other {
      RootedFinds(nodes, name, Next(nodes[at], other), other);
    }
  }

  lemma {:induction false} CountRefs(x: Index, name: Name, other: Name)
    requires Valid(x) && Refs(x, name) >= 0
    ensures Valid(Entered(x, name))
    ensures Refs(Entered(x, name), other) == if other != name then Refs(x, other) else Bumped(Refs(x, name))
  {
    hide Hash, Compare, Find;
    var i := Find(x.nodes, x.heads[Hash(name)], name);
    CountedFinds(x.nodes, i, x.heads[Hash(other)], other);
  }

  lemma {:induction false} RootRefs(x: Index, name: Name, other: Name)
    requires Valid(x) && x.heads[Hash(name)] < 0
    ensures Valid(Entered(x, name)) && Refs(x, name) == -1
    ensures Refs(Entered(x, name), other) == if other != name then Refs(x, other) else 1
  {
    hide Hash, Compare;
    var at := x.heads[Hash(other)];
    RootedFinds(x.nodes, name, at, other);
    var m := x.nodes + [Node(name, 1, -1, -1)];
    if other != name && Hash(other) == Hash(name) {
      LeafOnly(m, |x.nodes|, other);
    }
  }

  lemma {:induction false} LeafRefs(x: Index, name: Name, other: Name)
    requires Valid(x) && x.heads[Hash(name)] >= 0 && Refs(x, name) < 0
    ensures Valid(Entered(x, name))
    ensures Refs(Entered(x, name), other) == if other != name then Refs(x, other) else 1
  {
    hide Hash, Compare, Find, End, Linked;
    var at := x.heads[Hash(name)];
    var k := End(x.nodes, at, name);
    GrownLinked(x.nodes, k, name);
    if other == name {
      GrownFinds(x.nodes, at, name);
    } else {
      GrownOthers(x.nodes, k, name, x.heads[Hash(other)], other);
    }
  }

  // Entering a name counts one reference to it, whatever the hash and the shape of the trees, and
  // touches no other name.
  lemma {:induction false} EnteredRefs(x: Index, name: Name, other: Name)
    requires Valid(x)
    ensures Valid(Entered(x, name))
    ensures Refs(Entered(x, name), other) ==
            if other != name then Refs(x, other) else if Refs(x, name) < 0 then 1 else Bumped(Refs(x, name))
  {
    hide Entered, Refs;
    if RefsFound(x, name) {
      CountRefs(x, name, other);
    } else if x.heads[Hash(name)] < 0 {
      RootRefs(x, name, other);
    } else {
      LeafRefs(x, name, other);
    }
  }

  predicate RefsFound(x: Index, name: Name)
    requires Valid(x)
  {
    Refs(x, name) >= 0
  }

  // ----- The program's table

  class Table {
    var nodes: seq<Node>
    var heads: seq<int>

    function Now(): Index
      reads this
    {
      Index(nodes, heads)
    }

    constructor ()
      ensures Now() == Empty() && Valid(Empty())
    {
      nodes := [];
      heads := seq(HASH_SIZE, _ => -1);
    }
  }

  // Find a name, if its hash is in the table.
  method Lookup(t: Table, name: Name) returns (i: int)
    requires Valid(t.Now()) && (name != [] ==> 0 <= WordHash(name) < HASH_SIZE)
    ensures name == [] ==> i == -1
    ensures name != [] ==> i == Find(t.nodes, t.heads[WordHash(name)], name)
  {
    if name == [] {
      return -1;
    }
    var h := HashName(name);
    i := t.heads[h];
    while i >= 0
      invariant -1 <= i < |t.nodes| && Find(t.nodes, i, name) == Find(t.nodes, t.heads[h], name)
      decreases if i < 0 then 0 else |t.nodes| - i
    {
      CompareZero(name, t.nodes[i].name);
      var c := CompareNames(name, t.nodes[i].name);
      if c == 0 {
        return;
      }
      i := if c > 0 then t.nodes[i].great else t.nodes[i].less;
    }
  }

  // Count a reference to a name; a name of the wrong size is refused.
  method Enter(t: Table, name: Name) returns (ok: bool)
    requires Valid(t.Now())
    modifies t
    ensures Valid(t.Now())
    ensures ok <==> 0 < |name| <= WORKNAMELEN
    ensures t.Now() == if ok then Entered(old(t.Now()), name) else old(t.Now())
  {
    if |name| == 0 || |name| > WORKNAMELEN {
      return false;
    }
    ok := true;
    EnteredRefs(t.Now(), name, name);
    hide Hash;
    var h := HashName(name);
    var i := t.heads[h];
    if i < 0 {
      t.heads := t.heads[h := |t.nodes|];
      t.nodes := t.nodes + [Node(name, 1, -1, -1)];
      return;
    }
    while true
      invariant 0 <= i < |t.nodes| && unchanged(t)
      invariant var f := Find(t.nodes, t.heads[h], name);
                f == Find(t.nodes, i, name) && (f < 0 ==> End(t.nodes, t.heads[h], name) == End(t.nodes, i, name))
      decreases |t.nodes| - i
    {
      CompareZero(name, t.nodes[i].name);
      var c := CompareNames(name, t.nodes[i].name);
      if c == 0 {
        t.nodes := t.nodes[i := t.nodes[i].(refs := Bumped(t.nodes[i].refs))];
        return;
      }
      var next := if c > 0 then t.nodes[i].great else t.nodes[i].less;
      if next < 0 {
        t.nodes := Grown(t.nodes, i, name);
        return;
      }
      i := next;
    }
  }

  // ----- Many references

  function Count(names: seq<Name>, name: Name): nat
  {
    if names == [] then 0 else Count(names[..|names| - 1], name) + if names[|names| - 1] == name then 1 else 0
  }

  // A count of references as sixteen bits hold it.
  function Held(count: nat): int
  {
    if count == 0 then -1 else count % USHORT
  }

  lemma {:induction false} HeldMore(count: nat)
    ensures Held(count + 1) == if count == 0 then 1 else Bumped(Held(count))
  {
  }

  // A table with nothing in it.
  function Empty(): Index
  {
    Index([], seq(HASH_SIZE, _ => -1))
  }

  function EnterAll(names: seq<Name>): (x: Index)
    ensures Valid(x)
  {
    if names == [] then Empty()
    else
      var x := EnterAll(names[..|names| - 1]);
      EnteredRefs(x, names[|names| - 1], names[|names| - 1]);
      Entered(x, names[|names| - 1])
  }

  // After any run of entries the table has exactly the names entered, each with its number of
  // entries, modulo 65536.
  lemma {:induction false} EnterAllCounts(names: seq<Name>, name: Name)
    ensures Refs(EnterAll(names), name) == Held(Count(names, name))
  {
    hide Hash, Entered, Refs, Valid;
    if names == [] {
      EmptyRefs(name);
    } else {
      var front, last := names[..|names| - 1], names[|names| - 1];
      EnterAllCounts(front, name);
      EnteredRefs(EnterAll(front), last, name);
      HeldMore(Count(front, name));
    }
  }

  lemma {:induction false} EmptyRefs(name: Name)
    ensures Valid(Empty()) && Refs(Empty(), name) == -1
  {
  }

  // ----- Work directories

  const SLASH: Code := 47
  const DOT: Code := 46

  // The place of the last slash, or -1.
  function LastSlash(name: Name): (k: int)
    ensures -1 <= k < |name| && (k >= 0 ==> name[k] == SLASH) && forall j :: k < j < |name| ==> name[j] != SLASH
  {
    if name == [] then -1 else if name[|name| - 1] == SLASH then |name| - 1 else LastSlash(name[..|name| - 1])
  }

  // Every work directory's table.
  type Store = map<Name, Index>

  predicate AllValid(s: Store)
  {
    forall d :: d in s ==> Valid(s[d])
  }

  function TableOf(s: Store, dir: Name): (x: Index)
    requires AllValid(s)
    ensures Valid(x)
  {
    EmptyRefs([]);
    if dir in s then s[dir] else Empty()
  }

  datatype Filing = Filing(store: Store, ok: bool)

  // workfile: the directory's table is made if need be, and the file entered in it.
  function Filed(s: Store, name: Name): (f: Filing)
    requires AllValid(s)
    ensures AllValid(f.store)
  {
    var k := LastSlash(name);
    if k < 0 then Filing(s, false)
    else
      var dir, file := name[..k + 1], name[k + 1..];
      var x := TableOf(s, dir);
      if 0 < |file| <= WORKNAMELEN then
        EnteredRefs(x, file, file);
        Filing(s[dir := Entered(x, file)], true)
      else Filing(s[dir := x], false)
  }

  function FiledAll(names: seq<Name>): (s: Store)
    ensures AllValid(s)
  {
    if names == [] then map[] else Filed(FiledAll(names[..|names| - 1]), names[|names| - 1]).store
  }

  // A directory ends in a slash, a file in it has none.
  predicate Split(dir: Name, file: Name)
  {
    dir != [] && dir[|dir| - 1] == SLASH && SLASH !in file
  }

  // A file of a work directory is of the right size.
  predicate WorkName(dir: Name, file: Name)
  {
    Split(dir, file) && 0 < |file| <= WORKNAMELEN
  }

  lemma {:induction false} SplitIs(dir: Name, file: Name, name: Name)
    requires Split(dir, file)
    ensures var k := LastSlash(name); name == dir + file <==> k >= 0 && name[..k + 1] == dir && name[k + 1..] == file
  {
    var k := LastSlash(name);
    if name == dir + file {
      assert name[|dir| - 1] == dir[|dir| - 1];
      forall j | |dir| <= j < |name|
        ensures name[j] != SLASH
      {
        assert name[j] == file[j - |dir|];
      }
      assert k == |dir| - 1;
    } else if k >= 0 {
      assert name == name[..k + 1] + name[k + 1..];
    }
  }

  lemma {:induction false} FiledCounts(s: Store, name: Name, dir: Name, file: Name)
    requires AllValid(s) && Split(dir, file)
    ensures var t := Filed(s, name).store;
            Refs(TableOf(t, dir), file) ==
            if name != dir + file || !WorkName(dir, file) then Refs(TableOf(s, dir), file)
            else if Refs(TableOf(s, dir), file) < 0 then 1 else Bumped(Refs(TableOf(s, dir), file))
  {
    hide Hash, Entered, Refs, Valid;
    SplitIs(dir, file, name);
    var k := LastSlash(name);
    if k >= 0 && name[..k + 1] == dir {
      EnteredRefs(TableOf(s, dir), name[k + 1..], file);
    }
  }

  // Each directory's table counts its own files, and takes no names of the wrong size.
  lemma {:induction false} FiledAllCounts(names: seq<Name>, dir: Name, file: Name)
    requires Split(dir, file)
    ensures Refs(TableOf(FiledAll(names), dir), file)
            == if WorkName(dir, file) then Held(Count(names, dir + file)) else -1
  {
    hide Hash, Filed, Refs, Valid;
    if names == [] {
      EmptyRefs(file);
    } else {
      var front := names[..|names| - 1];
      FiledAllCounts(front, dir, file);
      FiledCounts(FiledAll(front), names[|names| - 1], dir, file);
      HeldMore(Count(front, dir + file));
    }
  }

  // A name is refused if and only if it is of no work directory, or its file of the wrong size.
  lemma {:induction false} FiledIff(s: Store, name: Name)
    requires AllValid(s)
    ensures Filed(s, name).ok <==> exists dir, file :: WorkName(dir, file) && name == dir + file
  {
    hide Entered, Valid, TableOf;
    var k := LastSlash(name);
    if k >= 0 {
      assert name == name[..k + 1] + name[k + 1..] && Split(name[..k + 1], name[k + 1..]);
    }
    if dir, file :| WorkName(dir, file) && name == dir + file {
      SplitIs(dir, file, name);
    }
  }

  ghost predicate LiesIn(name: Name, dir: Name)
  {
    exists file :: Split(dir, file) && name == dir + file
  }

  // The directories that are gone through are those that a name lies in, refused or not.
  lemma {:induction false} DirsAre(names: seq<Name>, dir: Name)
    ensures dir in FiledAll(names) <==> exists i :: 0 <= i < |names| && LiesIn(names[i], dir)
  {
    hide LiesIn, Filed;
    if names != [] {
      var n := |names| - 1;
      DirsAre(names[..n], dir);
      OneDir(FiledAll(names[..n]), names[n], dir);
      if i :| 0 <= i < |names| && LiesIn(names[i], dir) {
        assert i < n ==> names[..n][i] == names[i];
      }
      if i :| 0 <= i < n && LiesIn(names[..n][i], dir) {
        assert names[i] == names[..n][i];
      }
    }
  }

  lemma {:induction false} OneDir(s: Store, name: Name, dir: Name)
    requires AllValid(s)
    ensures dir in Filed(s, name).store <==> dir in s || LiesIn(name, dir)
  {
    hide Entered, Valid;
    var k := LastSlash(name);
    if k >= 0 {
      assert name == name[..k + 1] + name[k + 1..] && Split(name[..k + 1], name[k + 1..]);
    }
    if file :| Split(dir, file) && name == dir + file {
      SplitIs(dir, file, name);
    }
  }

  // ----- Purging

  predicate Dots(file: Name)
  {
    file == [DOT] || file == [DOT, DOT]
  }

  // Whether purge removes a file that it comes upon in a directory.
  predicate Removes(x: Index, file: Name)
    requires Valid(x)
  {
    !Dots(file) && |file| <= WORKNAMELEN && (file == [] || Refs(x, file) <= 0)
  }

  // purge removes a file of the right size just when it was referred to a multiple of 65536 times:
  // never, or so often that the count has come round to nothing.  Others with longer names stay.
  lemma {:induction false} Purged(names: seq<Name>, dir: Name, file: Name)
    requires Split(dir, file)
    ensures Removes(TableOf(FiledAll(names), dir), file)
            <==> file == [] || (|file| <= WORKNAMELEN && !Dots(file) && Count(names, dir + file) % USHORT == 0)
  {
    hide Refs, FiledAll;
    FiledAllCounts(names, dir, file);
  }

  method PurgeDir(t: Table, listing: seq<Name>) returns (removed: seq<Name>)
    requires Valid(t.Now())
    ensures forall f :: f in removed <==> f in listing && Removes(t.Now(), f)
  {
    hide Find, Hash;
    removed := [];
    for i := 0 to |listing|
      invariant forall f :: f in removed <==> f in listing[..i] && Removes(t.Now(), f)
    {
      var f := listing[i];
      assert listing[..i + 1] == listing[..i] + [f];
      if !Dots(f) && |f| <= WORKNAMELEN {
        FileHash(f);
        var k := Lookup(t, f);
        if k < 0 || t.nodes[k].refs == 0 {
          removed := removed + [f];
        }
      }
    }
    assert listing[..|listing|] == listing;
  }

  // The work directories; each has a table of its own.
  class Work {
    var dirs: map<Name, Table>

    ghost predicate Sound()
      reads this, dirs.Values
    {
      && (forall d :: d in dirs ==> Valid(dirs[d].Now()))
      && (forall d, e :: d in dirs && e in dirs && d != e ==> dirs[d] != dirs[e])
    }

    ghost function Now(): Store
      requires Sound()
      reads this, dirs.Values
    {
      map d | d in dirs :: dirs[d].Now()
    }

    constructor ()
      ensures Sound() && Now() == map[]
    {
      dirs := map[];
    }
  }

  method FindSlash(name: Name) returns (k: int)
    ensures k == LastSlash(name)
  {
    k := |name| - 1;
    while k >= 0
      invariant -1 <= k < |name| && LastSlash(name) == LastSlash(name[..k + 1])
    {
      if name[k] == SLASH {
        return;
      }
      assert name[..k + 1][..k] == name[..k];
      k := k - 1;
    }
  }

  // The table of a directory, new if there is none.
  method WorkDir(w: Work, dir: Name) returns (t: Table)
    requires w.Sound()
    modifies w
    ensures w.Sound() && dir in w.dirs && w.dirs[dir] == t && (t in old(w.dirs.Values) || fresh(t))
    ensures forall d :: d in old(w.dirs) ==> d in w.dirs && w.dirs[d] == old(w.dirs[d])
    ensures w.Now() == old(w.Now())[dir := TableOf(old(w.Now()), dir)]
  {
    hide Hash, Find, Valid, Compare;
    EmptyRefs([]);
    if dir in w.dirs {
      t := w.dirs[dir];
      assert w.Now()[dir := t.Now()] == w.Now();
      return;
    }
    t := new Table();
    w.dirs := w.dirs[dir := t];
  }

  // Enter a file in a directory's table; the other tables stay as they are.
  method EnterIn(w: Work, dir: Name, file: Name) returns (ok: bool)
    requires w.Sound() && dir in w.dirs
    modifies w.dirs[dir]
    ensures w.Sound() && (ok <==> 0 < |file| <= WORKNAMELEN)
    ensures dir in old(w.Now()) && Valid(old(w.Now())[dir])
    ensures w.Now() == if ok then old(w.Now())[dir := Entered(old(w.Now())[dir], file)] else old(w.Now())
  {
    hide Hash, Find, Entered, Valid;
    EnteredRefs(w.dirs[dir].Now(), file, file);
    ok := Enter(w.dirs[dir], file);
  }

  // Count a reference to a work file; a bad name is fatal to the program.
  method WorkFile(w: Work, name: Name) returns (ok: bool)
    requires w.Sound()
    modifies w, w.dirs.Values
    ensures w.Sound() && Filing(w.Now(), ok) == Filed(old(w.Now()), name)
  {
    hide Hash, Find, Entered, Valid, LastSlash, TableOf, Work.Sound, Work.Now;
    var k := FindSlash(name);
    SlashAt(name);
    if k < 0 {
      return false;
    }
    ghost var s := w.Now();
    NowValid(w);
    var dir, file := name[..k + 1], name[k + 1..];
    var t := WorkDir(w, dir);
    ok := EnterIn(w, dir, file);
    Again(s, dir, TableOf(s, dir), Entered(TableOf(s, dir), file));
  }

  lemma {:induction false} NowValid(w: Work)
    requires w.Sound()
    ensures AllValid(w.Now())
  {
  }

  lemma {:induction false} SlashAt(name: Name)
    ensures -1 <= LastSlash(name) < |name|
  {
  }

  lemma {:induction false} Again(s: Store, dir: Name, x: Index, y: Index)
    ensures s[dir := x][dir := y] == s[dir := y] && s[dir := x][dir] == x
  {
  }
}
