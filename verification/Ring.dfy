/** The consistent-hash ring (internal/balancer/ring.go): placement of virtual nodes, and the
    wrap-around walk that yields each backend once.  Everything holds for any hash function,
    hence also for one with collisions; HashKey of module Hash is one instance. */
module Ring {
  import opened Fleet
  import opened Seqs
  import Arith

  const VIRTUAL_NODES_PER_BACKEND: nat := 150

  type Hasher = string -> nat

  datatype VNode = VNode(position: nat, backend: Handle)

  // ---------- placement ----------

  function Itoa(n: nat): string {
    (if n < 10 then "" else Itoa(n / 10)) + [('0' as int + n % 10) as char]
  }

  function NodeOf(hash: Hasher, b: Handle, i: nat): VNode {
    VNode(hash(Itoa(i) + ":" + b.name), b)
  }

  /** The first n virtual nodes of one backend, in index order. */
  function NodesOf(hash: Hasher, b: Handle, n: nat): seq<VNode> {
    if n == 0 then [] else NodesOf(hash, b, n - 1) + [NodeOf(hash, b, n - 1)]
  }

  /** Every virtual node, before sorting. */
  function AllNodes(hash: Hasher, all: seq<Handle>): seq<VNode> {
    if all == [] then []
    else AllNodes(hash, all[..|all| - 1]) + NodesOf(hash, all[|all| - 1], VIRTUAL_NODES_PER_BACKEND)
  }

  predicate Sorted(s: seq<VNode>) {
    forall i, j :: 0 <= i < j < |s| ==> s[i].position <= s[j].position
  }

  /** Insertion after every node at the same or a smaller position. */
  function Insert(s: seq<VNode>, x: VNode): seq<VNode> {
    if s == [] || s[|s| - 1].position <= x.position then s + [x]
    else Insert(s[..|s| - 1], x) + [s[|s| - 1]]
  }

  function StableSort(s: seq<VNode>): seq<VNode> {
    if s == [] then [] else Insert(StableSort(s[..|s| - 1]), s[|s| - 1])
  }

  function RingOf(hash: Hasher, all: seq<Handle>): seq<VNode> {
    StableSort(AllNodes(hash, all))
  }

  // ---------- the walk ----------

  /** The insertion point of h: how many leading nodes lie strictly before it. */
  function LowerBound(s: seq<VNode>, h: nat): (r: nat)
    ensures r <= |s|
  {
    if s != [] && s[|s| - 1].position >= h then LowerBound(s[..|s| - 1], h) else |s|
  }

  function Owners(s: seq<VNode>): seq<Handle> {
    if s == [] then [] else Owners(s[..|s| - 1]) + [s[|s| - 1].backend]
  }

  /** Each element once, at its first occurrence. */
  function Dedup(s: seq<Handle>): seq<Handle> {
    if s == [] then []
    else
      var d := Dedup(s[..|s| - 1]);
      if s[|s| - 1] in d then d else d + [s[|s| - 1]]
  }

  /** The owners met going clockwise from h, all the way round. */
  function Clockwise(ring: seq<VNode>, h: nat): seq<Handle> {
    var start := LowerBound(ring, h);
    Owners(ring[start..] + ring[..start])
  }

  function Walk(ring: seq<VNode>, h: nat): seq<Handle> {
    Dedup(Clockwise(ring, h))
  }

  // ---------- the stable sort ----------

  lemma {:induction false} InsertSorted(s: seq<VNode>, x: VNode)
    requires Sorted(s)
    ensures Sorted(Insert(s, x)) && |Insert(s, x)| == |s| + 1
    ensures forall v :: v in Insert(s, x) <==> v in s || v == x
  {
    if s == [] || s[|s| - 1].position <= x.position {
    } else {
      var init, last := s[..|s| - 1], s[|s| - 1];
      InsertSorted(init, x);
      assert s == init + [last];
      var r := Insert(init, x);
      forall i | 0 <= i < |r| ensures r[i].position <= last.position {
        assert r[i] in r;
      }
    }
  }

  lemma {:induction false} StableSortSorted(s: seq<VNode>)
    ensures Sorted(StableSort(s)) && |StableSort(s)| == |s|
    ensures forall v :: v in StableSort(s) <==> v in s
  {
    if s != [] {
      var init, last := s[..|s| - 1], s[|s| - 1];
      assert s == init + [last];
      StableSortSorted(init);
      InsertSorted(StableSort(init), last);
    }
  }

  lemma {:induction false} FilterKeepsSorted(s: seq<VNode>, keep: VNode -> bool)
    requires Sorted(s)
    ensures Sorted(Filter(s, keep))
  {
    if s != [] {
      var init, last := s[..|s| - 1], s[|s| - 1];
      FilterKeepsSorted(init, keep);
      var r := Filter(init, keep);
      forall i | 0 <= i < |r| ensures r[i].position <= last.position {
        assert r[i] in r && r[i] in init;
      }
    }
  }

  lemma InsertAtEnd(s: seq<VNode>, x: VNode)
    requires forall v :: v in s ==> v.position <= x.position
    ensures Insert(s, x) == s + [x]
  {
    assert s == [] || s[|s| - 1] in s;
  }

  lemma InsertSnoc(s: seq<VNode>, last: VNode, x: VNode)
    requires last.position > x.position
    ensures Insert(s + [last], x) == Insert(s, x) + [last]
  {
    assert (s + [last])[..|s|] == s;
  }

  lemma {:induction false} FilterInsert(s: seq<VNode>, x: VNode, keep: VNode -> bool)
    requires Sorted(s)
    ensures Filter(Insert(s, x), keep) == if keep(x) then Insert(Filter(s, keep), x) else Filter(s, keep)
  {
    if s == [] || s[|s| - 1].position <= x.position {
      FilterSnoc(s, x, keep);
      assert forall v :: v in s ==> v.position <= x.position;
      InsertAtEnd(Filter(s, keep), x);
    } else {
      var init, last := s[..|s| - 1], s[|s| - 1];
      assert s == init + [last];
      FilterInsert(init, x, keep);
      InsertSnoc(init, last, x);
      FilterSnoc(Insert(init, x), last, keep);
      FilterSnoc(init, last, keep);
      if keep(last) { InsertSnoc(Filter(init, keep), last, x); }
    }
  }

  /** Removing nodes before or after sorting gives the same ring: this is where stability matters. */
  lemma {:induction false} FilterSort(s: seq<VNode>, keep: VNode -> bool)
    ensures Filter(StableSort(s), keep) == StableSort(Filter(s, keep))
  {
    if s != [] {
      var init, last := s[..|s| - 1], s[|s| - 1];
      StableSortSorted(init);
      FilterSort(init, keep);
      FilterInsert(StableSort(init), last, keep);
      var r := Filter(init, keep);
      assert (r + [last])[..|r|] == r;
    }
  }

  function At(s: seq<VNode>, position: nat): seq<VNode> {
    Filter(s, (v: VNode) => v.position == position)
  }

  /** Any sorted arrangement that keeps the nodes of each position in their original order is this one,
      so the choice of stable sorting algorithm does not matter. */
  lemma StableSortUnique(s: seq<VNode>, r: seq<VNode>)
    requires Sorted(r) && forall p :: At(r, p) == At(s, p)
    ensures r == StableSort(s)
  {
    var t := StableSort(s);
    StableSortSorted(s);
    forall p ensures At(r, p) == At(t, p) {
      FilterSort(s, (v: VNode) => v.position == p);
      StableSortOneP(At(s, p), p);
    }
    SameAtEachPosition(r, t);
  }

  lemma {:induction false} StableSortOneP(s: seq<VNode>, p: nat)
    requires forall v :: v in s ==> v.position == p
    ensures StableSort(s) == s
  {
    if s != [] {
      assert s == s[..|s| - 1] + [s[|s| - 1]];
      StableSortOneP(s[..|s| - 1], p);
    }
  }

  lemma AtAppend(s: seq<VNode>, x: VNode, p: nat)
    ensures At(s + [x], p) == if x.position == p then At(s, p) + [x] else At(s, p)
  {
    assert (s + [x])[..|s|] == s;
  }

  lemma PeelLast(r: seq<VNode>, x: VNode, t: seq<VNode>, y: VNode, p: nat)
    requires At(r + [x], p) == At(t + [y], p) && x.position == y.position
    ensures At(r, p) == At(t, p) && (p == x.position ==> x == y)
  {
    AtAppend(r, x, p);
    AtAppend(t, y, p);
    if p == x.position {
      var a := At(r + [x], p);
      assert a[..|a| - 1] == At(r, p) && a[..|a| - 1] == At(t, p);
    }
  }

  lemma {:induction false} SameAtEachPosition(r: seq<VNode>, t: seq<VNode>)
    requires Sorted(r) && Sorted(t) && forall p :: At(r, p) == At(t, p)
    ensures r == t
    decreases |r|
  {
    if r == [] {
      assert t == [] || t[0] in At(t, t[0].position);
    } else {
      LastIsMaximal(r, t);
      LastIsMaximal(t, r);
      var x, y := r[|r| - 1], t[|t| - 1];
      var r', t' := r[..|r| - 1], t[..|t| - 1];
      assert r == r' + [x] && t == t' + [y];
      forall p ensures At(r', p) == At(t', p) {
        assert At(r, p) == At(t, p);
        PeelLast(r', x, t', y, p);
      }
      assert At(r, x.position) == At(t, x.position);
      PeelLast(r', x, t', y, x.position);
      SameAtEachPosition(r', t');
    }
  }

  lemma LastIsMaximal(r: seq<VNode>, t: seq<VNode>)
    requires r != [] && Sorted(t) && forall p :: At(r, p) == At(t, p)
    ensures t != [] && r[|r| - 1].position <= t[|t| - 1].position
  {
    assert r[|r| - 1] in At(t, r[|r| - 1].position);
  }

  // ---------- the walk yields every backend once, in order of first occurrence ----------

  function First(s: seq<Handle>, b: Handle): (i: nat)
    requires b in s
    ensures i < |s| && s[i] == b && b !in s[..i]
  {
    if s[0] == b then 0 else 1 + First(s[1..], b)
  }

  lemma {:induction false} DedupMembers(s: seq<Handle>)
    ensures Distinct(Dedup(s))
    ensures forall b :: b in Dedup(s) <==> b in s
  {
    if s != [] {
      assert s == s[..|s| - 1] + [s[|s| - 1]];
      DedupMembers(s[..|s| - 1]);
    }
  }

  lemma {:induction false} DedupOrder(s: seq<Handle>, i: nat, j: nat)
    requires i < j < |Dedup(s)|
    ensures Dedup(s)[i] in s && Dedup(s)[j] in s
    ensures First(s, Dedup(s)[i]) < First(s, Dedup(s)[j])
  {
    var init, last := s[..|s| - 1], s[|s| - 1];
    assert s == init + [last];
    DedupMembers(init);
    var d := Dedup(init);
    assert d[i] in init by { assert d[i] in d; }
    FirstOfPrefix(init, last, d[i]);
    if j < |d| {
      assert d[j] in init by { assert d[j] in d; }
      FirstOfPrefix(init, last, d[j]);
      DedupOrder(init, i, j);
    } else {
      assert last !in init;
    }
  }

  lemma {:induction false} FirstIs(s: seq<Handle>, b: Handle, i: nat)
    requires i < |s| && s[i] == b && b !in s[..i]
    ensures First(s, b) == i
  {
    if i > 0 {
      assert s[0] in s[..i];
      assert s[1..][..i - 1] == s[..i][1..];
      FirstIs(s[1..], b, i - 1);
    }
  }

  lemma FirstOfPrefix(s: seq<Handle>, last: Handle, b: Handle)
    requires b in s
    ensures First(s + [last], b) == First(s, b)
  {
    var i := First(s, b);
    assert (s + [last])[..i] == s[..i];
    FirstIs(s + [last], b, i);
  }

  lemma {:induction false} OwnersMembers(s: seq<VNode>)
    ensures |Owners(s)| == |s| && forall i :: 0 <= i < |s| ==> Owners(s)[i] == s[i].backend
  {
    if s != [] { OwnersMembers(s[..|s| - 1]); }
  }

  lemma {:induction false} NodesOfMembers(hash: Hasher, b: Handle, n: nat)
    ensures |NodesOf(hash, b, n)| == n
    ensures forall v :: v in NodesOf(hash, b, n) ==> v.backend == b
  {
    if n > 0 { NodesOfMembers(hash, b, n - 1); }
  }

  lemma {:induction false} AllNodesMembers(hash: Hasher, all: seq<Handle>)
    ensures forall v :: v in AllNodes(hash, all) ==> v.backend in all
    ensures forall b :: b in all ==> exists v :: v in AllNodes(hash, all) && v.backend == b
  {
    if all != [] {
      var init, last := all[..|all| - 1], all[|all| - 1];
      assert all == init + [last];
      AllNodesMembers(hash, init);
      NodesOfMembers(hash, last, VIRTUAL_NODES_PER_BACKEND);
      var nodes := NodesOf(hash, last, VIRTUAL_NODES_PER_BACKEND);
      assert nodes[0] in nodes && nodes[0].backend == last;
      forall b | b in all ensures exists v :: v in AllNodes(hash, all) && v.backend == b {
        if b in init {
          var v :| v in AllNodes(hash, init) && v.backend == b;
          assert v in AllNodes(hash, all);
        }
      }
    }
  }

  lemma {:induction false} OwnersExact(s: seq<VNode>)
    ensures forall b :: b in Owners(s) <==> exists v :: v in s && v.backend == b
  {
    if s != [] {
      var init, last := s[..|s| - 1], s[|s| - 1];
      assert s == init + [last];
      OwnersExact(init);
      forall b ensures b in Owners(s) <==> exists v :: v in s && v.backend == b {
        if b in Owners(init) {
          var v :| v in init && v.backend == b;
          assert v in s;
        }
        if b == last.backend { assert last in s; }
      }
    }
  }

  lemma ClockwiseMembers(hash: Hasher, all: seq<Handle>, h: nat)
    ensures forall b :: b in Clockwise(RingOf(hash, all), h) <==> b in all
  {
    var ring := RingOf(hash, all);
    var start := LowerBound(ring, h);
    var turned := ring[start..] + ring[..start];
    OwnersExact(turned);
    forall b ensures b in Owners(turned) <==> b in all {
      TurnedNodes(hash, all, h);
      AllNodesMembers(hash, all);
      if b in all {
        var v :| v in AllNodes(hash, all) && v.backend == b;
        assert v in turned;
      }
    }
  }

  lemma TurnedNodes(hash: Hasher, all: seq<Handle>, h: nat)
    ensures var ring := RingOf(hash, all);
            var start := LowerBound(ring, h);
            forall v :: v in ring[start..] + ring[..start] <==> v in AllNodes(hash, all)
  {
    var ring := RingOf(hash, all);
    StableSortSorted(AllNodes(hash, all));
    var start := LowerBound(ring, h);
    assert ring == ring[..start] + ring[start..];
  }

  /** The walk of a ring visits exactly the backends the ring was built from, each once, and two
      backends are visited in the order in which their first virtual nodes are met going clockwise
      from h.  An empty list gives an empty walk. */
  lemma WalkVisitsEachOnce(hash: Hasher, all: seq<Handle>, h: nat)
    ensures var walk := Walk(RingOf(hash, all), h);
            Distinct(walk) && forall b :: b in walk <==> b in all
    ensures var walk, met := Walk(RingOf(hash, all), h), Clockwise(RingOf(hash, all), h);
            forall i, j :: 0 <= i < j < |walk| ==>
              walk[i] in met && walk[j] in met && First(met, walk[i]) < First(met, walk[j])
  {
    ClockwiseMembers(hash, all, h);
    var met := Clockwise(RingOf(hash, all), h);
    DedupMembers(met);
    forall i, j | 0 <= i < j < |Dedup(met)|
      ensures Dedup(met)[i] in met && Dedup(met)[j] in met && First(met, Dedup(met)[i]) < First(met, Dedup(met)[j])
    {
      DedupOrder(met, i, j);
    }
  }

  /** The walk starts at the lower bound: everything it meets before wrapping is at or after h, and
      everything it skips to the end is strictly before h. */
  lemma {:induction false} LowerBoundSplits(s: seq<VNode>, h: nat)
    requires Sorted(s)
    ensures forall i :: 0 <= i < LowerBound(s, h) ==> s[i].position < h
    ensures forall i :: LowerBound(s, h) <= i < |s| ==> s[i].position >= h
  {
    if s != [] && s[|s| - 1].position >= h {
      LowerBoundSplits(s[..|s| - 1], h);
    }
  }

  // ---------- minimal disruption ----------

  function WithoutNode(b: Handle): VNode -> bool { (v: VNode) => v.backend != b }

  function WithoutHandle(b: Handle): Handle -> bool { (x: Handle) => x != b }

  function Without(s: seq<Handle>, b: Handle): seq<Handle> { Filter(s, WithoutHandle(b)) }

  lemma NodesOfWithout(hash: Hasher, x: Handle, n: nat, b: Handle)
    ensures Filter(NodesOf(hash, x, n), WithoutNode(b)) == if x == b then [] else NodesOf(hash, x, n)
  {
    NodesOfMembers(hash, x, n);
    if x == b {
      FilterNone(NodesOf(hash, x, n), WithoutNode(b));
    } else {
      FilterAll(NodesOf(hash, x, n), WithoutNode(b));
    }
  }

  lemma {:induction false} AllNodesWithout(hash: Hasher, all: seq<Handle>, b: Handle)
    ensures AllNodes(hash, Without(all, b)) == Filter(AllNodes(hash, all), WithoutNode(b))
  {
    if all != [] {
      var init, last := all[..|all| - 1], all[|all| - 1];
      AllNodesWithout(hash, init, b);
      NodesOfWithout(hash, last, VIRTUAL_NODES_PER_BACKEND, b);
      FilterAppend(AllNodes(hash, init), NodesOf(hash, last, VIRTUAL_NODES_PER_BACKEND), WithoutNode(b));
      var r := Without(init, b);
      assert (r + [last])[..|r|] == r;
    }
  }

  // ---------- where the nodes lie ----------

  /** A numeral read back, digit by digit. */
  function Numeral(s: string): int {
    if s == "" then 0 else 10 * Numeral(s[..|s| - 1]) + (s[|s| - 1] as int - '0' as int)
  }

  /** A node's index is written in decimal: digits only, no leading zero, and it reads back as the index. */
  lemma {:induction false} ItoaReadsBack(n: nat)
    ensures Numeral(Itoa(n)) == n && Itoa(n) != "" && forall c :: c in Itoa(n) ==> '0' <= c <= '9'
    ensures Itoa(n)[0] == '0' ==> n == 0 && Itoa(n) == "0"
  {
    if n >= 10 {
      ItoaReadsBack(n / 10);
      assert Itoa(n)[..|Itoa(n)| - 1] == Itoa(n / 10);
    } else {
      assert Itoa(n) == [('0' as int + n) as char] && Itoa(n)[..0] == "";
    }
  }

  /** v is the i-th of b's nodes. */
  predicate IsNode(hash: Hasher, v: VNode, b: Handle, i: nat) {
    v == VNode(hash(Itoa(i) + ":" + b.name), b)
  }

  lemma {:induction false} NodesOfIndexed(hash: Hasher, b: Handle, n: nat)
    ensures |NodesOf(hash, b, n)| == n && forall i :: 0 <= i < n ==> IsNode(hash, NodesOf(hash, b, n)[i], b, i)
  {
    if n > 0 { NodesOfIndexed(hash, b, n - 1); }
  }

  lemma NodesOfExactly(hash: Hasher, b: Handle, v: VNode)
    ensures v in NodesOf(hash, b, VIRTUAL_NODES_PER_BACKEND) <==> exists i: nat :: i < 150 && IsNode(hash, v, b, i)
  {
    NodesOfIndexed(hash, b, VIRTUAL_NODES_PER_BACKEND);
    var nodes := NodesOf(hash, b, VIRTUAL_NODES_PER_BACKEND);
    if i: nat :| i < 150 && IsNode(hash, v, b, i) {
      assert nodes[i] == v;
    }
  }

  lemma {:induction false} AllNodesExactly(hash: Hasher, all: seq<Handle>, v: VNode)
    ensures |AllNodes(hash, all)| == 150 * |all|
    ensures v in AllNodes(hash, all) <==> exists b, i: nat :: b in all && i < 150 && IsNode(hash, v, b, i)
  {
    if all != [] {
      var init, last := all[..|all| - 1], all[|all| - 1];
      assert all == init + [last];
      AllNodesExactly(hash, init, v);
      NodesOfMembers(hash, last, VIRTUAL_NODES_PER_BACKEND);
      NodesOfExactly(hash, last, v);
    }
  }

  /** The ring holds 150 nodes for each backend of the list, at the positions of "0:name" to "149:name", and no others. */
  lemma RingNodes(hash: Hasher, all: seq<Handle>)
    ensures |RingOf(hash, all)| == 150 * |all|
    ensures forall v :: v in RingOf(hash, all) <==> exists b, i: nat :: b in all && i < 150 && IsNode(hash, v, b, i)
  {
    StableSortSorted(AllNodes(hash, all));
    AllNodesExactly(hash, all, VNode(0, Handle(0, "", "")));
    forall v
      ensures v in RingOf(hash, all) <==> exists b, i: nat :: b in all && i < 150 && IsNode(hash, v, b, i)
    {
      AllNodesExactly(hash, all, v);
    }
  }

  function OfBackend(b: Handle): VNode -> bool { (v: VNode) => v.backend == b }

  lemma {:induction false} NodesOfBackend(hash: Hasher, all: seq<Handle>, b: Handle)
    requires Distinct(all)
    ensures Filter(AllNodes(hash, all), OfBackend(b)) == if b in all then NodesOf(hash, b, VIRTUAL_NODES_PER_BACKEND) else []
  {
    if all != [] {
      var init, last := all[..|all| - 1], all[|all| - 1];
      var nodes := NodesOf(hash, last, VIRTUAL_NODES_PER_BACKEND);
      assert all == init + [last];
      NodesOfBackend(hash, init, b);
      NodesOfMembers(hash, last, VIRTUAL_NODES_PER_BACKEND);
      FilterAppend(AllNodes(hash, init), nodes, OfBackend(b));
      if last == b {
        FilterAll(nodes, OfBackend(b));
      } else {
        FilterNone(nodes, OfBackend(b));
      }
    }
  }

  /** Each listed backend owns exactly its own 150 nodes, in the order of their positions. */
  lemma EachOwns150(hash: Hasher, all: seq<Handle>, b: Handle)
    requires Distinct(all) && b in all
    ensures Filter(RingOf(hash, all), OfBackend(b)) == StableSort(seq(150, i requires i >= 0 => VNode(hash(Itoa(i) + ":" + b.name), b)))
  {
    FilterSort(AllNodes(hash, all), OfBackend(b));
    NodesOfBackend(hash, all, b);
    NodesOfIndexed(hash, b, VIRTUAL_NODES_PER_BACKEND);
    assert NodesOf(hash, b, VIRTUAL_NODES_PER_BACKEND) == seq(150, i requires i >= 0 => VNode(hash(Itoa(i) + ":" + b.name), b));
  }

  lemma {:induction false} OwnersWithout(s: seq<VNode>, b: Handle)
    ensures Owners(Filter(s, WithoutNode(b))) == Without(Owners(s), b)
  {
    if s != [] {
      var init, last := s[..|s| - 1], s[|s| - 1];
      OwnersWithout(init, b);
      var r := Filter(init, WithoutNode(b));
      assert (r + [last])[..|r|] == r;
      var o := Owners(init);
      assert (o + [last.backend])[..|o|] == o;
    }
  }

  lemma {:induction false} DedupWithout(s: seq<Handle>, b: Handle)
    ensures Dedup(Without(s, b)) == Without(Dedup(s), b)
  {
    if s != [] {
      var init, last := s[..|s| - 1], s[|s| - 1];
      DedupWithout(init, b);
      DedupMembers(init);
      var r := Without(init, b);
      assert (r + [last])[..|r|] == r;
      var d := Dedup(init);
      assert (d + [last])[..|d|] == d;
    }
  }

  /** A sequence split into a part before h and a part from h on has its lower bound at the seam. */
  lemma {:induction false} LowerBoundOfSplit(a: seq<VNode>, c: seq<VNode>, h: nat)
    requires forall v :: v in a ==> v.position < h
    requires forall v :: v in c ==> v.position >= h
    ensures LowerBound(a + c, h) == |a|
  {
    if c == [] {
      assert a + c == a;
      if a != [] { assert a[|a| - 1] in a; }
    } else {
      assert c[|c| - 1] in c;
      assert (a + c)[..|a + c| - 1] == a + c[..|c| - 1];
      LowerBoundOfSplit(a, c[..|c| - 1], h);
    }
  }

  /** Deleting nodes leaves the kept ones on their side of the key's position. */
  lemma SidesWithout(ring: seq<VNode>, b: Handle, h: nat)
    requires Sorted(ring)
    ensures var start := LowerBound(ring, h);
            && (forall v :: v in Filter(ring[..start], WithoutNode(b)) ==> v.position < h)
            && (forall v :: v in Filter(ring[start..], WithoutNode(b)) ==> v.position >= h)
  {
    LowerBoundSplits(ring, h);
  }

  lemma ClockwiseWithout(ring: seq<VNode>, b: Handle, h: nat)
    requires Sorted(ring)
    ensures Clockwise(Filter(ring, WithoutNode(b)), h) == Without(Clockwise(ring, h), b)
  {
    var start := LowerBound(ring, h);
    var a, c := ring[..start], ring[start..];
    assert ring == a + c;
    SidesWithout(ring, b, h);
    FilterAppend(a, c, WithoutNode(b));
    FilterAppend(c, a, WithoutNode(b));
    var a', c' := Filter(a, WithoutNode(b)), Filter(c, WithoutNode(b));
    LowerBoundOfSplit(a', c', h);
    assert (a' + c')[..|a'|] == a' && (a' + c')[|a'|..] == c';
    OwnersWithout(c + a, b);
  }

  /** Exact minimal disruption: for every backend list, backend and key, with any hash function, the
      walk of the ring built without b is the walk of the full ring with b deleted. */
  lemma MinimalDisruption(hash: Hasher, all: seq<Handle>, b: Handle, h: nat)
    ensures Walk(RingOf(hash, Without(all, b)), h) == Without(Walk(RingOf(hash, all), h), b)
  {
    AllNodesWithout(hash, all, b);
    FilterSort(AllNodes(hash, all), WithoutNode(b));
    StableSortSorted(AllNodes(hash, all));
    ClockwiseWithout(RingOf(hash, all), b, h);
    DedupWithout(Clockwise(RingOf(hash, all), h), b);
  }

  /** So removing b moves a key exactly when b owned it, and a key b owned goes to the walk's second backend. */
  lemma KeyMovesOnlyFromRemoved(hash: Hasher, all: seq<Handle>, b: Handle, h: nat)
    requires Without(all, b) != []
    ensures var before, after := Walk(RingOf(hash, all), h), Walk(RingOf(hash, Without(all, b)), h);
            && before != [] && after != []
            && (after[0] != before[0] <==> before[0] == b)
            && (before[0] == b ==> |before| > 1 && after[0] == before[1])
  {
    var before := Walk(RingOf(hash, all), h);
    MinimalDisruption(hash, all, b, h);
    WalkVisitsEachOnce(hash, all, h);
    var x := Without(all, b)[0];
    assert x in Without(all, b) && x in before;
    assert x in Without(before, b);
    HeadWithout(before, b);
  }

  lemma HeadWithout(s: seq<Handle>, b: Handle)
    requires Distinct(s) && Without(s, b) != []
    ensures s != [] && (s[0] != b ==> Without(s, b)[0] == s[0])
    ensures s[0] == b ==> |s| > 1 && s[1] != b && Without(s, b)[0] == s[1]
  {
    var rest := s[1..];
    assert s == [s[0]] + rest;
    FilterAppend([s[0]], rest, WithoutHandle(b));
    assert [s[0]][..0] == [];
    if s[0] == b {
      FilterAll(rest, WithoutHandle(b));
    }
  }

  // ---------- the algorithms ----------

  lemma InsertBefore(r: seq<VNode>, x: VNode, k: nat)
    requires 0 < k <= |r| && r[k - 1].position > x.position
    ensures Insert(r[..k], x) + r[k..] == Insert(r[..k - 1], x) + r[k - 1..]
  {
    assert r[..k][..k - 1] == r[..k - 1];
    assert r[k - 1..] == [r[k - 1]] + r[k..];
  }

  /** The stable sort by position, as insertion of each node into the sorted part before it. */
  method SortStable(s: seq<VNode>) returns (r: seq<VNode>)
    ensures r == StableSort(s)
  {
    r := [];
    for i := 0 to |s|
      invariant r == StableSort(s[..i])
    {
      var x, k := s[i], |r|;
      assert r[..k] == r && r[k..] == [];
      while k > 0 && r[k - 1].position > x.position
        invariant 0 <= k <= |r|
        invariant Insert(r, x) == Insert(r[..k], x) + r[k..]
      {
        InsertBefore(r, x, k);
        k := k - 1;
      }
      assert s[..i + 1][..i] == s[..i];
      assert Insert(r[..k], x) == r[..k] + [x];
      r := r[..k] + [x] + r[k..];
    }
    assert s[..|s|] == s;
  }

  method NewRing(hash: Hasher, all: seq<Handle>) returns (vnodes: seq<VNode>)
    ensures vnodes == RingOf(hash, all) && Sorted(vnodes) && |vnodes| == 150 * |all|
    ensures forall v :: v in vnodes <==> exists b, i: nat :: b in all && i < 150 && IsNode(hash, v, b, i)
  {
    vnodes := [];
    for j := 0 to |all|
      invariant vnodes == AllNodes(hash, all[..j])
    {
      for i := 0 to VIRTUAL_NODES_PER_BACKEND
        invariant vnodes == AllNodes(hash, all[..j]) + NodesOf(hash, all[j], i)
      {
        var key := Itoa(i) + ":" + all[j].name;
        vnodes := vnodes + [VNode(hash(key), all[j])];
      }
      assert all[..j + 1][..j] == all[..j];
    }
    assert all[..|all|] == all;
    StableSortSorted(vnodes);
    vnodes := SortStable(vnodes);
    RingNodes(hash, all);
  }

  /** The earliest insertion point of h, found by halving. */
  method BinarySearch(vnodes: seq<VNode>, h: nat) returns (start: nat)
    requires Sorted(vnodes)
    ensures start == LowerBound(vnodes, h)
  {
    LowerBoundSplits(vnodes, h);
    var end := |vnodes|;
    start := 0;
    while start < end
      invariant 0 <= start <= LowerBound(vnodes, h) <= end <= |vnodes|
    {
      var mid := (start + end) / 2;
      if vnodes[mid].position < h {
        start := mid + 1;
      } else {
        end := mid;
      }
    }
  }

  /** The prefix of s through its first element that satisfies stop. */
  function UpTo(s: seq<Handle>, stop: Handle -> bool): seq<Handle> {
    if s == [] then [] else if stop(s[0]) then [s[0]] else [s[0]] + UpTo(s[1..], stop)
  }

  lemma {:induction false} UpToSplit(a: seq<Handle>, c: seq<Handle>, stop: Handle -> bool)
    requires forall b :: b in a ==> !stop(b)
    ensures UpTo(a + c, stop) == a + UpTo(c, stop)
  {
    if a == [] {
      assert a + c == c;
    } else {
      assert (a + c)[1..] == a[1..] + c;
      UpToSplit(a[1..], c, stop);
    }
  }

  lemma DedupSnoc(s: seq<Handle>, b: Handle)
    ensures Dedup(s + [b]) == if b in Dedup(s) then Dedup(s) else Dedup(s) + [b]
  {
    assert (s + [b])[..|s|] == s;
  }

  lemma {:induction false} DedupPrefix(a: seq<Handle>, c: seq<Handle>)
    ensures Dedup(a) <= Dedup(a + c)
  {
    if c == [] {
      assert a + c == a;
    } else {
      var init, last := c[..|c| - 1], c[|c| - 1];
      DedupPrefix(a, init);
      assert a + c == a + init + [last];
      DedupSnoc(a + init, last);
    }
  }

  lemma DedupGrows(a: seq<Handle>, b: Handle, c: seq<Handle>)
    requires b !in Dedup(a)
    ensures Dedup(a) + [b] <= Dedup(a + [b] + c)
  {
    DedupSnoc(a, b);
    DedupPrefix(a + [b], c);
  }

  lemma Wrapped(x: nat, n: nat)
    requires x < 2 * n
    ensures x % n == if x < n then x else x - n
  {
    if x < n { Arith.DivUnique(x, n, 0, x); } else { Arith.DivUnique(x, n, 1, x - n); }
  }

  lemma ClockwiseIndex(vnodes: seq<VNode>, h: nat, i: nat)
    requires i < |vnodes|
    ensures |Clockwise(vnodes, h)| == |vnodes|
    ensures (LowerBound(vnodes, h) + i) % |vnodes| < |vnodes|
    ensures Clockwise(vnodes, h)[i] == vnodes[(LowerBound(vnodes, h) + i) % |vnodes|].backend
  {
    var start := LowerBound(vnodes, h);
    OwnersMembers(vnodes[start..] + vnodes[..start]);
    Wrapped(start + i, |vnodes|);
  }

  lemma StopsAt(s: seq<Handle>, before: seq<Handle>, b: Handle, stop: Handle -> bool)
    requires before + [b] <= s && stop(b)
    requires forall x :: x in before ==> !stop(x)
    ensures UpTo(s, stop) == before + [b]
  {
    var rest := s[|before|..];
    assert s == before + rest;
    assert rest[0] == (before + [b])[|before|];
    UpToSplit(before, rest, stop);
  }

  lemma NeverStops(s: seq<Handle>, stop: Handle -> bool)
    requires forall b :: b in s ==> !stop(b)
    ensures UpTo(s, stop) == s
  {
    UpToSplit(s, [], stop);
    assert s + [] == s;
  }

  lemma Around(met: seq<Handle>, i: nat)
    requires i < |met|
    ensures met[..i + 1] == met[..i] + [met[i]]
    ensures met == met[..i] + [met[i]] + met[i + 1..]
  {}

  lemma DedupTake(met: seq<Handle>, i: nat)
    requires i < |met|
    ensures Dedup(met[..i + 1]) == if met[i] in Dedup(met[..i]) then Dedup(met[..i]) else Dedup(met[..i]) + [met[i]]
  {
    Around(met, i);
    DedupSnoc(met[..i], met[i]);
  }

  /** The first acceptable newcomer ends the walk. */
  lemma StopsHere(met: seq<Handle>, i: nat, stop: Handle -> bool)
    requires i < |met| && met[i] !in Dedup(met[..i]) && stop(met[i])
    requires forall x :: x in Dedup(met[..i]) ==> !stop(x)
    ensures UpTo(Dedup(met), stop) == Dedup(met[..i]) + [met[i]]
  {
    Around(met, i);
    DedupGrows(met[..i], met[i], met[i + 1..]);
    StopsAt(Dedup(met), Dedup(met[..i]), met[i], stop);
  }

  /** The loop of the iterator, round the circle from start; met is the circle's owners in that order. */
  method WalkCircle(vnodes: seq<VNode>, start: nat, ghost met: seq<Handle>, stop: Handle -> bool) returns (yielded: seq<Handle>)
    requires |met| == |vnodes|
    requires forall i | 0 <= i < |met| :: var k := (start + i) % |vnodes|; k < |vnodes| && met[i] == vnodes[k].backend
    ensures yielded == UpTo(Dedup(met), stop)
  {
    yielded := [];
    var n := |vnodes|;
    var seen: set<Handle> := {};
    for i := 0 to n
      invariant yielded == Dedup(met[..i])
      invariant forall b :: b in seen <==> b in yielded
      invariant forall b :: b in yielded ==> !stop(b)
    {
      assert met[i] == met[i];
      var b := vnodes[(start + i) % n].backend;
      DedupTake(met, i);
      if b !in seen {
        if stop(b) { StopsHere(met, i, stop); }
        seen := seen + {b};
        yielded := yielded + [b];
        if stop(b) { return; }
      }
    }
    assert met[..n] == met;
    NeverStops(yielded, stop);
  }

  /** The iterator: what it yields before a consumer that stops at its first acceptable backend. */
  method Candidates(vnodes: seq<VNode>, h: nat, stop: Handle -> bool) returns (yielded: seq<Handle>)
    requires Sorted(vnodes)
    ensures yielded == UpTo(Walk(vnodes, h), stop)
  {
    if |vnodes| == 0 { return []; }
    var start := BinarySearch(vnodes, h);
    ClockwiseIndex(vnodes, h, 0);
    forall i | 0 <= i < |vnodes|
      ensures (start + i) % |vnodes| < |vnodes| && Clockwise(vnodes, h)[i] == vnodes[(start + i) % |vnodes|].backend
    {
      ClockwiseIndex(vnodes, h, i);
    }
    yielded := WalkCircle(vnodes, start, Clockwise(vnodes, h), stop);
  }
}
