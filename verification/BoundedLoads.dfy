/** Consistent hashing with bounded loads (internal/balancer/consistent_hash.go): the admission
    ceiling, one Select, and closed-loop runs of it.  The ceiling is the exact rational one. */
module BoundedLoads {
  import opened Fleet
  import opened Seqs
  import opened Ring
  import Arith

  /** What one Select reads: the registry's current members, and the flags and counters of backend objects.
      A backend object outside the registry may still be healthy; removed says which have been retired. */
  datatype Pool = Pool(members: seq<Handle>, healthy: set<Handle>, removed: set<Handle>,
                       circuitOpen: set<Handle>, active: map<Handle, nat>)
  {
    function Load(b: Handle): nat {
      if b in active then active[b] else 0
    }

    function IncActive(b: Handle): Pool {
      this.(active := active[b := Load(b) + 1])
    }

    /** Registry.Selectable: healthy and not circuit-open, in registry order. */
    function Selectable(): seq<Handle> {
      Filter(members, InPool(healthy, circuitOpen))
    }

    function Total(s: seq<Handle>): nat {
      if s == [] then 0 else Total(s[..|s| - 1]) + Load(s[|s| - 1])
    }

    predicate Admits(b: Handle, capacity: nat) {
      b in healthy && b !in removed && Load(b) <= capacity
    }

    /** No reload is in progress: nothing the registry lists has been retired. */
    predicate Settled() {
      forall b :: b in members ==> b !in removed
    }
  }

  function InPool(healthy: set<Handle>, circuitOpen: set<Handle>): Handle -> bool {
    (b: Handle) => b in healthy && b !in circuitOpen
  }

  datatype SelectError = NoHealthyBackends

  // ---------- the admission ceiling ----------

  /** max(1, ceil(total / n * 1.25)). */
  function Capacity(total: nat, n: nat): nat
    requires n > 0
  {
    var ceiling := (5 * total + 4 * n - 1) / (4 * n);
    if ceiling < 1 then 1 else ceiling
  }

  /** The ceiling is the least positive integer that is at least five quarters of the mean load. */
  lemma CapacityIsLeast(total: nat, n: nat, c: nat)
    requires n > 0
    ensures 1 <= c && 5 * total <= 4 * n * c <==> Capacity(total, n) <= c
  {
    var d := 4 * n;
    var q := (5 * total + d - 1) / d;
    assert d * q <= 5 * total + d - 1 < d * q + d;
    if q <= c {
      Arith.MulMonotone(d, q, c);
    } else {
      Arith.MulMonotone(d, c + 1, q);
    }
  }

  lemma CapacityMonotone(t: nat, u: nat, n: nat)
    requires n > 0 && t <= u
    ensures Capacity(t, n) <= Capacity(u, n)
  {
    CapacityIsLeast(u, n, Capacity(u, n));
    CapacityIsLeast(t, n, Capacity(u, n));
  }

  // ---------- what Select returns ----------

  function FirstAdmitted(p: Pool, walk: seq<Handle>, capacity: nat): Option<Handle> {
    if walk == [] then None
    else if p.Admits(walk[0], capacity) then Some(walk[0])
    else FirstAdmitted(p, walk[1..], capacity)
  }

  /** The fallback: the first least-loaded candidate that is healthy and not removed. */
  function LeastLoaded(p: Pool, walk: seq<Handle>): Option<Handle> {
    if walk == [] then None
    else
      var least, b := LeastLoaded(p, walk[..|walk| - 1]), walk[|walk| - 1];
      if b in p.healthy && b !in p.removed && (least.None? || p.Load(b) < p.Load(least.value)) then Some(b)
      else least
  }

  function SelectFrom(p: Pool, walk: seq<Handle>): Result<Handle, SelectError> {
    var selectable := p.Selectable();
    if selectable == [] then Err(NoHealthyBackends)
    else
      var first := FirstAdmitted(p, walk, Capacity(p.Total(selectable), |selectable|));
      if first.Some? then Ok(first.value)
      else
        var least := LeastLoaded(p, walk);
        if least.Some? then Ok(least.value) else Err(NoHealthyBackends)
  }

  method Selectable(p: Pool) returns (selectable: seq<Handle>)
    ensures selectable == p.Selectable()
    ensures forall b :: b in selectable <==> b in p.members && b in p.healthy && b !in p.circuitOpen
  {
    selectable := [];
    for i := 0 to |p.members|
      invariant selectable == Filter(p.members[..i], InPool(p.healthy, p.circuitOpen))
    {
      var b := p.members[i];
      FilterTake(p.members, i, InPool(p.healthy, p.circuitOpen));
      if b in p.healthy && b !in p.circuitOpen { selectable := selectable + [b]; }
    }
    assert p.members[..|p.members|] == p.members;
  }

  method CapacityFor(p: Pool, selectable: seq<Handle>) returns (capacity: nat)
    requires selectable != []
    ensures capacity == Capacity(p.Total(selectable), |selectable|)
  {
    var total: nat := 0;
    for i := 0 to |selectable|
      invariant total == p.Total(selectable[..i])
    {
      assert selectable[..i + 1][..i] == selectable[..i];
      total := total + p.Load(selectable[i]);
    }
    assert selectable[..|selectable|] == selectable;
    capacity := (5 * total + 4 * |selectable| - 1) / (4 * |selectable|);
    if capacity < 1 { return 1; }
  }

  /** Select over whatever ring the caller holds; the ring may be older than the registry. */
  method Select(p: Pool, ring: seq<VNode>, h: nat) returns (r: Result<Handle, SelectError>)
    requires Sorted(ring)
    ensures r == SelectFrom(p, Walk(ring, h))
  {
    var selectable := Selectable(p);
    if |selectable| == 0 { return Err(NoHealthyBackends); }
    var capacity := CapacityFor(p, selectable);
    var walk := Candidates(ring, h, _ => false);
    NeverStops(Walk(ring, h), _ => false);
    var leastLoaded: Option<Handle> := None;
    for i := 0 to |walk|
      invariant FirstAdmitted(p, walk, capacity) == FirstAdmitted(p, walk[i..], capacity)
      invariant leastLoaded == LeastLoaded(p, walk[..i])
    {
      var b := walk[i];
      assert walk[i..][1..] == walk[i + 1..];
      if p.Admits(b, capacity) { return Ok(b); }
      assert walk[..i + 1][..i] == walk[..i];
      if b in p.healthy && b !in p.removed && (leastLoaded.None? || p.Load(b) < p.Load(leastLoaded.value)) {
        leastLoaded := Some(b);
      }
    }
    assert walk[..|walk|] == walk;
    return if leastLoaded.Some? then Ok(leastLoaded.value) else Err(NoHealthyBackends);
  }

  // ---------- the fallback is dead ----------

  lemma {:induction false} TotalAtLeast(p: Pool, s: seq<Handle>, least: nat)
    requires forall b :: b in s ==> p.Load(b) >= least
    ensures p.Total(s) >= |s| * least
  {
    if s != [] {
      assert s == s[..|s| - 1] + [s[|s| - 1]];
      TotalAtLeast(p, s[..|s| - 1], least);
    }
  }

  lemma NotAllAbove(total: nat, n: nat)
    requires n > 0
    ensures total < n * (Capacity(total, n) + 1)
  {
    var c := Capacity(total, n);
    CapacityIsLeast(total, n, c);
    assert 4 * n * c == 4 * (n * c);
    assert n * (c + 1) == n * c + n;
  }

  /** Some member of any non-empty set is within the capacity computed over that set. */
  lemma SomeWithinCapacity(p: Pool, s: seq<Handle>) returns (b: Handle)
    requires s != []
    ensures b in s && p.Load(b) <= Capacity(p.Total(s), |s|)
  {
    var c := Capacity(p.Total(s), |s|);
    NotAllAbove(p.Total(s), |s|);
    if forall x :: x in s ==> p.Load(x) >= c + 1 {
      TotalAtLeast(p, s, c + 1);
      assert false;
    }
    b :| b in s && p.Load(b) <= c;
  }

  lemma {:induction false} FirstAdmittedIsFirst(p: Pool, walk: seq<Handle>, capacity: nat, b: Handle)
    requires b in walk && p.Admits(b, capacity)
    ensures FirstAdmitted(p, walk, capacity).Some?
    ensures var f := FirstAdmitted(p, walk, capacity).value;
            exists i :: 0 <= i < |walk| && walk[i] == f && p.Admits(f, capacity)
                        && forall j :: 0 <= j < i ==> !p.Admits(walk[j], capacity)
  {
    if p.Admits(walk[0], capacity) {
    } else {
      FirstAdmittedIsFirst(p, walk[1..], capacity, b);
      var f := FirstAdmitted(p, walk, capacity).value;
      var i :| 0 <= i < |walk[1..]| && walk[1..][i] == f
               && forall j :: 0 <= j < i ==> !p.Admits(walk[1..][j], capacity);
      assert walk[i + 1] == f;
      forall j | 0 <= j < i + 1 ensures !p.Admits(walk[j], capacity) {
        assert j == 0 || walk[j] == walk[1..][j - 1];
      }
    }
  }

  /** b is the first candidate in ring order that is healthy, not removed and within capacity. */
  predicate FirstEligible(p: Pool, walk: seq<Handle>, b: Handle)
    requires p.Selectable() != []
  {
    var capacity := Capacity(p.Total(p.Selectable()), |p.Selectable()|);
    exists i :: 0 <= i < |walk| && walk[i] == b && p.Admits(b, capacity)
                && forall j :: 0 <= j < i ==> !p.Admits(walk[j], capacity)
  }

  /** With no reload in progress and consistently read loads, Select fails exactly when nothing is
      selectable, and otherwise returns the first eligible candidate: the least-loaded fallback is never taken. */
  lemma FallbackIsDead(p: Pool, hash: Hasher, h: nat)
    requires p.Settled()
    ensures var r := SelectFrom(p, Walk(RingOf(hash, p.members), h));
            && (r.Err? <==> p.Selectable() == [])
            && (r.Ok? ==> FirstEligible(p, Walk(RingOf(hash, p.members), h), r.value))
  {
    if p.Selectable() != [] {
      var walk := Walk(RingOf(hash, p.members), h);
      WalkVisitsEachOnce(hash, p.members, h);
      var b := SomeWithinCapacity(p, p.Selectable());
      FirstAdmittedIsFirst(p, walk, Capacity(p.Total(p.Selectable()), |p.Selectable()|), b);
    }
  }

  /** Whatever ring the caller holds, even one built before a reload, the result is healthy and not retired. */
  lemma NeverReturnsRemoved(p: Pool, walk: seq<Handle>)
    ensures SelectFrom(p, walk).Ok? ==>
              var b := SelectFrom(p, walk).value; b in walk && b in p.healthy && b !in p.removed
  {
    if p.Selectable() != [] {
      AdmittedIsLive(p, walk, Capacity(p.Total(p.Selectable()), |p.Selectable()|));
      LeastLoadedIsLive(p, walk);
    }
  }

  lemma {:induction false} AdmittedIsLive(p: Pool, walk: seq<Handle>, capacity: nat)
    ensures var f := FirstAdmitted(p, walk, capacity);
            f.Some? ==> f.value in walk && p.Admits(f.value, capacity)
  {
    if walk != [] && !p.Admits(walk[0], capacity) { AdmittedIsLive(p, walk[1..], capacity); }
  }

  lemma {:induction false} LeastLoadedIsLive(p: Pool, walk: seq<Handle>)
    ensures var f := LeastLoaded(p, walk);
            f.Some? ==> f.value in walk && f.value in p.healthy && f.value !in p.removed
  {
    if walk != [] { LeastLoadedIsLive(p, walk[..|walk| - 1]); }
  }

  predicate Live(p: Pool, b: Handle) {
    b in p.healthy && b !in p.removed
  }

  /** Candidate i is live, no live candidate is less loaded, and none before it is as little loaded. */
  predicate LeastAt(p: Pool, walk: seq<Handle>, i: int) {
    && 0 <= i < |walk| && Live(p, walk[i])
    && forall j :: 0 <= j < |walk| && Live(p, walk[j]) ==>
         if j < i then p.Load(walk[i]) < p.Load(walk[j]) else p.Load(walk[i]) <= p.Load(walk[j])
  }

  lemma LeastStays(p: Pool, walk: seq<Handle>, last: Handle, i: int)
    requires LeastAt(p, walk, i) && (Live(p, last) ==> p.Load(walk[i]) <= p.Load(last))
    ensures LeastAt(p, walk + [last], i)
  {
  }

  lemma LeastMoves(p: Pool, walk: seq<Handle>, last: Handle)
    requires Live(p, last) && forall j :: 0 <= j < |walk| && Live(p, walk[j]) ==> p.Load(last) < p.Load(walk[j])
    ensures LeastAt(p, walk + [last], |walk|)
  {
  }

  /** The fallback is the first least-loaded live candidate, and there is none exactly when no candidate is live. */
  lemma {:induction false} FallbackIsLeastLoaded(p: Pool, walk: seq<Handle>) returns (i: int)
    ensures LeastLoaded(p, walk).None? <==> forall j :: 0 <= j < |walk| ==> !Live(p, walk[j])
    ensures LeastLoaded(p, walk).Some? ==> LeastAt(p, walk, i) && walk[i] == LeastLoaded(p, walk).value
  {
    i := -1;
    if walk != [] {
      var init, last := walk[..|walk| - 1], walk[|walk| - 1];
      assert walk == init + [last];
      i := FallbackIsLeastLoaded(p, init);
      var least := LeastLoaded(p, init);
      if Live(p, last) && (least.None? || p.Load(last) < p.Load(least.value)) {
        LeastMoves(p, init, last);
        i := |init|;
      } else if least.Some? {
        LeastStays(p, init, last, i);
      }
    }
  }

  // ---------- what Select returns from any walk ----------

  /** b is live, and it holds at most one request or, one request fewer, it would be below five quarters of the mean load of
      the n selectable backends, total in all. */
  predicate Eligible(p: Pool, b: Handle, total: nat, n: nat) {
    Live(p, b) && (p.Load(b) <= 1 || 4 * n * (p.Load(b) - 1) < 5 * total)
  }

  lemma EligibleIsAdmitted(p: Pool, b: Handle, total: nat, n: nat)
    requires n > 0
    ensures Eligible(p, b, total, n) <==> p.Admits(b, Capacity(total, n))
  {
    if p.Load(b) > 0 { CapacityIsLeast(total, n, p.Load(b) - 1); }
  }

  /** Candidate i is the first eligible one. */
  predicate FirstEligibleAt(p: Pool, walk: seq<Handle>, i: int, total: nat, n: nat) {
    0 <= i < |walk| && Eligible(p, walk[i], total, n) && forall j :: 0 <= j < i ==> !Eligible(p, walk[j], total, n)
  }

  lemma {:induction false} FirstAdmittedAt(p: Pool, walk: seq<Handle>, total: nat, n: nat) returns (i: int)
    requires n > 0
    ensures var f := FirstAdmitted(p, walk, Capacity(total, n));
            if f.Some? then FirstEligibleAt(p, walk, i, total, n) && walk[i] == f.value
            else forall j :: 0 <= j < |walk| ==> !Eligible(p, walk[j], total, n)
  {
    i := 0;
    if walk != [] {
      EligibleIsAdmitted(p, walk[0], total, n);
      if !p.Admits(walk[0], Capacity(total, n)) {
        i := FirstAdmittedAt(p, walk[1..], total, n);
        i := i + 1;
        assert forall j :: 0 < j < |walk| ==> walk[j] == walk[1..][j - 1];
      }
    }
  }

  /** From any walk, even of a stale ring and during a reload: Select fails exactly when nothing is selectable or no candidate
      is live; otherwise it returns the first eligible candidate, or the first least loaded live one if none is eligible. */
  lemma SelectFromAnyWalk(p: Pool, walk: seq<Handle>) returns (i: int)
    ensures var r := SelectFrom(p, walk);
            && (r.Err? <==> p.Selectable() == [] || forall j :: 0 <= j < |walk| ==> !Live(p, walk[j]))
            && (r.Ok? ==>
                  var total, n := p.Total(p.Selectable()), |p.Selectable()|;
                  && 0 <= i < |walk| && walk[i] == r.value
                  && if exists j :: 0 <= j < |walk| && Eligible(p, walk[j], total, n) then FirstEligibleAt(p, walk, i, total, n)
                     else LeastAt(p, walk, i))
  {
    i := 0;
    if p.Selectable() != [] {
      var total, n := p.Total(p.Selectable()), |p.Selectable()|;
      i := FirstAdmittedAt(p, walk, total, n);
      if FirstAdmitted(p, walk, Capacity(total, n)).None? { i := FallbackIsLeastLoaded(p, walk); }
    }
  }

  // ---------- when the result is selectable ----------

  function CapacityOf(p: Pool): nat
    requires p.Selectable() != []
  {
    Capacity(p.Total(p.Selectable()), |p.Selectable()|)
  }

  /** Candidate i would be admitted although its circuit is open. */
  predicate OpenAdmitted(p: Pool, walk: seq<Handle>, c: nat, i: int) {
    0 <= i < |walk| && p.Admits(walk[i], c) && walk[i] in p.circuitOpen
  }

  /** Some candidate before i is admitted with its circuit not open. */
  predicate ShieldedAt(p: Pool, walk: seq<Handle>, c: nat, i: int) {
    exists j :: 0 <= j < i && j < |walk| && p.Admits(walk[j], c) && walk[j] !in p.circuitOpen
  }

  /** Every admissible circuit-open candidate comes after an admissible one whose circuit is not open. */
  predicate OpenShielded(p: Pool, walk: seq<Handle>, c: nat) {
    forall i | 0 <= i < |walk| :: OpenAdmitted(p, walk, c, i) ==> ShieldedAt(p, walk, c, i)
  }

  lemma FirstDecidesShield(p: Pool, walk: seq<Handle>, c: nat, i: nat)
    requires i < |walk| && p.Admits(walk[i], c) && forall j :: 0 <= j < i ==> !p.Admits(walk[j], c)
    ensures walk[i] in p.circuitOpen <==> !OpenShielded(p, walk, c)
  {
    if walk[i] in p.circuitOpen {
      assert OpenAdmitted(p, walk, c, i);
    } else {
      forall k | OpenAdmitted(p, walk, c, k)
        ensures ShieldedAt(p, walk, c, k)
      {
        assert i < k;
      }
    }
  }

  /** Admission never looks at the circuit, so for one key the result lies in the selectable set exactly when every
      admissible circuit-open candidate of the key's walk is shielded. */
  lemma CircuitIsNotConsulted(p: Pool, hash: Hasher, h: nat)
    requires p.Settled() && p.Selectable() != []
    ensures var walk := Walk(RingOf(hash, p.members), h);
            var r := SelectFrom(p, walk);
            r.Ok? && (r.value in p.Selectable() <==> OpenShielded(p, walk, CapacityOf(p)))
  {
    var walk := Walk(RingOf(hash, p.members), h);
    FallbackIsDead(p, hash, h);
    NeverReturnsRemoved(p, walk);
    WalkVisitsEachOnce(hash, p.members, h);
    var r := SelectFrom(p, walk).value;
    var i :| 0 <= i < |walk| && walk[i] == r && p.Admits(r, CapacityOf(p))
             && forall j :: 0 <= j < i ==> !p.Admits(walk[j], CapacityOf(p));
    FirstDecidesShield(p, walk, CapacityOf(p), i);
  }

  /** No healthy member with an open circuit is within capacity. */
  predicate OpenMembersOverloaded(p: Pool)
    requires p.Selectable() != []
  {
    forall b :: b in p.members && b in p.healthy && b in p.circuitOpen ==> p.Load(b) > CapacityOf(p)
  }

  /** If no circuit-open member is within capacity, the result is selectable for every key. */
  lemma OverloadedOpenNeverReturned(p: Pool, hash: Hasher, h: nat)
    requires p.Settled() && p.Selectable() != [] && OpenMembersOverloaded(p)
    ensures var r := SelectFrom(p, Walk(RingOf(hash, p.members), h)); r.Ok? && r.value in p.Selectable()
  {
    CircuitIsNotConsulted(p, hash, h);
    WalkVisitsEachOnce(hash, p.members, h);
    var walk, c := Walk(RingOf(hash, p.members), h), CapacityOf(p);
    forall i | 0 <= i < |walk|
      ensures !OpenAdmitted(p, walk, c, i)
    {
      assert walk[i] in walk && walk[i] in p.members;
    }
  }

  /** What follows the first colon of a virtual node's key: the backend's name. */
  function AfterColon(key: string): string {
    if key == "" then "" else if key[0] == ':' then key[1..] else AfterColon(key[1..])
  }

  lemma {:induction false} AfterColonOf(digits: string, name: string)
    requires ':' !in digits
    ensures AfterColon(digits + ":" + name) == name
  {
    if digits == "" {
      assert digits + ":" + name == [':'] + name;
    } else {
      assert (digits + ":" + name)[1..] == digits[1..] + ":" + name;
      AfterColonOf(digits[1..], name);
    }
  }

  /** A hash that places exactly the virtual nodes of the named backend first. */
  function Favouring(name: string): Hasher {
    (key: string) => if AfterColon(key) == name then 0 else 1
  }

  lemma {:induction false} FavouredNodes(name: string, x: Handle, n: nat)
    ensures forall v :: v in NodesOf(Favouring(name), x, n) ==> (v.position == 0 <==> x.name == name)
  {
    if n > 0 {
      FavouredNodes(name, x, n - 1);
      ItoaReadsBack(n - 1);
      AfterColonOf(Itoa(n - 1), x.name);
    }
  }

  lemma {:induction false} FavouredRing(name: string, all: seq<Handle>)
    ensures forall v :: v in AllNodes(Favouring(name), all) ==> (v.position == 0 <==> v.backend.name == name)
  {
    if all != [] {
      FavouredRing(name, all[..|all| - 1]);
      FavouredNodes(name, all[|all| - 1], VIRTUAL_NODES_PER_BACKEND);
      NodesOfMembers(Favouring(name), all[|all| - 1], VIRTUAL_NODES_PER_BACKEND);
    }
  }

  lemma {:induction false} DedupHead(s: seq<Handle>)
    requires s != []
    ensures Dedup(s) != [] && Dedup(s)[0] == s[0]
  {
    if |s| > 1 { DedupHead(s[..|s| - 1]); }
  }

  /** When nothing lies before h the walk starts at the ring's first node. */
  lemma WalkHead(ring: seq<VNode>, h: nat)
    requires ring != [] && Sorted(ring) && ring[0].position >= h
    ensures Walk(ring, h) != [] && Walk(ring, h)[0] == ring[0].backend
  {
    LowerBoundSplits(ring, h);
    assert LowerBound(ring, h) == 0;
    assert ring[0..] + ring[..0] == ring;
    OwnersMembers(ring);
    DedupHead(Owners(ring));
  }

  lemma SmallestFirst(ring: seq<VNode>, v: VNode)
    requires Sorted(ring) && v in ring && v.position == 0
    ensures ring[0].position == 0
  {
    var i :| 0 <= i < |ring| && ring[i] == v;
    assert i == 0 || ring[0].position <= ring[i].position;
  }

  /** With that hash the named backend owns the position 0. */
  lemma FavouredOwner(all: seq<Handle>, b: Handle)
    requires b in all && forall x :: x in all && x.name == b.name ==> x == b
    ensures var walk := Walk(RingOf(Favouring(b.name), all), 0); walk != [] && walk[0] == b
  {
    var nodes := AllNodes(Favouring(b.name), all);
    var ring := StableSort(nodes);
    AllNodesMembers(Favouring(b.name), all);
    FavouredRing(b.name, all);
    var v :| v in nodes && v.backend == b;
    StableSortSorted(nodes);
    SmallestFirst(ring, v);
    assert ring[0] in ring;
    assert ring[0] in nodes;
    WalkHead(ring, 0);
  }

  /** If some circuit-open member is within capacity, there are a hash and a key for which it is returned. */
  lemma OpenWithinCapacityReturned(p: Pool, b: Handle)
    requires p.Settled() && p.Selectable() != [] && b in p.members
    requires forall x :: x in p.members && x.name == b.name ==> x == b
    requires b in p.healthy && b in p.circuitOpen && p.Load(b) <= CapacityOf(p)
    ensures SelectFrom(p, Walk(RingOf(Favouring(b.name), p.members), 0)) == Ok(b) && b !in p.Selectable()
  {
    FavouredOwner(p.members, b);
    OwnerAdmitted(p, Walk(RingOf(Favouring(b.name), p.members), 0));
  }

  /** Read off the pool alone: the result is selectable whatever the hash and the key, exactly when every healthy
      circuit-open member is over capacity. */
  lemma SelectableForEveryKey(p: Pool)
    requires p.Settled() && p.Selectable() != [] && NamesApart(set b | b in p.members)
    ensures OpenMembersOverloaded(p) <==>
              forall hash: Hasher, h: nat :: SelectsSelectable(p, hash, h)
  {
    if OpenMembersOverloaded(p) {
      forall hash: Hasher, h: nat
        ensures SelectsSelectable(p, hash, h)
      {
        OverloadedOpenNeverReturned(p, hash, h);
      }
    } else {
      var b :| b in p.members && b in p.healthy && b in p.circuitOpen && p.Load(b) <= CapacityOf(p);
      OpenWithinCapacityReturned(p, b);
      assert !SelectsSelectable(p, Favouring(b.name), 0);
    }
  }

  predicate SelectsSelectable(p: Pool, hash: Hasher, h: nat) {
    var r := SelectFrom(p, Walk(RingOf(hash, p.members), h));
    r.Ok? && r.value in p.Selectable()
  }

  /** A failing pool for every fleet of two or more, every hash and every key: all healthy and idle, and only the owner's
      circuit open.  The owner is returned. */
  lemma OpenOwnerReturned(members: seq<Handle>, hash: Hasher, h: nat) returns (p: Pool)
    requires |members| >= 2 && Distinct(members)
    ensures p.members == members && p.Settled() && p.Selectable() != [] && |p.circuitOpen| == 1
    ensures var r := SelectFrom(p, Walk(RingOf(hash, members), h));
            r.Ok? && r.value in p.circuitOpen && r.value !in p.Selectable()
  {
    var walk := Walk(RingOf(hash, members), h);
    WalkVisitsEachOnce(hash, members, h);
    assert members[0] in members && members[1] in members && members[0] in walk;
    p := Pool(members, set b | b in members, {}, {walk[0]}, map[]);
    var other := if members[0] == walk[0] then members[1] else members[0];
    assert other in p.Selectable();
    OwnerAdmitted(p, walk);
  }

  // ---------- closed-loop runs ----------

  function Advance(q: Pool, choice: Option<Handle>): Pool {
    if choice.Some? then q.IncActive(choice.value) else q
  }

  /** Each key in turn is selected and, when a backend is found, occupies one slot that is never released. */
  function RunWith(p: Pool, select: (Pool, nat) -> Option<Handle>, keys: seq<nat>): Pool {
    if keys == [] then p
    else
      var q := RunWith(p, select, keys[..|keys| - 1]);
      Advance(q, select(q, keys[|keys| - 1]))
  }

  /** Selection over the ring of the pool's own members. */
  function Selecting(hash: Hasher): (Pool, nat) -> Option<Handle> {
    (q: Pool, h: nat) =>
      var r := SelectFrom(q, Walk(RingOf(hash, q.members), h));
      if r.Ok? then Some(r.value) else None
  }

  function Run(p: Pool, hash: Hasher, keys: seq<nat>): Pool {
    RunWith(p, Selecting(hash), keys)
  }

  /** What selecting one key keeps holds of a run of that key, from where it first holds. */
  lemma {:induction false} RunInduction(p: Pool, select: (Pool, nat) -> Option<Handle>, keys: seq<nat>, h: nat,
                                        inv: (Pool, nat) -> bool, from: nat)
    requires from <= |keys| && (forall i :: from <= i < |keys| ==> keys[i] == h)
    requires inv(RunWith(p, select, keys[..from]), from)
    requires forall q, t: nat :: from <= t && inv(q, t) ==> inv(Advance(q, select(q, h)), t + 1)
    ensures inv(RunWith(p, select, keys), |keys|)
  {
    if |keys| == from {
      assert keys[..from] == keys;
    } else {
      var init := keys[..|keys| - 1];
      assert init[..from] == keys[..from];
      RunInduction(p, select, init, h, inv, from);
    }
  }

  predicate Fresh(p: Pool) {
    p.Settled() && p.active == map[] && Distinct(p.members) && p.Selectable() != []
  }

  lemma {:induction false} TotalAfterInc(p: Pool, s: seq<Handle>, b: Handle)
    requires Distinct(s)
    ensures p.IncActive(b).Total(s) == p.Total(s) + if b in s then 1 else 0
  {
    if s != [] {
      assert s == s[..|s| - 1] + [s[|s| - 1]];
      TotalAfterInc(p, s[..|s| - 1], b);
    }
  }

  lemma {:induction false} TotalOfFilter(p: Pool, s: seq<Handle>, keep: Handle -> bool)
    ensures p.Total(Filter(s, keep)) <= p.Total(s)
  {
    if s != [] {
      var init, last := s[..|s| - 1], s[|s| - 1];
      assert s == init + [last];
      TotalOfFilter(p, init, keep);
      FilterSnoc(init, last, keep);
      var r := Filter(init, keep);
      assert (r + [last])[..|r|] == r;
    }
  }

  lemma {:induction false} TotalOfZero(p: Pool, s: seq<Handle>)
    requires p.active == map[]
    ensures p.Total(s) == 0
  {
    if s != [] { TotalOfZero(p, s[..|s| - 1]); }
  }

  /** The largest load after t selections over n selectable backends. */
  function Bound(t: nat, n: nat): nat
    requires n > 0
  {
    if t == 0 then 0 else Capacity(t - 1, n) + 1
  }

  lemma {:induction false} RunInvariant(p: Pool, hash: Hasher, keys: seq<nat>)
    requires Fresh(p)
    ensures var q := Run(p, hash, keys);
            && q.(active := map[]) == p && q.Selectable() == p.Selectable()
            && q.Total(p.members) == |keys|
            && forall b :: q.Load(b) <= Bound(|keys|, |p.Selectable()|)
  {
    if keys == [] {
      TotalOfZero(p, p.members);
    } else {
      var t := |keys| - 1;
      RunInvariant(p, hash, keys[..t]);
      RunStep(Run(p, hash, keys[..t]), hash, keys[t], t);
    }
  }

  lemma RunStep(q: Pool, hash: Hasher, h: nat, t: nat)
    requires q.Settled() && Distinct(q.members) && q.Selectable() != []
    requires q.Total(q.members) == t && forall b :: q.Load(b) <= Bound(t, |q.Selectable()|)
    ensures var r := SelectFrom(q, Walk(RingOf(hash, q.members), h));
            && r.Ok?
            && q.IncActive(r.value).Total(q.members) == t + 1
            && forall b :: q.IncActive(r.value).Load(b) <= Bound(t + 1, |q.Selectable()|)
  {
    SelectStep(q, hash, h);
    var b := SelectFrom(q, Walk(RingOf(hash, q.members), h)).value;
    TotalAfterInc(q, q.members, b);
    TotalOfFilter(q, q.members, InPool(q.healthy, q.circuitOpen));
    var n := |q.Selectable()|;
    CapacityMonotone(q.Total(q.Selectable()), t, n);
    BoundMonotone(t, n);
    assert q.Load(b) <= Capacity(t, n);
    forall x ensures q.IncActive(b).Load(x) <= Bound(t + 1, n) {
      assert q.Load(x) <= Bound(t, n);
    }
  }

  lemma BoundMonotone(t: nat, n: nat)
    requires n > 0
    ensures Bound(t, n) <= Bound(t + 1, n) == Capacity(t, n) + 1
  {
    if t > 0 { CapacityMonotone(t - 1, t, n); }
  }

  lemma SelectStep(q: Pool, hash: Hasher, h: nat)
    requires q.Settled() && q.Selectable() != []
    ensures var r := SelectFrom(q, Walk(RingOf(hash, q.members), h));
            r.Ok? && r.value in q.members
            && q.Load(r.value) <= Capacity(q.Total(q.Selectable()), |q.Selectable()|)
  {
    FallbackIsDead(q, hash, h);
    WalkVisitsEachOnce(hash, q.members, h);
  }

  /** From zero load over n fixed selectable backends, after any T selections no backend holds more than
      one slot above the ceiling computed one selection earlier. */
  lemma ClosedLoopBound(p: Pool, hash: Hasher, keys: seq<nat>, b: Handle)
    requires Fresh(p)
    ensures var n := |p.Selectable()|;
            && Run(p, hash, keys).Load(b) <= Bound(|keys|, n) <= Capacity(|keys|, n) + 1
  {
    RunInvariant(p, hash, keys);
    BoundMonotone(|keys|, |p.Selectable()|);
  }

  lemma CapacityStep(t: nat, n: nat)
    requires n >= 2
    ensures Capacity(t, n) <= Capacity(t + 1, n) <= Capacity(t, n) + 1
  {
    var c := Capacity(t, n);
    CapacityMonotone(t, t + 1, n);
    CapacityIsLeast(t, n, c);
    assert 4 * n * (c + 1) == 4 * n * c + 4 * n;
    CapacityIsLeast(t + 1, n, c + 1);
  }

  /** A load at the bound is admitted exactly when the next bound is one higher. */
  lemma BoundFollows(t: nat, n: nat)
    requires n >= 2 && t >= 2
    ensures Bound(t + 1, n) == if Bound(t, n) <= Capacity(t, n) then Bound(t, n) + 1 else Bound(t, n)
  {
    CapacityStep(t - 1, n);
  }

  /** One more selection of a key whose owner is filled to the bound fills it to the next bound. */
  lemma OwnerStaysFilled(q: Pool, hash: Hasher, h: nat, t: nat)
    requires q.Settled() && q.Selectable() == q.members && |q.members| >= 2 && t >= 2
    requires q.Total(q.members) == t
    ensures var walk := Walk(RingOf(hash, q.members), h);
            && walk != [] && SelectFrom(q, walk).Ok?
            && (q.Load(walk[0]) == Bound(t, |q.members|) ==>
                  q.IncActive(SelectFrom(q, walk).value).Load(walk[0]) == Bound(t + 1, |q.members|))
  {
    var walk, n := Walk(RingOf(hash, q.members), h), |q.members|;
    SelectStep(q, hash, h);
    WalkVisitsEachOnce(hash, q.members, h);
    assert q.members[0] in walk;
    BoundFollows(t, n);
    if q.Load(walk[0]) <= Capacity(t, n) {
      assert walk[0] in q.members && walk[0] in q.Selectable();
      OwnerAdmitted(q, walk);
    }
  }

  /** What holds after t selections of one key, owned by b, over n backends. */
  ghost predicate FilledTo(p: Pool, q: Pool, b: Handle, t: nat)
    requires p.members != []
  {
    && q.(active := map[]) == p && q.Selectable() == q.members && q.Total(q.members) == t
    && q.Load(b) == Bound(t, |p.members|)
  }

  lemma FilledStep(p: Pool, q: Pool, hash: Hasher, h: nat, b: Handle, t: nat)
    requires p.Settled() && |p.members| >= 2 && Distinct(p.members) && t >= 2
    requires var walk := Walk(RingOf(hash, p.members), h); walk != [] && walk[0] == b
    ensures FilledTo(p, q, b, t) ==>
              var r := SelectFrom(q, Walk(RingOf(hash, q.members), h));
              r.Ok? && FilledTo(p, q.IncActive(r.value), b, t + 1)
  {
    if FilledTo(p, q, b, t) {
      OwnerStaysFilled(q, hash, h, t);
      var r := SelectFrom(q, Walk(RingOf(hash, q.members), h)).value;
      SelectStep(q, hash, h);
      TotalAfterInc(q, q.members, r);
    }
  }

  lemma FilledTwice(p: Pool, hash: Hasher, h: nat, b: Handle)
    requires Fresh(p) && p.Selectable() == p.members && |p.members| >= 2
    requires var walk := Walk(RingOf(hash, p.members), h); walk != [] && walk[0] == b
    ensures FilledTo(p, Run(p, hash, [h, h]), b, 2)
  {
    forall x | x in p.members
      ensures x in p.healthy
    {
      assert x in p.Selectable();
    }
    var owner := ClosedLoopBoundAttained(p, hash, h);
    RunInvariant(p, hash, [h, h]);
  }

  ghost function Filled(p: Pool, b: Handle): (Pool, nat) -> bool
    requires p.members != []
  {
    (q: Pool, t: nat) => FilledTo(p, q, b, t)
  }

  lemma FilledAdvance(p: Pool, hash: Hasher, h: nat, b: Handle, q: Pool, t: nat)
    requires p.Settled() && |p.members| >= 2 && Distinct(p.members) && t >= 2
    requires var walk := Walk(RingOf(hash, p.members), h); walk != [] && walk[0] == b
    requires Filled(p, b)(q, t)
    ensures Filled(p, b)(Advance(q, Selecting(hash)(q, h)), t + 1)
  {
    FilledStep(p, q, hash, h, b, t);
  }

  lemma FilledThroughout(p: Pool, hash: Hasher, h: nat, keys: seq<nat>, b: Handle)
    requires Fresh(p) && p.Selectable() == p.members && |p.members| >= 2
    requires var walk := Walk(RingOf(hash, p.members), h); walk != [] && walk[0] == b
    requires |keys| >= 2 && forall i :: 0 <= i < |keys| ==> keys[i] == h
    ensures FilledTo(p, Run(p, hash, keys), b, |keys|)
  {
    FilledTwice(p, hash, h, b);
    assert keys[..2] == [h, h];
    forall q, t: nat | 2 <= t && Filled(p, b)(q, t)
      ensures Filled(p, b)(Advance(q, Selecting(hash)(q, h)), t + 1)
    {
      FilledAdvance(p, hash, h, b, q, t);
    }
    RunInduction(p, Selecting(hash), keys, h, Filled(p, b), 2);
  }

  /** The bound is tight for every T of two or more: over two or more backends, all selectable, a single repeated key
      keeps its owner filled to it. */
  lemma ClosedLoopBoundTight(p: Pool, hash: Hasher, h: nat, keys: seq<nat>)
    requires Fresh(p) && p.Selectable() == p.members && |p.members| >= 2
    requires |keys| >= 2 && forall i :: 0 <= i < |keys| ==> keys[i] == h
    ensures var walk := Walk(RingOf(hash, p.members), h);
            walk != [] && Run(p, hash, keys).Load(walk[0]) == Bound(|keys|, |p.members|)
  {
    var walk := Walk(RingOf(hash, p.members), h);
    WalkVisitsEachOnce(hash, p.members, h);
    assert p.members[0] in walk;
    FilledThroughout(p, hash, h, keys, walk[0]);
  }

  /** The smallest case, which holds with open circuits too: over two or more selectable backends the same key twice fills
      its owner to the bound. */
  lemma ClosedLoopBoundAttained(p: Pool, hash: Hasher, h: nat) returns (b: Handle)
    requires Fresh(p) && |p.Selectable()| >= 2
    requires forall x :: x in p.members ==> x in p.healthy
    ensures var walk := Walk(RingOf(hash, p.members), h); walk != [] && b == walk[0]
    ensures b in p.members && Run(p, hash, [h, h]).Load(b) == Bound(2, |p.Selectable()|) == 2
  {
    b := OwnerOf(p, hash, h);
    TwoIsTheBound(|p.Selectable()|);
    IdleOwnerSelected(p, hash, h, b);
    IdleOwnerSelected(p.IncActive(b), hash, h, b);
    RunOfTwo(p, Selecting(hash), h);
  }

  lemma TwoIsTheBound(n: nat)
    requires n >= 2
    ensures Bound(2, n) == 2
  {
    CapacityIsLeast(1, n, 1);
  }

  lemma OwnerOf(p: Pool, hash: Hasher, h: nat) returns (b: Handle)
    requires p.Selectable() != []
    ensures var walk := Walk(RingOf(hash, p.members), h); walk != [] && b == walk[0] && b in p.members
  {
    WalkVisitsEachOnce(hash, p.members, h);
    assert p.Selectable()[0] in p.Selectable();
    assert p.Selectable()[0] in Walk(RingOf(hash, p.members), h);
    b := Walk(RingOf(hash, p.members), h)[0];
  }

  /** The capacity is at least one, so an owner holding at most one slot is selected. */
  lemma IdleOwnerSelected(p: Pool, hash: Hasher, h: nat, b: Handle)
    requires p.Selectable() != [] && b in p.healthy && b !in p.removed && p.Load(b) <= 1
    requires var walk := Walk(RingOf(hash, p.members), h); walk != [] && b == walk[0]
    ensures Selecting(hash)(p, h) == Some(b)
  {
    OwnerAdmitted(p, Walk(RingOf(hash, p.members), h));
  }

  lemma RunOfTwo(p: Pool, select: (Pool, nat) -> Option<Handle>, h: nat)
    ensures var one := Advance(p, select(p, h)); RunWith(p, select, [h, h]) == Advance(one, select(one, h))
  {
    assert [h, h][..1] == [h] && [h][..0] == [];
    assert RunWith(p, select, [h]) == Advance(p, select(p, h));
  }

  lemma OwnerAdmitted(p: Pool, walk: seq<Handle>)
    requires walk != [] && p.Selectable() != []
    requires p.Admits(walk[0], Capacity(p.Total(p.Selectable()), |p.Selectable()|))
    ensures SelectFrom(p, walk) == Ok(walk[0])
  {}
}
