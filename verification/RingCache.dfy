/** The version-keyed ring cache (internal/balancer/consistent_hash.go:77-92) under any interleaving
    of callers and reloads.  Every atomic access is a step of its own; a stored cache value has a fresh
    identity, so a compare-and-swap succeeds only against the very value that was loaded. */
module RingCache {
  import opened Fleet
  import opened Ring

  /** The immutable value behind the cache pointer; id is the pointer. */
  datatype Cache = Cache(id: nat, version: nat, ring: seq<VNode>)

  datatype Pc =
    | Idle
    | FastLoad                                                 // about to load the cache
    | FastVersion(seen: Cache)                                 // about to load the registry version
    | SlowLoad                                                 // about to load the cache in the loop
    | SlowSnapshot(seen: Cache)                                // about to take a registry snapshot
    | SlowSwap(seen: Cache, version: nat, backends: seq<Handle>)  // about to compare and swap

  /** since is the registry version when the call began; answer is the version and ring last returned. */
  datatype Caller = Caller(pc: Pc, since: nat, answer: Option<Cache>)

  /** snapshots[v - 1] is the backend list the registry published as version v. */
  datatype System = System(snapshots: seq<seq<Handle>>, cache: Cache, nextId: nat, callers: map<nat, Caller>)

  datatype Choice = Apply(backends: seq<Handle>) | Call(t: nat) | Step(t: nat)

  function Start(hash: Hasher, backends: seq<Handle>): System {
    System([backends], Cache(0, 1, RingOf(hash, backends)), 1, map[])
  }

  function Goto(s: System, t: nat, pc: Pc): System
    requires t in s.callers
  {
    s.(callers := s.callers[t := s.callers[t].(pc := pc)])
  }

  function Return(s: System, t: nat, c: Cache): System
    requires t in s.callers
  {
    s.(callers := s.callers[t := s.callers[t].(pc := Idle, answer := Some(c))])
  }

  function StepCaller(hash: Hasher, s: System, t: nat): System
    requires t in s.callers
  {
    var version := |s.snapshots|;
    match s.callers[t].pc
    case Idle => s
    case FastLoad => Goto(s, t, FastVersion(s.cache))
    case FastVersion(seen) => if seen.version == version then Return(s, t, seen) else Goto(s, t, SlowLoad)
    case SlowLoad => Goto(s, t, SlowSnapshot(s.cache))
    case SlowSnapshot(seen) =>
      if version == 0 then s
      else if seen.version == version then Return(s, t, seen)
      else Goto(s, t, SlowSwap(seen, version, s.snapshots[version - 1]))
    case SlowSwap(seen, v, backends) =>
      if s.cache.id == seen.id then
        var next := Cache(s.nextId, v, RingOf(hash, backends));
        Return(s.(cache := next, nextId := s.nextId + 1), t, next)
      else Goto(s, t, SlowLoad)
  }

  function Do(hash: Hasher, s: System, c: Choice): System {
    match c
    case Apply(backends) => s.(snapshots := s.snapshots + [backends])
    case Call(t) =>
      if t in s.callers && s.callers[t].pc != Idle then s
      else s.(callers := s.callers[t := Caller(FastLoad, |s.snapshots|, None)])
    case Step(t) => if t in s.callers then StepCaller(hash, s, t) else s
  }

  function Exec(hash: Hasher, s: System, schedule: seq<Choice>): System {
    if schedule == [] then s
    else Do(hash, Exec(hash, s, schedule[..|schedule| - 1]), schedule[|schedule| - 1])
  }

  // ---------- the invariant ----------

  /** c is the ring of exactly the snapshot its version names. */
  predicate Faithful(hash: Hasher, s: System, c: Cache) {
    1 <= c.version <= |s.snapshots| && c.ring == RingOf(hash, s.snapshots[c.version - 1])
  }

  /** A cache value some caller loaded: faithful, not newer than the current one, and equal to it if it is the same
      pointer. */
  predicate Loaded(hash: Hasher, s: System, c: Cache) {
    && Faithful(hash, s, c) && c.id < s.nextId && c.version <= s.cache.version
    && (c.id == s.cache.id ==> c == s.cache)
  }

  predicate CallerOk(hash: Hasher, s: System, k: Caller) {
    && k.since <= |s.snapshots|
    && (k.answer.Some? ==> Faithful(hash, s, k.answer.value) && k.since <= k.answer.value.version)
    && (match k.pc
        case FastVersion(seen) => Loaded(hash, s, seen)
        case SlowSnapshot(seen) => Loaded(hash, s, seen)
        case SlowSwap(seen, v, backends) =>
          Loaded(hash, s, seen) && seen.version < v <= |s.snapshots| && k.since <= v && backends == s.snapshots[v - 1]
        case _ => true)
  }

  predicate Inv(hash: Hasher, s: System) {
    && Loaded(hash, s, s.cache)
    && forall t :: t in s.callers ==> CallerOk(hash, s, s.callers[t])
  }

  /** What one step may change: snapshots are only appended and the cached version never decreases. */
  predicate Grows(s: System, s': System) {
    s.snapshots <= s'.snapshots && s.cache.version <= s'.cache.version
  }

  lemma LoadedStays(hash: Hasher, s: System, s': System, c: Cache)
    requires Loaded(hash, s, c) && Grows(s, s') && s.nextId <= s'.nextId
    requires s'.cache == s.cache || s'.cache.id == s.nextId
    ensures Loaded(hash, s', c)
  {}

  lemma CallerStays(hash: Hasher, s: System, s': System, k: Caller)
    requires CallerOk(hash, s, k) && Grows(s, s') && s.nextId <= s'.nextId
    requires s'.cache == s.cache || s'.cache.id == s.nextId
    ensures CallerOk(hash, s', k)
  {
    match k.pc
    case FastVersion(seen) => LoadedStays(hash, s, s', seen);
    case SlowSnapshot(seen) => LoadedStays(hash, s, s', seen);
    case SlowSwap(seen, v, backends) => LoadedStays(hash, s, s', seen);
    case _ =>
  }

  /** A step other callers cannot tell from one that only stored a fresh cache value, if anything. */
  predicate Harmless(s: System, s': System, t: nat)
    requires t in s'.callers
  {
    && Grows(s, s') && s.nextId <= s'.nextId && (s'.cache == s.cache || s'.cache.id == s.nextId)
    && s'.callers == s.callers[t := s'.callers[t]]
  }

  lemma SwapOk(hash: Hasher, s: System, t: nat)
    requires Inv(hash, s) && t in s.callers && s.callers[t].pc.SlowSwap?
    ensures var s' := StepCaller(hash, s, t);
            t in s'.callers && Harmless(s, s', t) && CallerOk(hash, s', s'.callers[t]) && Loaded(hash, s', s'.cache)
  {
    assert CallerOk(hash, s, s.callers[t]);
  }

  /** A step that only moves the caller on. */
  lemma GotoOk(hash: Hasher, s: System, t: nat, pc: Pc)
    requires Inv(hash, s) && t in s.callers && CallerOk(hash, s, s.callers[t].(pc := pc))
    ensures var s' := Goto(s, t, pc);
            t in s'.callers && Harmless(s, s', t) && CallerOk(hash, s', s'.callers[t]) && Loaded(hash, s', s'.cache)
  {
    var s' := Goto(s, t, pc);
    LoadedStays(hash, s, s', s.cache);
    CallerStays(hash, s, s', s'.callers[t]);
  }

  /** A step that returns a cache value at least as new as the call. */
  lemma ReturnOk(hash: Hasher, s: System, t: nat, c: Cache)
    requires Inv(hash, s) && t in s.callers && s.callers[t].since <= c.version && Faithful(hash, s, c)
    requires s.callers[t].since <= |s.snapshots|
    ensures var s' := Return(s, t, c);
            t in s'.callers && Harmless(s, s', t) && CallerOk(hash, s', s'.callers[t]) && Loaded(hash, s', s'.cache)
  {
    LoadedStays(hash, s, Return(s, t, c), s.cache);
  }

  /** The stepping caller itself. */
  lemma StepCallerOk(hash: Hasher, s: System, t: nat)
    requires Inv(hash, s) && t in s.callers
    ensures var s' := StepCaller(hash, s, t);
            t in s'.callers && Harmless(s, s', t) && CallerOk(hash, s', s'.callers[t]) && Loaded(hash, s', s'.cache)
  {
    assert CallerOk(hash, s, s.callers[t]);
    match s.callers[t].pc
    case Idle =>
    case FastLoad => GotoOk(hash, s, t, FastVersion(s.cache));
    case FastVersion(seen) =>
      if seen.version == |s.snapshots| { ReturnOk(hash, s, t, seen); } else { GotoOk(hash, s, t, SlowLoad); }
    case SlowLoad => GotoOk(hash, s, t, SlowSnapshot(s.cache));
    case SlowSnapshot(seen) =>
      if seen.version == |s.snapshots| { ReturnOk(hash, s, t, seen); }
      else { GotoOk(hash, s, t, SlowSwap(seen, |s.snapshots|, s.snapshots[|s.snapshots| - 1])); }
    case SlowSwap(_, _, _) => SwapOk(hash, s, t);
  }

  lemma StepKeepsInv(hash: Hasher, s: System, c: Choice)
    requires Inv(hash, s)
    ensures Inv(hash, Do(hash, s, c)) && Grows(s, Do(hash, s, c))
  {
    var s' := Do(hash, s, c);
    if c.Step? && c.t in s.callers { StepCallerOk(hash, s, c.t); }
    forall t | t in s'.callers ensures CallerOk(hash, s', s'.callers[t]) {
      if t in s.callers && s'.callers[t] == s.callers[t] {
        CallerStays(hash, s, s', s.callers[t]);
      } else {
        assert !c.Apply? && t == c.t;
      }
    }
  }

  lemma {:induction false} ExecKeepsInv(hash: Hasher, s: System, schedule: seq<Choice>)
    requires Inv(hash, s)
    ensures Inv(hash, Exec(hash, s, schedule)) && Grows(s, Exec(hash, s, schedule))
  {
    if schedule != [] {
      var before := schedule[..|schedule| - 1];
      ExecKeepsInv(hash, s, before);
      StepKeepsInv(hash, Exec(hash, s, before), schedule[|schedule| - 1]);
    }
  }

  lemma {:induction false} ExecAppend(hash: Hasher, s: System, a: seq<Choice>, b: seq<Choice>)
    ensures Exec(hash, s, a + b) == Exec(hash, Exec(hash, s, a), b)
  {
    if b == [] {
      assert a + b == a;
    } else {
      assert (a + b)[..|a + b| - 1] == a + b[..|b| - 1];
      ExecAppend(hash, s, a, b[..|b| - 1]);
    }
  }

  /** Under every interleaving: the cached ring is the ring of exactly the snapshot its version names, the cached
      version never runs ahead of the registry, and each call returns the ring of one published snapshot that is at
      least as new as the registry was when the call began. */
  lemma CacheAgreesWithRebuilding(hash: Hasher, backends: seq<Handle>, schedule: seq<Choice>)
    ensures var s := Exec(hash, Start(hash, backends), schedule);
            && Faithful(hash, s, s.cache)
            && forall t :: t in s.callers && s.callers[t].answer.Some? ==>
                 Faithful(hash, s, s.callers[t].answer.value) && s.callers[t].since <= s.callers[t].answer.value.version
  {
    ExecKeepsInv(hash, Start(hash, backends), schedule);
    var s := Exec(hash, Start(hash, backends), schedule);
    forall t | t in s.callers && s.callers[t].answer.Some?
      ensures Faithful(hash, s, s.callers[t].answer.value) && s.callers[t].since <= s.callers[t].answer.value.version
    {
      assert CallerOk(hash, s, s.callers[t]);
    }
  }

  /** Cached versions never go backwards. */
  lemma CachedVersionsAdvance(hash: Hasher, backends: seq<Handle>, earlier: seq<Choice>, later: seq<Choice>)
    ensures Exec(hash, Start(hash, backends), earlier).cache.version
         <= Exec(hash, Start(hash, backends), earlier + later).cache.version
  {
    var s := Exec(hash, Start(hash, backends), earlier);
    ExecKeepsInv(hash, Start(hash, backends), earlier);
    ExecKeepsInv(hash, s, later);
    ExecAppend(hash, Start(hash, backends), earlier, later);
  }

  function StepTimes(hash: Hasher, s: System, t: nat, n: nat): System {
    if n == 0 then s else Do(hash, StepTimes(hash, s, t, n - 1), Step(t))
  }

  /** With nobody interfering a call returns within five of its own steps, holding the registry's current version, and
      leaves that version cached: a stale cache is always refreshed. */
  lemma LoneCallRefreshes(hash: Hasher, s: System, t: nat)
    requires Inv(hash, s)
    requires t !in s.callers || s.callers[t].pc == Idle
    ensures var s' := StepTimes(hash, Do(hash, s, Call(t)), t, 5);
            && t in s'.callers && s'.callers[t].pc == Idle && s'.callers[t].answer.Some?
            && s'.callers[t].answer.value.version == |s.snapshots| == s'.cache.version
  {
    var s0 := Do(hash, s, Call(t));
    var s1 := StepTimes(hash, s0, t, 1);
    assert s1 == Do(hash, s0, Step(t)) by { assert StepTimes(hash, s0, t, 0) == s0; }
    var s2 := StepTimes(hash, s0, t, 2);
    assert s2 == Do(hash, s1, Step(t));
    var s3 := StepTimes(hash, s0, t, 3);
    assert s3 == Do(hash, s2, Step(t));
    var s4 := StepTimes(hash, s0, t, 4);
    assert s4 == Do(hash, s3, Step(t));
  }

  // ---------- the retry loop ----------

  /** What other goroutines do between two of our steps: publish a reload, or win the swap for an already published
      version. */
  datatype Rival = Publish(backends: seq<Handle>) | Refresh(version: nat)

  /** The selector's cache beside the registry it reads, seen by one caller while rivals act. */
  class Selector {
    const hash: Hasher
    var snapshots: seq<seq<Handle>>
    var cache: Cache
    var rivals: seq<Rival>

    ghost predicate Valid()
      reads this
    {
      1 <= cache.version <= |snapshots| && cache.ring == RingOf(hash, snapshots[cache.version - 1])
    }

    constructor (hash: Hasher, backends: seq<Handle>, rivals: seq<Rival>)
      ensures Valid() && this.hash == hash && snapshots == [backends] && this.rivals == rivals && cache.version == 1
    {
      this.hash, snapshots, this.rivals := hash, [backends], rivals;
      new;
      var ring := NewRing(hash, backends);
      cache := Cache(0, 1, ring);
    }

    /** Any number of rivals act.  A different pointer afterwards means that at least one did. */
    method Interfere()
      requires Valid()
      modifies this
      ensures Valid() && old(snapshots) <= snapshots && old(cache).version <= cache.version
      ensures |rivals| <= |old(rivals)| && old(cache).id <= cache.id
      ensures cache.id == old(cache).id ==> cache == old(cache)
      ensures cache.id != old(cache).id ==> |rivals| < |old(rivals)|
    {
      var more: bool :| true;
      while more && rivals != []
        invariant Valid() && old(snapshots) <= snapshots && old(cache).version <= cache.version
        invariant |rivals| <= |old(rivals)| && old(cache).id <= cache.id
        invariant if cache.id == old(cache).id then cache == old(cache) else |rivals| < |old(rivals)|
        decreases |rivals|
      {
        match rivals[0] {
          case Publish(backends) => snapshots := snapshots + [backends];
          case Refresh(v) =>
            if cache.version < v <= |snapshots| {
              var ring := NewRing(hash, snapshots[v - 1]);
              cache := Cache(cache.id + 1, v, ring);
            }
        }
        rivals := rivals[1..];
        more :| true;
      }
    }

    /** The swap: it succeeds only on the pointer that was loaded. */
    method Replace(cached: Cache, current: nat, next: seq<VNode>) returns (done: bool)
      requires Valid() && cached.id <= cache.id && (cache.id == cached.id ==> cache == cached)
      requires 0 < current <= |snapshots| && cached.version <= current && next == RingOf(hash, snapshots[current - 1])
      modifies this
      ensures Valid() && old(snapshots) <= snapshots && old(cache).version <= cache.version
      ensures |rivals| <= |old(rivals)| && if done then current <= cache.version else |rivals| < |old(rivals)| || old(cache).id != cached.id
    {
      Interfere();
      done := cache.id == cached.id;
      if done { cache := Cache(cache.id + 1, current, next); }
    }

    /** One round of the loop: take a snapshot and return the cached ring if it is current, else build one and try to swap it
        in.  A lost swap means that a rival acted. */
    method Round() returns (done: bool, ring: seq<VNode>, ghost version: nat)
      requires Valid()
      modifies this
      ensures Valid() && old(snapshots) <= snapshots && old(cache).version <= cache.version
      ensures |rivals| <= |old(rivals)| && (!done ==> |rivals| < |old(rivals)|)
      ensures done ==> |old(snapshots)| <= version <= |snapshots| && ring == RingOf(hash, snapshots[version - 1]) && version <= cache.version
    {
      Interfere();
      var cached := cache;
      Interfere();
      var current, backends := |snapshots|, snapshots[|snapshots| - 1];
      if cached.version == current { return true, cached.ring, current; }
      var next := NewRing(hash, backends);
      done := Replace(cached, current, next);
      return done, next, current;
    }

    /** Returns the ring of one published version at least as new as the registry was at the call.  The loop ends because every
        lost swap uses up a rival. */
    method CurrentRing() returns (ring: seq<VNode>, ghost version: nat)
      requires Valid()
      modifies this
      ensures Valid() && old(snapshots) <= snapshots && old(cache).version <= cache.version
      ensures |old(snapshots)| <= version <= |snapshots| && ring == RingOf(hash, snapshots[version - 1])
      ensures version <= cache.version
    {
      var cached := cache;
      Interfere();
      if cached.version == |snapshots| { return cached.ring, cached.version; }
      var done;
      done, ring, version := Round();
      while !done
        invariant Valid() && old(snapshots) <= snapshots && old(cache).version <= cache.version
        invariant done ==> |old(snapshots)| <= version <= |snapshots| && version <= cache.version
        invariant done ==> ring == RingOf(hash, snapshots[version - 1])
        decreases !done, |rivals|
      {
        done, ring, version := Round();
      }
    }
  }
}
