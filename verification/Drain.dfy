/** One drain goroutine (internal/app/drain.go:43-134): two waits that poll the active count, Retire between them, and
    the cleanup that may delete the backend's series. */
module Drain {
  import opened Fleet
  import A = Accounting

  /** What a wait is woken by: a reading of ActiveConns (on entry or at a tick), the window's end with the reading taken
      there, or shutdown. */
  datatype Wake = Poll(active: nat) | WindowEnds(active: nat) | Shutdown

  datatype Reason = Idle | WindowExpired

  datatype Phase =
    | Waiting
    | Retired(cancelled: nat)
    | Drained(reason: Reason, cancelled: nat)
    | Aborted

  /** The drain as one machine.  A retired drain has no window left to end. */
  function Next(p: Phase, w: Wake): Phase {
    match (p, w)
    case (Waiting, Poll(active)) => if active == 0 then Drained(Idle, 0) else Waiting
    case (Waiting, WindowEnds(active)) => if active == 0 then Drained(Idle, 0) else Retired(active)
    case (Retired(cancelled), Poll(active)) => if active == 0 then Drained(WindowExpired, cancelled) else p
    case (Waiting, Shutdown) => Aborted
    case (Retired(_), Shutdown) => Aborted
    case _ => p
  }

  function After(wakes: seq<Wake>): Phase {
    if wakes == [] then Waiting else Next(After(wakes[..|wakes| - 1]), wakes[|wakes| - 1])
  }

  // ---------- what each phase says about the past ----------

  predicate Busy(w: Wake) {
    w.Poll? && w.active > 0
  }

  /** Ignored by a drain that already retired its backend. */
  predicate Quiet(w: Wake) {
    Busy(w) || w.WindowEnds?
  }

  /** The first reading of zero comes at i, within the window and before any shutdown. */
  predicate IdleAt(wakes: seq<Wake>, i: int) {
    && 0 <= i < |wakes| && (forall k | 0 <= k < i :: Busy(wakes[k]))
    && (wakes[i] == Poll(0) || wakes[i] == WindowEnds(0))
  }

  /** The window ends at i with c requests in flight, every reading so far nonzero and no shutdown. */
  predicate ExpiredAt(wakes: seq<Wake>, i: int, c: nat) {
    0 <= i < |wakes| && (forall k | 0 <= k < i :: Busy(wakes[k])) && wakes[i] == WindowEnds(c) && c > 0
  }

  predicate QuietBetween(wakes: seq<Wake>, i: int, j: int) {
    forall k | i < k < j && 0 <= k < |wakes| :: Quiet(wakes[k])
  }

  /** After an expiry at i the first poll of zero comes at j, with no shutdown between. */
  predicate FinishedAt(wakes: seq<Wake>, i: int, j: int) {
    0 <= i < j < |wakes| && QuietBetween(wakes, i, j) && wakes[j] == Poll(0)
  }

  /** Shutdown comes at i, with every reading so far nonzero: inside the window, or quietly after it ended busy. */
  predicate GaveUpAt(wakes: seq<Wake>, i: int) {
    && 0 <= i < |wakes| && wakes[i] == Shutdown
    && ((forall k | 0 <= k < i :: Busy(wakes[k])) || exists e | 0 <= e < i :: ExpiredQuietly(wakes, e, i))
  }

  predicate ExpiredQuietly(wakes: seq<Wake>, e: int, i: int) {
    && 0 <= e < |wakes| && wakes[e].WindowEnds? && ExpiredAt(wakes, e, wakes[e].active) && QuietBetween(wakes, e, i)
  }

  ghost predicate Evidence(wakes: seq<Wake>, p: Phase) {
    match p
    case Waiting => forall k | 0 <= k < |wakes| :: Busy(wakes[k])
    case Retired(c) => exists i :: ExpiredAt(wakes, i, c) && QuietBetween(wakes, i, |wakes|)
    case Drained(Idle, c) => c == 0 && exists i :: IdleAt(wakes, i)
    case Drained(WindowExpired, c) => exists i, j :: ExpiredAt(wakes, i, c) && FinishedAt(wakes, i, j)
    case Aborted => exists i :: GaveUpAt(wakes, i)
  }

  lemma EvidenceKept(init: seq<Wake>, w: Wake, p: Phase)
    requires Evidence(init, p) && (p.Drained? || p.Aborted?)
    ensures Evidence(init + [w], p)
  {
    var wakes := init + [w];
    assert forall k | 0 <= k < |init| :: wakes[k] == init[k];
    match p
    case Drained(Idle, c) =>
      var i :| IdleAt(init, i);
      assert IdleAt(wakes, i);
    case Drained(WindowExpired, c) =>
      var i, j :| ExpiredAt(init, i, c) && FinishedAt(init, i, j);
      assert ExpiredAt(wakes, i, c) && FinishedAt(wakes, i, j);
    case Aborted =>
      var i :| GaveUpAt(init, i);
      if e :| 0 <= e < i && ExpiredQuietly(init, e, i) { assert ExpiredQuietly(wakes, e, i); }
      assert GaveUpAt(wakes, i);
  }

  lemma EvidenceNext(init: seq<Wake>, w: Wake, p: Phase)
    requires Evidence(init, p) && (p.Waiting? || p.Retired?)
    ensures Evidence(init + [w], Next(p, w))
  {
    var wakes := init + [w];
    assert forall k | 0 <= k < |init| :: wakes[k] == init[k];
    assert wakes[|init|] == w;
    match p
    case Waiting =>
      assert w == Poll(0) || w == WindowEnds(0) ==> IdleAt(wakes, |init|);
      assert w.WindowEnds? && w.active > 0 ==> ExpiredAt(wakes, |init|, w.active);
      assert w.Shutdown? ==> GaveUpAt(wakes, |init|);
    case Retired(c) =>
      var i :| ExpiredAt(init, i, c) && QuietBetween(init, i, |init|);
      assert ExpiredAt(wakes, i, c);
      assert w == Poll(0) ==> FinishedAt(wakes, i, |init|);
      assert Quiet(w) ==> QuietBetween(wakes, i, |wakes|);
      assert ExpiredQuietly(wakes, i, |init|);
      assert w.Shutdown? ==> GaveUpAt(wakes, |init|);
  }

  lemma {:induction false} PhaseHasEvidence(wakes: seq<Wake>)
    ensures Evidence(wakes, After(wakes))
  {
    if wakes != [] {
      var init, w := wakes[..|wakes| - 1], wakes[|wakes| - 1];
      assert wakes == init + [w];
      PhaseHasEvidence(init);
      if After(init).Waiting? || After(init).Retired? {
        EvidenceNext(init, w, After(init));
      } else {
        EvidenceKept(init, w, After(init));
      }
    }
  }

  lemma {:induction false} FinalStays(wakes: seq<Wake>, end: nat)
    requires end <= |wakes| && (After(wakes[..end]).Drained? || After(wakes[..end]).Aborted?)
    ensures After(wakes) == After(wakes[..end])
  {
    if end < |wakes| {
      assert wakes[..|wakes| - 1][..end] == wakes[..end];
      FinalStays(wakes[..|wakes| - 1], end);
    } else {
      assert wakes[..end] == wakes;
    }
  }

  lemma AfterStep(wakes: seq<Wake>, m: nat)
    requires m < |wakes|
    ensures After(wakes[..m + 1]) == Next(After(wakes[..m]), wakes[m])
  {
    assert wakes[..m + 1][..m] == wakes[..m];
  }

  lemma {:induction false} BusyWaits(wakes: seq<Wake>, m: nat)
    requires m <= |wakes| && forall k | 0 <= k < m :: Busy(wakes[k])
    ensures After(wakes[..m]) == Waiting
  {
    if m > 0 {
      BusyWaits(wakes, m - 1);
      AfterStep(wakes, m - 1);
    }
  }

  lemma {:induction false} QuietStaysRetired(wakes: seq<Wake>, i: nat, c: nat, m: nat)
    requires ExpiredAt(wakes, i, c) && i < m <= |wakes| && QuietBetween(wakes, i, m)
    ensures After(wakes[..m]) == Retired(c)
  {
    if m == i + 1 {
      BusyWaits(wakes, i);
    } else {
      QuietStaysRetired(wakes, i, c, m - 1);
      assert Quiet(wakes[m - 1]);
    }
    AfterStep(wakes, m - 1);
  }

  lemma EvidenceDecides(wakes: seq<Wake>, p: Phase)
    requires Evidence(wakes, p)
    ensures After(wakes) == p
  {
    assert wakes[..|wakes|] == wakes;
    match p
    case Waiting => BusyWaits(wakes, |wakes|);
    case Retired(c) =>
      var i :| ExpiredAt(wakes, i, c) && QuietBetween(wakes, i, |wakes|);
      QuietStaysRetired(wakes, i, c, |wakes|);
    case Drained(Idle, c) =>
      var i :| IdleAt(wakes, i);
      BusyWaits(wakes, i);
      AfterStep(wakes, i);
      FinalStays(wakes, i + 1);
    case Drained(WindowExpired, c) =>
      var i, j :| ExpiredAt(wakes, i, c) && FinishedAt(wakes, i, j);
      QuietStaysRetired(wakes, i, c, j);
      AfterStep(wakes, j);
      FinalStays(wakes, j + 1);
    case Aborted =>
      var i :| GaveUpAt(wakes, i);
      GaveUpAborts(wakes, i);
  }

  lemma GaveUpAborts(wakes: seq<Wake>, i: nat)
    requires GaveUpAt(wakes, i)
    ensures After(wakes) == Aborted
  {
    if forall k | 0 <= k < i :: Busy(wakes[k]) {
      BusyWaits(wakes, i);
    } else {
      var e :| 0 <= e < i && ExpiredQuietly(wakes, e, i);
      QuietStaysRetired(wakes, e, wakes[e].active, i);
    }
    AfterStep(wakes, i);
    FinalStays(wakes, i + 1);
  }

  /** A drain is idle exactly on a first reading of zero inside the window; retired exactly when the whole window passed busy;
      ended expired exactly on a later poll of zero; given up exactly on a shutdown before either; waiting exactly while every
      reading was nonzero. */
  lemma PhaseIsEarned(wakes: seq<Wake>, p: Phase)
    ensures After(wakes) == p <==> Evidence(wakes, p)
  {
    PhaseHasEvidence(wakes);
    if Evidence(wakes, p) { EvidenceDecides(wakes, p); }
  }

  // ---------- the goroutine ----------

  /** How a wait ends; a wait with no more wakes is pending. */
  datatype Wait = ReachedZero | Elapsed(active: nat) | ShutDown | Pending

  /** What the machine shows when a wait begun in phase p ends so. */
  function Ended(p: Phase, r: Wait): Phase {
    match r
    case ReachedZero => if p.Retired? then Drained(WindowExpired, p.cancelled) else Drained(Idle, 0)
    case Elapsed(active) => Retired(active)
    case ShutDown => Aborted
    case Pending => p
  }

  predicate Steady(wakes: seq<Wake>, start: nat, end: nat)
    requires start <= end <= |wakes|
  {
    forall i | start <= i <= end :: After(wakes[..i]) == After(wakes[..start])
  }

  /** Waits until a reading of zero, the end of the window (only if bounded) or shutdown. */
  method WaitActiveZero(wakes: seq<Wake>, start: nat, bounded: bool) returns (result: Wait, end: nat)
    requires start <= |wakes|
    requires if bounded then After(wakes[..start]).Waiting? else After(wakes[..start]).Retired?
    ensures start <= end <= |wakes| && (result.Elapsed? ==> bounded)
    ensures After(wakes[..end]) == Ended(After(wakes[..start]), result)
    ensures if result.Pending? then end == |wakes| && Steady(wakes, start, end) else start < end && Steady(wakes, start, end - 1)
  {
    end := start;
    while end < |wakes|
      invariant start <= end <= |wakes| && Steady(wakes, start, end)
    {
      assert wakes[..end + 1][..end] == wakes[..end];
      match wakes[end] {
        case Shutdown => return ShutDown, end + 1;
        case Poll(active) => if active == 0 { return ReachedZero, end + 1; }
        case WindowEnds(active) => if bounded { return if active == 0 then ReachedZero else Elapsed(active), end + 1; }
      }
      end := end + 1;
    }
    return Pending, end;
  }

  /** Retired at some point of the run. */
  predicate EverRetired(wakes: seq<Wake>) {
    exists i | 0 <= i <= |wakes| :: After(wakes[..i]).Retired?
  }

  lemma FinalForever(wakes: seq<Wake>, end: nat, i: nat)
    requires end <= i <= |wakes| && (After(wakes[..end]).Drained? || After(wakes[..end]).Aborted?)
    ensures After(wakes[..i]) == After(wakes[..end])
  {
    assert wakes[..i][..end] == wakes[..end];
    FinalStays(wakes[..i], end);
  }

  lemma FinalOrPending(wakes: seq<Wake>, start: nat, end: nat, r: Wait)
    requires start <= end <= |wakes| && After(wakes[..end]) == Ended(After(wakes[..start]), r) && !r.Elapsed?
    requires r.Pending? ==> end == |wakes|
    ensures After(wakes) == Ended(After(wakes[..start]), r)
    ensures !r.Pending? ==> forall i | end <= i <= |wakes| :: !After(wakes[..i]).Retired?
  {
    if r.Pending? {
      assert wakes[..end] == wakes;
    } else {
      FinalStays(wakes, end);
      forall i | end <= i <= |wakes|
        ensures !After(wakes[..i]).Retired?
      {
        FinalForever(wakes, end, i);
      }
    }
  }

  /** The source's two waits are the one machine, and Retire runs exactly when the first of them elapses busy. */
  method DrainBackend(wakes: seq<Wake>) returns (phase: Phase, retired: bool)
    ensures phase == After(wakes) && (retired <==> EverRetired(wakes))
  {
    assert wakes[..0] == [];
    var first, middle := WaitActiveZero(wakes, 0, true);
    if !first.Elapsed? {
      FinalOrPending(wakes, 0, middle, first);
      return Ended(Waiting, first), false;
    }
    assert After(wakes[..middle]).Retired?;
    var second, end := WaitActiveZero(wakes, middle, false);
    FinalOrPending(wakes, middle, end, second);
    return Ended(Retired(first.active), second), true;
  }

  method BackendNameInUse(live: seq<Handle>, name: string) returns (used: bool)
    ensures used <==> exists h | h in live :: h.name == name
  {
    for i := 0 to |live|
      invariant forall j | 0 <= j < i :: live[j].name != name
    {
      if live[i].name == name { return true; }
    }
    return false;
  }

  /** The cleanup is the drained step of the accounting runs. */
  method CompleteDrain(gauge: map<string, int>, live: seq<Handle>, h: Handle) returns (after: map<string, int>)
    ensures forall s: A.System | s.gauge == gauge && s.live == (set x | x in live) :: after == A.Do(s, A.Drained(h)).gauge
  {
    var used := BackendNameInUse(live, h.name);
    after := if used then gauge else gauge - {h.name};
  }
}
