/** Request accounting and drain (internal/proxy/proxy.go:88-109, internal/proxy/proxy.go:368-451,
    internal/app/drain.go:43-122, internal/app/app.go:287-308): slots claimed and released once, while reloads come
    and go and removed backends drain. */
module Accounting {
  import opened Fleet
  import R = Registry
  import A = App

  /** A counter or a gauge series that is absent reads 0. */
  function Reading<K(==)>(m: map<K, int>, k: K): int {
    if k in m then m[k] else 0
  }

  function Bump<K(==)>(m: map<K, int>, k: K, delta: int): map<K, int> {
    m[k := Reading(m, k) + delta]
  }

  // ---------- one request ----------

  /** ActiveConns of each backend object, and the lb_active_requests series of each name. */
  class Counters {
    var active: map<Handle, int>
    var gauge: map<string, int>

    constructor ()
      ensures active == map[] && gauge == map[]
    {
      active, gauge := map[], map[];
    }
  }

  /** The per-request state: the chosen backend and the sync.Once around the release. */
  class ReqState {
    const backend: Handle
    const counters: Counters
    var once: bool
    var status: nat

    constructor (backend: Handle, counters: Counters)
      ensures this.backend == backend && this.counters == counters && !once && status == 0
    {
      this.backend, this.counters, once, status := backend, counters, false, 0;
    }

    method Activate()
      modifies counters
      ensures counters.active == Bump(old(counters.active), backend, 1)
      ensures counters.gauge == Bump(old(counters.gauge), backend.name, 1)
    {
      counters.active := Bump(counters.active, backend, 1);
      counters.gauge := Bump(counters.gauge, backend.name, 1);
    }

    method Release()
      modifies this`once, counters
      ensures once
      ensures counters.active == if old(once) then old(counters.active) else Bump(old(counters.active), backend, -1)
      ensures counters.gauge == if old(once) then old(counters.gauge) else Bump(old(counters.gauge), backend.name, -1)
    {
      if !once {
        once := true;
        counters.active := Bump(counters.active, backend, -1);
        counters.gauge := Bump(counters.gauge, backend.name, -1);
      }
    }
  }

  // ---------- every run ----------

  datatype Request = Request(backend: Handle, released: bool)

  /** known: every backend object ever live.  retired: those whose drain window expired.  down: shutting down. */
  datatype System = System(live: set<Handle>, draining: set<Handle>, known: set<Handle>, retired: set<Handle>, down: bool,
                           active: map<Handle, int>, gauge: map<string, int>, requests: map<nat, Request>)

  /** Dispatch takes selection, admission and activate as one step; Finish is any one call of Close or errorHandler. */
  datatype Choice =
    | Dispatch(r: nat, h: Handle)
    | Finish(r: nat)
    | Reload(removed: set<Handle>, added: set<Handle>)
    | Drained(h: Handle)
    | Expire(h: Handle)
    | Shutdown

  predicate Legal(s: System, c: Choice) {
    match c
    case Dispatch(r, h) => r !in s.requests && h in s.live
    case Finish(r) => true
    case Reload(removed, added) => removed <= s.live && added !! s.known && NamesApart(s.live - removed + added)
    case Drained(h) => !s.down && h in s.draining && Reading(s.active, h) == 0
    case Expire(h) => !s.down && h in s.draining && Reading(s.active, h) != 0
    case Shutdown => true
  }

  /** A series at 0 for each added name the same reload did not remove. */
  function Seeded(gauge: map<string, int>, removed: set<Handle>, added: set<Handle>): map<string, int> {
    gauge + map x | x in Names(added) - Names(removed) :: 0
  }

  function Released(s: System, r: nat): System
    requires r in s.requests
  {
    var h := s.requests[r].backend;
    s.(requests := s.requests[r := Request(h, true)], active := Bump(s.active, h, -1), gauge := Bump(s.gauge, h.name, -1))
  }

  function Do(s: System, c: Choice): System {
    match c
    case Dispatch(r, h) =>
      s.(requests := s.requests[r := Request(h, false)], active := Bump(s.active, h, 1), gauge := Bump(s.gauge, h.name, 1))
    case Finish(r) => if r in s.requests && !s.requests[r].released then Released(s, r) else s
    case Reload(removed, added) =>
      s.(live := s.live - removed + added, draining := s.draining + removed, known := s.known + added,
         gauge := Seeded(s.gauge, removed, added))
    case Drained(h) => s.(draining := s.draining - {h}, gauge := if h.name in Names(s.live) then s.gauge else s.gauge - {h.name})
    case Expire(h) => s.(retired := s.retired + {h})
    case Shutdown => s.(down := true)
  }

  function Start(fleet: set<Handle>): System {
    System(fleet, {}, fleet, {}, false, map[], map x | x in Names(fleet) :: 0, map[])
  }

  function Exec(s: System, run: seq<Choice>): System {
    if run == [] then s else Do(Exec(s, run[..|run| - 1]), run[|run| - 1])
  }

  predicate LegalRun(s: System, run: seq<Choice>) {
    run == [] || (LegalRun(s, run[..|run| - 1]) && Legal(Exec(s, run[..|run| - 1]), run[|run| - 1]))
  }

  /** The reload's own seeding rule is this one. */
  lemma SeedsAsReloadDoes(gauge: map<string, int>, removed: seq<Handle>, added: seq<Handle>)
    ensures A.SeedActive(gauge, added, removed) == Seeded(gauge, R.SetOf(removed), R.SetOf(added))
  {
    assert A.NamesOf(added) == Names(R.SetOf(added)) && A.NamesOf(removed) == Names(R.SetOf(removed));
  }

  // ---------- ActiveConns ----------

  /** The requests of h still holding a slot. */
  function Held(requests: map<nat, Request>, h: Handle): set<nat> {
    set r | r in requests && requests[r].backend == h && !requests[r].released
  }

  predicate InFlight(s: System, r: nat) {
    r in s.requests && !s.requests[r].released
  }

  /** ActiveConns of every backend is the number of requests activated on it and not released. */
  ghost predicate CountsRequests(s: System) {
    forall h :: Reading(s.active, h) == |Held(s.requests, h)|
  }

  predicate Placed(s: System) {
    && s.live !! s.draining && s.live + s.draining <= s.known && NamesApart(s.live)
    && s.retired <= s.known && s.retired !! s.live
    && (forall r :: r in s.requests && !s.requests[r].released ==> s.requests[r].backend in s.live + s.draining)
    && s.active.Keys <= s.known && Names(s.live) <= s.gauge.Keys
  }

  ghost predicate Inv(s: System) {
    Placed(s) && CountsRequests(s)
  }

  lemma HeldOf(requests: map<nat, Request>, r: nat, h: Handle, g: Handle)
    requires r in requests ==> requests[r] == Request(h, false)
    ensures Held(requests[r := Request(h, false)], g) == Held(requests, g) + if g == h then {r} else {}
    ensures Held(requests[r := Request(h, true)], g) == Held(requests, g) - {r}
  {
  }

  lemma DispatchCounts(s: System, r: nat, h: Handle)
    requires CountsRequests(s) && r !in s.requests
    ensures CountsRequests(Do(s, Dispatch(r, h)))
  {
    var requests, active := s.requests[r := Request(h, false)], Bump(s.active, h, 1);
    forall g
      ensures Reading(active, g) == |Held(requests, g)|
    {
      HeldOf(s.requests, r, h, g);
      assert r !in Held(s.requests, g) && Reading(s.active, g) == |Held(s.requests, g)|;
    }
  }

  lemma ReleaseCounts(s: System, r: nat)
    requires CountsRequests(s) && InFlight(s, r)
    ensures CountsRequests(Released(s, r))
  {
    var h := s.requests[r].backend;
    var requests, active := s.requests[r := Request(h, true)], Bump(s.active, h, -1);
    forall g
      ensures Reading(active, g) == |Held(requests, g)|
    {
      HeldOf(s.requests, r, h, g);
      assert (r in Held(s.requests, g) <==> g == h) && Reading(s.active, g) == |Held(s.requests, g)|;
    }
  }

  lemma StepCounts(s: System, c: Choice)
    requires Inv(s) && Legal(s, c)
    ensures CountsRequests(Do(s, c))
  {
    if c.Dispatch? {
      DispatchCounts(s, c.r, c.h);
    } else if c.Finish? && InFlight(s, c.r) {
      ReleaseCounts(s, c.r);
    }
  }

  lemma StepPlaces(s: System, c: Choice)
    requires Inv(s) && Legal(s, c)
    ensures Placed(Do(s, c))
  {
    var t := Do(s, c);
    match c
    case Dispatch(r, h) => assert h.name in Names(s.live);
    case Finish(r) =>
      if InFlight(s, r) { assert s.requests[r].backend in s.known; }
    case Reload(removed, added) =>
      forall x | x in Names(t.live)
        ensures x in t.gauge
      {
        if x !in Names(added) - Names(removed) { assert x in Names(s.live); }
      }
    case Drained(h) =>
      forall r | InFlight(t, r)
        ensures t.requests[r].backend != h
      {
        assert r in Held(s.requests, t.requests[r].backend);
      }
    case Expire(h) =>
    case Shutdown =>
  }

  /** In every run ActiveConns equals the activated and unreleased requests, for live, draining and forgotten backends
      alike; every slot is held on a live or draining backend, every live name has a series, and no live backend is
      ever retired. */
  lemma {:induction false} ActiveCountsRequests(fleet: set<Handle>, run: seq<Choice>)
    requires NamesApart(fleet) && LegalRun(Start(fleet), run)
    ensures Inv(Exec(Start(fleet), run))
  {
    if run == [] {
      assert forall h :: Held(map[], h) == {};
    } else {
      var init := run[..|run| - 1];
      ActiveCountsRequests(fleet, init);
      StepCounts(Exec(Start(fleet), init), run[|run| - 1]);
      StepPlaces(Exec(Start(fleet), init), run[|run| - 1]);
    }
  }

  // ---------- the gauge ----------

  ghost function Sum(active: map<Handle, int>, s: set<Handle>): int {
    if s == {} then 0
    else
      var h :| h in s;
      Reading(active, h) + Sum(active, s - {h})
  }

  lemma {:induction false} SumTake(active: map<Handle, int>, s: set<Handle>, h: Handle)
    requires h in s
    ensures Sum(active, s) == Reading(active, h) + Sum(active, s - {h})
  {
    var g :| g in s && Sum(active, s) == Reading(active, g) + Sum(active, s - {g});
    if g != h {
      SumTake(active, s - {g}, h);
      SumTake(active, s - {h}, g);
      assert s - {g} - {h} == s - {h} - {g};
    }
  }

  lemma {:induction false} SumBump(active: map<Handle, int>, s: set<Handle>, h: Handle, delta: int)
    ensures Sum(Bump(active, h, delta), s) == Sum(active, s) + (if h in s then delta else 0)
  {
    if s != {} {
      var g :| g in s;
      SumTake(active, s, g);
      SumTake(Bump(active, h, delta), s, g);
      SumBump(active, s - {g}, h, delta);
    }
  }

  lemma {:induction false} SumIdle(active: map<Handle, int>, s: set<Handle>, idle: set<Handle>)
    requires forall h :: h in idle ==> Reading(active, h) == 0
    ensures Sum(active, s + idle) == Sum(active, s)
  {
    if idle <= s {
      assert s + idle == s;
    } else {
      var h :| h in idle && h !in s;
      SumIdle(active, s, idle - {h});
      SumTake(active, s + idle, h);
      assert s + idle - {h} == s + (idle - {h});
    }
  }

  function Named(s: set<Handle>, x: string): set<Handle> {
    set h | h in s && h.name == x
  }

  /** The gauge of name x equals the sum of ActiveConns over x's live and draining instances. */
  ghost predicate AgreesOn(s: System, x: string) {
    Reading(s.gauge, x) == Sum(s.active, Named(s.live + s.draining, x))
  }

  ghost predicate Agrees(s: System) {
    forall x :: AgreesOn(s, x)
  }

  /** The requests still on draining instances of name x. */
  ghost function Busy(s: System, x: string): int {
    Sum(s.active, Named(s.draining, x))
  }

  /** A reload seeds only names with no request left on a draining instance; a finished drain deletes a series only when
      another backend has the name or no request is left on another draining instance. */
  ghost predicate Safe(s: System, c: Choice) {
    && (c.Reload? ==> forall x :: x in Names(c.added) - Names(c.removed) ==> Busy(s, x) == 0)
    && (c.Drained? ==> c.h.name in Names(s.live) || Busy(s, c.h.name) == 0)
  }

  lemma BumpAgrees(s: System, h: Handle, delta: int, x: string)
    requires AgreesOn(s, x) && h in s.live + s.draining
    ensures AgreesOn(s.(active := Bump(s.active, h, delta), gauge := Bump(s.gauge, h.name, delta)), x)
  {
    SumBump(s.active, Named(s.live + s.draining, x), h, delta);
  }

  /** Added backends are idle, so a reload changes no sum. */
  lemma ReloadSum(s: System, removed: set<Handle>, added: set<Handle>, x: string)
    requires Inv(s) && Legal(s, Reload(removed, added))
    ensures var t := Do(s, Reload(removed, added));
            Sum(s.active, Named(t.live + t.draining, x)) == Sum(s.active, Named(s.live + s.draining, x))
  {
    var t := Do(s, Reload(removed, added));
    assert Named(t.live + t.draining, x) == Named(s.live + s.draining, x) + Named(added, x);
    SumIdle(s.active, Named(s.live + s.draining, x), Named(added, x));
  }

  lemma SeededWereNotLive(s: System, removed: set<Handle>, added: set<Handle>, x: string)
    requires Inv(s) && Legal(s, Reload(removed, added)) && x in Names(added) - Names(removed)
    ensures x !in Names(s.live)
  {
    var b :| b in added && b.name == x;
    assert b in s.live - removed + added;
    forall g | g in s.live
      ensures g.name != x
    {
      if g !in removed { assert g in s.live - removed + added; }
    }
  }

  /** A reload changes a reading only where it seeds. */
  lemma ReloadAgrees(s: System, removed: set<Handle>, added: set<Handle>, x: string)
    requires Inv(s) && Legal(s, Reload(removed, added)) && AgreesOn(s, x)
    ensures AgreesOn(Do(s, Reload(removed, added)), x) <==> (x in Names(added) - Names(removed) ==> Busy(s, x) == 0)
  {
    ReloadSum(s, removed, added, x);
    if x in Names(added) - Names(removed) {
      SeededWereNotLive(s, removed, added, x);
      OnlyDraining(s, x);
    }
  }

  /** A finished drain takes an idle instance away, which changes no sum. */
  lemma DrainedSum(s: System, h: Handle, x: string)
    requires Inv(s) && Legal(s, Drained(h))
    ensures Sum(s.active, Named(s.live + (s.draining - {h}), x)) == Sum(s.active, Named(s.live + s.draining, x))
  {
    var after := Named(s.live + (s.draining - {h}), x);
    if x == h.name {
      assert Named(s.live + s.draining, x) == after + {h};
      SumIdle(s.active, after, {h});
    } else {
      assert Named(s.live + s.draining, x) == after;
    }
  }

  lemma OnlyDraining(s: System, x: string)
    requires x !in Names(s.live)
    ensures Sum(s.active, Named(s.live + s.draining, x)) == Busy(s, x)
  {
    forall g | g in s.live
      ensures g.name != x
    {
      assert g.name in Names(s.live);
    }
    assert Named(s.live + s.draining, x) == Named(s.draining, x);
  }

  lemma DrainedAgrees(s: System, h: Handle, x: string)
    requires Inv(s) && Legal(s, Drained(h)) && AgreesOn(s, x)
    ensures AgreesOn(Do(s, Drained(h)), x) <==> (x == h.name ==> x in Names(s.live) || Busy(s, x) == 0)
  {
    DrainedSum(s, h, x);
    if x == h.name && x !in Names(s.live) { OnlyDraining(s, x); }
  }

  /** One step keeps the gauges equal to the sums exactly when it is safe. */
  lemma StepAgrees(s: System, c: Choice)
    requires Inv(s) && Legal(s, c) && Agrees(s)
    ensures Agrees(Do(s, c)) <==> Safe(s, c)
  {
    var t := Do(s, c);
    match c
    case Dispatch(r, h) =>
      forall x ensures AgreesOn(t, x) { assert AgreesOn(s, x); BumpAgrees(s, h, 1, x); }
    case Finish(r) =>
      if r in s.requests && !s.requests[r].released {
        forall x ensures AgreesOn(t, x) { assert AgreesOn(s, x); BumpAgrees(s, s.requests[r].backend, -1, x); }
      }
    case Reload(removed, added) =>
      forall x
        ensures AgreesOn(t, x) <==> (x in Names(added) - Names(removed) ==> Busy(s, x) == 0)
      {
        assert AgreesOn(s, x);
        ReloadAgrees(s, removed, added, x);
      }
    case Drained(h) =>
      forall x
        ensures AgreesOn(t, x) <==> (x == h.name ==> x in Names(s.live) || Busy(s, x) == 0)
      {
        assert AgreesOn(s, x);
        DrainedAgrees(s, h, x);
      }
    case Expire(h) =>
      forall x ensures AgreesOn(t, x) { assert AgreesOn(s, x); }
    case Shutdown =>
      forall x ensures AgreesOn(t, x) { assert AgreesOn(s, x); }
  }

  ghost predicate AgreesThroughout(s: System, run: seq<Choice>) {
    Agrees(Exec(s, run)) && (run == [] || AgreesThroughout(s, run[..|run| - 1]))
  }

  ghost predicate SafeThroughout(s: System, run: seq<Choice>) {
    run == [] || (SafeThroughout(s, run[..|run| - 1]) && Safe(Exec(s, run[..|run| - 1]), run[|run| - 1]))
  }

  /** Every gauge equals its sum in every state of a run exactly when every step of the run is safe. */
  lemma {:induction false} GaugeIsSumExactlyWhenSafe(fleet: set<Handle>, run: seq<Choice>)
    requires NamesApart(fleet) && LegalRun(Start(fleet), run)
    ensures AgreesThroughout(Start(fleet), run) <==> SafeThroughout(Start(fleet), run)
  {
    var s := Start(fleet);
    if run == [] {
      forall x
        ensures AgreesOn(s, x)
      {
        SumIdle(s.active, {}, Named(fleet, x));
        assert {} + Named(fleet, x) == Named(s.live + s.draining, x);
      }
    } else {
      var init := run[..|run| - 1];
      GaugeIsSumExactlyWhenSafe(fleet, init);
      if AgreesThroughout(s, init) {
        ActiveCountsRequests(fleet, init);
        StepAgrees(Exec(s, init), run[|run| - 1]);
      }
    }
  }

  /** The reload neither adds nor removes a name while an earlier instance of it drains. */
  predicate Patient(s: System, c: Choice) {
    c.Reload? ==> Names(c.removed) + Names(c.added) !! Names(s.draining)
  }

  predicate PatientThroughout(s: System, run: seq<Choice>) {
    run == [] || (PatientThroughout(s, run[..|run| - 1]) && Patient(Exec(s, run[..|run| - 1]), run[|run| - 1]))
  }

  lemma PatientIsSafe(s: System, c: Choice)
    requires Inv(s) && Legal(s, c) && Patient(s, c) && NamesApart(s.draining)
    ensures Safe(s, c) && NamesApart(Do(s, c).draining)
  {
    match c
    case Reload(removed, added) =>
      forall x | x in Names(added) - Names(removed)
        ensures Busy(s, x) == 0
      {
        assert forall h :: h in s.draining ==> h.name in Names(s.draining);
        assert Named(s.draining, x) == {};
      }
      forall g, h | g in s.draining && h in removed
        ensures g.name != h.name
      {
        assert g.name in Names(s.draining) && h.name in Names(removed);
      }
    case Drained(h) =>
      assert Named(s.draining, h.name) == {} + {h};
      SumIdle(s.active, {}, {h});
    case _ =>
  }

  /** So it does in every run whose reloads let a name's earlier instance finish draining first. */
  lemma {:induction false} PatientRunsAgree(fleet: set<Handle>, run: seq<Choice>)
    requires NamesApart(fleet) && LegalRun(Start(fleet), run) && PatientThroughout(Start(fleet), run)
    ensures AgreesThroughout(Start(fleet), run) && NamesApart(Exec(Start(fleet), run).draining)
  {
    PatientRunsSafe(fleet, run);
    GaugeIsSumExactlyWhenSafe(fleet, run);
  }

  lemma {:induction false} PatientRunsSafe(fleet: set<Handle>, run: seq<Choice>)
    requires NamesApart(fleet) && LegalRun(Start(fleet), run) && PatientThroughout(Start(fleet), run)
    ensures SafeThroughout(Start(fleet), run) && NamesApart(Exec(Start(fleet), run).draining)
  {
    if run != [] {
      var init := run[..|run| - 1];
      PatientRunsSafe(fleet, init);
      ActiveCountsRequests(fleet, init);
      PatientIsSafe(Exec(Start(fleet), init), run[|run| - 1]);
    }
  }

  lemma ExecSnoc(s: System, run: seq<Choice>, c: Choice)
    ensures Exec(s, run + [c]) == Do(Exec(s, run), c)
    ensures LegalRun(s, run + [c]) <==> LegalRun(s, run) && Legal(Exec(s, run), c)
  {
    assert (run + [c])[..|run|] == run;
  }

  /** Without that the gauge can go wrong for good: a name re-added while its first instance still holds a request is
      seeded 0, and reads -1 once every request has finished. */
  lemma ReAddedTooSoon(first: Handle, second: Handle)
    requires first.name == second.name && first != second
    ensures var run := [Dispatch(0, first)] + [Reload({first}, {})] + [Reload({}, {second})] + [Finish(0)];
            var s := Exec(Start({first}), run);
            LegalRun(Start({first}), run) && Reading(s.gauge, first.name) == -1 && forall h :: Reading(s.active, h) == 0
  {
    var s0 := Start({first});
    var run1 := [Dispatch(0, first)];
    var run2 := run1 + [Reload({first}, {})];
    ExecSnoc(s0, [], Dispatch(0, first));
    assert [] + run1 == run1;
    ExecSnoc(s0, run1, Reload({first}, {}));
    ExecSnoc(s0, run2, Reload({}, {second}));
    ExecSnoc(s0, run2 + [Reload({}, {second})], Finish(0));
    assert Legal(s0, Dispatch(0, first));
    assert s0.gauge == map[first.name := 0];
    RemovedWhileBusy(first);
    SeededTooSoon(first, second, Do(Do(s0, Dispatch(0, first)), Reload({first}, {})));
  }

  lemma RemovedWhileBusy(first: Handle)
    ensures var s := Do(Do(Start({first}), Dispatch(0, first)), Reload({first}, {}));
            s == System({}, {first}, {first}, {}, false, map[first := 1], map[first.name := 1], map[0 := Request(first, false)])
  {
    assert Start({first}).gauge == map[first.name := 0];
  }

  lemma SeededTooSoon(first: Handle, second: Handle, s: System)
    requires first.name == second.name && first != second
    requires s == System({}, {first}, {first}, {}, false, map[first := 1], map[first.name := 1], map[0 := Request(first, false)])
    ensures Legal(s, Reload({}, {second}))
    ensures var t := Do(Do(s, Reload({}, {second})), Finish(0)); t.gauge == map[first.name := -1] && t.active == map[first := 0]
  {
    assert Names({second}) - Names({}) == {first.name};
  }

  // ---------- drains ----------

  /** A draining backend takes no new request, so its count only falls; a forgotten one holds none, ever again. */
  lemma DrainOnlyFalls(s: System, c: Choice, h: Handle)
    requires Inv(s) && Legal(s, c) && h in s.known && h !in s.live
    ensures h in Do(s, c).known && h !in Do(s, c).live && Reading(Do(s, c).active, h) <= Reading(s.active, h)
    ensures h !in s.draining ==> Reading(s.active, h) == 0 && h !in Do(s, c).draining
  {
    if h !in s.draining {
      assert Held(s.requests, h) == {};
    }
  }

  /** What a run's choices say of its drains. */
  ghost predicate Recorded(s: System, run: seq<Choice>) {
    && s.live !! s.draining && s.live + s.draining <= s.known
    && (forall h :: Drained(h) in run <==> h in s.known && h !in s.live && h !in s.draining)
    && (forall h :: Expire(h) in run <==> h in s.retired)
    && (Shutdown in run <==> s.down)
  }

  lemma RecordedSnoc(s: System, run: seq<Choice>, c: Choice)
    requires Recorded(s, run) && Legal(s, c)
    ensures Recorded(Do(s, c), run + [c])
  {
    assert forall x :: x in run + [c] <==> x in run || x == c;
  }

  /** Every backend ever live is live, draining, or had its drain completed; its window expired exactly if the run says so, and
      shutdown came exactly if it does. */
  lemma {:induction false} DrainsAreRecorded(fleet: set<Handle>, run: seq<Choice>)
    requires LegalRun(Start(fleet), run)
    ensures Recorded(Exec(Start(fleet), run), run)
  {
    if run != [] {
      var init, c := run[..|run| - 1], run[|run| - 1];
      assert run == init + [c];
      DrainsAreRecorded(fleet, init);
      RecordedSnoc(Exec(Start(fleet), init), init, c);
    }
  }
}
