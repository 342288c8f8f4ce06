/** Probes, passive observations and reloads interleaved: every run of the two health subsystems over a changing fleet
    (internal/health/checker.go:154-292, internal/health/outlier.go:97-147, internal/app/app.go:287-311). */
module HealthRuns {
  import opened Fleet
  import opened HealthBoard
  import C = Checker
  import O = Outlier

  /** known: every backend that was ever live.  reached: every backend probed at least once.  Both are history. */
  datatype System = System(live: set<Handle>, flags: Flags, probers: map<Handle, C.Probe>, windows: map<Handle, O.Window>,
                           sweep: C.Sweep, known: set<Handle>, reached: set<Handle>)

  /** One probe's outcome, one round trip's, or one reload, each as one step. */
  datatype Choice = Probe(h: Handle, ok: bool) | Observe(h: Handle, success: bool) | Swap(removed: set<Handle>, added: set<Handle>)

  /** What a reload guarantees: it removes live backends, adds new objects, and leaves names unique. */
  predicate Legal(s: System, c: Choice) {
    c.Swap? ==> c.removed <= s.live && c.added !! s.known && NamesApart(s.live - c.removed + c.added)
  }

  function Start(fleet: set<Handle>): System {
    System(fleet, Flags(fleet, map n | n in Names(fleet) :: true), map h | h in fleet :: C.NewProbe(false), map[],
           C.Sweep(0, false), fleet, {})
  }

  function Probed(n: nat, s: System, h: Handle, ok: bool): System
    requires h in s.probers
  {
    var p := s.probers[h];
    s.(flags := C.Judged(s.flags, h, p, ok), probers := s.probers[h := C.Counted(p, ok)],
       sweep := C.Swept(s.sweep, n, p.counted), reached := s.reached + {h})
  }

  function Observed(s: System, h: Handle, success: bool): System {
    var w := O.Remembered(s.windows, h);
    s.(windows := s.windows[h := O.Observed(w, h in s.flags.healthy, success)],
       flags := if O.Ejects(w, h in s.flags.healthy, success) then Flags(s.flags.healthy - {h}, s.flags.gauge[h.name := false])
                else s.flags)
  }

  /** Removed backends lose prober, window and series; added ones start unhealthy, with a series at 0 and a prober. */
  function Swapped(s: System, removed: set<Handle>, added: set<Handle>): System {
    s.(live := s.live - removed + added,
       flags := Flags(s.flags.healthy - added, (s.flags.gauge - Names(removed)) + map n | n in Names(added) :: false),
       probers := (s.probers - removed) + map h | h in added :: C.NewProbe(true),
       windows := s.windows - removed, known := s.known + added)
  }

  /** Outcomes of a removed backend are dropped: its prober is gone and observe skips it. */
  function Do(n: nat, s: System, c: Choice): System {
    match c
    case Probe(h, ok) => if h in s.probers then Probed(n, s, h, ok) else s
    case Observe(h, success) => if h in s.live then Observed(s, h, success) else s
    case Swap(removed, added) => Swapped(s, removed, added)
  }

  predicate LegalRun(n: nat, s: System, run: seq<Choice>) {
    run == [] || (LegalRun(n, s, run[..|run| - 1]) && Legal(Exec(n, s, run[..|run| - 1]), run[|run| - 1]))
  }

  function Exec(n: nat, s: System, run: seq<Choice>): System {
    if run == [] then s else Do(n, Exec(n, s, run[..|run| - 1]), run[|run| - 1])
  }

  /** The gauge of every live backend reads its health bit, and no other name has a series. */
  predicate GaugeAgrees(s: System) {
    && s.flags.gauge.Keys == Names(s.live)
    && forall h :: h in s.live ==> h.name in s.flags.gauge && s.flags.gauge[h.name] == (h in s.flags.healthy)
  }

  predicate FailingAreUnhealthy(s: System) {
    forall h :: h in s.probers && s.probers[h].failures >= 3 ==> h !in s.flags.healthy
  }

  /** A backend still awaiting admission has not been healthy yet. */
  predicate AwaitingAreUnhealthy(s: System) {
    forall h :: h in s.probers && s.probers[h].added ==> h !in s.flags.healthy
  }

  predicate CountedOnce(n: nat, s: System) {
    && s.reached <= s.known && (forall h :: h in s.probers ==> (s.probers[h].counted <==> h in s.reached))
    && s.sweep.probed == |s.reached| && (s.sweep.complete <==> 0 < n <= |s.reached|)
  }

  predicate Inv(n: nat, s: System) {
    && s.probers.Keys == s.live <= s.known && s.windows.Keys <= s.live && NamesApart(s.live) && s.flags.healthy <= s.known
    && GaugeAgrees(s) && FailingAreUnhealthy(s) && AwaitingAreUnhealthy(s) && CountedOnce(n, s)
  }

  lemma StartInv(n: nat, fleet: set<Handle>)
    requires NamesApart(fleet)
    ensures Inv(n, Start(fleet))
  {
  }

  lemma ProbeKeepsCounts(n: nat, s: System, h: Handle, ok: bool)
    requires Inv(n, s) && h in s.probers
    ensures CountedOnce(n, Probed(n, s, h, ok))
  {
    var t := Probed(n, s, h, ok);
    if h in s.reached {
      assert t.reached == s.reached;
    } else {
      assert |t.reached| == |s.reached| + 1;
    }
  }

  /** after differs from before in h's bit and h's series at most, and there they agree. */
  predicate Touches(before: Flags, after: Flags, h: Handle) {
    after.healthy - {h} == before.healthy - {h} && after.gauge == before.gauge[h.name := h in after.healthy]
  }

  lemma TouchKeepsGauge(s: System, after: Flags, h: Handle)
    requires GaugeAgrees(s) && NamesApart(s.live) && h in s.live && Touches(s.flags, after, h)
    ensures GaugeAgrees(s.(flags := after))
  {
    assert h.name in Names(s.live);
    forall g | g in s.live && g != h
      ensures g.name in after.gauge && after.gauge[g.name] == (g in after.healthy)
    {
      assert g in after.healthy - {h} <==> g in s.flags.healthy - {h};
    }
  }

  lemma JudgedTouches(f: Flags, h: Handle, p: C.Probe, ok: bool)
    requires h.name in f.gauge && f.gauge[h.name] == (h in f.healthy)
    requires p.failures >= C.PROBE_FAILURES_BEFORE_UNHEALTHY ==> h !in f.healthy
    ensures Touches(f, C.Judged(f, h, p, ok), h)
    ensures C.Counted(p, ok).failures >= C.PROBE_FAILURES_BEFORE_UNHEALTHY ==> h !in C.Judged(f, h, p, ok).healthy
    ensures (p.added ==> h !in f.healthy) && C.Counted(p, ok).added ==> h !in C.Judged(f, h, p, ok).healthy
  {
  }

  lemma TouchKeepsFailing(s: System, after: Flags, h: Handle, p: C.Probe)
    requires FailingAreUnhealthy(s) && AwaitingAreUnhealthy(s) && Touches(s.flags, after, h)
    requires p.failures >= C.PROBE_FAILURES_BEFORE_UNHEALTHY || p.added ==> h !in after.healthy
    ensures var t := s.(flags := after, probers := s.probers[h := p]); FailingAreUnhealthy(t) && AwaitingAreUnhealthy(t)
  {
    forall g | g in s.probers && g != h
      ensures g in after.healthy <==> g in s.flags.healthy
    {
      assert g in after.healthy - {h} <==> g in s.flags.healthy - {h};
    }
  }

  lemma ProbeKeepsFlags(n: nat, s: System, h: Handle, ok: bool)
    requires Inv(n, s) && h in s.probers
    ensures var t := Probed(n, s, h, ok); t.probers.Keys == t.live && GaugeAgrees(t) && FailingAreUnhealthy(t) && AwaitingAreUnhealthy(t)
  {
    var p, after := s.probers[h], C.Judged(s.flags, h, s.probers[h], ok);
    JudgedTouches(s.flags, h, p, ok);
    TouchKeepsGauge(s, after, h);
    TouchKeepsFailing(s, after, h, C.Counted(p, ok));
  }

  lemma ObserveKeepsInv(n: nat, s: System, h: Handle, success: bool)
    requires Inv(n, s) && h in s.live
    ensures Inv(n, Observed(s, h, success))
  {
    assert h.name in Names(s.live);
    TouchKeepsGauge(s, Observed(s, h, success).flags, h);
  }

  lemma SwapKeepsGauge(n: nat, s: System, removed: set<Handle>, added: set<Handle>)
    requires Inv(n, s) && Legal(s, Swap(removed, added))
    ensures GaugeAgrees(Swapped(s, removed, added))
  {
    var t := Swapped(s, removed, added);
    forall x
      ensures x in t.flags.gauge.Keys <==> x in Names(t.live)
    {
      if x in Names(added) {
        var h :| h in added && h.name == x;
        assert h in t.live;
      } else if x in Names(s.live) {
        var h :| h in s.live && h.name == x;
        assert h in removed <==> x in Names(removed);
      }
    }
    forall h | h in t.live
      ensures h.name in t.flags.gauge && t.flags.gauge[h.name] == (h in t.flags.healthy)
    {
      assert h.name in Names(t.live);
      if h !in added { assert h.name !in Names(added) && h.name !in Names(removed); }
    }
  }

  lemma SwapKeepsInv(n: nat, s: System, removed: set<Handle>, added: set<Handle>)
    requires Inv(n, s) && Legal(s, Swap(removed, added))
    ensures Inv(n, Swapped(s, removed, added))
  {
    SwapKeepsGauge(n, s, removed, added);
    var t := Swapped(s, removed, added);
    assert t.probers.Keys == t.live;
    forall h | h in t.probers
      ensures t.probers[h].counted <==> h in t.reached
    {
      if h in added { assert h !in s.known; }
    }
  }

  lemma StepKeepsInv(n: nat, s: System, c: Choice)
    requires Inv(n, s) && Legal(s, c)
    ensures Inv(n, Do(n, s, c))
  {
    match c
    case Probe(h, ok) => if h in s.probers { ProbeKeepsCounts(n, s, h, ok); ProbeKeepsFlags(n, s, h, ok); }
    case Observe(h, success) => if h in s.live { ObserveKeepsInv(n, s, h, success); }
    case Swap(removed, added) => SwapKeepsInv(n, s, removed, added);
  }

  /** In every run of probes, observations and reloads the gauge of every live backend equals its health bit, and three
      or more probe failures in a row imply unhealthy. */
  lemma {:induction false} GaugeAgreesInEveryRun(fleet: set<Handle>, run: seq<Choice>)
    requires NamesApart(fleet) && LegalRun(|fleet|, Start(fleet), run)
    ensures Inv(|fleet|, Exec(|fleet|, Start(fleet), run))
  {
    if run == [] {
      StartInv(|fleet|, fleet);
    } else {
      var init := run[..|run| - 1];
      GaugeAgreesInEveryRun(fleet, init);
      StepKeepsInv(|fleet|, Exec(|fleet|, Start(fleet), init), run[|run| - 1]);
    }
  }

  /** Only a successful probe of h reinstates h. */
  lemma OnlyProbesReinstate(n: nat, s: System, c: Choice, h: Handle)
    requires Inv(n, s) && Legal(s, c) && h !in s.flags.healthy && h in Do(n, s, c).flags.healthy
    ensures c == Probe(h, true) && h in s.live
  {
  }

  // ---------- admission ----------

  /** Live only while it still awaits its first successful probe. */
  predicate AwaitsWhileLive(s: System, h: Handle) {
    h in s.known && (h in s.live ==> h in s.probers && s.probers[h].added)
  }

  lemma StillAwaits(n: nat, s: System, c: Choice, h: Handle)
    requires Inv(n, s) && Legal(s, c) && AwaitsWhileLive(s, h) && c != Probe(h, true)
    ensures AwaitsWhileLive(Do(n, s, c), h)
  {
  }

  lemma {:induction false} AwaitsThroughout(n: nat, s: System, run: seq<Choice>, h: Handle)
    requires Inv(n, s) && AwaitsWhileLive(s, h) && LegalRun(n, s, run) && Probe(h, true) !in run
    ensures Inv(n, Exec(n, s, run)) && AwaitsWhileLive(Exec(n, s, run), h)
  {
    if run != [] {
      var init, c := run[..|run| - 1], run[|run| - 1];
      assert run == init + [c];
      AwaitsThroughout(n, s, init, h);
      StepKeepsInv(n, Exec(n, s, init), c);
      StillAwaits(n, Exec(n, s, init), c, h);
    }
  }

  lemma OneSuccessAdmits(n: nat, s: System, h: Handle)
    requires Inv(n, s) && AwaitsWhileLive(s, h) && h in s.live
    ensures h !in s.flags.healthy && h in Do(n, s, Probe(h, true)).flags.healthy
  {
  }

  lemma SwappedAwaits(s: System, removed: set<Handle>, added: set<Handle>, h: Handle)
    requires h in added
    ensures AwaitsWhileLive(Swapped(s, removed, added), h)
  {
  }

  /** A backend that a reload adds stays unhealthy, whatever else happens, until its own first successful probe, and that one
      probe makes it healthy. */
  lemma AdmittedByFirstSuccess(n: nat, s: System, removed: set<Handle>, added: set<Handle>, later: seq<Choice>, h: Handle)
    requires Inv(n, s) && Legal(s, Swap(removed, added)) && h in added
    requires LegalRun(n, Do(n, s, Swap(removed, added)), later) && Probe(h, true) !in later
    ensures var t := Exec(n, Do(n, s, Swap(removed, added)), later);
            h in t.live ==> h !in t.flags.healthy && h in Do(n, t, Probe(h, true)).flags.healthy
  {
    StepKeepsInv(n, s, Swap(removed, added));
    SwappedAwaits(s, removed, added, h);
    AwaitsThroughout(n, Do(n, s, Swap(removed, added)), later, h);
    var t := Exec(n, Do(n, s, Swap(removed, added)), later);
    if h in t.live { OneSuccessAdmits(n, t, h); }
  }

  // ---------- the first probe round ----------

  /** Without a reload, only the startup fleet is ever reached. */
  lemma {:induction false} FixedFleet(fleet: set<Handle>, run: seq<Choice>)
    requires NamesApart(fleet) && forall c :: c in run ==> !c.Swap?
    ensures LegalRun(|fleet|, Start(fleet), run) && Exec(|fleet|, Start(fleet), run).known == fleet
  {
    if run != [] {
      assert run == run[..|run| - 1] + [run[|run| - 1]];
      FixedFleet(fleet, run[..|run| - 1]);
    }
  }

  /** Without a reload, the latch says that every startup backend has been probed. */
  lemma LatchWithoutReload(fleet: set<Handle>, run: seq<Choice>)
    requires NamesApart(fleet) && fleet != {} && forall c :: c in run ==> !c.Swap?
    ensures var s := Exec(|fleet|, Start(fleet), run); s.sweep.complete <==> s.reached == fleet
  {
    FixedFleet(fleet, run);
    GaugeAgreesInEveryRun(fleet, run);
    var s := Exec(|fleet|, Start(fleet), run);
    SubsetOfSameSize(s.reached, fleet);
  }

  lemma CountParts(a: set<Handle>, b: set<Handle>)
    ensures |a| >= |b| <==> |a - b| >= |b - a|
  {
    assert a == (a - b) + a * b && b == (b - a) + a * b;
  }

  /** In every legal run, reloads and all, the latch is wrong exactly when some startup backend was never probed and at least
      as many later backends were. */
  lemma LatchWrongExactly(fleet: set<Handle>, run: seq<Choice>)
    requires NamesApart(fleet) && LegalRun(|fleet|, Start(fleet), run)
    ensures var s := Exec(|fleet|, Start(fleet), run);
            && (fleet <= s.reached && fleet != {} ==> s.sweep.complete)
            && (s.sweep.complete && !(fleet <= s.reached) <==> 0 < |fleet - s.reached| <= |s.reached - fleet|)
  {
    GaugeAgreesInEveryRun(fleet, run);
    var s := Exec(|fleet|, Start(fleet), run);
    CountParts(s.reached, fleet);
    if fleet <= s.reached {
      assert fleet - s.reached == {};
    } else {
      var h :| h in fleet && h !in s.reached;
      assert h in fleet - s.reached && fleet != {};
    }
  }

  /** The other way round: every live backend has been probed and the latch is still unset exactly when, reloads having
      removed startup backends, fewer were probed in all than there were at startup. */
  lemma LatchUnsetExactly(fleet: set<Handle>, run: seq<Choice>)
    requires NamesApart(fleet) && LegalRun(|fleet|, Start(fleet), run) && fleet != {}
    ensures var s := Exec(|fleet|, Start(fleet), run);
            && (!s.sweep.complete && s.live <= s.reached <==> s.live <= s.reached && |s.reached| < |fleet|)
            && (!s.sweep.complete && s.live <= s.reached ==> exists h :: h in fleet && h !in s.live && h !in s.reached)
  {
    GaugeAgreesInEveryRun(fleet, run);
    var s := Exec(|fleet|, Start(fleet), run);
    if !s.sweep.complete && s.live <= s.reached {
      if fleet <= s.reached {
        SubsetOfSameSize(fleet, s.reached);
        assert false;
      }
      var h :| h in fleet && h !in s.reached;
    }
  }

  /** Such a run: h probed, g removed unprobed. */
  lemma LatchUnsetAfterReload(g: Handle, h: Handle)
    requires g.name != h.name
    ensures var run := [Probe(h, true)] + [Swap({g}, {})];
            var s := Exec(2, Start({g, h}), run);
            LegalRun(2, Start({g, h}), run) && s.live == {h} == s.reached && !s.sweep.complete
  {
    var s0, first := Start({g, h}), [Probe(h, true)];
    ExecSnoc(2, s0, [], Probe(h, true));
    assert [] + first == first;
    ExecSnoc(2, s0, first, Swap({g}, {}));
    var s1 := Do(2, s0, Probe(h, true));
    assert s1.sweep == C.Sweep(1, false) && s1.live == {g, h} && s1.reached == {h};
    assert Legal(s1, Swap({g}, {}));
  }

  lemma SubsetOfSameSize(a: set<Handle>, b: set<Handle>)
    requires a <= b
    ensures |a| <= |b| && (|a| == |b| <==> a == b)
  {
    assert b == a + (b - a);
  }

  lemma ExecSnoc(n: nat, s: System, run: seq<Choice>, c: Choice)
    ensures Exec(n, s, run + [c]) == Do(n, Exec(n, s, run), c)
    ensures LegalRun(n, s, run + [c]) <==> LegalRun(n, s, run) && Legal(Exec(n, s, run), c)
  {
    assert (run + [c])[..|run|] == run;
  }

  lemma OneOfTwoProbed(g: Handle, h: Handle, added: Handle)
    requires g.name != h.name && added.name !in {g.name, h.name}
    ensures var s := Do(2, Start({g, h}), Probe(h, true));
            && s.sweep == C.Sweep(1, false) && s.live == {g, h} && s.reached == {h}
            && Legal(s, Swap({}, {added}))
  {
    assert added !in {g, h};
  }

  /** With one it says only that as many backends have been probed as there were at startup: here g never was. */
  lemma LatchAfterReload(g: Handle, h: Handle, added: Handle)
    requires g.name != h.name && added.name !in {g.name, h.name}
    ensures var run := [Probe(h, true)] + [Swap({}, {added})] + [Probe(added, true)];
            var s := Exec(2, Start({g, h}), run);
            LegalRun(2, Start({g, h}), run) && s.sweep.complete && g in s.live && g !in s.reached
  {
    var s0 := Start({g, h});
    var first, second := [Probe(h, true)], [Probe(h, true)] + [Swap({}, {added})];
    ExecSnoc(2, s0, [], Probe(h, true));
    assert [] + first == first;
    ExecSnoc(2, s0, first, Swap({}, {added}));
    ExecSnoc(2, s0, second, Probe(added, true));
    OneOfTwoProbed(g, h, added);
    LatchCompletes(Do(2, s0, Probe(h, true)), added);
  }

  lemma LatchCompletes(s: System, added: Handle)
    requires s.sweep == C.Sweep(1, false)
    ensures var t := Do(2, Do(2, s, Swap({}, {added})), Probe(added, true));
            t.sweep == C.Sweep(2, true) && t.live == s.live + {added} && t.reached == s.reached + {added}
  {
    assert Swapped(s, {}, {added}).probers[added] == C.NewProbe(true);
  }

  // ---------- recovery from a passive ejection ----------

  function Repeat(c: Choice, k: nat): seq<Choice> {
    seq(k, _ => c)
  }

  /** The k latest outcomes of the window are failures. */
  predicate FailedLately(o: seq<bool>, k: nat) {
    k <= |o| && forall j :: |o| - k <= j < |o| ==> !o[j]
  }

  lemma {:induction false} LateFailuresCount(o: seq<bool>, k: nat)
    requires FailedLately(o, k)
    ensures O.Failures(o) >= k
  {
    if k > 0 {
      var init := o[..|o| - 1];
      assert o == init + [false];
      LateFailuresCount(init, k - 1);
      O.FailuresSnoc(init, false);
    }
  }

  /** After k failed round trips: ejected, or an episode not ejected yet whose k latest outcomes are failures. */
  predicate Failing(s: System, h: Handle, k: nat) {
    h in s.flags.healthy ==> k == 0 || (h in s.windows && !s.windows[h].ejected && FailedLately(s.windows[h].outcomes, k))
  }

  lemma OneMoreFailure(s: System, h: Handle, k: nat)
    requires k < 5 && Failing(s, h, k)
    ensures Failing(Observed(s, h, false), h, k + 1) && (k + 1 == 5 ==> h !in Observed(s, h, false).flags.healthy)
  {
    if h in s.flags.healthy {
      var w := O.Remembered(s.windows, h);
      var o := O.Slide(O.Episode(w, true).outcomes, false);
      assert FailedLately(o, k + 1);
      LateFailuresCount(o, k + 1);
    }
  }

  lemma {:induction false} FailuresEject(n: nat, s: System, h: Handle, k: nat)
    requires h in s.live && k <= 5
    ensures var t := Exec(n, s, Repeat(Observe(h, false), k));
            && t.probers == s.probers && t.live == s.live && Failing(t, h, k) && (k == 5 ==> h !in t.flags.healthy)
  {
    if k > 0 {
      assert Repeat(Observe(h, false), k) == Repeat(Observe(h, false), k - 1) + [Observe(h, false)];
      ExecSnoc(n, s, Repeat(Observe(h, false), k - 1), Observe(h, false));
      FailuresEject(n, s, h, k - 1);
      OneMoreFailure(Exec(n, s, Repeat(Observe(h, false), k - 1)), h, k - 1);
    }
  }

  /** A passive ejection is not paced by two probes.  From any reachable state, whatever the window holds, five failed round
      trips leave a healthy backend ejected, and the next successful probe alone reinstates it exactly when the prober's
      success streak is running. */
  lemma NextProbeReinstates(n: nat, s: System, h: Handle)
    requires Inv(n, s) && h in s.live && h in s.flags.healthy
    ensures var t := Exec(n, s, Repeat(Observe(h, false), 5));
            h !in t.flags.healthy && (h in Do(n, t, Probe(h, true)).flags.healthy <==> s.probers[h].successes >= 1)
  {
    FailuresEject(n, s, h, 5);
  }

  lemma {:induction false} ExecAppend(n: nat, s: System, a: seq<Choice>, b: seq<Choice>)
    ensures Exec(n, s, a + b) == Exec(n, Exec(n, s, a), b)
  {
    if b == [] {
      assert a + b == a;
    } else {
      assert (a + b)[..|a + b| - 1] == a + b[..|b| - 1];
      ExecAppend(n, s, a, b[..|b| - 1]);
    }
  }

  /** A run from startup: one successful probe, five failed round trips, and one successful probe reinstates. */
  lemma EjectedThenOneProbe(h: Handle)
    ensures var run := [Probe(h, true)] + Repeat(Observe(h, false), 5);
            && h !in Exec(1, Start({h}), run).flags.healthy
            && h in Exec(1, Start({h}), run + [Probe(h, true)]).flags.healthy
  {
    var s0, first := Start({h}), [Probe(h, true)];
    StartInv(1, {h});
    ExecSnoc(1, s0, [], Probe(h, true));
    assert [] + first == first;
    var s1 := Do(1, s0, Probe(h, true));
    StepKeepsInv(1, s0, Probe(h, true));
    assert s1.probers[h].successes == 1 && h in s1.flags.healthy;
    NextProbeReinstates(1, s1, h);
    ExecAppend(1, s0, first, Repeat(Observe(h, false), 5));
    ExecSnoc(1, s0, first + Repeat(Observe(h, false), 5), Probe(h, true));
  }
}
