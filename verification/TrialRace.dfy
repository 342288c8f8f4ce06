/** Two runs of proxy requests with two trials in flight at once (internal/backend/backend.go:352-452,
    internal/proxy/proxy.go:418-446).  In one a request that does not hold the trial re-arms it; in the other such a
    request's outcome resolves it, and the next episode admits another. */
module TrialRace {
  import opened Circuit
  import opened CircuitRuns
  import Breaker

  ghost predicate Reachable(tuning: Tuning, s: System) {
    exists schedule :: ExecProxy(tuning, schedule) == s
  }

  lemma Reach(tuning: Tuning, s: System, c: Choice)
    requires Reachable(tuning, s) && Permitted(s, c)
    ensures Reachable(tuning, Do(tuning, s, c))
  {
    var schedule :| ExecProxy(tuning, schedule) == s;
    assert (schedule + [c])[..|schedule|] == schedule;
    assert ExecProxy(tuning, schedule + [c]) == Do(tuning, s, c);
  }

  /** An undisturbed step of thread t. */
  lemma ReachStep(tuning: Tuning, s: System, t: nat, s': System)
    requires Reachable(tuning, s) && t in s.threads && StepThread(tuning, s, t) == s'
    ensures Reachable(tuning, s')
  {
    Reach(tuning, s, Step(t));
  }

  function At(s: System, t: nat, pc: Pc, stage: Stage): System {
    s.(threads := s.threads[t := Thread(pc, stage)])
  }

  /** The state after thread t's call took effect with one store (or none) and one event, and returned. */
  function Returned(s: System, t: nat, stage: Stage, e: Event, snap: Snapshot, stored: bool, r: Report): System {
    s.(threads := s.threads[t := Thread(Idle, stage)], history := s.history + [e], reports := s.reports + [r],
       cell := if stored then Cell(s.nextId, snap) else s.cell, nextId := if stored then s.nextId + 1 else s.nextId)
  }

  lemma AllowClosed(tuning: Tuning, s: System, t: nat)
    requires Reachable(tuning, s) && t !in s.threads && s.cell.snap.state == Closed
    ensures Reachable(tuning, Returned(s, t, InFlight, Admitted(t), s.cell.snap, false, Report(t, Allow, true, NoChange)))
  {
    Reach(tuning, s, Invoke(t, Allow));
    ReachStep(tuning, At(s, t, AtLoad(Allow, Promote, false), Fresh), t, At(s, t, AtLoad(Allow, Admit, false), Fresh));
    ReachStep(tuning, At(s, t, AtLoad(Allow, Admit, false), Fresh), t,
              Returned(s, t, InFlight, Admitted(t), s.cell.snap, false, Report(t, Allow, true, NoChange)));
  }

  lemma FailureOpens(tuning: Tuning, s: System, t: nat)
    requires Reachable(tuning, s) && t in s.threads && s.threads[t] == Thread(Idle, InFlight) && !s.removed
    requires s.cell.snap.state == Closed && s.cell.snap.failures + 1 >= tuning.threshold
    ensures Reachable(tuning, Returned(s, t, Finished, Failed(t, s.now), Snapshot(Open, 0, false, s.now), true,
                                       Report(t, FailureCall, false, Opened)))
  {
    Reach(tuning, s, Invoke(t, FailureCall));
    var s1 := At(s, t, AtLoad(FailureCall, Fail, false), InFlight);
    var s2 := At(s, t, AtClock(FailureCall, Fail, false, s.cell), InFlight);
    var s3 := At(s, t, AtSwap(FailureCall, Fail, false, s.cell, s.now), InFlight);
    ReachStep(tuning, s1, t, s2);
    ReachStep(tuning, s2, t, s3);
    ReachStep(tuning, s3, t, Returned(s, t, Finished, Failed(t, s.now), Snapshot(Open, 0, false, s.now), true,
                                      Report(t, FailureCall, false, Opened)));
  }

  lemma FailureCounts(tuning: Tuning, s: System, t: nat)
    requires Reachable(tuning, s) && t in s.threads && s.threads[t] == Thread(Idle, InFlight) && !s.removed
    requires s.cell.snap.state == Closed && s.cell.snap.failures + 1 < tuning.threshold
    ensures Reachable(tuning, Returned(s, t, Finished, Failed(t, 0), s.cell.snap.(failures := s.cell.snap.failures + 1), true,
                                       Report(t, FailureCall, false, NoChange)))
  {
    Reach(tuning, s, Invoke(t, FailureCall));
    var s1 := At(s, t, AtLoad(FailureCall, Fail, false), InFlight);
    var s2 := At(s, t, AtSwap(FailureCall, Fail, false, s.cell, 0), InFlight);
    ReachStep(tuning, s1, t, s2);
    ReachStep(tuning, s2, t, Returned(s, t, Finished, Failed(t, 0), s.cell.snap.(failures := s.cell.snap.failures + 1), true,
                                      Report(t, FailureCall, false, NoChange)));
  }

  lemma ScanPromotes(tuning: Tuning, s: System, t: nat)
    requires Reachable(tuning, s) && t !in s.threads
    requires s.cell.snap.state == Open && s.now - s.cell.snap.openedAt >= tuning.cooldown
    ensures Reachable(tuning, Returned(s, t, Fresh, Promoted(t, true, s.now), Snapshot(HalfOpen, 0, false, 0), true,
                                       Report(t, Scan, true, NoChange)))
  {
    Reach(tuning, s, Invoke(t, Scan));
    var s1 := At(s, t, AtLoad(Scan, Promote, false), Fresh);
    var s2 := At(s, t, AtClock(Scan, Promote, false, s.cell), Fresh);
    var s3 := At(s, t, AtSwap(Scan, Promote, false, s.cell, s.now), Fresh);
    ReachStep(tuning, s1, t, s2);
    ReachStep(tuning, s2, t, s3);
    ReachStep(tuning, s3, t, Returned(s, t, Fresh, Promoted(t, true, s.now), Snapshot(HalfOpen, 0, false, 0), true,
                                      Report(t, Scan, true, NoChange)));
  }

  lemma AllowTrial(tuning: Tuning, s: System, t: nat)
    requires Reachable(tuning, s) && t !in s.threads
    requires s.cell.snap == Snapshot(HalfOpen, 0, false, 0)
    ensures Reachable(tuning, Returned(s, t, InFlight, TrialTaken(t), Snapshot(HalfOpen, 0, true, 0), true,
                                       Report(t, Allow, true, NoChange)))
  {
    Reach(tuning, s, Invoke(t, Allow));
    var s1 := At(s, t, AtLoad(Allow, Promote, false), Fresh);
    var s2 := At(s, t, AtLoad(Allow, Admit, false), Fresh);
    var s3 := At(s, t, AtSwap(Allow, Admit, false, s.cell, 0), Fresh);
    ReachStep(tuning, s1, t, s2);
    ReachStep(tuning, s2, t, s3);
    ReachStep(tuning, s3, t, Returned(s, t, InFlight, TrialTaken(t), Snapshot(HalfOpen, 0, true, 0), true,
                                      Report(t, Allow, true, NoChange)));
  }

  lemma RearmFrees(tuning: Tuning, s: System, t: nat)
    requires Reachable(tuning, s) && t in s.threads && s.threads[t] == Thread(Idle, InFlight)
    requires s.cell.snap == Snapshot(HalfOpen, 0, true, 0)
    ensures Reachable(tuning, Returned(s, t, Finished, Rearmed(t), Snapshot(HalfOpen, 0, false, 0), true,
                                       Report(t, RearmCall, false, NoChange)))
  {
    Reach(tuning, s, Invoke(t, RearmCall));
    var s1 := At(s, t, AtLoad(RearmCall, Rearm, false), InFlight);
    var s2 := At(s, t, AtSwap(RearmCall, Rearm, false, s.cell, 0), InFlight);
    ReachStep(tuning, s1, t, s2);
    ReachStep(tuning, s2, t, Returned(s, t, Finished, Rearmed(t), Snapshot(HalfOpen, 0, false, 0), true,
                                      Report(t, RearmCall, false, NoChange)));
  }

  const RACE: seq<Event> := [TrialTaken(5)] + [Rearmed(0)] + [TrialTaken(6)]

  /** Half-open and free just after a promotion, with request 0 still in flight from before. */
  ghost predicate Ready(tuning: Tuning, s: System) {
    && Reachable(tuning, s) && s.threads.Keys == {0, 1, 2, 3, 4} && s.threads[0] == Thread(Idle, InFlight)
    && s.cell.snap == Snapshot(HalfOpen, 0, false, 0) && s.history != [] && s.history[|s.history| - 1].Promoted?
  }

  ghost predicate Raced(tuning: Tuning, s: System, before: seq<Event>) {
    && Reachable(tuning, s) && s.history == before + RACE && {5, 6} <= s.threads.Keys
    && s.threads[5] == Thread(Idle, InFlight) && s.threads[6] == Thread(Idle, InFlight)
  }

  lemma ReachRace(tuning: Tuning, s: System) returns (s3: System)
    requires Ready(tuning, s)
    ensures Raced(tuning, s3, s.history)
  {
    AllowTrial(tuning, s, 5);
    var s1 := Returned(s, 5, InFlight, TrialTaken(5), Snapshot(HalfOpen, 0, true, 0), true, Report(5, Allow, true, NoChange));
    RearmFrees(tuning, s1, 0);
    var s2 := Returned(s1, 0, Finished, Rearmed(0), Snapshot(HalfOpen, 0, false, 0), true, Report(0, RearmCall, false, NoChange));
    AllowTrial(tuning, s2, 6);
    s3 := Returned(s2, 6, InFlight, TrialTaken(6), Snapshot(HalfOpen, 0, true, 0), true, Report(6, Allow, true, NoChange));
    assert s3.history == s.history + RACE;
  }

  /** Requests 0 to 3 admitted, none finished. */
  lemma ReachAdmitted(tuning: Tuning) returns (s: System)
    ensures Reachable(tuning, s) && s.threads.Keys == {0, 1, 2, 3} && s.cell.snap == ZERO && !s.removed && s.now == 0
    ensures forall t | t in s.threads :: s.threads[t] == Thread(Idle, InFlight)
    ensures forall e :: e in s.history ==> e.Admitted?
  {
    assert ExecProxy(tuning, []) == START;
    s := START;
    for t := 0 to 4
      invariant Reachable(tuning, s) && s.cell.snap == ZERO && !s.removed && s.now == 0
      invariant forall u :: u in s.threads <==> 0 <= u < t
      invariant forall u | u in s.threads :: s.threads[u] == Thread(Idle, InFlight)
      invariant forall e :: e in s.history ==> e.Admitted?
    {
      AllowClosed(tuning, s, t);
      s := Returned(s, t, InFlight, Admitted(t), s.cell.snap, false, Report(t, Allow, true, NoChange));
    }
  }

  lemma ReachHalfOpen(cooldown: nat) returns (s: System)
    ensures Ready(Breaker.TuningOf(cooldown), s) && !s.removed
    ensures forall e :: e in s.history ==> !e.TrialTaken? && !e.Rearmed?
  {
    var tuning := Breaker.TuningOf(cooldown);
    s := ReachAdmitted(tuning);
    FailureCounts(tuning, s, 1);
    s := Returned(s, 1, Finished, Failed(1, 0), Snapshot(Closed, 1, false, 0), true, Report(1, FailureCall, false, NoChange));
    FailureCounts(tuning, s, 2);
    s := Returned(s, 2, Finished, Failed(2, 0), Snapshot(Closed, 2, false, 0), true, Report(2, FailureCall, false, NoChange));
    FailureOpens(tuning, s, 3);
    s := Returned(s, 3, Finished, Failed(3, 0), Snapshot(Open, 0, false, 0), true, Report(3, FailureCall, false, Opened));
    Reach(tuning, s, Tick(cooldown));
    s := s.(now := cooldown);
    ScanPromotes(tuning, s, 4);
    s := Returned(s, 4, Fresh, Promoted(4, true, s.now), Snapshot(HalfOpen, 0, false, 0), true, Report(4, Scan, true, NoChange));
  }

  lemma RaceTakes(h: seq<Event>)
    requires h != [] && h[|h| - 1].Promoted?
    ensures InEpisode(h + RACE, (e: Event) => e.TrialTaken?) == 2
  {
    var taken := (e: Event) => e.TrialTaken?;
    var h1 := h + [TrialTaken(5)];
    var h2 := h1 + [Rearmed(0)];
    var h3 := h2 + [TrialTaken(6)];
    assert h1[..|h1| - 1] == h && h2[..|h2| - 1] == h1 && h3[..|h3| - 1] == h2;
    assert h + RACE == h3;
    assert InEpisode(h, taken) == 0 && InEpisode(h1, taken) == 1 && InEpisode(h2, taken) == 1;
  }

  lemma RaceBalance(h: seq<Event>)
    requires h != [] && h[|h| - 1].Promoted?
    ensures TrialBalance(h + RACE) == 1 && Outstanding(h + RACE) == {5, 6}
  {
    var h1 := h + [TrialTaken(5)];
    var h2 := h1 + [Rearmed(0)];
    var h3 := h2 + [TrialTaken(6)];
    assert h1[..|h1| - 1] == h && h2[..|h2| - 1] == h1 && h3[..|h3| - 1] == h2;
    assert h + RACE == h3;
    OutstandingSnoc(h, TrialTaken(5));
    OutstandingSnoc(h1, Rearmed(0));
    OutstandingSnoc(h2, TrialTaken(6));
    assert TrialBalance(h) == 0 && TrialBalance(h1) == 1 && TrialBalance(h2) == 0;
  }

  /** For every cooldown there is a run, every call of which the proxy makes, with the breaker's own threshold of
      three: request 0, admitted while closed and then abandoned by its client, gives back the trial that request 5
      took, and request 6 takes it again while request 5 is still in flight. */
  lemma TwoTrialsInFlight(cooldown: nat) returns (s: System)
    ensures Reachable(Breaker.TuningOf(cooldown), s)
    ensures {5, 6} <= s.threads.Keys && s.threads[5] == Thread(Idle, InFlight) && s.threads[6] == Thread(Idle, InFlight)
    ensures InEpisode(s.history, (e: Event) => e.TrialTaken?) == 2 && TrialBalance(s.history) == 1
    ensures Outstanding(s.history) == {5, 6}
  {
    var ready := ReachHalfOpen(cooldown);
    s := ReachRace(Breaker.TuningOf(cooldown), ready);
    RaceTakes(ready.history);
    RaceBalance(ready.history);
  }

  // ---------- across two episodes, without a re-arm ----------

  lemma FailureReopens(tuning: Tuning, s: System, t: nat)
    requires Reachable(tuning, s) && t in s.threads && s.threads[t] == Thread(Idle, InFlight) && !s.removed
    requires s.cell.snap.state == HalfOpen
    ensures Reachable(tuning, Returned(s, t, Finished, Failed(t, s.now), Snapshot(Open, 0, false, s.now), true,
                                       Report(t, FailureCall, false, Reopened)))
  {
    Reach(tuning, s, Invoke(t, FailureCall));
    var s1 := At(s, t, AtLoad(FailureCall, Fail, false), InFlight);
    var s2 := At(s, t, AtClock(FailureCall, Fail, false, s.cell), InFlight);
    var s3 := At(s, t, AtSwap(FailureCall, Fail, false, s.cell, s.now), InFlight);
    ReachStep(tuning, s1, t, s2);
    ReachStep(tuning, s2, t, s3);
    ReachStep(tuning, s3, t, Returned(s, t, Finished, Failed(t, s.now), Snapshot(Open, 0, false, s.now), true,
                                      Report(t, FailureCall, false, Reopened)));
  }

  /** What request 0's stale failure and a second promotion add: trial 7 beside trial 5. */
  function Overlap(now: int, cooldown: int): seq<Event> {
    [TrialTaken(5)] + [Failed(0, now)] + [Promoted(6, true, now + cooldown)] + [TrialTaken(7)]
  }

  lemma ReachOverlap(cooldown: nat, s: System) returns (t: System)
    requires Ready(Breaker.TuningOf(cooldown), s) && !s.removed
    ensures Reachable(Breaker.TuningOf(cooldown), t) && t.history == s.history + Overlap(s.now, cooldown)
    ensures {5, 7} <= t.threads.Keys && t.threads[5] == Thread(Idle, InFlight) && t.threads[7] == Thread(Idle, InFlight)
  {
    var tuning, now := Breaker.TuningOf(cooldown), s.now;
    AllowTrial(tuning, s, 5);
    t := Returned(s, 5, InFlight, TrialTaken(5), Snapshot(HalfOpen, 0, true, 0), true, Report(5, Allow, true, NoChange));
    FailureReopens(tuning, t, 0);
    t := Returned(t, 0, Finished, Failed(0, now), Snapshot(Open, 0, false, now), true, Report(0, FailureCall, false, Reopened));
    Reach(tuning, t, Tick(cooldown));
    t := t.(now := now + cooldown);
    ScanPromotes(tuning, t, 6);
    t := Returned(t, 6, Fresh, Promoted(6, true, t.now), Snapshot(HalfOpen, 0, false, 0), true, Report(6, Scan, true, NoChange));
    AllowTrial(tuning, t, 7);
    t := Returned(t, 7, InFlight, TrialTaken(7), Snapshot(HalfOpen, 0, true, 0), true, Report(7, Allow, true, NoChange));
    assert t.history == s.history + Overlap(now, cooldown);
  }

  lemma {:induction false} NoneOut(h: seq<Event>)
    requires forall e :: e in h ==> !e.TrialTaken? && !e.Rearmed?
    ensures Out(h) == {} && OwnRearms(h)
  {
    if h != [] {
      assert h == h[..|h| - 1] + [h[|h| - 1]];
      NoneOut(h[..|h| - 1]);
    }
  }

  lemma OverlapOut(h: seq<Event>, now: int, cooldown: int)
    requires forall e :: e in h ==> !e.TrialTaken? && !e.Rearmed?
    ensures Out(h + Overlap(now, cooldown)) == {5, 7}
    ensures OwnRearms(h + Overlap(now, cooldown)) && !OwnEnds(h + Overlap(now, cooldown))
  {
    NoneOut(h);
    var h1 := h + [TrialTaken(5)];
    var h2 := h1 + [Failed(0, now)];
    var h3 := h2 + [Promoted(6, true, now + cooldown)];
    var h4 := h3 + [TrialTaken(7)];
    OutSnoc(h, TrialTaken(5));
    OutSnoc(h1, Failed(0, now));
    OutSnoc(h2, Promoted(6, true, now + cooldown));
    OutSnoc(h3, TrialTaken(7));
    assert h1[..|h1| - 1] == h && h2[..|h2| - 1] == h1 && h3[..|h3| - 1] == h2 && h4[..|h4| - 1] == h3;
    assert OwnRearms(h1) && OwnRearms(h2) && OwnRearms(h3);
    OwnEndsSnoc(h1, Failed(0, now));
    OwnEndsSnoc(h2, Promoted(6, true, now + cooldown));
    OwnEndsSnoc(h3, TrialTaken(7));
    assert h + Overlap(now, cooldown) == h4;
  }

  /** For every cooldown there is a run, every call of which the proxy makes and none of which re-arms: request 0, admitted
      while closed, fails while request 5 holds the trial and so reopens the circuit; after the cooldown request 7 takes the
      next episode's trial while request 5 is still in flight. */
  lemma StaleFailureOverlaps(cooldown: nat) returns (s: System)
    ensures Reachable(Breaker.TuningOf(cooldown), s)
    ensures {5, 7} <= s.threads.Keys && s.threads[5] == Thread(Idle, InFlight) && s.threads[7] == Thread(Idle, InFlight)
    ensures Out(s.history) == {5, 7} && OwnRearms(s.history) && !OwnEnds(s.history)
  {
    var ready := ReachHalfOpen(cooldown);
    s := ReachOverlap(cooldown, ready);
    OverlapOut(ready.history, ready.now, cooldown);
  }
}
