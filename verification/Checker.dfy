/** Active probing (internal/health/checker.go): the consecutive-outcome machine of one prober, and the checker's
    first-probe-round latch. */
module Checker {
  import opened Fleet
  import opened HealthBoard

  const PROBE_FAILURES_BEFORE_UNHEALTHY: nat := 3
  const PROBE_SUCCESSES_BEFORE_HEALTHY: nat := 2
  const PROBE_INITIAL_SUCCESSES_BEFORE_HEALTHY: nat := 1

  /** A prober's own fields.  added: introduced by a reload and not admitted yet. */
  datatype Probe = Probe(added: bool, successes: nat, failures: nat, counted: bool)

  function NewProbe(added: bool): Probe {
    Probe(added, 0, 0, false)
  }

  function Threshold(p: Probe): nat {
    if p.added then PROBE_INITIAL_SUCCESSES_BEFORE_HEALTHY else PROBE_SUCCESSES_BEFORE_HEALTHY
  }

  /** The counters after one probe that was not cancelled. */
  function Counted(p: Probe, ok: bool): Probe {
    if ok then Probe(false, if p.added then 0 else p.successes + 1, 0, true)
    else Probe(p.added, 0, p.failures + 1, true)
  }

  /** The bit and the gauge after it. */
  function Judged(f: Flags, h: Handle, p: Probe, ok: bool): Flags {
    if ok && p.successes + 1 >= Threshold(p) then
      Flags(f.healthy + {h}, if h in f.healthy then f.gauge else f.gauge[h.name := true])
    else if !ok && p.failures + 1 >= PROBE_FAILURES_BEFORE_UNHEALTHY then
      Flags(f.healthy - {h},
            if h in f.healthy && p.failures + 1 == PROBE_FAILURES_BEFORE_UNHEALTHY then f.gauge[h.name := false] else f.gauge)
    else f
  }

  /** The first-probe-round latch: how many probers have reported once, and whether that number has met backendCount. */
  datatype Sweep = Sweep(probed: nat, complete: bool)

  function Swept(s: Sweep, backendCount: nat, counted: bool): Sweep {
    if counted then s else Sweep(s.probed + 1, s.complete || s.probed + 1 == backendCount)
  }

  class Checker {
    const backendCount: nat
    var probed: nat
    var probeRoundComplete: bool
    /** The backends being probed. */
    var probers: set<Handle>

    function View(): Sweep
      reads this
    {
      Sweep(probed, probeRoundComplete)
    }

    constructor (backendCount: nat)
      ensures this.backendCount == backendCount && View() == Sweep(0, false) && probers == {}
    {
      this.backendCount, probed, probeRoundComplete, probers := backendCount, 0, false, {};
    }

    /** Registers a prober; a backend already probed keeps the one it has.  A reload's backend is marked unhealthy. */
    method Add(board: Board, b: Handle, added: bool) returns (p: Option<Prober>)
      modifies this`probers, board`healthy
      ensures p.None? <==> b in old(probers)
      ensures p.Some? ==> fresh(p.value) && p.value.View() == NewProbe(added) && p.value.target == b
      ensures probers == old(probers) + {b}
      ensures board.healthy == if p.Some? && added then old(board.healthy) - {b} else old(board.healthy)
    {
      if b in probers { return None; }
      var prober := new Prober(this, board, b, added);
      probers := probers + {b};
      if added { board.healthy := board.healthy - {b}; }
      return Some(prober);
    }

    /** Afterwards b can be registered anew; removing a backend that is not probed changes nothing. */
    method Remove(b: Handle)
      modifies this`probers
      ensures probers == old(probers) - {b}
    {
      probers := probers - {b};
    }
  }

  class Prober {
    const checker: Checker
    const board: Board
    const target: Handle
    var added: bool
    var successes: nat
    var failures: nat
    var counted: bool

    function View(): Probe
      reads this
    {
      Probe(added, successes, failures, counted)
    }

    constructor (checker: Checker, board: Board, target: Handle, added: bool)
      ensures this.checker == checker && this.board == board && this.target == target && View() == NewProbe(added)
    {
      this.checker, this.board, this.target := checker, board, target;
      this.added, successes, failures, counted := added, 0, 0, false;
    }

    method MarkProbed()
      modifies this`counted, checker
      ensures counted && checker.View() == Swept(old(checker.View()), checker.backendCount, old(counted))
    {
      if counted { return; }
      counted := true;
      checker.probed := checker.probed + 1;
      if checker.probed == checker.backendCount { checker.probeRoundComplete := true; }
    }

    /** One probe.  ok is the HTTP result; cancelled says the prober was removed while the probe was in flight. */
    method ProbeOnce(ok: bool, cancelled: bool) returns (succeeded: bool)
      modifies this, board, checker
      ensures succeeded == (ok && !cancelled)
      ensures cancelled ==> View() == old(View()) && board.View() == old(board.View()) && checker.View() == old(checker.View())
      ensures !cancelled ==> View() == Counted(old(View()), ok) && board.View() == Judged(old(board.View()), target, old(View()), ok)
      ensures !cancelled ==> checker.View() == Swept(old(checker.View()), checker.backendCount, old(counted))
    {
      if cancelled { return false; }
      if ok {
        failures := 0;
        successes := successes + 1;
        var threshold := PROBE_SUCCESSES_BEFORE_HEALTHY;
        if added { threshold := PROBE_INITIAL_SUCCESSES_BEFORE_HEALTHY; }
        if successes >= threshold && target !in board.healthy { board.gauge := board.gauge[target.name := true]; }
        if successes >= threshold { board.healthy := board.healthy + {target}; }
        if added { added, successes := false, 0; }
      } else {
        successes := 0;
        failures := failures + 1;
        if failures == PROBE_FAILURES_BEFORE_UNHEALTHY && target in board.healthy {
          board.gauge := board.gauge[target.name := false];
        }
        if failures >= PROBE_FAILURES_BEFORE_UNHEALTHY { board.healthy := board.healthy - {target}; }
      }
      MarkProbed();
      return ok;
    }
  }

  // ---------- what the counters mean ----------

  function After(p: Probe, outcomes: seq<bool>): Probe {
    if outcomes == [] then p else Counted(After(p, outcomes[..|outcomes| - 1]), outcomes[|outcomes| - 1])
  }

  /** The length of the run of x that s ends in. */
  function Trailing(s: seq<bool>, x: bool): (n: nat)
    ensures n <= |s| && (forall i | |s| - n <= i < |s| :: s[i] == x)
    ensures n < |s| ==> s[|s| - n - 1] != x
  {
    if s == [] || s[|s| - 1] != x then 0 else Trailing(s[..|s| - 1], x) + 1
  }

  lemma Snoc(p: Probe, s: seq<bool>, ok: bool)
    ensures After(p, s + [ok]) == Counted(After(p, s), ok)
    ensures Trailing(s + [ok], ok) == Trailing(s, ok) + 1 && Trailing(s + [ok], !ok) == 0
  {
    assert (s + [ok])[..|s|] == s;
  }

  /** A prober present from startup counts the two trailing runs of its history. */
  lemma {:induction false} CountersAreTrailingRuns(outcomes: seq<bool>)
    ensures After(NewProbe(false), outcomes) ==
              Probe(false, Trailing(outcomes, true), Trailing(outcomes, false), outcomes != [])
  {
    if outcomes != [] {
      var init := outcomes[..|outcomes| - 1];
      var ok := outcomes[|outcomes| - 1];
      assert outcomes == init + [ok];
      CountersAreTrailingRuns(init);
      Snoc(NewProbe(false), init, ok);
    }
  }

  /** A reload's prober stays unadmitted through its failures. */
  lemma {:induction false} AddedWaitsForSuccess(outcomes: seq<bool>)
    requires true !in outcomes
    ensures After(NewProbe(true), outcomes) == Probe(true, 0, |outcomes|, outcomes != [])
  {
    if outcomes != [] {
      var init := outcomes[..|outcomes| - 1];
      assert outcomes == init + [outcomes[|outcomes| - 1]] && outcomes[|outcomes| - 1] in outcomes;
      AddedWaitsForSuccess(init);
      Snoc(NewProbe(true), init, false);
    }
  }

  /** Its first success is spent on admission, and both counts start again from there. */
  lemma {:induction false} AddedCountsFromAdmission(before: seq<bool>, outcomes: seq<bool>)
    requires true !in before
    ensures After(NewProbe(true), before + [true] + outcomes) ==
              Probe(false, Trailing(outcomes, true), Trailing(outcomes, false), true)
  {
    if outcomes == [] {
      AddedWaitsForSuccess(before);
      Snoc(NewProbe(true), before, true);
      assert before + [true] + [] == before + [true];
    } else {
      var init := outcomes[..|outcomes| - 1];
      var ok := outcomes[|outcomes| - 1];
      var s := before + [true] + init;
      assert outcomes == init + [ok] && before + [true] + outcomes == s + [ok];
      AddedCountsFromAdmission(before, init);
      Snoc(NewProbe(true), s, ok);
      Snoc(NewProbe(false), init, ok);
    }
  }

  // ---------- the verdict of probes alone ----------

  /** The flags of a backend that probes alone have judged, from startup. */
  function FlagsAfter(h: Handle, outcomes: seq<bool>): Flags {
    if outcomes == [] then Flags({h}, map[h.name := true])
    else
      var init := outcomes[..|outcomes| - 1];
      Judged(FlagsAfter(h, init), h, After(NewProbe(false), init), outcomes[|outcomes| - 1])
  }

  /** Three failures in a row end at i. */
  predicate DownAt(s: seq<bool>, i: int) {
    3 <= i <= |s| && !s[i - 1] && !s[i - 2] && !s[i - 3]
  }

  /** Two successes in a row end at j. */
  predicate UpAt(s: seq<bool>, j: int) {
    2 <= j <= |s| && s[j - 1] && s[j - 2]
  }

  predicate UpSince(s: seq<bool>, i: int) {
    exists j :: i < j <= |s| && UpAt(s, j)
  }

  /** Every three failures in a row were followed by two successes in a row. */
  ghost predicate Serving(s: seq<bool>) {
    forall i :: DownAt(s, i) ==> UpSince(s, i)
  }

  lemma ServingSnoc(s: seq<bool>, ok: bool)
    ensures Serving(s + [ok]) <==> if ok then Serving(s) || (|s| > 0 && s[|s| - 1]) else Serving(s) && !DownAt(s + [ok], |s| + 1)
  {
    var t := s + [ok];
    forall i | i <= |s|
      ensures DownAt(s, i) == DownAt(t, i) && UpAt(s, i) == UpAt(t, i)
    {
    }
    assert DownAt(t, |t|) ==> !UpSince(t, |t|);
    if UpAt(t, |t|) {
      assert forall i :: DownAt(t, i) ==> UpSince(t, i);
    } else {
      assert forall i :: i <= |s| ==> UpSince(s, i) == UpSince(t, i);
    }
  }

  lemma TrailingThree(s: seq<bool>)
    ensures Trailing(s, false) >= 3 <==> DownAt(s, |s|)
    ensures Trailing(s, true) >= 2 <==> UpAt(s, |s|)
  {
  }

  function Verdict(h: Handle, serving: bool): Flags {
    if serving then Flags({h}, map[h.name := true]) else Flags({}, map[h.name := false])
  }

  /** One more probe, from a prober whose counts are the trailing runs of s. */
  lemma VerdictSnoc(h: Handle, s: seq<bool>, ok: bool, p: Probe)
    requires p == Probe(false, Trailing(s, true), Trailing(s, false), s != [])
    requires Serving(s) ==> Trailing(s, false) < 3
    ensures Judged(Verdict(h, Serving(s)), h, p, ok) == Verdict(h, Serving(s + [ok]))
    ensures Serving(s + [ok]) ==> Trailing(s + [ok], false) < 3
  {
    var t := s + [ok];
    Snoc(p, s, ok);
    TrailingThree(t);
    ServingSnoc(s, ok);
    assert ok ==> (Trailing(t, true) >= 2 <==> |s| > 0 && s[|s| - 1]);
  }

  /** A backend judged by probes alone is healthy, and its gauge reads 1, exactly when every three failures in a row
      were followed by two successes in a row. */
  lemma {:induction false} ProbesAloneDecide(h: Handle, outcomes: seq<bool>)
    ensures FlagsAfter(h, outcomes) == Verdict(h, Serving(outcomes))
    ensures Serving(outcomes) ==> Trailing(outcomes, false) < 3
  {
    if outcomes != [] {
      var init := outcomes[..|outcomes| - 1];
      var ok := outcomes[|outcomes| - 1];
      assert outcomes == init + [ok];
      ProbesAloneDecide(h, init);
      CountersAreTrailingRuns(init);
      VerdictSnoc(h, init, ok, After(NewProbe(false), init));
    }
  }

  // ---------- recovery ----------

  /** k successes in a row. */
  function Successes(k: nat): seq<bool> {
    seq(k, _ => true)
  }

  function FlagsFrom(f: Flags, h: Handle, p: Probe, outcomes: seq<bool>): Flags {
    if outcomes == [] then f
    else
      var init := outcomes[..|outcomes| - 1];
      Judged(FlagsFrom(f, h, p, init), h, After(p, init), outcomes[|outcomes| - 1])
  }

  /** The counter after k more successes: an admission is not counted. */
  function StreakAfter(p: Probe, k: nat): nat {
    if k == 0 then p.successes else if p.added then k - 1 else p.successes + k
  }

  lemma SuccessesSnoc(k: nat)
    ensures Successes(k + 1) != [] && Successes(k + 1)[..k] == Successes(k) && Successes(k + 1)[k]
  {
  }

  lemma {:induction false} StreakGrows(p: Probe, k: nat)
    ensures var q := After(p, Successes(k));
            q.successes == StreakAfter(p, k) && (q.added <==> p.added && k == 0)
  {
    if k > 0 {
      SuccessesSnoc(k - 1);
      StreakGrows(p, k - 1);
    }
  }

  /** k successes in a row reinstate an unhealthy backend exactly when they reach the threshold counted from the
      streak the prober already holds, or the backend is a reload's and k is at least one. */
  lemma {:induction false} RecoveryTakes(f: Flags, h: Handle, p: Probe, k: nat)
    requires h !in f.healthy
    ensures h in FlagsFrom(f, h, p, Successes(k)).healthy <==> k > 0 && (p.added || p.successes + k >= 2)
  {
    if k > 0 {
      SuccessesSnoc(k - 1);
      StreakGrows(p, k - 1);
      RecoveryTakes(f, h, p, k - 1);
    }
  }
}
