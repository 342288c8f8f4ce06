/** The breaker's policy layer (internal/circuit/circuit.go:62-131): it turns the transitions a backend
    reports into writes of the circuit-state gauge.  Each breaker call is one step here. */
module Breaker {
  import opened Circuit

  const FAILURES_BEFORE_OPEN: int := 3

  /** One backend's circuit and its gauge series. */
  datatype View = View(snap: Snapshot, gauge: State)

  datatype Call = Scan(now: int) | Allow(now: int) | Outcome(success: bool, now: int)

  function TuningOf(cooldown: int): Tuning {
    Tuning(cooldown, FAILURES_BEFORE_OPEN)
  }

  function Gauged(gauge: State, t: Transition): State {
    match t
    case NoChange => gauge
    case Opened => Open
    case Reopened => Open
    case BackToClosed => Closed
    case HalfOpened => HalfOpen
  }

  function Do(cooldown: int, v: View, c: Call): View {
    var tuning := TuningOf(cooldown);
    match c
    case Scan(now) => v.(snap := After(v.snap, Decide(tuning, Promote, v.snap, now)))
    case Allow(now) =>
      var promotion := Decide(tuning, Promote, v.snap, now);
      var mid := After(v.snap, promotion);
      View(After(mid, Decide(tuning, Admit, mid, now)), Gauged(v.gauge, promotion.transition))
    case Outcome(success, now) =>
      var d := Decide(tuning, if success then Succeed else Fail, v.snap, now);
      View(After(v.snap, d), Gauged(v.gauge, d.transition))
  }

  function Run(cooldown: int, calls: seq<Call>): View {
    if calls == [] then View(ZERO, Closed) else Do(cooldown, Run(cooldown, calls[..|calls| - 1]), calls[|calls| - 1])
  }

  /** The latest promotion in the run was won by a selection scan, which has no gauge within reach. */
  function ScanWonLast(cooldown: int, calls: seq<Call>): bool {
    if calls == [] then false
    else
      var before, after := Run(cooldown, calls[..|calls| - 1]), Run(cooldown, calls);
      if before.snap.state == Open && after.snap.state == HalfOpen then calls[|calls| - 1].Scan?
      else ScanWonLast(cooldown, calls[..|calls| - 1])
  }

  /** In every run of breaker calls the gauge equals the state, except exactly that it still reads open while the
      circuit is half-open after a promotion won by a scan. */
  lemma {:induction false} GaugeAgrees(cooldown: int, calls: seq<Call>)
    ensures var v := Run(cooldown, calls);
            v.gauge == if v.snap.state == HalfOpen && ScanWonLast(cooldown, calls) then Open else v.snap.state
  {
    if calls != [] {
      GaugeAgrees(cooldown, calls[..|calls| - 1]);
    }
  }

  // ---------- when it opens, closes and promotes, in terms of the calls alone ----------

  /** How many outcomes failed since the last success, looking through scans and admissions. */
  function FailedInARow(calls: seq<Call>): nat {
    if calls == [] then 0
    else
      var before, c := calls[..|calls| - 1], calls[|calls| - 1];
      if !c.Outcome? then FailedInARow(before) else if c.success then 0 else FailedInARow(before) + 1
  }

  /** The time of the latest call that opened or reopened the circuit. */
  function OpenedAt(cooldown: int, calls: seq<Call>): int {
    if calls == [] then 0
    else
      var before, c := calls[..|calls| - 1], calls[|calls| - 1];
      if Run(cooldown, before).snap.state != Open && Run(cooldown, calls).snap.state == Open then c.now else OpenedAt(cooldown, before)
  }

  lemma RunSnoc(cooldown: int, calls: seq<Call>, c: Call)
    ensures Run(cooldown, calls + [c]) == Do(cooldown, Run(cooldown, calls), c)
  {
    assert (calls + [c])[..|calls|] == calls;
  }

  /** While closed the counter is the failures in a row; while open the stamp is the time of opening. */
  lemma {:induction false} SnapshotRemembers(cooldown: int, calls: seq<Call>)
    ensures var s := Run(cooldown, calls).snap;
            && (s.state == Closed ==> s.failures == FailedInARow(calls) && s.failures < 3 && !s.trial)
            && (s.state == Open ==> s.openedAt == OpenedAt(cooldown, calls))
  {
    if calls != [] { SnapshotRemembers(cooldown, calls[..|calls| - 1]); }
  }

  /** From closed, an outcome opens the circuit exactly when it is the third failure since the last success, and nothing
      else opens it. */
  lemma OpensOnThirdFailure(cooldown: int, calls: seq<Call>, c: Call)
    requires Run(cooldown, calls).snap.state == Closed
    ensures Run(cooldown, calls + [c]).snap.state == if c.Outcome? && !c.success && FailedInARow(calls) == 2 then Open else Closed
  {
    SnapshotRemembers(cooldown, calls);
    RunSnoc(cooldown, calls, c);
  }

  /** From open, a scan or an admission promotes exactly when the cooldown has passed since the circuit opened; outcomes
      change nothing. */
  lemma PromotesAfterCooldown(cooldown: int, calls: seq<Call>, c: Call)
    requires Run(cooldown, calls).snap.state == Open
    ensures Run(cooldown, calls + [c]).snap.state ==
              if !c.Outcome? && c.now - OpenedAt(cooldown, calls) >= cooldown then HalfOpen else Open
  {
    SnapshotRemembers(cooldown, calls);
    RunSnoc(cooldown, calls, c);
  }

  /** From half-open, one outcome decides: a success closes, a failure reopens; scans and admissions leave it half-open. */
  lemma OneOutcomeDecides(cooldown: int, calls: seq<Call>, c: Call)
    requires Run(cooldown, calls).snap.state == HalfOpen
    ensures Run(cooldown, calls + [c]).snap.state == if !c.Outcome? then HalfOpen else if c.success then Closed else Open
  {
    RunSnoc(cooldown, calls, c);
  }

  predicate TrialJustTaken(before: Snapshot, after: Snapshot) {
    after.state == HalfOpen && after.trial && !(before.state == HalfOpen && before.trial)
  }

  /** With no rival, an admission is the allow step. */
  lemma AllowAlone(cooldown: int, before: seq<Snapshot>, at: int, after: seq<Snapshot>, allowed: bool, t: Transition)
    requires before != [] && AllowedAmong(TuningOf(cooldown), before + [], [], at, after, allowed, t)
    ensures after != [] && forall g: State :: Do(cooldown, View(Last(before), g), Allow(at)) == View(Last(after), Gauged(g, t))
    ensures t == NoChange || t == HalfOpened
    ensures allowed <==> Last(after).state == Closed || TrialJustTaken(Last(before), Last(after))
  {
    assert before + [] == before;
    var promoted := Applied(TuningOf(cooldown), Promote, before, at);
    assert promoted + [] == promoted;
  }

  class Breaker {
    const cooldown: int
    var gauge: map<string, State>

    constructor (cooldown: int)
      ensures this.cooldown == cooldown && gauge == map[]
    {
      this.cooldown, gauge := cooldown, map[];
    }

    ghost function ViewOf(b: Backend): View
      reads this, b
      requires b.name in gauge
    {
      View(b.circuit.snap, gauge[b.name])
    }

    /** A scan: one atomic promotion attempt among the rivals' stores.  It has no gauge within reach. */
    method IsOpen(b: Backend) returns (open: bool, ghost landed: nat, ghost at: int)
      requires b.Valid()
      modifies b
      ensures b.Valid() && landed <= |old(b.rivals)| && b.rivals == old(b.rivals)[landed..] && old(b.clock) <= at <= b.clock
      ensures b.stores == Applied(TuningOf(cooldown), Promote, old(b.stores) + old(b.rivals)[..landed], at)
      ensures open == (b.circuit.snap.state == Open)
      ensures old(b.rivals) == [] && b.name in gauge ==> ViewOf(b) == Do(cooldown, old(ViewOf(b)), Scan(at))
    {
      open, landed, at := b.CircuitOpen(TuningOf(cooldown));
    }

    /** Admission: a promotion attempt and an admission attempt, each atomic; the gauge is written exactly when the promotion
        was this call's own, whatever the rivals stored around it. */
    method Admit(b: Backend) returns (allowed: bool, ghost t: Transition, ghost first: nat, ghost second: nat, ghost at: int)
      requires b.Valid()
      modifies this, b
      ensures b.Valid() && first <= second <= |old(b.rivals)| && b.rivals == old(b.rivals)[second..]
      ensures old(b.clock) <= at <= b.clock
      ensures AllowedAmong(TuningOf(cooldown), old(b.stores) + old(b.rivals)[..first], old(b.rivals)[first..second], at, b.stores, allowed, t)
      ensures gauge == Written(old(gauge), b.name, t)
      ensures old(b.rivals) == [] && b.name in old(gauge) ==> ViewOf(b) == Do(cooldown, old(ViewOf(b)), Allow(at))
      ensures old(b.rivals) == [] ==>
                (allowed <==> b.circuit.snap.state == Closed || TrialJustTaken(old(b.circuit.snap), b.circuit.snap))
    {
      var transition;
      allowed, transition, first, second, at := b.CircuitAllow(TuningOf(cooldown));
      if transition == HalfOpened { gauge := gauge[b.name := HalfOpen]; }
      t := transition;
      if old(b.rivals) == [] { AllowAlone(cooldown, old(b.stores), at, b.stores, allowed, t); }
    }

    /** An outcome: one atomic success or failure, and the gauge write of its own transition. */
    method ObserveRoundTrip(b: Backend, success: bool) returns (ghost landed: nat, ghost at: int)
      requires b.Valid()
      modifies this, b
      ensures b.Valid() && landed <= |old(b.rivals)| && b.rivals == old(b.rivals)[landed..] && old(b.clock) <= at <= b.clock
      ensures var op := if success then Succeed else Fail;
              var before := old(b.stores) + old(b.rivals)[..landed];
              && b.stores == Applied(TuningOf(cooldown), op, before, at)
              && gauge == Written(old(gauge), b.name, Decide(TuningOf(cooldown), op, Last(before), at).transition)
      ensures old(b.rivals) == [] && b.name in old(gauge) ==> ViewOf(b) == Do(cooldown, old(ViewOf(b)), Outcome(success, at))
      ensures old(b.rivals) == [] && old(b.circuit.snap.state) == Closed ==>
                (b.circuit.snap.state == Open <==> !success && old(b.circuit.snap.failures) >= 2)
    {
      var t;
      at := b.clock;
      if success {
        t, landed := b.CircuitSuccess();
        if t == BackToClosed { gauge := gauge[b.name := Closed]; }
        return;
      }
      t, landed, at := b.CircuitFailure(FAILURES_BEFORE_OPEN);
      match t
      case Opened => gauge := gauge[b.name := Open];
      case Reopened => gauge := gauge[b.name := Open];
      case _ =>
    }
  }

  /** The gauge after the write a transition asks for. */
  function Written(gauge: map<string, State>, name: string, t: Transition): map<string, State> {
    if t == NoChange then gauge else gauge[name := Gauged(Closed, t)]
  }
}
