/** Every interleaving of the breaker's load, clock and compare-and-swap steps by any number of threads
    (internal/backend/backend.go:273-452), against a sequential three-state machine. */
module CircuitRuns {
  import opened Fleet
  import opened Circuit

  // ---------- the sequential machine ----------

  /** What an observer of the history needs to know: nothing of snapshots, pointers or threads. */
  datatype Machine = MClosed(run: nat) | MOpen(since: int) | MHalfOpen(taken: bool)

  /** The points at which calls take effect, in order. */
  datatype Event =
    | Promoted(who: nat, scan: bool, at: int)   // open to half-open
    | Admitted(who: nat)                        // dispatched through a closed circuit
    | TrialTaken(who: nat)                      // dispatched as the half-open trial
    | Denied(who: nat)
    | Rearmed(who: nat)                         // the trial slot was given back
    | Succeeded(who: nat)
    | Failed(who: nat, at: int)
    | Ignored(who: nat)                         // an outcome that arrived while the circuit was open

  /** The machine's moves; None is a move it never makes. */
  function Next(tuning: Tuning, m: Machine, e: Event): Option<Machine> {
    match m
    case MClosed(run) =>
      (match e
       case Admitted(_) => Some(m)
       case Succeeded(_) => Some(MClosed(0))
       case Failed(_, at) => Some(if run + 1 >= tuning.threshold then MOpen(at) else MClosed(run + 1))
       case _ => None)
    case MOpen(since) =>
      (match e
       case Denied(_) => Some(m)
       case Ignored(_) => Some(m)
       case Promoted(_, _, at) => if at - since < tuning.cooldown then None else Some(MHalfOpen(false))
       case _ => None)
    case MHalfOpen(taken) =>
      (match e
       case TrialTaken(_) => if taken then None else Some(MHalfOpen(true))
       case Denied(_) => if taken then Some(m) else None
       case Rearmed(_) => if taken then Some(MHalfOpen(false)) else None
       case Succeeded(_) => Some(MClosed(0))
       case Failed(_, at) => Some(MOpen(at))
       case _ => None)
  }

  function Replay(tuning: Tuning, history: seq<Event>): Option<Machine> {
    if history == [] then Some(MClosed(0))
    else
      var m := Replay(tuning, history[..|history| - 1]);
      if m.None? then None else Next(tuning, m.value, history[|history| - 1])
  }

  // ---------- threads ----------

  datatype Call = Scan | Allow | RearmCall | SuccessCall | FailureCall

  function FirstOp(call: Call): Op {
    match call
    case Scan => Promote
    case Allow => Promote
    case RearmCall => Rearm
    case SuccessCall => Succeed
    case FailureCall => Fail
  }

  datatype Pc =
    | Idle
    | AtLoad(call: Call, op: Op, promoted: bool)
    | AtClock(call: Call, op: Op, promoted: bool, seen: Cell)
    | AtSwap(call: Call, op: Op, promoted: bool, seen: Cell, now: int)

  /** How far the request a thread serves has got. */
  datatype Stage = Fresh | InFlight | Finished

  datatype Thread = Thread(pc: Pc, stage: Stage)

  datatype Report = Report(who: nat, call: Call, allowed: bool, transition: Transition)

  datatype System = System(now: int, cell: Cell, nextId: nat, removed: bool, threads: map<nat, Thread>,
                           history: seq<Event>, reports: seq<Report>)

  datatype Choice = Tick(elapsed: nat) | Invoke(t: nat, call: Call) | Step(t: nat) | Remove | Abandon(t: nat)

  const START := System(0, Cell(0, ZERO), 1, false, map[], [], [])

  /** The event one decided pass adds to the history, if it takes effect here. */
  function EventOf(t: nat, call: Call, op: Op, d: Decision, now: int): Option<Event> {
    match op
    case Promote => if d.Swap? then Some(Promoted(t, call == Scan, now)) else None
    case Admit => Some(if d.Swap? then TrialTaken(t) else if d.flag then Admitted(t) else Denied(t))
    case Rearm => if d.Swap? then Some(Rearmed(t)) else None
    case Succeed => Some(if d.Swap? then Succeeded(t) else Ignored(t))
    case Fail => Some(if d.Swap? then Failed(t, now) else Ignored(t))
  }

  function Log(history: seq<Event>, e: Option<Event>): seq<Event> {
    if e.Some? then history + [e.value] else history
  }

  function StageAfter(call: Call, allowed: bool, stage: Stage): Stage {
    match call
    case Scan => stage
    case Allow => if allowed then InFlight else Finished
    case _ => Finished
  }

  /** What a call reports when it returns after a pass of op decided d. */
  function ReportedBy(call: Call, promoted: bool, d: Decision): Transition {
    if call == Allow then (if promoted then HalfOpened else NoChange)
    else if call == Scan then NoChange else d.transition
  }

  /** The pass is decided for good: go on to Allow's second loop, or return from the call. */
  function Complete(s: System, t: nat, call: Call, op: Op, promoted: bool, d: Decision, now: int): System
    requires t in s.threads
  {
    var s' := s.(history := Log(s.history, EventOf(t, call, op, d, now)));
    if call == Allow && op == Promote then
      s'.(threads := s.threads[t := s.threads[t].(pc := AtLoad(Allow, Admit, d.flag))])
    else
      s'.(threads := s.threads[t := Thread(Idle, StageAfter(call, d.flag, s.threads[t].stage))],
          reports := s.reports + [Report(t, call, d.flag, ReportedBy(call, promoted, d))])
  }

  function Goto(s: System, t: nat, pc: Pc): System
    requires t in s.threads
  {
    s.(threads := s.threads[t := s.threads[t].(pc := pc)])
  }

  function StepThread(tuning: Tuning, s: System, t: nat): System
    requires t in s.threads
  {
    match s.threads[t].pc
    case Idle => s
    case AtLoad(call, op, promoted) =>
      if ReadsClock(tuning, op, s.cell.snap) then Goto(s, t, AtClock(call, op, promoted, s.cell))
      else
        var d := Decide(tuning, op, s.cell.snap, 0);
        if d.Return? then Complete(s, t, call, op, promoted, d, 0)
        else Goto(s, t, AtSwap(call, op, promoted, s.cell, 0))
    case AtClock(call, op, promoted, seen) =>
      var d := Decide(tuning, op, seen.snap, s.now);
      if d.Return? then Complete(s, t, call, op, promoted, d, s.now)
      else Goto(s, t, AtSwap(call, op, promoted, seen, s.now))
    case AtSwap(call, op, promoted, seen, now) =>
      var d := Decide(tuning, op, seen.snap, now);
      if d.Swap? && s.cell.id == seen.id then
        Complete(s.(cell := Cell(s.nextId, d.next), nextId := s.nextId + 1), t, call, op, promoted, d, now)
      else Goto(s, t, AtLoad(call, op, promoted))
  }

  function Do(tuning: Tuning, s: System, c: Choice): System {
    match c
    case Tick(elapsed) => s.(now := s.now + elapsed)
    case Invoke(t, call) =>
      var stage := if t in s.threads then s.threads[t].stage else Fresh;
      if t in s.threads && s.threads[t].pc != Idle then s
      else s.(threads := s.threads[t := Thread(AtLoad(call, FirstOp(call), false), stage)])
    case Step(t) => if t in s.threads then StepThread(tuning, s, t) else s
    case Remove => s.(removed := true)
    case Abandon(t) =>
      if t in s.threads && s.threads[t].pc == Idle then s.(threads := s.threads[t := Thread(Idle, Finished)]) else s
  }

  function Exec(tuning: Tuning, schedule: seq<Choice>): System {
    if schedule == [] then START else Do(tuning, Exec(tuning, schedule[..|schedule| - 1]), schedule[|schedule| - 1])
  }

  // ---------- refinement ----------

  function Abstract(snap: Snapshot): Machine {
    match snap.state
    case Closed => MClosed(snap.failures)
    case Open => MOpen(snap.openedAt)
    case HalfOpen => MHalfOpen(snap.trial)
  }

  /** Snapshots the breaker builds: unused fields are zero, and a closed circuit is below the threshold. */
  predicate WellFormed(tuning: Tuning, snap: Snapshot) {
    && (snap.state != HalfOpen ==> !snap.trial)
    && (snap.state != Closed ==> snap.failures == 0)
    && (snap.failures == 0 || snap.failures < tuning.threshold)
  }

  /** A pointer some thread loaded is either stale or still the current cell. */
  predicate Loaded(s: System, seen: Cell) {
    seen.id < s.nextId && (seen.id == s.cell.id ==> seen == s.cell)
  }

  predicate ThreadOk(tuning: Tuning, s: System, pc: Pc) {
    match pc
    case Idle => true
    case AtLoad(call, op, promoted) => OpOk(call, op, promoted)
    case AtClock(call, op, promoted, seen) =>
      OpOk(call, op, promoted) && Loaded(s, seen) && ReadsClock(tuning, op, seen.snap)
    case AtSwap(call, op, promoted, seen, now) =>
      OpOk(call, op, promoted) && Loaded(s, seen) && now <= s.now && Decide(tuning, op, seen.snap, now).Swap?
  }

  predicate OpOk(call: Call, op: Op, promoted: bool) {
    (op == FirstOp(call) && !promoted) || (call == Allow && op == Admit)
  }

  predicate Inv(tuning: Tuning, s: System) {
    && 0 <= s.now && s.cell.id < s.nextId && s.cell.snap.openedAt <= s.now
    && WellFormed(tuning, s.cell.snap)
    && Replay(tuning, s.history) == Some(Abstract(s.cell.snap))
    && forall t :: t in s.threads ==> ThreadOk(tuning, s, s.threads[t].pc)
  }

  lemma ReplaySnoc(tuning: Tuning, h: seq<Event>, e: Event)
    ensures Replay(tuning, h + [e])
         == if Replay(tuning, h).None? then None else Next(tuning, Replay(tuning, h).value, e)
  {
    assert (h + [e])[..|h|] == h;
  }

  /** One decided pass is one move of the sequential machine, or none. */
  lemma PassIsMove(tuning: Tuning, snap: Snapshot, t: nat, call: Call, op: Op, now: int)
    requires WellFormed(tuning, snap)
    ensures var d := Decide(tuning, op, snap, now);
            && WellFormed(tuning, After(snap, d))
            && (EventOf(t, call, op, d, now).None? ==> After(snap, d) == snap)
            && (EventOf(t, call, op, d, now).Some? ==>
                  Next(tuning, Abstract(snap), EventOf(t, call, op, d, now).value) == Some(Abstract(After(snap, d))))
  {
    match op
    case Promote =>
    case Admit =>
    case Rearm =>
    case Succeed =>
    case Fail =>
  }

  lemma LoggedMove(tuning: Tuning, h: seq<Event>, e: Option<Event>, m: Machine, m': Machine)
    requires Replay(tuning, h) == Some(m)
    requires if e.Some? then Next(tuning, m, e.value) == Some(m') else m' == m
    ensures Replay(tuning, Log(h, e)) == Some(m')
  {
    if e.Some? { ReplaySnoc(tuning, h, e.value); }
  }

  lemma GotoKeepsInv(tuning: Tuning, s: System, t: nat, pc: Pc)
    requires Inv(tuning, s) && t in s.threads && ThreadOk(tuning, s, pc)
    ensures Inv(tuning, Goto(s, t, pc))
  {
  }

  lemma ReturnMoves(tuning: Tuning, h: seq<Event>, snap: Snapshot, t: nat, call: Call, op: Op)
    requires WellFormed(tuning, snap) && Replay(tuning, h) == Some(Abstract(snap))
    requires Decide(tuning, op, snap, 0).Return?
    ensures Replay(tuning, Log(h, EventOf(t, call, op, Decide(tuning, op, snap, 0), 0))) == Some(Abstract(snap))
  {
    PassIsMove(tuning, snap, t, call, op, 0);
    LoggedMove(tuning, h, EventOf(t, call, op, Decide(tuning, op, snap, 0), 0), Abstract(snap), Abstract(snap));
  }

  /** A pass that returns without storing. */
  lemma ReturnKeepsInv(tuning: Tuning, s: System, t: nat, call: Call, op: Op, promoted: bool)
    requires Inv(tuning, s) && t in s.threads && OpOk(call, op, promoted)
    requires Decide(tuning, op, s.cell.snap, 0).Return?
    ensures Inv(tuning, Complete(s, t, call, op, promoted, Decide(tuning, op, s.cell.snap, 0), 0))
  {
    ReturnMoves(tuning, s.history, s.cell.snap, t, call, op);
    var s' := Complete(s, t, call, op, promoted, Decide(tuning, op, s.cell.snap, 0), 0);
    forall u | u in s'.threads
      ensures ThreadOk(tuning, s', s'.threads[u].pc)
    {
      if u != t { assert ThreadOk(tuning, s, s.threads[u].pc); }
    }
  }

  lemma LoadKeepsInv(tuning: Tuning, s: System, t: nat)
    requires Inv(tuning, s) && t in s.threads && s.threads[t].pc.AtLoad?
    ensures Inv(tuning, StepThread(tuning, s, t))
  {
    assert ThreadOk(tuning, s, s.threads[t].pc);
    var AtLoad(call, op, promoted) := s.threads[t].pc;
    if ReadsClock(tuning, op, s.cell.snap) {
      GotoKeepsInv(tuning, s, t, AtClock(call, op, promoted, s.cell));
    } else if Decide(tuning, op, s.cell.snap, 0).Return? {
      ReturnKeepsInv(tuning, s, t, call, op, promoted);
    } else {
      GotoKeepsInv(tuning, s, t, AtSwap(call, op, promoted, s.cell, 0));
    }
  }

  lemma ClockKeepsInv(tuning: Tuning, s: System, t: nat)
    requires Inv(tuning, s) && t in s.threads && s.threads[t].pc.AtClock?
    ensures Inv(tuning, StepThread(tuning, s, t))
  {
    assert ThreadOk(tuning, s, s.threads[t].pc);
  }

  function Stored(s: System, next: Snapshot): System {
    s.(cell := Cell(s.nextId, next), nextId := s.nextId + 1)
  }

  /** A store outdates whatever the other threads loaded. */
  lemma StoreKeepsThread(tuning: Tuning, s: System, next: Snapshot, pc: Pc)
    requires ThreadOk(tuning, s, pc)
    ensures ThreadOk(tuning, Stored(s, next), pc)
  {
  }

  /** A stored opening is stamped with the pass's own reading; other stores carry an older stamp or none. */
  lemma StampNotLater(tuning: Tuning, snap: Snapshot, op: Op, now: int, limit: int)
    requires 0 <= limit && snap.openedAt <= limit && now <= limit && Decide(tuning, op, snap, now).Swap?
    ensures Decide(tuning, op, snap, now).next.openedAt <= limit
  {
    match op
    case Promote =>
    case Admit =>
    case Rearm =>
    case Succeed =>
    case Fail =>
  }

  lemma StoreMoves(tuning: Tuning, h: seq<Event>, snap: Snapshot, t: nat, call: Call, op: Op, now: int)
    requires WellFormed(tuning, snap) && Replay(tuning, h) == Some(Abstract(snap))
    requires Decide(tuning, op, snap, now).Swap?
    ensures var d := Decide(tuning, op, snap, now);
            WellFormed(tuning, d.next) && Replay(tuning, Log(h, EventOf(t, call, op, d, now))) == Some(Abstract(d.next))
  {
    var d := Decide(tuning, op, snap, now);
    PassIsMove(tuning, snap, t, call, op, now);
    LoggedMove(tuning, h, EventOf(t, call, op, d, now), Abstract(snap), Abstract(d.next));
  }

  lemma SwapKeepsInv(tuning: Tuning, s: System, t: nat)
    requires Inv(tuning, s) && t in s.threads && s.threads[t].pc.AtSwap?
    ensures Inv(tuning, StepThread(tuning, s, t))
  {
    assert ThreadOk(tuning, s, s.threads[t].pc);
    var AtSwap(call, op, promoted, seen, now) := s.threads[t].pc;
    if seen.id == s.cell.id {
      var d := Decide(tuning, op, s.cell.snap, now);
      StoreMoves(tuning, s.history, s.cell.snap, t, call, op, now);
      StampNotLater(tuning, s.cell.snap, op, now, s.now);
      var s' := Complete(Stored(s, d.next), t, call, op, promoted, d, now);
      forall u | u in s'.threads
        ensures ThreadOk(tuning, s', s'.threads[u].pc)
      {
        if u != t { StoreKeepsThread(tuning, s, d.next, s.threads[u].pc); }
      }
      assert StepThread(tuning, s, t) == s';
    } else {
      GotoKeepsInv(tuning, s, t, AtLoad(call, op, promoted));
    }
  }

  lemma DoKeepsInv(tuning: Tuning, s: System, c: Choice)
    requires Inv(tuning, s)
    ensures Inv(tuning, Do(tuning, s, c))
  {
    if c.Step? && c.t in s.threads {
      match s.threads[c.t].pc
      case Idle =>
      case AtLoad(_, _, _) => LoadKeepsInv(tuning, s, c.t);
      case AtClock(_, _, _, _) => ClockKeepsInv(tuning, s, c.t);
      case AtSwap(_, _, _, _, _) => SwapKeepsInv(tuning, s, c.t);
    }
  }

  /** Refinement: under every interleaving the history is a run of the sequential machine, and the
      snapshot behind the pointer is that machine's state. */
  lemma {:induction false} Refinement(tuning: Tuning, schedule: seq<Choice>)
    ensures Inv(tuning, Exec(tuning, schedule))
  {
    if schedule != [] {
      Refinement(tuning, schedule[..|schedule| - 1]);
      DoKeepsInv(tuning, Exec(tuning, schedule[..|schedule| - 1]), schedule[|schedule| - 1]);
    }
  }

  // ---------- what every run of the machine obeys ----------

  /** The length of the run of failures at the end of the history, looking through admissions. */
  function TrailingFailures(h: seq<Event>): nat {
    if h == [] then 0
    else match h[|h| - 1]
         case Failed(_, _) => 1 + TrailingFailures(h[..|h| - 1])
         case Admitted(_) => TrailingFailures(h[..|h| - 1])
         case _ => 0
  }

  /** While the circuit is closed its counter is the length of the trailing failure run, which is below the threshold. */
  lemma {:induction false} ClosedCountsTrailingFailures(tuning: Tuning, h: seq<Event>)
    requires Replay(tuning, h).Some? && Replay(tuning, h).value.MClosed?
    ensures var run := Replay(tuning, h).value.run;
            run == TrailingFailures(h) && (run == 0 || run < tuning.threshold)
  {
    if h != [] {
      var init := h[..|h| - 1];
      if Replay(tuning, init).value.MClosed? { ClosedCountsTrailingFailures(tuning, init); }
    }
  }

  /** From closed, the failure that makes the trailing run reach the threshold is the one that opens, and nothing else
      opens. */
  lemma OpensExactlyAtThreshold(tuning: Tuning, h: seq<Event>, e: Event)
    requires Replay(tuning, h).Some? && Replay(tuning, h).value.MClosed?
    requires Replay(tuning, h + [e]).Some?
    ensures Replay(tuning, h + [e]).value.MOpen? <==> e.Failed? && TrailingFailures(h + [e]) >= tuning.threshold
  {
    ClosedCountsTrailingFailures(tuning, h);
    ReplaySnoc(tuning, h, e);
    assert (h + [e])[..|h|] == h;
  }

  /** No call is admitted while the circuit is open, and an open circuit is left only by a promotion whose
      clock reading is at least the cooldown after the reading that stamped the opening. */
  lemma OpenAdmitsNothing(tuning: Tuning, h: seq<Event>, e: Event)
    requires Replay(tuning, h).Some? && Replay(tuning, h).value.MOpen?
    requires Replay(tuning, h + [e]).Some?
    ensures !e.Admitted? && !e.TrialTaken?
    ensures Replay(tuning, h + [e]) != Replay(tuning, h) ==>
              e.Promoted? && e.at - Replay(tuning, h).value.since >= tuning.cooldown
  {
    ReplaySnoc(tuning, h, e);
  }

  lemma {:induction false} ReplayPrefix(tuning: Tuning, h: seq<Event>, i: nat)
    requires Replay(tuning, h).Some? && i <= |h|
    ensures Replay(tuning, h[..i]).Some?
  {
    if i == |h| {
      assert h[..i] == h;
    } else {
      assert h[..|h| - 1][..i] == h[..i];
      ReplayPrefix(tuning, h[..|h| - 1], i);
    }
  }

  /** On the real clock: whatever step changes the state of an open circuit makes it half-open, with at least the
      cooldown elapsed since the opening was stamped. */
  lemma OpenOutlastsCooldown(tuning: Tuning, s: System, c: Choice)
    requires Inv(tuning, s) && s.cell.snap.state == Open
    requires Do(tuning, s, c).cell != s.cell
    ensures Do(tuning, s, c).cell.snap == Snapshot(HalfOpen, 0, false, 0)
    ensures s.now - s.cell.snap.openedAt >= tuning.cooldown
  {
    assert ThreadOk(tuning, s, s.threads[c.t].pc);
  }

  // ---------- the half-open trial ----------

  /** Trial admissions minus effective re-arms since the last promotion. */
  function TrialBalance(h: seq<Event>): int {
    if h == [] then 0
    else match h[|h| - 1]
         case Promoted(_, _, _) => 0
         case TrialTaken(_) => TrialBalance(h[..|h| - 1]) + 1
         case Rearmed(_) => TrialBalance(h[..|h| - 1]) - 1
         case _ => TrialBalance(h[..|h| - 1])
  }

  /** How many of the events since the last promotion satisfy count. */
  function InEpisode(h: seq<Event>, count: Event -> bool): nat {
    if h == [] || h[|h| - 1].Promoted? then 0
    else InEpisode(h[..|h| - 1], count) + if count(h[|h| - 1]) then 1 else 0
  }

  /** Trial conservation: throughout a half-open episode, admissions minus re-arms is one while the trial is out, else
      zero. */
  lemma {:induction false} TrialConservation(tuning: Tuning, h: seq<Event>)
    requires Replay(tuning, h).Some? && Replay(tuning, h).value.MHalfOpen?
    ensures TrialBalance(h) == if Replay(tuning, h).value.taken then 1 else 0
    ensures TrialBalance(h) == InEpisode(h, (e: Event) => e.TrialTaken?) - InEpisode(h, (e: Event) => e.Rearmed?)
  {
    var init := h[..|h| - 1];
    if Replay(tuning, init).value.MHalfOpen? { TrialConservation(tuning, init); }
  }

  /** Without a re-arm, exactly one of however many callers that were answered in the episode was admitted. */
  lemma {:induction false} ExactlyOneTrial(tuning: Tuning, h: seq<Event>)
    requires Replay(tuning, h).Some? && Replay(tuning, h).value.MHalfOpen?
    requires InEpisode(h, (e: Event) => e.Rearmed?) == 0
    ensures InEpisode(h, (e: Event) => e.TrialTaken?) ==
              if InEpisode(h, (e: Event) => e.TrialTaken? || e.Denied?) > 0 then 1 else 0
  {
    TrialConservation(tuning, h);
    var init := h[..|h| - 1];
    if Replay(tuning, init).value.MHalfOpen? { ExactlyOneTrial(tuning, init); }
  }

  /** Re-arming is not tied to the holder: after anyone gives the slot back, the next caller becomes a second trial of the
      same episode, beside every taker but the giver that was still out. */
  lemma AnyRearmAdmitsAnotherTrial(tuning: Tuning, h: seq<Event>, giver: nat, taker: nat)
    requires Replay(tuning, h) == Some(MHalfOpen(true))
    ensures var h' := h + [Rearmed(giver)] + [TrialTaken(taker)];
            && Replay(tuning, h') == Some(MHalfOpen(true)) && TrialBalance(h') == TrialBalance(h) == 1
            && InEpisode(h', (e: Event) => e.TrialTaken?) == InEpisode(h, (e: Event) => e.TrialTaken?) + 1
            && Outstanding(h') == Outstanding(h) - {giver} + {taker}
  {
    ReplaySnoc(tuning, h, Rearmed(giver));
    ReplaySnoc(tuning, h + [Rearmed(giver)], TrialTaken(taker));
    TrialConservation(tuning, h);
    var h1 := h + [Rearmed(giver)];
    TrialConservation(tuning, h1);
    TrialConservation(tuning, h1 + [TrialTaken(taker)]);
    assert h1[..|h|] == h && (h1 + [TrialTaken(taker)])[..|h1|] == h1;
  }

  // ---------- when one trial at a time is a law ----------

  /** The takers of the current episode's trial that have done nothing since. */
  function Outstanding(h: seq<Event>): set<nat> {
    if h == [] then {}
    else match h[|h| - 1]
         case Promoted(_, _, _) => {}
         case TrialTaken(who) => Outstanding(h[..|h| - 1]) + {who}
         case e => Outstanding(h[..|h| - 1]) - {e.who}
  }

  lemma OutstandingSnoc(h: seq<Event>, e: Event)
    ensures Outstanding(h + [e]) ==
              if e.Promoted? then {} else if e.TrialTaken? then Outstanding(h) + {e.who} else Outstanding(h) - {e.who}
  {
    assert (h + [e])[..|h|] == h;
  }

  /** Every effective re-arm so far left no taker out: it came from the one that was, if any. */
  predicate OwnRearms(h: seq<Event>) {
    h == [] || (OwnRearms(h[..|h| - 1]) && (h[|h| - 1].Rearmed? ==> Outstanding(h[..|h| - 1]) <= {h[|h| - 1].who}))
  }

  /** Whoever asks next, at most one trial is then out. */
  ghost predicate OneAtATime(tuning: Tuning, h: seq<Event>) {
    forall u :: Replay(tuning, h + [TrialTaken(u)]).Some? ==> |Outstanding(h + [TrialTaken(u)])| <= 1
  }

  ghost predicate OneAtATimeThroughout(tuning: Tuning, h: seq<Event>) {
    OneAtATime(tuning, h) && (h == [] || OneAtATimeThroughout(tuning, h[..|h| - 1]))
  }

  lemma {:induction false} OwnRearmsBound(tuning: Tuning, h: seq<Event>)
    requires Replay(tuning, h).Some? && OwnRearms(h)
    ensures Replay(tuning, h).value == MHalfOpen(false) ==> Outstanding(h) == {}
    ensures Replay(tuning, h).value.MHalfOpen? ==> |Outstanding(h)| <= 1
  {
    if h != [] {
      var init, e := h[..|h| - 1], h[|h| - 1];
      assert h == init + [e];
      OwnRearmsBound(tuning, init);
      OutstandingSnoc(init, e);
      if !e.Promoted? && !e.TrialTaken? {
        FewerLeft(Outstanding(init), e.who);
      }
    }
  }

  lemma FewerLeft(s: set<nat>, x: nat)
    ensures |s - {x}| <= |s|
  {
    if x in s {
      assert s == (s - {x}) + {x};
    } else {
      assert s - {x} == s;
    }
  }

  lemma OwnRearmsOneAtATime(tuning: Tuning, h: seq<Event>)
    requires Replay(tuning, h).Some? && OwnRearms(h)
    ensures OneAtATime(tuning, h)
  {
    forall u | Replay(tuning, h + [TrialTaken(u)]).Some?
      ensures |Outstanding(h + [TrialTaken(u)])| <= 1
    {
      ReplaySnoc(tuning, h, TrialTaken(u));
      OutstandingSnoc(h, TrialTaken(u));
      OwnRearmsBound(tuning, h);
    }
  }

  lemma TwoIn(s: set<nat>, x: nat, u: nat)
    requires x in s && u in s && x != u
    ensures |s| >= 2
  {
    assert s == (s - {x} - {u}) + {x} + {u};
  }

  lemma StrangerAdmitsTwo(tuning: Tuning, h: seq<Event>, w: nat, x: nat)
    requires Replay(tuning, h + [Rearmed(w)]).Some? && x in Outstanding(h) && x != w
    ensures !OneAtATime(tuning, h + [Rearmed(w)])
  {
    var h1, u := h + [Rearmed(w)], x + 1;
    ReplaySnoc(tuning, h, Rearmed(w));
    if Replay(tuning, h).None? { assert false; }
    ReplaySnoc(tuning, h1, TrialTaken(u));
    OutstandingSnoc(h, Rearmed(w));
    OutstandingSnoc(h1, TrialTaken(u));
    TwoIn(Outstanding(h1 + [TrialTaken(u)]), x, u);
  }

  /** Within one half-open episode, whose takers a promotion forgets: at most one trial is out throughout a run, whoever asks
      next, exactly when every effective re-arm of the run came from the taker still out. */
  lemma {:induction false} OneTrialExactlyWhenOwnRearms(tuning: Tuning, h: seq<Event>)
    requires Replay(tuning, h).Some?
    ensures OneAtATimeThroughout(tuning, h) <==> OwnRearms(h)
    ensures OwnRearms(h) && Replay(tuning, h).value.MHalfOpen? ==> |Outstanding(h)| <= 1
  {
    if OwnRearms(h) {
      OwnRearmsBound(tuning, h);
      OwnRearmsOneAtATime(tuning, h);
    }
    if h != [] {
      var init, e := h[..|h| - 1], h[|h| - 1];
      assert h == init + [e];
      OneTrialExactlyWhenOwnRearms(tuning, init);
      if OwnRearms(init) && !OwnRearms(h) {
        var x :| x in Outstanding(init) && x != e.who;
        StrangerAdmitsTwo(tuning, init, e.who, x);
      }
    }
  }

  lemma {:induction false} SilentHolderIsOut(tuning: Tuning, h: seq<Event>)
    requires Replay(tuning, h) == Some(MHalfOpen(true)) && HolderSilent(h)
    ensures Holder(h).Some? && Holder(h).value in Outstanding(h)
  {
    var init, e := h[..|h| - 1], h[|h| - 1];
    assert h == init + [e];
    OutstandingSnoc(init, e);
    if !e.TrialTaken? { SilentHolderIsOut(tuning, init); }
  }

  /** In every run of proxy requests over a live backend, the re-arm that keeps the law is exactly the trial holder's own. */
  lemma OwnRearmIsHolders(tuning: Tuning, schedule: seq<Choice>, w: nat)
    requires var s := ExecProxy(tuning, schedule);
             !s.removed && s.cell.snap.state == HalfOpen && s.cell.snap.trial && OwnRearms(s.history)
    ensures var h := ExecProxy(tuning, schedule).history;
            OwnRearms(h + [Rearmed(w)]) <==> Holder(h) == Some(w)
  {
    NoHalfOpenWedge(tuning, schedule);
    var s := ExecProxy(tuning, schedule);
    SilentHolderIsOut(tuning, s.history);
    OwnRearmsBound(tuning, s.history);
    assert (s.history + [Rearmed(w)])[..|s.history|] == s.history;
    OnlyElement(Outstanding(s.history), Holder(s.history).value);
  }

  /** Across episodes too: the re-arm or outcome that keeps the law is exactly the trial holder's own. */
  lemma OwnEndIsHolders(tuning: Tuning, schedule: seq<Choice>, e: Event)
    requires var s := ExecProxy(tuning, schedule);
             !s.removed && s.cell.snap.state == HalfOpen && s.cell.snap.trial && OwnEnds(s.history)
    requires Ends(e)
    ensures var h := ExecProxy(tuning, schedule).history;
            OwnEnds(h + [e]) <==> Holder(h) == Some(e.who)
  {
    NoHalfOpenWedge(tuning, schedule);
    var s := ExecProxy(tuning, schedule);
    SilentHolderIsOut(tuning, s.history);
    OutstandingAreOut(s.history);
    OwnEndsBound(tuning, s.history);
    OwnEndsSnoc(s.history, e);
    OnlyElement(Out(s.history), Holder(s.history).value);
  }

  lemma OnlyElement(s: set<nat>, x: nat)
    requires x in s && |s| <= 1
    ensures s == {x}
  {
    assert s == {x} + (s - {x});
  }

  // ---------- one trial at a time across episodes ----------

  /** The takers of any episode's trial that have done nothing since. */
  function Out(h: seq<Event>): set<nat> {
    if h == [] then {}
    else if h[|h| - 1].TrialTaken? then Out(h[..|h| - 1]) + {h[|h| - 1].who}
    else Out(h[..|h| - 1]) - {h[|h| - 1].who}
  }

  lemma OutSnoc(h: seq<Event>, e: Event)
    ensures Out(h + [e]) == if e.TrialTaken? then Out(h) + {e.who} else Out(h) - {e.who}
  {
    assert (h + [e])[..|h|] == h;
  }

  lemma {:induction false} OutstandingAreOut(h: seq<Event>)
    ensures Outstanding(h) <= Out(h)
  {
    if h != [] { OutstandingAreOut(h[..|h| - 1]); }
  }

  /** A re-arm or an effective outcome: what ends a trial that is out. */
  predicate Ends(e: Event) {
    e.Rearmed? || e.Succeeded? || e.Failed?
  }

  /** Every re-arm and every effective outcome so far left no taker out: it came from the one that was, if any. */
  predicate OwnEnds(h: seq<Event>) {
    h == [] || (OwnEnds(h[..|h| - 1]) && (Ends(h[|h| - 1]) ==> Out(h[..|h| - 1]) <= {h[|h| - 1].who}))
  }

  lemma OwnEndsSnoc(h: seq<Event>, e: Event)
    ensures OwnEnds(h + [e]) <==> OwnEnds(h) && (Ends(e) ==> Out(h) <= {e.who})
  {
    assert (h + [e])[..|h|] == h;
  }

  /** The machine accepts k after h, and k ends no trial: it re-arms nothing, and its outcomes arrive at a closed circuit. */
  predicate Undisturbed(tuning: Tuning, h: seq<Event>, k: seq<Event>) {
    k == [] ||
    (var before, e := k[..|k| - 1], k[|k| - 1];
     && Undisturbed(tuning, h, before) && Replay(tuning, h + before).Some?
     && Next(tuning, Replay(tuning, h + before).value, e).Some?
     && (Ends(e) ==> Replay(tuning, h + before).value.MClosed?))
  }

  /** However the run goes on undisturbed, at most one trial is out. */
  ghost predicate OneOut(tuning: Tuning, h: seq<Event>) {
    forall k :: Undisturbed(tuning, h, k) ==> |Out(h + k)| <= 1
  }

  ghost predicate OneOutThroughout(tuning: Tuning, h: seq<Event>) {
    OneOut(tuning, h) && (h == [] || OneOutThroughout(tuning, h[..|h| - 1]))
  }

  lemma {:induction false} OwnEndsBound(tuning: Tuning, h: seq<Event>)
    requires Replay(tuning, h).Some? && OwnEnds(h)
    ensures Replay(tuning, h).value != MHalfOpen(true) ==> Out(h) == {}
    ensures |Out(h)| <= 1
  {
    if h != [] {
      var init, e := h[..|h| - 1], h[|h| - 1];
      assert h == init + [e];
      OwnEndsBound(tuning, init);
      OutSnoc(init, e);
      FewerLeft(Out(init), e.who);
    }
  }

  lemma {:induction false} UndisturbedKeepsOwnEnds(tuning: Tuning, h: seq<Event>, k: seq<Event>)
    requires Replay(tuning, h).Some? && OwnEnds(h) && Undisturbed(tuning, h, k)
    ensures Replay(tuning, h + k).Some? && OwnEnds(h + k)
  {
    if k == [] {
      assert h + k == h;
    } else {
      var before, e := k[..|k| - 1], k[|k| - 1];
      UndisturbedKeepsOwnEnds(tuning, h, before);
      assert h + k == h + before + [e];
      ReplaySnoc(tuning, h + before, e);
      OwnEndsSnoc(h + before, e);
      OwnEndsBound(tuning, h + before);
    }
  }

  lemma OwnEndsOneOut(tuning: Tuning, h: seq<Event>)
    requires Replay(tuning, h).Some? && OwnEnds(h)
    ensures OneOut(tuning, h)
  {
    forall k | Undisturbed(tuning, h, k)
      ensures |Out(h + k)| <= 1
    {
      UndisturbedKeepsOwnEnds(tuning, h, k);
      OwnEndsBound(tuning, h + k);
    }
  }

  /** One more undisturbed event. */
  lemma UndisturbedSnoc(tuning: Tuning, h: seq<Event>, k: seq<Event>, e: Event)
    requires Undisturbed(tuning, h, k) && Replay(tuning, h + k).Some?
    requires Next(tuning, Replay(tuning, h + k).value, e).Some? && (Ends(e) ==> Replay(tuning, h + k).value.MClosed?)
    ensures Undisturbed(tuning, h, k + [e])
    ensures Replay(tuning, h + (k + [e])) == Next(tuning, Replay(tuning, h + k).value, e)
    ensures Out(h + (k + [e])) == if e.TrialTaken? then Out(h + k) + {e.who} else Out(h + k) - {e.who}
  {
    assert (k + [e])[..|k|] == k;
    assert h + (k + [e]) == h + k + [e];
    ReplaySnoc(tuning, h + k, e);
    OutSnoc(h + k, e);
  }

  /** A second taker beside x, from a half-open circuit whose trial is free. */
  lemma TakenBeside(tuning: Tuning, h: seq<Event>, k: seq<Event>, x: nat)
    requires Undisturbed(tuning, h, k) && Replay(tuning, h + k) == Some(MHalfOpen(false)) && x in Out(h + k)
    ensures !OneOut(tuning, h)
  {
    UndisturbedSnoc(tuning, h, k, TrialTaken(x + 1));
    TwoIn(Out(h + (k + [TrialTaken(x + 1)])), x, x + 1);
  }

  /** From an open circuit, by a promotion once the cooldown has elapsed. */
  lemma PromotedBeside(tuning: Tuning, h: seq<Event>, k: seq<Event>, x: nat)
    requires Undisturbed(tuning, h, k) && Replay(tuning, h + k).Some? && Replay(tuning, h + k).value.MOpen?
    requires x in Out(h + k)
    ensures !OneOut(tuning, h)
  {
    var e := Promoted(x + 1, true, Replay(tuning, h + k).value.since + tuning.cooldown);
    UndisturbedSnoc(tuning, h, k, e);
    TakenBeside(tuning, h, k + [e], x);
  }

  /** From a closed circuit, by as many failures as the threshold still needs. */
  lemma {:induction false} FailedBeside(tuning: Tuning, h: seq<Event>, k: seq<Event>, x: nat)
    requires Undisturbed(tuning, h, k) && Replay(tuning, h + k).Some? && Replay(tuning, h + k).value.MClosed?
    requires x in Out(h + k)
    ensures !OneOut(tuning, h)
    decreases tuning.threshold - Replay(tuning, h + k).value.run
  {
    var e := Failed(x + 1, 0);
    UndisturbedSnoc(tuning, h, k, e);
    if Replay(tuning, h + k).value.run + 1 >= tuning.threshold {
      PromotedBeside(tuning, h, k + [e], x);
    } else {
      FailedBeside(tuning, h, k + [e], x);
    }
  }

  /** Whatever ends a trial in another's stead leaves a continuation with two out. */
  lemma StrangerEndsAdmitTwo(tuning: Tuning, h: seq<Event>, e: Event, x: nat)
    requires Replay(tuning, h).Some? && OwnEnds(h) && Replay(tuning, h + [e]).Some?
    requires Ends(e) && x in Out(h) && x != e.who
    ensures !OneOut(tuning, h + [e])
  {
    OwnEndsBound(tuning, h);
    ReplaySnoc(tuning, h, e);
    OutSnoc(h, e);
    assert h + [e] + [] == h + [e];
    match e
    case Rearmed(_) => TakenBeside(tuning, h + [e], [], x);
    case Succeeded(_) => FailedBeside(tuning, h + [e], [], x);
    case Failed(_, _) => PromotedBeside(tuning, h + [e], [], x);
  }

  /** "At most one trial out" holds throughout a run, across episodes and however it goes on undisturbed, exactly when every
      re-arm and every effective outcome of the run came from the taker still out, if one was. */
  lemma {:induction false} OneTrialExactlyWhenOwnEnds(tuning: Tuning, h: seq<Event>)
    requires Replay(tuning, h).Some?
    ensures OneOutThroughout(tuning, h) <==> OwnEnds(h)
    ensures OwnEnds(h) ==> |Out(h)| <= 1
  {
    if OwnEnds(h) {
      OwnEndsBound(tuning, h);
      OwnEndsOneOut(tuning, h);
    }
    if h != [] {
      var init, e := h[..|h| - 1], h[|h| - 1];
      assert h == init + [e];
      OneTrialExactlyWhenOwnEnds(tuning, init);
      if OwnEnds(init) && !OwnEnds(h) {
        var x :| x in Out(init) && x != e.who;
        StrangerEndsAdmitTwo(tuning, init, e, x);
      }
    }
  }

  // ---------- no half-open wedge ----------

  /** The calls the proxy makes for one request: scans and one admission, then one terminal call; an outcome of a
      removed backend is dropped instead (internal/proxy/proxy.go:267-274, 304, 375, 418-446). */
  predicate Permitted(s: System, c: Choice) {
    match c
    case Tick(_) => true
    case Step(_) => true
    case Remove => true
    case Invoke(t, call) =>
      var stage := if t in s.threads then s.threads[t].stage else Fresh;
      (match call
       case Scan => stage == Fresh
       case Allow => stage == Fresh
       case RearmCall => stage == InFlight
       case SuccessCall => stage == InFlight && !s.removed
       case FailureCall => stage == InFlight && !s.removed)
    case Abandon(t) => t in s.threads && s.threads[t].stage == InFlight && s.removed
  }

  function ExecProxy(tuning: Tuning, schedule: seq<Choice>): System {
    if schedule == [] then START
    else
      var s, c := ExecProxy(tuning, schedule[..|schedule| - 1]), schedule[|schedule| - 1];
      if Permitted(s, c) then Do(tuning, s, c) else s
  }

  predicate StageOk(k: Thread) {
    match k.stage
    case Fresh => k.pc == Idle || k.pc.call == Scan || k.pc.call == Allow
    case InFlight => k.pc == Idle || k.pc.call == RearmCall || k.pc.call == SuccessCall || k.pc.call == FailureCall
    case Finished => k.pc == Idle
  }

  /** Who took the latest trial. */
  function Holder(h: seq<Event>): Option<nat> {
    if h == [] then None
    else if h[|h| - 1].TrialTaken? then Some(h[|h| - 1].who)
    else Holder(h[..|h| - 1])
  }

  /** Nothing the holder did has taken effect since it took the trial. */
  predicate HolderSilent(h: seq<Event>) {
    h == [] || h[|h| - 1].TrialTaken? || (Some(h[|h| - 1].who) != Holder(h) && HolderSilent(h[..|h| - 1]))
  }

  /** A trial that is out is held by a request still in flight, none of whose terminal calls has taken effect. */
  predicate Unwedged(s: System) {
    s.cell.snap.state == HalfOpen && s.cell.snap.trial && !s.removed ==>
      var t := Holder(s.history);
      t.Some? && t.value in s.threads && s.threads[t.value].stage == InFlight && HolderSilent(s.history)
  }

  predicate ProxyInv(tuning: Tuning, s: System) {
    Inv(tuning, s) && Unwedged(s) && forall t :: t in s.threads ==> StageOk(s.threads[t])
  }

  lemma LogKeepsHolder(h: seq<Event>, e: Option<Event>)
    ensures e.Some? && e.value.TrialTaken? ==> Holder(Log(h, e)) == Some(e.value.who) && HolderSilent(Log(h, e))
    ensures e.None? || !e.value.TrialTaken? ==> Holder(Log(h, e)) == Holder(h)
    ensures HolderSilent(h) && (e.Some? && !e.value.TrialTaken? ==> Holder(h) != Some(e.value.who)) ==> HolderSilent(Log(h, e))
  {
    if e.Some? { assert Log(h, e)[..|h|] == h; }
  }

  lemma GotoStaysUnwedged(s: System, t: nat, pc: Pc)
    requires Unwedged(s) && t in s.threads
    ensures Unwedged(Goto(s, t, pc)) && Goto(s, t, pc).threads[t] == Thread(pc, s.threads[t].stage)
  {
  }

  /** A pass that returns without storing logs nothing about the holder of a trial that is out. */
  lemma ReturnStaysUnwedged(tuning: Tuning, s: System, t: nat, call: Call, op: Op, promoted: bool)
    requires Unwedged(s) && t in s.threads && s.threads[t].pc == AtLoad(call, op, promoted)
    requires StageOk(s.threads[t]) && OpOk(call, op, promoted)
    requires !ReadsClock(tuning, op, s.cell.snap) && Decide(tuning, op, s.cell.snap, 0).Return?
    ensures var s' := Complete(s, t, call, op, promoted, Decide(tuning, op, s.cell.snap, 0), 0);
            Unwedged(s') && StageOk(s'.threads[t])
  {
    LogKeepsHolder(s.history, EventOf(t, call, op, Decide(tuning, op, s.cell.snap, 0), 0));
  }

  lemma LoadStaysUnwedged(tuning: Tuning, s: System, t: nat)
    requires ProxyInv(tuning, s) && t in s.threads && s.threads[t].pc.AtLoad?
    ensures var s' := StepThread(tuning, s, t);
            Unwedged(s') && t in s'.threads && StageOk(s'.threads[t])
  {
    assert StageOk(s.threads[t]) && ThreadOk(tuning, s, s.threads[t].pc);
    var AtLoad(call, op, promoted) := s.threads[t].pc;
    if ReadsClock(tuning, op, s.cell.snap) {
      GotoStaysUnwedged(s, t, AtClock(call, op, promoted, s.cell));
    } else if Decide(tuning, op, s.cell.snap, 0).Return? {
      ReturnStaysUnwedged(tuning, s, t, call, op, promoted);
    } else {
      GotoStaysUnwedged(s, t, AtSwap(call, op, promoted, s.cell, 0));
    }
  }

  /** A pass that gives up after reading the clock logs nothing. */
  lemma GiveUpStaysUnwedged(tuning: Tuning, s: System, t: nat, call: Call, op: Op, d: Decision)
    requires Unwedged(s) && t in s.threads && !s.threads[t].pc.Idle? && s.threads[t].pc.call == call
    requires StageOk(s.threads[t]) && op == Promote && (call == Scan || call == Allow) && d == Return(false, NoChange)
    ensures var s' := Complete(s, t, call, op, false, d, s.now); Unwedged(s') && StageOk(s'.threads[t])
  {
    LogKeepsHolder(s.history, EventOf(t, call, op, d, s.now));
  }

  lemma ClockStaysUnwedged(tuning: Tuning, s: System, t: nat)
    requires ProxyInv(tuning, s) && t in s.threads && s.threads[t].pc.AtClock?
    ensures var s' := StepThread(tuning, s, t);
            Unwedged(s') && t in s'.threads && StageOk(s'.threads[t])
  {
    assert StageOk(s.threads[t]) && ThreadOk(tuning, s, s.threads[t].pc);
    var AtClock(call, op, promoted, seen) := s.threads[t].pc;
    var d := Decide(tuning, op, seen.snap, s.now);
    if d.Return? {
      GiveUpStaysUnwedged(tuning, s, t, call, op, d);
    } else {
      GotoStaysUnwedged(s, t, AtSwap(call, op, promoted, seen, s.now));
    }
  }

  /** A pass that stores: a trial taken is the storing thread's; any other store leaves no trial out. */
  lemma StoreStaysUnwedged(tuning: Tuning, s: System, t: nat, call: Call, op: Op, promoted: bool, now: int)
    requires Unwedged(s) && t in s.threads && !s.threads[t].pc.Idle? && s.threads[t].pc.call == call
    requires StageOk(s.threads[t]) && OpOk(call, op, promoted) && WellFormed(tuning, s.cell.snap)
    requires Decide(tuning, op, s.cell.snap, now).Swap?
    ensures var d := Decide(tuning, op, s.cell.snap, now);
            var s' := Complete(Stored(s, d.next), t, call, op, promoted, d, now);
            Unwedged(s') && StageOk(s'.threads[t])
  {
    LogKeepsHolder(s.history, EventOf(t, call, op, Decide(tuning, op, s.cell.snap, now), now));
  }

  lemma SwapStaysUnwedged(tuning: Tuning, s: System, t: nat)
    requires ProxyInv(tuning, s) && t in s.threads && s.threads[t].pc.AtSwap?
    ensures var s' := StepThread(tuning, s, t);
            Unwedged(s') && t in s'.threads && StageOk(s'.threads[t])
  {
    assert StageOk(s.threads[t]) && ThreadOk(tuning, s, s.threads[t].pc);
    var AtSwap(call, op, promoted, seen, now) := s.threads[t].pc;
    if seen.id == s.cell.id {
      StoreStaysUnwedged(tuning, s, t, call, op, promoted, now);
    } else {
      GotoStaysUnwedged(s, t, AtLoad(call, op, promoted));
    }
  }

  lemma OtherThreads(tuning: Tuning, s: System, t: nat, u: nat)
    requires t in s.threads && u in StepThread(tuning, s, t).threads && u != t
    ensures u in s.threads && StepThread(tuning, s, t).threads[u] == s.threads[u]
  {}

  /** No half-open wedge: in every reachable state, if the backend is not removed and its circuit is half-open with the
      trial taken, the request that took it is still in flight with no outcome recorded. */
  lemma {:induction false} NoHalfOpenWedge(tuning: Tuning, schedule: seq<Choice>)
    ensures ProxyInv(tuning, ExecProxy(tuning, schedule))
  {
    if schedule != [] {
      NoHalfOpenWedge(tuning, schedule[..|schedule| - 1]);
      var s, c := ExecProxy(tuning, schedule[..|schedule| - 1]), schedule[|schedule| - 1];
      DoKeepsInv(tuning, s, c);
      if c.Step? && c.t in s.threads {
        match s.threads[c.t].pc {
          case Idle => assert StageOk(s.threads[c.t]);
          case AtLoad(_, _, _) => LoadStaysUnwedged(tuning, s, c.t);
          case AtClock(_, _, _, _) => ClockStaysUnwedged(tuning, s, c.t);
          case AtSwap(_, _, _, _, _) => SwapStaysUnwedged(tuning, s, c.t);
        }
        forall u | u in Do(tuning, s, c).threads ensures StageOk(Do(tuning, s, c).threads[u]) {
          if u != c.t { OtherThreads(tuning, s, c.t, u); }
        }
      }
    }
  }

  // ---------- transition reports ----------

  /** How many moves of the history go from a state of one kind to a state of another. */
  function Moves(tuning: Tuning, h: seq<Event>, from: Machine -> bool, to: Machine -> bool): nat {
    if h == [] then 0
    else
      var before, after := Replay(tuning, h[..|h| - 1]), Replay(tuning, h);
      Moves(tuning, h[..|h| - 1], from, to)
      + if before.Some? && after.Some? && from(before.value) && to(after.value) then 1 else 0
  }

  const IS_CLOSED: Machine -> bool := (m: Machine) => m.MClosed?
  const IS_OPEN: Machine -> bool := (m: Machine) => m.MOpen?
  const IS_HALF_OPEN: Machine -> bool := (m: Machine) => m.MHalfOpen?
  const NOT_OPEN: Machine -> bool := (m: Machine) => !m.MOpen?

  function Reported(reports: seq<Report>, transition: Transition): nat {
    if reports == [] then 0
    else Reported(reports[..|reports| - 1], transition) + if reports[|reports| - 1].transition == transition then 1 else 0
  }

  function ScanPromotions(h: seq<Event>): nat {
    if h == [] then 0
    else ScanPromotions(h[..|h| - 1]) + if h[|h| - 1].Promoted? && h[|h| - 1].scan then 1 else 0
  }

  predicate CarriesPromotion(pc: Pc) {
    !pc.Idle? && pc.promoted
  }

  /** Threads inside CircuitAllow that have promoted and not returned yet. */
  function Unreported(threads: map<nat, Thread>): set<nat> {
    set t | t in threads && CarriesPromotion(threads[t].pc)
  }

  predicate Balanced(tuning: Tuning, s: System) {
    && Moves(tuning, s.history, NOT_OPEN, IS_OPEN) == Reported(s.reports, Opened) + Reported(s.reports, Reopened)
    && Moves(tuning, s.history, IS_HALF_OPEN, IS_CLOSED) == Reported(s.reports, BackToClosed)
    && Moves(tuning, s.history, IS_OPEN, IS_HALF_OPEN)
         == Reported(s.reports, HalfOpened) + ScanPromotions(s.history) + |Unreported(s.threads)|
  }

  lemma MovesSnoc(tuning: Tuning, h: seq<Event>, e: Event, from: Machine -> bool, to: Machine -> bool)
    ensures Moves(tuning, h + [e], from, to) == Moves(tuning, h, from, to) +
              if Replay(tuning, h).Some? && Replay(tuning, h + [e]).Some?
                 && from(Replay(tuning, h).value) && to(Replay(tuning, h + [e]).value) then 1 else 0
    ensures ScanPromotions(h + [e]) == ScanPromotions(h) + if e.Promoted? && e.scan then 1 else 0
  {
    assert (h + [e])[..|h|] == h;
  }

  lemma ReportedSnoc(reports: seq<Report>, r: Report, transition: Transition)
    ensures Reported(reports + [r], transition) == Reported(reports, transition) + if r.transition == transition then 1 else 0
  {
    assert (reports + [r])[..|reports|] == reports;
  }

  lemma UnreportedUpdate(threads: map<nat, Thread>, t: nat, k: Thread)
    ensures |Unreported(threads[t := k])| == |Unreported(threads)|
              - (if t in threads && CarriesPromotion(threads[t].pc) then 1 else 0)
              + (if CarriesPromotion(k.pc) then 1 else 0)
  {
    var others := set u | u in threads && u != t && CarriesPromotion(threads[u].pc);
    CountSplit(Unreported(threads), others, t);
    CountSplit(Unreported(threads[t := k]), others, t);
  }

  lemma CountSplit(all: set<nat>, others: set<nat>, t: nat)
    requires t !in others && (all == others || all == others + {t})
    ensures |all| == |others| + if t in all then 1 else 0
  {}

  /** A pass changes the kind of state exactly as its transition says. */
  lemma PassTransition(tuning: Tuning, snap: Snapshot, op: Op, now: int)
    ensures var d := Decide(tuning, op, snap, now);
            var m, m' := Abstract(snap), Abstract(After(snap, d));
            && (NOT_OPEN(m) && IS_OPEN(m') <==> d.transition == Opened || d.transition == Reopened)
            && (IS_HALF_OPEN(m) && IS_CLOSED(m') <==> d.transition == BackToClosed)
            && (IS_OPEN(m) && IS_HALF_OPEN(m') <==> d.transition == HalfOpened)
            && (d.transition == HalfOpened <==> op == Promote && d.Swap?)
            && (op == Promote || op == Admit || op == Rearm ==> d.transition == HalfOpened || d.transition == NoChange)
  {
    match op
    case Promote =>
    case Admit =>
    case Rearm =>
    case Succeed =>
    case Fail =>
  }

  /** The counts after logging a pass: one more of whatever its transition says. */
  lemma PassCounts(tuning: Tuning, h: seq<Event>, t: nat, call: Call, op: Op, now: int, snap: Snapshot)
    requires WellFormed(tuning, snap) && Replay(tuning, h) == Some(Abstract(snap))
    ensures var d := Decide(tuning, op, snap, now);
            var h' := Log(h, EventOf(t, call, op, d, now));
            && Moves(tuning, h', NOT_OPEN, IS_OPEN)
                 == Moves(tuning, h, NOT_OPEN, IS_OPEN) + (if d.transition == Opened || d.transition == Reopened then 1 else 0)
            && Moves(tuning, h', IS_HALF_OPEN, IS_CLOSED)
                 == Moves(tuning, h, IS_HALF_OPEN, IS_CLOSED) + (if d.transition == BackToClosed then 1 else 0)
            && Moves(tuning, h', IS_OPEN, IS_HALF_OPEN)
                 == Moves(tuning, h, IS_OPEN, IS_HALF_OPEN) + (if d.transition == HalfOpened then 1 else 0)
            && ScanPromotions(h') == ScanPromotions(h) + (if d.transition == HalfOpened && call == Scan then 1 else 0)
  {
    var d := Decide(tuning, op, snap, now);
    var e := EventOf(t, call, op, d, now);
    PassIsMove(tuning, snap, t, call, op, now);
    PassTransition(tuning, snap, op, now);
    if e.Some? {
      ReplaySnoc(tuning, h, e.value);
      MovesSnoc(tuning, h, e.value, NOT_OPEN, IS_OPEN);
      MovesSnoc(tuning, h, e.value, IS_HALF_OPEN, IS_CLOSED);
      MovesSnoc(tuning, h, e.value, IS_OPEN, IS_HALF_OPEN);
    }
  }

  /** The books after one more event in the history and, for a call that returns, one more report. */
  lemma ReportCounts(reports: seq<Report>, r: Report)
    ensures Reported(reports + [r], Opened) == Reported(reports, Opened) + (if r.transition == Opened then 1 else 0)
    ensures Reported(reports + [r], Reopened) == Reported(reports, Reopened) + (if r.transition == Reopened then 1 else 0)
    ensures Reported(reports + [r], BackToClosed) == Reported(reports, BackToClosed) + (if r.transition == BackToClosed then 1 else 0)
    ensures Reported(reports + [r], HalfOpened) == Reported(reports, HalfOpened) + (if r.transition == HalfOpened then 1 else 0)
  {
    ReportedSnoc(reports, r, Opened);
    ReportedSnoc(reports, r, Reopened);
    ReportedSnoc(reports, r, BackToClosed);
    ReportedSnoc(reports, r, HalfOpened);
  }

  /** A decided pass keeps the books: s' is s with the pass's store made. */
  lemma CompleteBalanced(tuning: Tuning, s: System, s': System, t: nat, call: Call, op: Op, promoted: bool, now: int, snap: Snapshot)
    requires Balanced(tuning, s) && t in s.threads && OpOk(call, op, promoted)
    requires CarriesPromotion(s.threads[t].pc) == promoted
    requires WellFormed(tuning, snap) && Replay(tuning, s.history) == Some(Abstract(snap))
    requires s'.history == s.history && s'.reports == s.reports && s'.threads == s.threads
    ensures Balanced(tuning, Complete(s', t, call, op, promoted, Decide(tuning, op, snap, now), now))
  {
    var d := Decide(tuning, op, snap, now);
    PassCounts(tuning, s.history, t, call, op, now, snap);
    PassTransition(tuning, snap, op, now);
    var after := Complete(s', t, call, op, promoted, d, now);
    if call == Allow && op == Promote {
      assert after.reports == s.reports && after.threads == s.threads[t := s.threads[t].(pc := AtLoad(Allow, Admit, d.flag))];
      UnreportedUpdate(s.threads, t, s.threads[t].(pc := AtLoad(Allow, Admit, d.flag)));
    } else {
      var k, r := Thread(Idle, StageAfter(call, d.flag, s.threads[t].stage)), Report(t, call, d.flag, ReportedBy(call, promoted, d));
      assert after.reports == s.reports + [r] && after.threads == s.threads[t := k];
      UnreportedUpdate(s.threads, t, k);
      ReportCounts(s.reports, r);
    }
  }

  lemma GotoBalanced(tuning: Tuning, s: System, t: nat, pc: Pc)
    requires Balanced(tuning, s) && t in s.threads && CarriesPromotion(pc) == CarriesPromotion(s.threads[t].pc)
    ensures Balanced(tuning, Goto(s, t, pc))
  {
    UnreportedUpdate(s.threads, t, s.threads[t].(pc := pc));
  }

  lemma StepBalanced(tuning: Tuning, s: System, t: nat)
    requires Inv(tuning, s) && Balanced(tuning, s) && t in s.threads
    ensures Balanced(tuning, StepThread(tuning, s, t))
  {
    assert ThreadOk(tuning, s, s.threads[t].pc);
    match s.threads[t].pc
    case Idle =>
    case AtLoad(call, op, promoted) =>
      CompleteBalanced(tuning, s, s, t, call, op, promoted, 0, s.cell.snap);
      GotoBalanced(tuning, s, t, AtClock(call, op, promoted, s.cell));
      GotoBalanced(tuning, s, t, AtSwap(call, op, promoted, s.cell, 0));
    case AtClock(call, op, promoted, seen) =>
      ClockBalanced(tuning, s, t);
    case AtSwap(call, op, promoted, seen, now) =>
      GotoBalanced(tuning, s, t, AtLoad(call, op, promoted));
      if seen.id == s.cell.id {
        var stored := s.(cell := Cell(s.nextId, Decide(tuning, op, seen.snap, now).next), nextId := s.nextId + 1);
        CompleteBalanced(tuning, s, stored, t, call, op, promoted, now, seen.snap);
      }
  }

  lemma SilentReturnBalanced(tuning: Tuning, s: System, t: nat, stage: Stage, r: Report)
    requires Balanced(tuning, s) && t in s.threads && !CarriesPromotion(s.threads[t].pc) && r.transition == NoChange
    ensures Balanced(tuning, s.(threads := s.threads[t := Thread(Idle, stage)], reports := s.reports + [r]))
  {
    UnreportedUpdate(s.threads, t, Thread(Idle, stage));
    ReportCounts(s.reports, r);
  }

  /** A pass that gives up on the clock found the cooldown still running: nothing happened. */
  lemma ClockStep(tuning: Tuning, s: System, t: nat)
    requires Inv(tuning, s) && t in s.threads && s.threads[t].pc.AtClock?
    ensures var AtClock(call, op, promoted, seen) := s.threads[t].pc;
            var d := Decide(tuning, op, seen.snap, s.now);
            && !promoted
            && StepThread(tuning, s, t) ==
                 if d.Swap? then Goto(s, t, AtSwap(call, op, false, seen, s.now))
                 else if call == Allow then Goto(s, t, AtLoad(Allow, Admit, false))
                 else s.(threads := s.threads[t := Thread(Idle, StageAfter(call, d.flag, s.threads[t].stage))],
                         reports := s.reports + [Report(t, call, d.flag, NoChange)])
  {
    assert ThreadOk(tuning, s, s.threads[t].pc);
  }

  lemma ClockBalanced(tuning: Tuning, s: System, t: nat)
    requires Inv(tuning, s) && Balanced(tuning, s) && t in s.threads && s.threads[t].pc.AtClock?
    ensures Balanced(tuning, StepThread(tuning, s, t))
  {
    ClockStep(tuning, s, t);
    var AtClock(call, op, promoted, seen) := s.threads[t].pc;
    var d := Decide(tuning, op, seen.snap, s.now);
    GotoBalanced(tuning, s, t, AtSwap(call, op, false, seen, s.now));
    GotoBalanced(tuning, s, t, AtLoad(Allow, Admit, false));
    SilentReturnBalanced(tuning, s, t, StageAfter(call, d.flag, s.threads[t].stage), Report(t, call, d.flag, NoChange));
  }

  lemma DoBalanced(tuning: Tuning, s: System, c: Choice)
    requires Inv(tuning, s) && Balanced(tuning, s)
    ensures Balanced(tuning, Do(tuning, s, c))
  {
    match c
    case Step(t) => if t in s.threads { StepBalanced(tuning, s, t); }
    case Invoke(t, call) =>
      var stage := if t in s.threads then s.threads[t].stage else Fresh;
      UnreportedUpdate(s.threads, t, Thread(AtLoad(call, FirstOp(call), false), stage));
    case Abandon(t) => UnreportedUpdate(s.threads, t, Thread(Idle, Finished));
    case _ =>
  }

  /** Over every interleaving: entries into open are exactly the opened and reopened reports, returns to closed
      exactly the closed reports, and promotions exactly the half-opened reports, plus the promotions won by a
      selection scan, plus those of admission calls that have promoted and not returned yet. */
  lemma {:induction false} TransitionsAreReportedOnce(tuning: Tuning, schedule: seq<Choice>)
    ensures Balanced(tuning, Exec(tuning, schedule))
  {
    if schedule == [] {
      assert Unreported(START.threads) == {};
    } else {
      TransitionsAreReportedOnce(tuning, schedule[..|schedule| - 1]);
      Refinement(tuning, schedule[..|schedule| - 1]);
      DoBalanced(tuning, Exec(tuning, schedule[..|schedule| - 1]), schedule[|schedule| - 1]);
    }
  }
}
